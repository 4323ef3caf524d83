/** Byte-wise string order and the sorted listing of a set of names (Go's `sort.Strings`). */
module SortedNames {
  predicate Le(a: string, b: string) {
    a == [] || (b != [] && (a[0] < b[0] || (a[0] == b[0] && Le(a[1..], b[1..]))))
  }

  /** One name is the beginning of the other, or has the smaller character at the first difference. */
  lemma {:induction false} LeIff(a: string, b: string)
    ensures Le(a, b) <==> a <= b || exists i :: SmallerAt(a, b, i)
  {
    if a != [] && b != [] && a[0] == b[0] {
      LeIff(a[1..], b[1..]);
      assert a == [a[0]] + a[1..] && b == [b[0]] + b[1..];
      assert a <= b <==> a[1..] <= b[1..];
      if i: nat :| SmallerAt(a, b, i) {
        assert i > 0 && a[..i][1..] == a[1..][..i - 1] && b[..i][1..] == b[1..][..i - 1];
        assert SmallerAt(a[1..], b[1..], i - 1);
      }
      if i: nat :| SmallerAt(a[1..], b[1..], i) {
        assert a[..i + 1] == [a[0]] + a[1..][..i] && b[..i + 1] == [b[0]] + b[1..][..i];
        assert SmallerAt(a, b, i + 1);
      }
    } else if a != [] && b != [] {
      assert a[0] < b[0] <==> SmallerAt(a, b, 0);
      forall i: nat | i > 0 ensures !SmallerAt(a, b, i) {
        assert i < |a| && i < |b| ==> a[..i][0] == a[0] && b[..i][0] == b[0];
      }
    }
  }

  predicate SmallerAt(a: string, b: string, i: nat) {
    i < |a| && i < |b| && a[..i] == b[..i] && a[i] < b[i]
  }

  lemma {:induction false} LeTotal(a: string, b: string)
    ensures Le(a, b) || Le(b, a)
  {
    if a != [] && b != [] {
      LeTotal(a[1..], b[1..]);
    }
  }

  lemma {:induction false} LeAntisymmetric(a: string, b: string)
    requires Le(a, b) && Le(b, a)
    ensures a == b
  {
    if a != [] && b != [] {
      LeAntisymmetric(a[1..], b[1..]);
      assert a == [a[0]] + a[1..] && b == [b[0]] + b[1..];
    }
  }

  lemma {:induction false} LeTransitive(a: string, b: string, c: string)
    requires Le(a, b) && Le(b, c)
    ensures Le(a, c)
  {
    if a != [] && b != [] && c != [] && a[0] == b[0] == c[0] {
      LeTransitive(a[1..], b[1..], c[1..]);
    }
  }

  predicate IsLeast(k: string, names: set<string>) {
    k in names && forall j :: j in names ==> Le(k, j)
  }

  lemma {:induction false} LeastExists(names: set<string>)
    requires names != {}
    ensures exists k :: IsLeast(k, names)
    decreases |names|
  {
    var x :| x in names;
    if names == {x} {
      LeTotal(x, x);
      assert IsLeast(x, names);
    } else {
      var rest := names - {x};
      LeastExists(rest);
      var y :| IsLeast(y, rest);
      LeTotal(x, y);
      LeTotal(x, x);
      if Le(x, y) {
        forall j | j in names ensures Le(x, j) {
          if j != x { LeTransitive(x, y, j); }
        }
        assert IsLeast(x, names);
      } else {
        assert IsLeast(y, names);
      }
    }
  }

  lemma {:induction false} LeastUnique(names: set<string>)
    ensures forall a, b :: IsLeast(a, names) && IsLeast(b, names) ==> a == b
  {
    forall a, b | IsLeast(a, names) && IsLeast(b, names) ensures a == b {
      LeAntisymmetric(a, b);
    }
  }

  /** The names in ascending order, each once. */
  function SortNames(names: set<string>): (s: seq<string>)
    ensures forall k :: k in s <==> k in names
    decreases |names|
  {
    if names == {} then [] else
    LeastExists(names);
    LeastUnique(names);
    var k :| IsLeast(k, names);
    [k] + SortNames(names - {k})
  }

  predicate Ascending(s: seq<string>) {
    forall i, j :: 0 <= i < j < |s| ==> Le(s[i], s[j]) && s[i] != s[j]
  }

  lemma {:induction false} LeastFirst(k: string, s: seq<string>)
    requires Ascending(s) && forall x :: x in s ==> Le(k, x) && x != k
    ensures Ascending([k] + s)
  {
    forall i, j | 0 <= i < j < |[k] + s| ensures Le(([k] + s)[i], ([k] + s)[j]) && ([k] + s)[i] != ([k] + s)[j] {
      assert ([k] + s)[j] == s[j - 1];
      if i > 0 { assert ([k] + s)[i] == s[i - 1]; }
    }
  }

  lemma {:induction false} SortNamesSorted(names: set<string>)
    ensures |SortNames(names)| == |names| && Ascending(SortNames(names))
    decreases |names|
  {
    if names != {} {
      LeastExists(names);
      LeastUnique(names);
      var k :| IsLeast(k, names);
      SortNamesSorted(names - {k});
      LeastFirst(k, SortNames(names - {k}));
    }
  }
}
