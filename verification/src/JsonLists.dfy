/** The list fields of the configuration store as slices: an array and a length each. Items are inserted and removed
    by shifting within the array, which may have room behind the last item. */
module JsonLists {
  import opened Options
  import opened JsonConfig

  datatype Field = Field(table: string, key: string, name: string)
  {
    predicate Below(p: seq<string>)
      requires |p| <= 3
    {
      (|p| > 0 ==> p[0] == table) && (|p| > 1 ==> p[1] == key) && (|p| > 2 ==> p[2] == name)
    }

    function Path(): seq<string> {
      [table, key, name]
    }
  }

  type Contents = map<Field, seq<Json>>
  datatype Slice = Slice(arr: array<Json>, len: nat)

  /** A list with room for a new item at `id`: what is there twice, or an empty string at the end. */
  function Opened(l: seq<Json>, id: nat): seq<Json>
    requires id <= |l|
  {
    if id == |l| then l + [Str("")] else l[..id + 1] + l[id..]
  }

  lemma {:induction false} OpenedSet(l: seq<Json>, id: nat, v: Json)
    requires id <= |l|
    ensures Opened(l, id)[id := v] == Inserted(l, id, v)
  {
  }

  // ----- the lists of a configuration

  function AsList(v: Json): Option<seq<Json>> {
    if v.List? then Some(v.items) else None
  }

  function ListOf(f: Fields, x: Field): Option<seq<Json>> {
    var entry := Child(Child(f, x.table), x.key);
    if x.name in entry then AsList(entry[x.name]) else None
  }

  /** The list of a field below a value at a path of length `n`. */
  function ListIn(v: Json, n: nat, x: Field): Option<seq<Json>>
    requires n <= 3
  {
    if n == 3 then AsList(v)
    else if !v.Obj? then None
    else if n == 0 then ListOf(v.fields, x)
    else if n == 1 then (var entry := Child(v.fields, x.key); if x.name in entry then AsList(entry[x.name]) else None)
    else if x.name in v.fields then AsList(v.fields[x.name])
    else None
  }

  predicate HasAt(c: Contents, x: Field, l: Option<seq<Json>>) {
    (x in c <==> l.Some?) && (x in c ==> c[x] == l.value)
  }

  /** `c` has exactly the lists of the fields of `f`. */
  ghost predicate Mirrors(c: Contents, f: Fields) {
    forall x: Field :: HasAt(c, x, ListOf(f, x))
  }

  function At(c: Contents, x: Field): Option<seq<Json>> {
    if x in c then Some(c[x]) else None
  }

  /** `c` has below `p` the lists of `v`, and elsewhere those of `c0`. */
  predicate FilledAt(c: Contents, c0: Contents, p: seq<string>, v: Json, x: Field)
    requires |p| <= 3
  {
    HasAt(c, x, if x.Below(p) then ListIn(v, |p|, x) else At(c0, x))
  }

  /** Without the lists below a path. */
  function Dropped(c: Contents, p: seq<string>): Contents
    requires |p| <= 3
  {
    map x | x in c && !x.Below(p) :: c[x]
  }

  lemma {:induction false} PutOne(f: Fields, p: seq<string>, v: Json)
    requires 1 <= |p| <= 3
    ensures Put(f, p, v) ==
            if |p| == 1 then f[p[0] := v]
            else if |p| == 2 then f[p[0] := Obj(Child(f, p[0])[p[1] := v])]
            else f[p[0] := Obj(Child(f, p[0])[p[1] := Obj(Child(Child(f, p[0]), p[1])[p[2] := v])])]
  {
    if |p| > 1 {
      var child := Child(f, p[0]);
      assert Put(f, p, v) == f[p[0] := Obj(Put(child, p[1..], v))];
      if |p| > 2 {
        assert Put(child, p[1..], v) == child[p[1] := Obj(Put(Child(child, p[1]), p[2..], v))] by {
          assert p[1..][1..] == p[2..];
        }
      }
    }
  }

  lemma {:induction false} PutList(f: Fields, p: seq<string>, v: Json, x: Field)
    requires 1 <= |p| <= 3
    ensures ListOf(Put(f, p, v), x) == if x.Below(p) then ListIn(v, |p|, x) else ListOf(f, x)
  {
    PutOne(f, p, v);
  }

  /** What a cut leaves of each table and entry, pruned or not. */
  lemma {:induction false} CutChild(f: Fields, p: seq<string>, t: string)
    requires |p| > 1
    ensures Child(Cut(f, p), t) == if t == p[0] then Cut(Child(f, t), p[1..]) else Child(f, t)
  {
  }

  lemma {:induction false} CutList(f: Fields, p: seq<string>, x: Field)
    requires 1 <= |p| <= 3
    ensures ListOf(Cut(f, p), x) == if x.Below(p) then None else ListOf(f, x)
  {
    if |p| > 1 {
      CutChild(f, p, x.table);
      if |p| > 2 {
        CutChild(Child(f, p[0]), p[1..], x.key);
        assert p[1..][1..] == [p[2]];
      } else {
        assert p[1..] == [p[1]];
      }
    }
  }

  lemma {:induction false} MirrorsPut(c: Contents, c': Contents, f: Fields, p: seq<string>, v: Json)
    requires 1 <= |p| <= 3 && Mirrors(c, f) && forall x :: FilledAt(c', c, p, v, x)
    ensures Mirrors(c', Put(f, p, v))
  {
    forall x: Field ensures HasAt(c', x, ListOf(Put(f, p, v), x)) {
      assert FilledAt(c', c, p, v, x) && HasAt(c, x, ListOf(f, x));
      PutList(f, p, v, x);
    }
  }

  lemma {:induction false} MirrorsCut(c: Contents, f: Fields, p: seq<string>)
    requires 1 <= |p| <= 3 && Mirrors(c, f)
    ensures Mirrors(Dropped(c, p), Cut(f, p))
  {
    forall x: Field ensures HasAt(Dropped(c, p), x, ListOf(Cut(f, p), x)) {
      assert HasAt(c, x, ListOf(f, x));
      CutList(f, p, x);
    }
  }

  lemma {:induction false} MirrorsSet(c: Contents, f: Fields, x: Field, l: seq<Json>)
    requires Mirrors(c, f)
    ensures Mirrors(c[x := l], Put(f, x.Path(), List(l)))
  {
    var g := Put(f, x.Path(), List(l));
    forall y: Field ensures HasAt(c[x := l], y, ListOf(g, y)) {
      assert HasAt(c, y, ListOf(f, y));
      PutList(f, x.Path(), List(l), y);
    }
  }

  /** The objects at a path and on the way to it are made where there are none. */
  function WithWay(f: Fields, p: seq<string>): Fields
    decreases |p|
  {
    if p == [] then f else f[p[0] := Obj(WithWay(Child(f, p[0]), p[1..]))]
  }

  lemma {:induction false} OneWay(f: Fields, t: string)
    ensures WithWay(f, [t]) == f[t := Obj(Child(f, t))]
  {
    assert [t][1..] == [];
  }

  lemma {:induction false} TwoWay(f: Fields, t: string, k: string)
    ensures WithWay(f, [t, k]) == f[t := Obj(Child(f, t)[k := Obj(Child(Child(f, t), k))])]
  {
    assert [t, k][1..] == [k];
    OneWay(Child(f, t), k);
  }

  /** Objects made on the way hold no lists. */
  lemma {:induction false} MirrorsWay(c: Contents, f: Fields, t: string, k: string)
    requires Mirrors(c, f)
    ensures Mirrors(c, WithWay(f, [t])) && Mirrors(c, WithWay(f, [t, k]))
  {
    OneWay(f, t);
    TwoWay(f, t, k);
    forall x: Field ensures ListOf(WithWay(f, [t]), x) == ListOf(f, x) == ListOf(WithWay(f, [t, k]), x) {
    }
    forall x: Field ensures HasAt(c, x, ListOf(WithWay(f, [t]), x)) && HasAt(c, x, ListOf(WithWay(f, [t, k]), x)) {
      assert HasAt(c, x, ListOf(f, x));
    }
  }

  /** Filling one more member of an object. */
  lemma {:induction false} OneMoreFilled(c: Contents, c': Contents, c0: Contents, p: seq<string>, f: Fields, k: string,
                                         v: Json, x: Field)
    requires |p| < 3 && FilledAt(c, c0, p, Obj(f), x) && FilledAt(c', c, p + [k], v, x) && k !in f
    ensures FilledAt(c', c0, p, Obj(f[k := v]), x)
  {
  }

  lemma {:induction false} NotYet(c: Contents, c0: Contents, p: seq<string>, f: Fields, k: string, x: Field)
    requires |p| < 3 && FilledAt(c, c0, p, Obj(f), x) && k !in f && x in c
    ensures !x.Below(p + [k])
  {
  }

  // ----- the arrays

  class Lists {
    var at: map<Field, Slice>
    ghost var contents: Contents
    ghost var arrays: set<array<Json>>
    ghost var owner: map<array<Json>, Field>

    ghost predicate Holds(s: Slice, l: seq<Json>)
      reads s.arr
    {
      s.len <= s.arr.Length && s.arr[..s.len] == l
    }

    /** Every field has the contents of its slice, in an array that no other field owns. */
    ghost predicate Valid()
      reads this, arrays
    {
      && at.Keys == contents.Keys
      && (forall f :: f in at ==> at[f].arr in arrays && Holds(at[f], contents[f]))
      && (forall f :: f in at ==> at[f].arr in owner && owner[at[f].arr] == f)
    }

    constructor ()
      ensures Valid() && contents == map[] && arrays == {}
    {
      at, contents, arrays, owner := map[], map[], {}, map[];
    }

    /** No two fields share an array. */
    lemma {:induction false} NothingShared(f: Field, g: Field)
      requires Valid() && f in at && g in at && f != g
      ensures at[f].arr != at[g].arr
    {
    }

    /** A list of its own, with some room behind it. */
    method Make(f: Field, items: seq<Json>)
      requires Valid()
      modifies this
      ensures Valid() && contents == old(contents)[f := items] && fresh(arrays - old(arrays))
    {
      var capacity: nat :| capacity >= |items|;
      var arr := new Json[capacity];
      for i := 0 to |items|
        invariant arr[..i] == items[..i]
        modifies arr
      {
        arr[i] := items[i];
      }
      assert items[..|items|] == items;
      at, contents := at[f := Slice(arr, |items|)], contents[f := items];
      arrays, owner := arrays + {arr}, owner[arr := f];
    }

    /** Forgets the lists below a path. */
    method Drop(p: seq<string>)
      requires Valid() && |p| <= 3
      modifies this`at, this`contents
      ensures Valid() && contents == Dropped(old(contents), p) && arrays == old(arrays)
    {
      at, contents := map x | x in at && !x.Below(p) :: at[x], Dropped(contents, p);
    }

    method Length(f: Field) returns (n: nat)
      requires Valid() && f in contents
      ensures n == |contents[f]|
    {
      n := at[f].len;
    }

    method Items(f: Field) returns (items: seq<Json>)
      requires Valid() && f in contents
      ensures items == contents[f]
    {
      items := at[f].arr[..at[f].len];
    }

    method Item(f: Field, id: nat) returns (item: Json)
      requires Valid() && f in contents && id < |contents[f]|
      ensures item == contents[f][id]
    {
      item := at[f].arr[id];
    }

    /** Makes room in the array, or in a larger one if it is full. */
    method Open(f: Field, id: nat)
      requires Valid() && f in contents && id <= |contents[f]|
      modifies this, arrays
      ensures Valid() && contents == old(contents)[f := Opened(old(contents)[f], id)]
      ensures fresh(arrays - old(arrays))
    {
      if at[f].len == at[f].arr.Length {
        Enlarge(f);
      }
      OpenInPlace(f, id);
    }

    method OpenInPlace(f: Field, id: nat)
      requires Valid() && f in contents && id <= |contents[f]| && at[f].len < at[f].arr.Length
      modifies this`at, this`contents, arrays
      ensures Valid() && contents == old(contents)[f := Opened(old(contents)[f], id)] && arrays == old(arrays)
    {
      var arr, n := at[f].arr, at[f].len;
      assert Holds(at[f], contents[f]);
      OpenArray(arr, id, n, contents[f]);
      at, contents := at[f := Slice(arr, n + 1)], contents[f := Opened(contents[f], id)];
    }

    /** The same list in a new, larger array. */
    method Enlarge(f: Field)
      requires Valid() && f in contents
      modifies this
      ensures Valid() && contents == old(contents) && fresh(arrays - old(arrays))
      ensures at[f].len == old(at[f].len) < at[f].arr.Length
    {
      assert Holds(at[f], contents[f]);
      var arr := Grown(at[f].arr, at[f].len);
      at := at[f := Slice(arr, at[f].len)];
      arrays, owner := arrays + {arr}, owner[arr := f];
    }

    static method OpenArray(arr: array<Json>, id: nat, n: nat, ghost l: seq<Json>)
      requires id <= n < arr.Length && arr[..n] == l
      modifies arr
      ensures arr[..n + 1] == Opened(l, id)
    {
      ShiftRight(arr, id, n);
      if id == n {
        arr[id] := Str("");
      }
      assert arr[..n + 1] == arr[..id] + [arr[id]] + arr[id + 1..n + 1];
    }

    static method Grown(arr: array<Json>, n: nat) returns (larger: array<Json>)
      requires n <= arr.Length
      ensures fresh(larger) && larger.Length > n && larger[..n] == arr[..n]
    {
      var capacity: nat :| capacity > n;
      larger := new Json[capacity];
      for i := 0 to n
        invariant larger[..i] == arr[..i]
        modifies larger
      {
        larger[i] := arr[i];
      }
    }

    /** Moves the items from `id` on by one place, from the back. */
    static method ShiftRight(arr: array<Json>, id: nat, n: nat)
      requires id <= n < arr.Length
      modifies arr
      ensures arr[..id] == old(arr[..id]) && arr[id + 1..n + 1] == old(arr[id..n])
      ensures id < n ==> arr[id] == old(arr[id])
    {
      var j := n;
      while j > id
        invariant id <= j <= n
        invariant forall k :: 0 <= k <= j && k < n ==> arr[k] == old(arr[k])
        invariant forall k :: j < k <= n ==> arr[k] == old(arr[k - 1])
      {
        arr[j] := arr[j - 1];
        j := j - 1;
      }
    }

    method Set(f: Field, id: nat, v: Json)
      requires Valid() && f in contents && id < |contents[f]|
      modifies this`at, this`contents, arrays
      ensures Valid() && contents == old(contents)[f := old(contents)[f][id := v]]
      ensures arrays == old(arrays)
    {
      at[f].arr[id] := v;
      contents := contents[f := contents[f][id := v]];
    }

    /** Moves the items behind `id` back by one place. */
    static method ShiftLeft(arr: array<Json>, id: nat, n: nat)
      requires id < n <= arr.Length
      modifies arr
      ensures arr[..id] == old(arr[..id]) && arr[id..n - 1] == old(arr[id + 1..n])
    {
      for j := id to n - 1
        invariant forall k :: 0 <= k < id ==> arr[k] == old(arr[k])
        invariant forall k :: id <= k < j ==> arr[k] == old(arr[k + 1])
        invariant forall k :: j <= k < n ==> arr[k] == old(arr[k])
      {
        arr[j] := arr[j + 1];
      }
    }

    static method DeleteArray(arr: array<Json>, id: nat, n: nat, ghost l: seq<Json>)
      requires id < n <= arr.Length && arr[..n] == l
      modifies arr
      ensures arr[..n - 1] == Without(l, id)
    {
      ShiftLeft(arr, id, n);
      assert arr[..n - 1] == arr[..id] + arr[id..n - 1];
    }

    method Delete(f: Field, id: nat)
      requires Valid() && f in contents && id < |contents[f]|
      modifies this`at, this`contents, arrays
      ensures Valid() && contents == old(contents)[f := Without(old(contents)[f], id)]
      ensures arrays == old(arrays)
    {
      assert Holds(at[f], contents[f]);
      var arr, n := at[f].arr, at[f].len;
      ghost var l := contents[f];
      DeleteArray(arr, id, n, l);
      at, contents := at[f := Slice(arr, n - 1)], contents[f := Without(l, id)];
    }

    /** Makes the lists of the fields of a new value at `p`. */
    method Fill(p: seq<string>, v: Json)
      requires Valid() && |p| <= 3 && forall x :: x in contents ==> !x.Below(p)
      modifies this
      ensures Valid() && fresh(arrays - old(arrays))
      ensures forall x :: FilledAt(contents, old(contents), p, v, x)
      decreases 3 - |p|, 1
    {
      if |p| == 3 {
        if v.List? {
          Make(Field(p[0], p[1], p[2]), v.items);
        }
      } else if v.Obj? {
        FillFields(p, v.fields);
      }
    }

    method FillFields(p: seq<string>, f: Fields)
      requires Valid() && |p| < 3 && forall x :: x in contents ==> !x.Below(p)
      modifies this
      ensures Valid() && fresh(arrays - old(arrays))
      ensures forall x :: FilledAt(contents, old(contents), p, Obj(f), x)
      decreases 3 - |p|, 0
    {
      var todo := f.Keys;
      ghost var c0 := contents;
      while todo != {}
        invariant todo <= f.Keys && Valid() && fresh(arrays - old(arrays))
        invariant forall x :: FilledAt(contents, c0, p, Obj(f - todo), x)
      {
        var k :| k in todo;
        ghost var c, g := contents, f - todo;
        forall x | x in c ensures !x.Below(p + [k]) {
          NotYet(c, c0, p, g, k, x);
        }
        Fill(p + [k], f[k]);
        ghost var more := Obj(g[k := f[k]]);
        forall x ensures FilledAt(contents, c0, p, more, x) {
          OneMoreFilled(c, contents, c0, p, g, k, f[k], x);
        }
        assert more.fields == f - (todo - {k});
        todo := todo - {k};
      }
      assert f - {} == f;
    }

    /** The lists below `p` become those of a new value there. */
    method Assign(p: seq<string>, v: Json)
      requires Valid() && |p| <= 3
      modifies this
      ensures Valid() && fresh(arrays - old(arrays))
      ensures forall x :: FilledAt(contents, old(contents), p, v, x)
    {
      Drop(p);
      ghost var c := contents;
      Fill(p, v);
      forall x ensures FilledAt(contents, old(contents), p, v, x) {
        assert FilledAt(contents, c, p, v, x);
      }
    }
  }
}
