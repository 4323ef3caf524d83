/** Nested configuration objects: what adding and removing at a path means, and when one undoes the other. */
module JsonConfig {
  import opened Options

  /** `Other` stands for numbers, booleans and null, told apart by their text. */
  datatype Json = Str(text: string) | List(items: seq<Json>) | Obj(fields: Fields) | Other(text: string)
  type Fields = map<string, Json>

  // ----- reading

  function Lookup(f: Fields, p: seq<string>): Option<Json>
    requires p != []
    decreases |p|
  {
    if p[0] !in f then None
    else if |p| == 1 then Some(f[p[0]])
    else if f[p[0]].Obj? then Lookup(f[p[0]].fields, p[1..])
    else None
  }

  // ----- writing

  /** The object below a name; missing ones and values of another type count as empty. */
  function Child(f: Fields, name: string): Fields {
    if name in f && f[name].Obj? then f[name].fields else map[]
  }

  /** Sets the value at a path and makes the objects on the way. */
  function Put(f: Fields, p: seq<string>, v: Json): Fields
    requires p != []
    decreases |p|
  {
    if |p| == 1 then f[p[0] := v] else f[p[0] := Obj(Put(Child(f, p[0]), p[1..], v))]
  }

  /** Removes the value at a path and the objects that become empty by it. */
  function Cut(f: Fields, p: seq<string>): Fields
    requires p != []
    decreases |p|
  {
    if |p| == 1 then f - {p[0]} else
    var child := Cut(Child(f, p[0]), p[1..]);
    if child == map[] then f - {p[0]} else f[p[0] := Obj(child)]
  }

  function Inserted(l: seq<Json>, i: nat, v: Json): seq<Json>
    requires i <= |l|
  {
    l[..i] + [v] + l[i..]
  }

  function Without(l: seq<Json>, i: nat): seq<Json>
    requires i < |l|
  {
    l[..i] + l[i + 1..]
  }

  // ----- no empty container

  predicate Pruned(j: Json) {
    match j
    case Obj(f) => f != map[] && forall n :: n in f ==> Pruned(f[n])
    case List(l) => l != []
    case _ => true
  }

  predicate PrunedFields(f: Fields) {
    forall n :: n in f ==> Pruned(f[n])
  }

  lemma {:induction false} CutKeepsPruned(f: Fields, p: seq<string>)
    requires p != [] && PrunedFields(f)
    ensures PrunedFields(Cut(f, p))
    decreases |p|
  {
    if |p| > 1 {
      assert PrunedFields(Child(f, p[0]));
      CutKeepsPruned(Child(f, p[0]), p[1..]);
    }
  }

  lemma {:induction false} PutKeepsPruned(f: Fields, p: seq<string>, v: Json)
    requires p != [] && PrunedFields(f) && Pruned(v)
    ensures PrunedFields(Put(f, p, v))
    ensures Put(f, p, v) != map[]
    decreases |p|
  {
    assert p[0] in Put(f, p, v);
    if |p| > 1 {
      assert PrunedFields(Child(f, p[0]));
      PutKeepsPruned(Child(f, p[0]), p[1..], v);
    }
  }

  // ----- each operation touches its own path only

  lemma {:induction false} PutRead(f: Fields, p: seq<string>, v: Json)
    requires p != []
    ensures Lookup(Put(f, p, v), p) == Some(v)
    decreases |p|
  {
    if |p| > 1 {
      PutRead(Child(f, p[0]), p[1..], v);
    }
  }

  predicate Apart(p: seq<string>, q: seq<string>) {
    !(p <= q) && !(q <= p)
  }

  lemma {:induction false} ApartBelow(p: seq<string>, q: seq<string>)
    requires p != [] && q != [] && Apart(p, q) && p[0] == q[0]
    ensures |p| > 1 && |q| > 1 && Apart(p[1..], q[1..])
  {
    assert p == [p[0]] + p[1..] && q == [q[0]] + q[1..];
  }

  lemma {:induction false} PutElsewhere(f: Fields, p: seq<string>, v: Json, q: seq<string>)
    requires p != [] && q != [] && Apart(p, q)
    ensures Lookup(Put(f, p, v), q) == Lookup(f, q)
    decreases |p|
  {
    if p[0] == q[0] {
      ApartBelow(p, q);
      PutElsewhere(Child(f, p[0]), p[1..], v, q[1..]);
    }
  }

  lemma {:induction false} CutElsewhere(f: Fields, p: seq<string>, q: seq<string>)
    requires p != [] && q != [] && Apart(p, q)
    ensures Lookup(Cut(f, p), q) == Lookup(f, q)
    decreases |p|
  {
    if p[0] == q[0] {
      ApartBelow(p, q);
      CutElsewhere(Child(f, p[0]), p[1..], q[1..]);
    }
  }

  lemma {:induction false} CutGone(f: Fields, p: seq<string>)
    requires p != []
    ensures Lookup(Cut(f, p), p) == None
    decreases |p|
  {
    if |p| > 1 {
      CutGone(Child(f, p[0]), p[1..]);
    }
  }

  // ----- when removing undoes adding

  /** Every object on the way to the path, as far as the way exists, is a non-empty object. */
  predicate WayFull(f: Fields, p: seq<string>)
    requires p != []
    decreases |p|
  {
    |p| > 1 && p[0] in f ==> f[p[0]].Obj? && f[p[0]].fields != map[] && WayFull(f[p[0]].fields, p[1..])
  }

  /** MAIN RESULT. Removing what was put at an absent path gives the old configuration back exactly when every
      object that was already on the way is a non-empty object. */
  lemma {:induction false} CutUndoesPutIff(f: Fields, p: seq<string>, v: Json)
    requires p != [] && Lookup(f, p) == None
    ensures Cut(Put(f, p, v), p) == f <==> WayFull(f, p)
    decreases |p|
  {
    if |p| == 1 {
      assert Cut(Put(f, p, v), p) == f;
    } else {
      var child := Child(f, p[0]);
      var again := Cut(Put(child, p[1..], v), p[1..]);
      CutUndoesPutIff(child, p[1..], v);
      assert Child(Put(f, p, v), p[0]) == Put(child, p[1..], v);
      if again == map[] {
        assert Cut(Put(f, p, v), p) == f - {p[0]};
      } else {
        assert Cut(Put(f, p, v), p) == f[p[0] := Obj(again)];
      }
      if p[0] !in f {
        assert WayFull(child, p[1..]);
      }
    }
  }

  /** A second put at a path replaces the first. */
  lemma {:induction false} PutTwice(f: Fields, p: seq<string>, v: Json, w: Json)
    requires p != []
    ensures Put(Put(f, p, v), p, w) == Put(f, p, w)
    decreases |p|
  {
    if |p| > 1 {
      PutTwice(Child(f, p[0]), p[1..], v, w);
    }
  }

  /** A put of what is there changes nothing. */
  lemma {:induction false} PutSame(f: Fields, p: seq<string>)
    requires p != [] && Lookup(f, p).Some?
    ensures Put(f, p, Lookup(f, p).value) == f
    decreases |p|
  {
    if |p| > 1 {
      PutSame(Child(f, p[0]), p[1..]);
    }
  }

  /** A cut does not depend on the value it removes. */
  lemma {:induction false} CutIgnoresValue(f: Fields, p: seq<string>, v: Json)
    requires p != [] && Lookup(f, p).Some?
    ensures Cut(Put(f, p, v), p) == Cut(f, p)
    decreases |p|
  {
    if |p| > 1 {
      CutIgnoresValue(Child(f, p[0]), p[1..], v);
    }
  }

  /** Putting again after a cut is the same as putting over. */
  lemma {:induction false} PutAfterCut(f: Fields, p: seq<string>, v: Json)
    requires p != [] && Lookup(f, p).Some?
    ensures Put(Cut(f, p), p, v) == Put(f, p, v)
    decreases |p|
  {
    if |p| > 1 {
      PutAfterCut(Child(f, p[0]), p[1..], v);
    }
  }

  // ----- list items

  /** The list at a path; anything else counts as empty. */
  function ListAt(f: Fields, p: seq<string>): seq<Json>
    requires p != []
  {
    var l := Lookup(f, p);
    if l.Some? && l.value.List? then l.value.items else []
  }

  function PutItem(f: Fields, p: seq<string>, i: nat, v: Json): Fields
    requires p != [] && i <= |ListAt(f, p)|
  {
    Put(f, p, List(Inserted(ListAt(f, p), i, v)))
  }

  function CutItem(f: Fields, p: seq<string>, i: nat): Fields
    requires p != [] && i < |ListAt(f, p)|
  {
    var l := Without(ListAt(f, p), i);
    if l == [] then Cut(f, p) else Put(f, p, List(l))
  }

  lemma {:induction false} PutItemRead(f: Fields, p: seq<string>, i: nat, v: Json)
    requires p != [] && i <= |ListAt(f, p)|
    ensures ListAt(PutItem(f, p, i, v), p) == Inserted(ListAt(f, p), i, v)
    ensures Without(Inserted(ListAt(f, p), i, v), i) == ListAt(f, p)
  {
    PutRead(f, p, List(Inserted(ListAt(f, p), i, v)));
  }

  /** MAIN RESULT. Removing an inserted item gives the old configuration back exactly when the field was a non-empty
      list, or was absent with only non-empty objects on the way to it. */
  lemma {:induction false} CutUndoesPutItemIff(f: Fields, p: seq<string>, i: nat, v: Json)
    requires p != [] && i <= |ListAt(f, p)|
    ensures ListAt(PutItem(f, p, i, v), p) == Inserted(ListAt(f, p), i, v)
    ensures CutItem(PutItem(f, p, i, v), p, i) == f <==>
            ListAt(f, p) != [] || (Lookup(f, p) == None && WayFull(f, p))
  {
    PutItemRead(f, p, i, v);
    var l, more := ListAt(f, p), List(Inserted(ListAt(f, p), i, v));
    if l != [] {
      PutTwice(f, p, more, List(l));
      PutSame(f, p);
    } else if Lookup(f, p) == None {
      CutUndoesPutIff(f, p, more);
    } else {
      CutIgnoresValue(f, p, more);
      CutGone(f, p);
    }
  }

  /** Removing an item and inserting another at its place changes that item only. */
  lemma {:induction false} ReplaceItem(f: Fields, p: seq<string>, i: nat, v: Json)
    requires p != [] && i < |ListAt(f, p)|
    ensures i <= |ListAt(CutItem(f, p, i), p)|
    ensures PutItem(CutItem(f, p, i), p, i, v) == Put(f, p, List(ListAt(f, p)[i := v]))
  {
    var l := ListAt(f, p);
    var less := Without(l, i);
    assert Inserted(less, i, v) == l[i := v];
    if less == [] {
      CutGone(f, p);
      PutAfterCut(f, p, List(l[i := v]));
    } else {
      PutRead(f, p, List(less));
      PutTwice(f, p, List(less), List(l[i := v]));
    }
  }
}
