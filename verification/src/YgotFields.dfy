/** What a difference says about the fields of the two structs, at every depth. */
module YgotFields {
  import opened Options
  import opened YgotTree

  const NO_PATH: Path := []

  predicate IsLeafKind(k: Kind) { !k.ContainerKind? && !k.ListKind? }

  /** The leaf field `f` of kind `k` is at path `p` of the struct. */
  predicate FieldAt(st: Schema, s: Struct, p: Path, k: Kind, f: Field)
    decreases |p|, 1
  {
    && p != []
    && exists i :: 0 <= i < |st.fields| && i < |s.fields| && st.fields[i].name == p[0].name
                   && WithinField(st.fields[i].kind, s.fields[i], p, k, f)
  }

  predicate WithinField(kind: Kind, field: Field, p: Path, k: Kind, f: Field)
    requires p != []
    decreases |p|, 0
  {
    match kind
    case ContainerKind(st) =>
      p[0].key == None && field.Container? && field.c.Some? && FieldAt(st, field.c.value, p[1..], k, f)
    case ListKind(st) =>
      && p[0].key.Some? && field.List? && p[0].key.value in field.m
      && FieldAt(st, field.m[p[0].key.value], p[1..], k, f)
    case _ => |p| == 1 && p[0].key == None && k == kind && f == field
  }

  /** A field that is set, and the value it stands for: a leaf or union its text, an enumeration its number and name,
      a leaf list its items, an empty leaf whether it is there. */
  predicate Carries(k: Kind, f: Field, v: Value) {
    match f
    case Leaf(x) => x.Some? && v == Scalar(x.value)
    case Union(x) => x.Some? && v == Scalar(x.value)
    case Enum(n) => n != 0 && k.EnumKind? && v == Named(n, if n in k.names then k.names[n] else "")
    case LeafList(vs) => vs != [] && v == Many(vs)
    case Empty(b) => v == Flag(b)
    case _ => false
  }

  ghost predicate IsSet(k: Kind, f: Field) {
    f != Empty(false) && exists v :: Carries(k, f, v)
  }

  // ----- fields and leaves

  lemma {:induction false} CarriesIff(k: Kind, f: Field, v: Value)
    requires IsLeafKind(k) && FieldTyped(k, f)
    ensures OwnLeaf(k, f) == Some(v) <==> Carries(k, f, v)
  {
  }

  /** The value tells the field. */
  lemma {:induction false} CarriesOne(k: Kind, f: Field, g: Field, v: Value)
    requires IsLeafKind(k) && FieldTyped(k, f) && FieldTyped(k, g) && Carries(k, f, v) && Carries(k, g, v)
    ensures f == g
  {
  }

  lemma {:induction false} FindOne(fs: seq<FieldType>, i: nat)
    requires i < |fs| && forall a, b :: 0 <= a < b < |fs| ==> fs[a].name != fs[b].name
    ensures Find(fs, fs[i].name) == i
  {
  }

  /** A path goes through the one field with its first name. */
  lemma {:induction false} ThroughField(st: Schema, s: Struct, p: Path, k: Kind, f: Field, i: nat)
    requires DistinctNames(st) && Typed(st, s) && p != [] && i < |st.fields| && st.fields[i].name == p[0].name
    ensures FieldAt(st, s, p, k, f) <==> WithinField(st.fields[i].kind, s.fields[i], p, k, f)
  {
    if FieldAt(st, s, p, k, f) {
      var j :| 0 <= j < |st.fields| && j < |s.fields| && st.fields[j].name == p[0].name
               && WithinField(st.fields[j].kind, s.fields[j], p, k, f);
      assert i == j;
    }
  }

  lemma {:induction false} WhichField(st: Schema, s: Struct, p: Path, k: Kind, f: Field) returns (i: nat)
    requires FieldAt(st, s, p, k, f)
    ensures p != [] && i < |st.fields| && st.fields[i].name == p[0].name
  {
    i :| 0 <= i < |st.fields| && i < |s.fields| && st.fields[i].name == p[0].name
         && WithinField(st.fields[i].kind, s.fields[i], p, k, f);
  }

  /** Below a container or list the path goes on in the struct there. */
  lemma {:induction false} GoesOn(kind: Kind, field: Field, p: Path, k: Kind, f: Field)
    requires p != [] && !IsLeafKind(kind)
    ensures WithinField(kind, field, p, k, f) <==>
            var x := Below(kind, field, p[0]); x.Some? && FieldAt(x.value.0, x.value.1, p[1..], k, f)
  {
  }

  lemma {:induction false} BelowTyped(kind: Kind, field: Field, e: PathElem)
    requires FieldTyped(kind, field) && Below(kind, field, e).Some?
    ensures var x := Below(kind, field, e).value; !IsLeafKind(kind) && x.0 == kind.schema && Typed(x.0, x.1)
  {
  }

  lemma {:induction false} LeafThrough(st: Schema, s: Struct, p: Path, i: nat)
    requires DistinctNames(st) && Typed(st, s) && p != [] && i < |st.fields| && st.fields[i].name == p[0].name
    ensures var (kind, field) := (st.fields[i].kind, s.fields[i]);
            var x := Below(kind, field, p[0]);
            LeafAt(st, s, p) ==
            if IsLeafKind(kind) then if p[0].key.None? && |p| == 1 then OwnLeaf(kind, field) else None
            else if x.None? then None else LeafAt(x.value.0, x.value.1, p[1..])
  {
    FindOne(st.fields, i);
  }

  /** What a field at a path is: typed as its kind, and the leaf at that path. */
  lemma {:induction false} FieldLeaf(st: Schema, s: Struct, p: Path, k: Kind, f: Field)
    requires DistinctNames(st) && Typed(st, s) && FieldAt(st, s, p, k, f)
    ensures IsLeafKind(k) && FieldTyped(k, f) && LeafAt(st, s, p) == OwnLeaf(k, f)
    decreases |p|
  {
    var i := WhichField(st, s, p, k, f);
    var kind, field := st.fields[i].kind, s.fields[i];
    ThroughField(st, s, p, k, f, i);
    LeafThrough(st, s, p, i);
    assert FieldTyped(kind, field);
    if !IsLeafKind(kind) {
      GoesOn(kind, field, p, k, f);
      BelowTyped(kind, field, p[0]);
      var x := Below(kind, field, p[0]).value;
      FieldLeaf(x.0, x.1, p[1..], k, f);
    }
  }

  /** Every leaf is that of a field. */
  lemma {:induction false} FieldOfLeaf(st: Schema, s: Struct, p: Path) returns (k: Kind, f: Field)
    requires DistinctNames(st) && Typed(st, s) && LeafAt(st, s, p).Some?
    ensures FieldAt(st, s, p, k, f)
    decreases |p|
  {
    var i := Find(st.fields, p[0].name);
    var kind, field := st.fields[i].kind, s.fields[i];
    assert FieldTyped(kind, field);
    LeafThrough(st, s, p, i);
    if IsLeafKind(kind) {
      k, f := kind, field;
    } else {
      BelowTyped(kind, field, p[0]);
      var x := Below(kind, field, p[0]).value;
      k, f := FieldOfLeaf(x.0, x.1, p[1..]);
      GoesOn(kind, field, p, k, f);
    }
    ThroughField(st, s, p, k, f, i);
  }

  /** The kind at a path is a matter of the type. */
  lemma {:induction false} SameKind(st: Schema, a: Struct, b: Struct, p: Path, k: Kind, f: Field, l: Kind, g: Field)
    requires DistinctNames(st) && Typed(st, a) && Typed(st, b) && FieldAt(st, a, p, k, f) && FieldAt(st, b, p, l, g)
    ensures k == l
    decreases |p|
  {
    var i := WhichField(st, a, p, k, f);
    ThroughField(st, a, p, k, f, i);
    ThroughField(st, b, p, l, g, i);
    var kind, x, y := st.fields[i].kind, a.fields[i], b.fields[i];
    assert FieldTyped(kind, x) && FieldTyped(kind, y);
    if !IsLeafKind(kind) {
      GoesOn(kind, x, p, k, f);
      GoesOn(kind, y, p, l, g);
      BelowTyped(kind, x, p[0]);
      BelowTyped(kind, y, p[0]);
      SameKind(kind.schema, Below(kind, x, p[0]).value.1, Below(kind, y, p[0]).value.1, p[1..], k, f, l, g);
    }
  }

  /** The leaf at a path is the value of the field there. */
  lemma {:induction false} LeafAtIff(st: Schema, s: Struct, p: Path, v: Value)
    requires DistinctNames(st) && Typed(st, s)
    ensures LeafAt(st, s, p) == Some(v) <==> exists k, f :: FieldAt(st, s, p, k, f) && Carries(k, f, v)
  {
    if LeafAt(st, s, p) == Some(v) {
      var k, f := FieldOfLeaf(st, s, p);
      FieldLeaf(st, s, p, k, f);
      CarriesIff(k, f, v);
    }
    if k, f :| FieldAt(st, s, p, k, f) && Carries(k, f, v) {
      FieldLeaf(st, s, p, k, f);
      CarriesIff(k, f, v);
    }
  }

  /** Two trees with the same value at a path have the same field there. */
  lemma {:induction false} SameField(st: Schema, a: Struct, b: Struct, p: Path, k: Kind, f: Field, v: Value)
    requires DistinctNames(st) && Typed(st, a) && Typed(st, b)
    requires FieldAt(st, b, p, k, f) && Carries(k, f, v)
    ensures LeafAt(st, b, p) == Some(v) && (LeafAt(st, a, p) == Some(v) <==> FieldAt(st, a, p, k, f))
  {
    LeafAtIff(st, b, p, v);
    LeafAtIff(st, a, p, v);
    FieldLeaf(st, b, p, k, f);
    if l, g :| FieldAt(st, a, p, l, g) && Carries(l, g, v) {
      SameKind(st, a, b, p, l, g, k, f);
      FieldLeaf(st, a, p, l, g);
      CarriesOne(k, f, g, v);
    }
  }

  /** Trees with the same leaves have the same set fields. */
  lemma {:induction false} SameLeavesSameFields(st: Schema, a: Struct, b: Struct, p: Path, k: Kind, f: Field)
    requires DistinctNames(st) && Typed(st, a) && Typed(st, b)
    requires Eff(LeafAt(st, a, p)) == Eff(LeafAt(st, b, p)) && IsSet(k, f)
    ensures FieldAt(st, a, p, k, f) <==> FieldAt(st, b, p, k, f)
  {
    var v :| Carries(k, f, v);
    assert v != Flag(false);
    if FieldAt(st, b, p, k, f) {
      SameField(st, a, b, p, k, f, v);
    }
    if FieldAt(st, a, p, k, f) {
      SameField(st, b, a, p, k, f, v);
    }
  }

  // ----- what a difference reports

  predicate HasField(st: Schema, a: Option<Struct>, p: Path, k: Kind, f: Field) {
    a.Some? && FieldAt(st, a.value, p, k, f)
  }

  /** The field is new or changed, or all are asked for. */
  predicate IsNews(st: Schema, a: Option<Struct>, b: Option<Struct>, all: bool, p: Path, k: Kind, f: Field) {
    HasField(st, b, p, k, f) && (all || !HasField(st, a, p, k, f))
  }

  /** A set field that is news is among the updates with its value; so is an empty leaf that was there and is not any
      more. */
  ghost predicate ReportsNew(st: Schema, a: Option<Struct>, b: Option<Struct>, all: bool, us: seq<Update>) {
    && (forall p, k, f, v :: IsNews(st, a, b, all, p, k, f) && Carries(k, f, v) && f != Empty(false) ==>
                               Update(p, v) in us)
    && (forall p, k :: HasField(st, a, p, k, Empty(true)) && HasField(st, b, p, k, Empty(false)) ==>
                         Update(p, Flag(false)) in us)
  }

  ghost predicate IsReport(st: Schema, a: Option<Struct>, b: Option<Struct>, all: bool, u: Update) {
    exists k, f :: IsNews(st, a, b, all, u.path, k, f) && Carries(k, f, u.val)
  }

  /** Every update is the value of a field that is news. */
  ghost predicate ReportsOnly(st: Schema, a: Option<Struct>, b: Option<Struct>, all: bool, us: seq<Update>) {
    forall u :: u in us ==> IsReport(st, a, b, all, u)
  }

  /** Nothing is set at the path. */
  ghost predicate Unset(st: Schema, b: Option<Struct>, p: Path) {
    forall k, f, v :: HasField(st, b, p, k, f) ==> !Carries(k, f, v)
  }

  /** A set field of the old tree is deleted if the new tree has nothing there, and no set field of the new one is. */
  ghost predicate ReportsGone(st: Schema, a: Option<Struct>, b: Option<Struct>, ds: seq<Path>) {
    && (forall p, k, f :: HasField(st, a, p, k, f) && IsSet(k, f) && Unset(st, b, p) ==> Covered(ds, p))
    && (forall p, k, f, v :: HasField(st, b, p, k, f) && Carries(k, f, v) ==> !Covered(ds, p))
  }

  predicate BothTyped(st: Schema, a: Option<Struct>, b: Option<Struct>) {
    DistinctNames(st) && (a.Some? ==> Typed(st, a.value)) && (b.Some? ==> Typed(st, b.value))
  }

  lemma {:induction false} NewReported(st: Schema, a: Option<Struct>, b: Option<Struct>, all: bool, ds: seq<Path>,
                                       us: seq<Update>, p: Path, k: Kind, f: Field, v: Value)
    requires BothTyped(st, a, b) && Settled([], st, a, b, all, ds, us, p)
    requires IsNews(st, a, b, all, p, k, f) && Carries(k, f, v) && f != Empty(false)
    ensures Update(p, v) in us
  {
    LeafAtIff(st, b.value, p, v);
    if a.Some? {
      SameField(st, a.value, b.value, p, k, f, v);
    }
    assert [] + p == p;
  }

  lemma {:induction false} EmptyReported(st: Schema, a: Option<Struct>, b: Option<Struct>, all: bool, ds: seq<Path>,
                                         us: seq<Update>, p: Path, k: Kind)
    requires BothTyped(st, a, b) && Settled([], st, a, b, all, ds, us, p)
    requires HasField(st, a, p, k, Empty(true)) && HasField(st, b, p, k, Empty(false))
    ensures Update(p, Flag(false)) in us
  {
    assert Carries(k, Empty(true), Flag(true)) && Carries(k, Empty(false), Flag(false));
    LeafAtIff(st, a.value, p, Flag(true));
    LeafAtIff(st, b.value, p, Flag(false));
    assert [] + p == p;
  }

  lemma {:induction false} OnlyReported(st: Schema, a: Option<Struct>, b: Option<Struct>, all: bool, u: Update)
    requires BothTyped(st, a, b) && GoodUpdate([], st, a, b, all, Whole, u)
    ensures IsReport(st, a, b, all, u)
  {
    assert u.path[0..] == u.path;
    LeafAtIff(st, b.value, u.path, u.val);
    var k, f :| FieldAt(st, b.value, u.path, k, f) && Carries(k, f, u.val);
    if a.Some? {
      SameField(st, a.value, b.value, u.path, k, f, u.val);
    }
    assert IsNews(st, a, b, all, u.path, k, f);
  }

  lemma {:induction false} GoneReported(st: Schema, a: Option<Struct>, b: Option<Struct>, all: bool, ds: seq<Path>,
                                        us: seq<Update>, p: Path, k: Kind, f: Field)
    requires BothTyped(st, a, b) && Settled([], st, a, b, all, ds, us, p)
    requires HasField(st, a, p, k, f) && IsSet(k, f) && Unset(st, b, p)
    ensures Covered(ds, p)
  {
    var v :| Carries(k, f, v);
    LeafAtIff(st, a.value, p, v);
    if b.Some? && LeafAt(st, b.value, p).Some? {
      LeafAtIff(st, b.value, p, LeafAt(st, b.value, p).value);
    }
    assert v != Flag(false) && [] + p == p;
  }

  lemma {:induction false} SetNotGone(st: Schema, a: Option<Struct>, b: Option<Struct>, ds: seq<Path>, p: Path, k: Kind,
                                      f: Field, v: Value)
    requires BothTyped(st, a, b) && (forall d :: d in ds ==> GoodDelete([], st, a, b, Whole, d))
    requires HasField(st, b, p, k, f) && Carries(k, f, v)
    ensures !Covered(ds, p)
  {
    LeafAtIff(st, b.value, p, v);
    assert LeafOf(st, b, p) == Some(v);
    forall d | d in ds ensures !(d <= p) {
      assert GoodDelete([], st, a, b, Whole, d);
      assert d[|NO_PATH|..] == d;
    }
  }

  /** MAIN RESULT. What a difference reports, in terms of the fields of the two structs. */
  lemma {:induction false} DiffReports(st: Schema, a: Option<Struct>, b: Option<Struct>, all: bool, ds: seq<Path>,
                                       us: seq<Update>)
    requires BothTyped(st, a, b) && IsDiff([], st, a, b, all, ds, us)
    ensures ReportsNew(st, a, b, all, us) && ReportsOnly(st, a, b, all, us) && ReportsGone(st, a, b, ds)
  {
    DiffReportsNew(st, a, b, all, ds, us);
    forall u | u in us ensures IsReport(st, a, b, all, u) {
      OnlyReported(st, a, b, all, u);
    }
    DiffReportsGone(st, a, b, all, ds, us);
  }

  lemma {:induction false} DiffReportsNew(st: Schema, a: Option<Struct>, b: Option<Struct>, all: bool, ds: seq<Path>,
                                          us: seq<Update>)
    requires BothTyped(st, a, b) && IsDiff([], st, a, b, all, ds, us)
    ensures ReportsNew(st, a, b, all, us)
  {
    forall p, k, f, v | IsNews(st, a, b, all, p, k, f) && Carries(k, f, v) && f != Empty(false)
      ensures Update(p, v) in us
    {
      NewReported(st, a, b, all, ds, us, p, k, f, v);
    }
    forall p, k | HasField(st, a, p, k, Empty(true)) && HasField(st, b, p, k, Empty(false))
      ensures Update(p, Flag(false)) in us
    {
      EmptyReported(st, a, b, all, ds, us, p, k);
    }
  }

  lemma {:induction false} DiffReportsGone(st: Schema, a: Option<Struct>, b: Option<Struct>, all: bool, ds: seq<Path>,
                                           us: seq<Update>)
    requires BothTyped(st, a, b) && IsDiff([], st, a, b, all, ds, us)
    ensures ReportsGone(st, a, b, ds)
  {
    forall p, k, f | HasField(st, a, p, k, f) && IsSet(k, f) && Unset(st, b, p) ensures Covered(ds, p) {
      GoneReported(st, a, b, all, ds, us, p, k, f);
    }
    forall p, k, f, v | HasField(st, b, p, k, f) && Carries(k, f, v) ensures !Covered(ds, p) {
      SetNotGone(st, a, b, ds, p, k, f, v);
    }
  }
}
