/** The difference of two ygot structs as the program computes it: a prefix stack and two result lists
    changed by recursive loops over fields and list instances. */
module YgotDiff {
  import opened Options
  import opened YgotRecord
  import opened YgotTree
  import opened YgotFields

  const NO_PATHS: seq<Path> := []

  function Elem(name: string): PathElem { PathElem(name, None) }

  ghost function ElemsNamed(name: string): iset<PathElem> { iset e: PathElem | e.name == name }

  ghost function ElemsFrom(st: Schema, i: nat): iset<PathElem> {
    iset e: PathElem | exists j :: i <= j < |st.fields| && st.fields[j].name == e.name
  }

  function LeafDeletes(pre: Path, name: string, la: Option<Value>, lb: Option<Value>): seq<Path> {
    if lb.None? && la.Some? then [pre + [Elem(name)]] else []
  }

  function LeafUpdates(pre: Path, name: string, all: bool, la: Option<Value>, lb: Option<Value>): seq<Update> {
    if lb.Some? && (all || la != lb) then [Update(pre + [Elem(name)], lb.value)] else []
  }

  // ----- lookups below one field

  lemma {:induction false} FindField(st: Schema, i: nat)
    requires DistinctNames(st) && i < |st.fields|
    ensures Find(st.fields, st.fields[i].name) == i
  {
  }

  lemma {:induction false} LeafField(st: Schema, s: Struct, i: nat, p: Path)
    requires DistinctNames(st) && Typed(st, s) && i < |st.fields| && IsLeafKind(st.fields[i].kind)
    requires p != [] && p[0].name == st.fields[i].name
    ensures LeafAt(st, s, p) == if p == [Elem(st.fields[i].name)] then OwnLeaf(st.fields[i].kind, s.fields[i]) else None
    ensures !NodeAt(st, s, p)
  {
    FindField(st, i);
  }

  lemma {:induction false} ChildOfField(st: Schema, s: Struct, i: nat, e: PathElem, st': Schema)
    requires DistinctNames(st) && Typed(st, s) && i < |st.fields|
    requires var k := st.fields[i].kind; (k.ContainerKind? || k.ListKind?) && k.schema == st'
    requires e.name == st.fields[i].name
    ensures var x := Below(st.fields[i].kind, s.fields[i], e);
            ChildIs(st, Some(s), e, st', if x.None? then None else Some(x.value.1))
    ensures Below(st.fields[i].kind, s.fields[i], e).Some? ==> Below(st.fields[i].kind, s.fields[i], e).value.0 == st'
  {
    FindField(st, i);
    forall p: Path
      ensures ([e] + p)[1..] == p
    {}
  }

  /** Recording a leaf field as the program does is a correct difference of that field. */
  lemma {:induction false} LeafDiff(pre: Path, st: Schema, a: Struct, b: Struct, all: bool, i: nat)
    requires DistinctNames(st) && Typed(st, a) && Typed(st, b) && i < |st.fields| && IsLeafKind(st.fields[i].kind)
    ensures var (n, k) := (st.fields[i].name, st.fields[i].kind);
            var (la, lb) := (OwnLeaf(k, a.fields[i]), OwnLeaf(k, b.fields[i]));
            DiffOn(pre, st, Some(a), Some(b), all, Heads(ElemsNamed(n)),
                   LeafDeletes(pre, n, la, lb), LeafUpdates(pre, n, all, la, lb))
  {
    var (n, k) := (st.fields[i].name, st.fields[i].kind);
    var (la, lb) := (OwnLeaf(k, a.fields[i]), OwnLeaf(k, b.fields[i]));
    var ds, us := LeafDeletes(pre, n, la, lb), LeafUpdates(pre, n, all, la, lb);
    var path, scope := pre + [Elem(n)], Heads(ElemsNamed(n));
    assert path[|pre|..] == [Elem(n)];
    assert FieldTyped(k, a.fields[i]) && FieldTyped(k, b.fields[i]);
    forall p | scope.Has(p)
      ensures LeafAt(st, a, p) == (if p == [Elem(n)] then la else None)
      ensures LeafAt(st, b, p) == (if p == [Elem(n)] then lb else None)
      ensures !NodeAt(st, a, p)
    {
      LeafField(st, a, i, p);
      LeafField(st, b, i, p);
    }
    forall d | d in ds ensures GoodDelete(pre, st, Some(a), Some(b), scope, d) {
      forall p | [Elem(n)] <= p ensures LeafAt(st, b, p).None? {
        assert p[0] == Elem(n) && scope.Has(p);
      }
    }
    forall p | scope.Has(p) ensures Settled(pre, st, Some(a), Some(b), all, ds, us, p) {
      if p == [Elem(n)] && ds != [] {
        assert path in ds && path <= pre + p;
      }
    }
  }

  // ----- listing the leaves of a new struct

  function NewLeaf(name: string, lb: Option<Value>): seq<Update> {
    if Eff(lb).Some? then [Update([Elem(name)], lb.value)] else []
  }

  lemma {:induction false} LeafListing(st: Schema, b: Struct, i: nat)
    requires DistinctNames(st) && Typed(st, b) && i < |st.fields| && IsLeafKind(st.fields[i].kind)
    ensures DiffOn([], st, None, Some(b), false, Heads(ElemsNamed(st.fields[i].name)), [],
                   NewLeaf(st.fields[i].name, OwnLeaf(st.fields[i].kind, b.fields[i])))
  {
    var (n, lb) := (st.fields[i].name, OwnLeaf(st.fields[i].kind, b.fields[i]));
    var us, scope := NewLeaf(n, lb), Heads(ElemsNamed(n));
    forall p | scope.Has(p) ensures LeafAt(st, b, p) == if p == [Elem(n)] then lb else None {
      LeafField(st, b, i, p);
    }
    forall u | u in us ensures GoodUpdate([], st, None, Some(b), false, scope, u) {
      assert u.path[0..] == [Elem(n)];
    }
    forall p | scope.Has(p) ensures Settled([], st, None, Some(b), false, [], us, p) {
      assert [] + p == p;
    }
  }

  /** Steps from the fields after `i` to those from `i` on. */
  lemma {:induction false} DiffNextField(pre: Path, st: Schema, a: Option<Struct>, b: Option<Struct>, all: bool, i: nat,
                                         ds: seq<Path>, us: seq<Update>, ds': seq<Path>, us': seq<Update>)
    requires i < |st.fields|
    requires DiffOn(pre, st, a, b, all, Heads(ElemsFrom(st, i + 1)), ds, us)
    requires DiffOn(pre, st, a, b, all, Heads(ElemsNamed(st.fields[i].name)), ds', us')
    ensures DiffOn(pre, st, a, b, all, Heads(ElemsFrom(st, i)), ds + ds', us + us')
  {
    DiffUnion(pre, st, a, b, all, ElemsFrom(st, i + 1), ElemsNamed(st.fields[i].name), ds, us, ds', us');
    assert ElemsFrom(st, i + 1) + ElemsNamed(st.fields[i].name) == ElemsFrom(st, i);
  }

  lemma {:induction false} DiffAllFields(pre: Path, st: Schema, a: Option<Struct>, b: Option<Struct>, all: bool,
                                         ds: seq<Path>, us: seq<Update>)
    requires b.Some? && DiffOn(pre, st, a, b, all, Heads(ElemsFrom(st, 0)), ds, us)
    ensures IsDiff(pre, st, a, b, all, ds, us)
  {
    forall e: PathElem | e !in ElemsFrom(st, 0) ensures Find(st.fields, e.name) == |st.fields| {}
    DiffWhole(pre, st, a, b, all, ElemsFrom(st, 0), ds, us);
  }

  lemma {:induction false} DiffNoFields(pre: Path, st: Schema, a: Option<Struct>, b: Option<Struct>, all: bool)
    ensures DiffOn(pre, st, a, b, all, Heads(ElemsFrom(st, |st.fields|)), [], [])
  {
    DiffNothing(pre, st, a, b, all, ElemsFrom(st, |st.fields|));
  }

  ghost function Instances(name: string, ks: set<ListKey>): iset<PathElem> {
    iset e: PathElem | e.name == name && e.key.Some? && e.key.value in ks
  }

  lemma {:induction false} DiffNextInstance(pre: Path, st: Schema, a: Option<Struct>, b: Option<Struct>, all: bool,
                                            name: string,
                                            done: set<ListKey>, x: ListKey,
                                            ds: seq<Path>, us: seq<Update>, ds': seq<Path>, us': seq<Update>)
    requires DiffOn(pre, st, a, b, all, Heads(Instances(name, done)), ds, us)
    requires DiffOn(pre, st, a, b, all, Heads(iset{PathElem(name, Some(x))}), ds', us')
    ensures DiffOn(pre, st, a, b, all, Heads(Instances(name, done + {x})), ds + ds', us + us')
  {
    var e := PathElem(name, Some(x));
    DiffUnion(pre, st, a, b, all, Instances(name, done), iset{e}, ds, us, ds', us');
    assert Instances(name, done) + iset{e} == Instances(name, done + {x});
  }

  /** A field's elements that neither struct uses need no change. */
  lemma {:induction false} DiffRestOfField(pre: Path, st: Schema, a: Option<Struct>, b: Option<Struct>, all: bool,
                                           i: nat,
                                           x: iset<PathElem>, ds: seq<Path>, us: seq<Update>)
    requires DistinctNames(st) && i < |st.fields|
    requires (a.Some? ==> Typed(st, a.value)) && (b.Some? ==> Typed(st, b.value))
    requires st.fields[i].kind.ContainerKind? || st.fields[i].kind.ListKind?
    requires x <= ElemsNamed(st.fields[i].name)
    requires DiffOn(pre, st, a, b, all, Heads(x), ds, us)
    requires forall e: PathElem :: e.name == st.fields[i].name && e !in x ==>
                                     && (a.Some? ==> Below(st.fields[i].kind, a.value.fields[i], e).None?)
                                     && (b.Some? ==> Below(st.fields[i].kind, b.value.fields[i], e).None?)
    ensures DiffOn(pre, st, a, b, all, Heads(ElemsNamed(st.fields[i].name)), ds, us)
  {
    var named := ElemsNamed(st.fields[i].name);
    FindField(st, i);
    DiffNothing(pre, st, a, b, all, named - x);
    DiffUnion(pre, st, a, b, all, x, named - x, ds, us, [], []);
    assert x + (named - x) == named && ds + [] == ds && us + [] == us;
  }

  /** The listing of the instance `x` of list field `i`, placed below the list element. */
  lemma {:induction false} InstanceListing(st: Schema, b: Struct, i: nat, e: PathElem, c: Struct, sub: seq<Update>)
    requires DistinctNames(st) && Typed(st, b) && i < |st.fields|
    requires st.fields[i].kind.ContainerKind? || st.fields[i].kind.ListKind?
    requires e.name == st.fields[i].name
    requires Below(st.fields[i].kind, b.fields[i], e) == Some((st.fields[i].kind.schema, c))
    requires IsDiff([], st.fields[i].kind.schema, None, Some(c), false, [], sub)
    ensures DiffOn([], st, None, Some(b), false, Heads(iset{e}), [], Prefixed([e], sub))
  {
    var st' := st.fields[i].kind.schema;
    DiffPrefixed([e], st', Some(c), false, sub);
    assert [] + [e] == [e];
    ChildOfField(st, b, i, e, st');
    DiffLift([], st, None, Some(b), false, e, st', None, Some(c), [], Prefixed([e], sub));
  }

  /** The value of a leaf field, if it is set. */
  method FieldValue(k: Kind, f: Field) returns (v: Option<Value>)
    requires IsLeafKind(k) && FieldTyped(k, f)
    ensures v == OwnLeaf(k, f)
  {
    if k.LeafKind? || k.UnionKind? {
      var text := if f.Leaf? then f.v else f.u;
      return if text.None? then None else Some(Scalar(text.value));
    }
    if k.EmptyKind? {
      return Some(Flag(f.b));
    }
    if k.EnumKind? {
      return if f.n == 0 then None else Some(Named(f.n, if f.n in k.names then k.names[f.n] else ""));
    }
    return if |f.vs| == 0 then None else Some(Many(f.vs));
  }

  /** All set leaves of a struct as updates, in some order (`ygot.TogNMINotifications`); it fails on an enum
      number without a name. */
  method TogNmiNotifications(st: Schema, s: Struct) returns (ok: bool, us: seq<Update>)
    requires DistinctNames(st) && Typed(st, s)
    ensures ok == EnumsKnown(st, s)
    ensures ok ==> IsDiff([], st, None, Some(s), false, [], us)
    decreases st, 2
  {
    us, ok := [], true;
    DiffNoFields([], st, None, Some(s), false);
    for i := |st.fields| downto 0
      invariant ok == forall j :: i <= j < |st.fields| ==> FieldKnown(st.fields[j].kind, s.fields[j])
      invariant ok ==> DiffOn([], st, None, Some(s), false, Heads(ElemsFrom(st, i)), [], us)
    {
      var fok, fus := FieldNotifications(st, s, i);
      if ok && fok {
        DiffNextField([], st, None, Some(s), false, i, [], us, [], fus);
      }
      assert NO_PATHS + NO_PATHS == NO_PATHS;
      ok, us := ok && fok, us + fus;
    }
    if ok {
      DiffAllFields([], st, None, Some(s), false, [], us);
    }
  }

  method FieldNotifications(st: Schema, s: Struct, i: nat) returns (ok: bool, us: seq<Update>)
    requires DistinctNames(st) && Typed(st, s) && i < |st.fields|
    ensures ok == FieldKnown(st.fields[i].kind, s.fields[i])
    ensures ok ==> DiffOn([], st, None, Some(s), false, Heads(ElemsNamed(st.fields[i].name)), [], us)
    decreases st, 1
  {
    var name, kind, f := st.fields[i].name, st.fields[i].kind, s.fields[i];
    assert FieldTyped(kind, f);
    if kind.ContainerKind? {
      if f.c.None? {
        DiffNothing([], st, None, Some(s), false, iset{});
        DiffRestOfField([], st, None, Some(s), false, i, iset{}, [], []);
        return true, [];
      }
      var sub;
      ok, sub := TogNmiNotifications(kind.schema, f.c.value);
      us := Prefixed([Elem(name)], sub);
      if ok {
        InstanceListing(st, s, i, Elem(name), f.c.value, sub);
        DiffRestOfField([], st, None, Some(s), false, i, iset{Elem(name)}, [], us);
      }
    } else if kind.ListKind? {
      ok, us := ListNotifications(st, s, i);
    } else {
      LeafListing(st, s, i);
      var lb := FieldValue(kind, f);
      return kind.EnumKind? ==> f.n == 0 || f.n in kind.names, NewLeaf(name, lb);
    }
  }

  method ListNotifications(st: Schema, s: Struct, i: nat) returns (ok: bool, us: seq<Update>)
    requires DistinctNames(st) && Typed(st, s) && i < |st.fields| && st.fields[i].kind.ListKind?
    ensures ok == FieldKnown(st.fields[i].kind, s.fields[i])
    ensures ok ==> DiffOn([], st, None, Some(s), false, Heads(ElemsNamed(st.fields[i].name)), [], us)
    decreases st, 0
  {
    var name, kind, f := st.fields[i].name, st.fields[i].kind, s.fields[i];
    assert FieldTyped(kind, f);
    ok, us := true, [];
    var todo := f.m.Keys;
    ghost var done := {};
    assert Instances(name, {}) == iset{};
    DiffNothing([], st, None, Some(s), false, iset{});
    while todo != {}
      invariant done + todo == f.m.Keys
      invariant ok == forall x :: x in done ==> EnumsKnown(kind.schema, f.m[x])
      invariant ok ==> DiffOn([], st, None, Some(s), false, Heads(Instances(name, done)), [], us)
    {
      var x :| x in todo;
      todo := todo - {x};
      var subOk, sub := TogNmiNotifications(kind.schema, f.m[x]);
      var e := PathElem(name, Some(x));
      if ok && subOk {
        InstanceListing(st, s, i, e, f.m[x], sub);
        DiffNextInstance([], st, None, Some(s), false, name, done, x, [], us, [], Prefixed([e], sub));
        assert NO_PATHS + NO_PATHS == NO_PATHS;
      }
      done := done + {x};
      ok, us := ok && subOk, us + Prefixed([e], sub);
    }
    if ok {
      DiffRestOfField([], st, None, Some(s), false, i, Instances(name, done), [], us);
    }
  }

  /** What a leaf adds to the record. */
  function LeafRecorded(l: Log, name: string, all: bool, la: Option<Value>, lb: Option<Value>): Log {
    Extended(l, LeafDeletes(l.prefix, name, la, lb), LeafUpdates(l.prefix, name, all, la, lb))
  }

  class YgotDiff {
    const recordAll: bool
    const rec: Recorder
    var errors: seq<Path>

    constructor (recordAll: bool)
      ensures this.recordAll == recordAll && fresh(rec) && fresh(rec.elems) && rec.Valid()
      ensures rec.log == Log([], [], []) && errors == []
    {
      this.recordAll := recordAll;
      rec := new Recorder();
      errors := [];
    }

    method RecordUpdate(name: string, v: Value)
      requires rec.Valid()
      modifies rec
      ensures rec.Valid() && rec.Grown() && rec.elems == old(rec.elems)
      ensures rec.log == Extended(old(rec.log), [], [Update(old(rec.log.prefix) + [Elem(name)], v)])
    {
      rec.RecordUpdate([Elem(name)], v);
    }

    method RecordDelete(name: string)
      requires rec.Valid()
      modifies rec
      ensures rec.Valid() && rec.Grown() && rec.elems == old(rec.elems)
      ensures rec.log == Extended(old(rec.log), [old(rec.log.prefix) + [Elem(name)]], [])
    {
      rec.RecordDeletePath([Elem(name)]);
    }

    method RecordError()
      requires rec.Valid()
      modifies this`errors
      ensures errors == old(errors) + [rec.log.prefix]
    {
      errors := errors + [rec.elems[..rec.len]];
    }

    method ForLeaf(name: string, v1: Option<Value>, v2: Option<Value>)
      requires rec.Valid()
      modifies rec
      ensures rec.Valid() && rec.Grown() && rec.elems == old(rec.elems)
      ensures rec.log == LeafRecorded(old(rec.log), name, recordAll, v1, v2)
    {
      if v2.None? {
        if v1.Some? {
          RecordDelete(name);
        }
      } else if recordAll || v1 != v2 {
        RecordUpdate(name, v2.value);
      }
    }

    method ForUnion(name: string, v1: Option<string>, v2: Option<string>)
      requires rec.Valid()
      modifies rec
      ensures rec.Valid() && rec.Grown() && rec.elems == old(rec.elems)
      ensures rec.log == LeafRecorded(old(rec.log), name, recordAll, OwnLeaf(UnionKind, Union(v1)),
                                      OwnLeaf(UnionKind, Union(v2)))
    {
      if v2.None? {
        if v1.Some? {
          RecordDelete(name);
        }
        return;
      }
      if recordAll || v1.None? {
        RecordUpdate(name, Scalar(v2.value));
        return;
      }
      if v1.value != v2.value {
        RecordUpdate(name, Scalar(v2.value));
      }
    }

    /** An enum number without a name is an error; otherwise the field is recorded like any leaf. */
    method ForEnum(name: string, names: map<int, string>, v1: int, v2: int)
      requires rec.Valid()
      modifies rec, this`errors
      ensures rec.Valid() && rec.Grown() && rec.elems == old(rec.elems)
      ensures v2 == 0 || v2 in names ==> errors == old(errors)
      ensures old(errors) <= errors
      ensures rec.log == old(rec.log)
              || rec.log == LeafRecorded(old(rec.log), name, recordAll, OwnLeaf(EnumKind(names), Enum(v1)),
                                         OwnLeaf(EnumKind(names), Enum(v2)))
      ensures errors == old(errors) ==>
                rec.log == LeafRecorded(old(rec.log), name, recordAll, OwnLeaf(EnumKind(names), Enum(v1)),
                                        OwnLeaf(EnumKind(names), Enum(v2)))
    {
      if v2 == 0 {
        if v1 != 0 {
          RecordDelete(name);
        }
        return;
      }
      if !recordAll && v1 == v2 {
        return;
      }
      if v2 !in names {
        RecordError();
      } else {
        RecordUpdate(name, Named(v2, names[v2]));
      }
    }

    method ForLeafList(name: string, v1: seq<string>, v2: seq<string>)
      requires rec.Valid()
      modifies rec
      ensures rec.Valid() && rec.Grown() && rec.elems == old(rec.elems)
      ensures rec.log == LeafRecorded(old(rec.log), name, recordAll, OwnLeaf(LeafListKind, LeafList(v1)),
                                      OwnLeaf(LeafListKind, LeafList(v2)))
    {
      if |v2| == 0 {
        if |v1| != 0 {
          RecordDelete(name);
        }
        return;
      }
      if recordAll || |v1| != |v2| {
        RecordUpdate(name, Many(v2));
        return;
      }
      for i := 0 to |v1|
        invariant rec.Valid() && rec.log == old(rec.log) && rec.recorded == old(rec.recorded)
        invariant rec.elems == old(rec.elems) && v1[..i] == v2[..i]
      {
        if v1[i] != v2[i] {
          RecordUpdate(name, Many(v2));
          return;
        }
      }
      assert v1 == v1[..|v1|] == v2[..|v2|] == v2;
    }

    method RecordUpdates(st: Schema, v: Struct) returns (ghost us: seq<Update>)
      requires DistinctNames(st) && Typed(st, v) && rec.Valid()
      modifies rec, this`errors
      ensures rec.Valid() && rec.Grown() && rec.elems == old(rec.elems)
      ensures rec.log == Extended(old(rec.log), [], us) && old(errors) <= errors
      ensures EnumsKnown(st, v) ==> errors == old(errors)
      ensures errors == old(errors) ==> IsDiff(rec.log.prefix, st, None, Some(v), recordAll, [], us)
    {
      var ok, found := TogNmiNotifications(st, v);
      us := [];
      if !ok {
        RecordError();
        return;
      }
      DiffPrefixed(rec.log.prefix, st, Some(v), recordAll, found);
      us := Prefixed(rec.log.prefix, found);
      rec.RecordUpdates(found);
    }

    /** Records the difference of two structs of one type below the current prefix. `ds` and `us` are what this
        call appends; the prefix is as before on every return. */
    method ForStruct(st: Schema, v1: Option<Struct>, v2: Option<Struct>)
      returns (ghost ds: seq<Path>, ghost us: seq<Update>)
      requires DistinctNames(st) && rec.Valid()
      requires (v1.Some? ==> Typed(st, v1.value)) && (v2.Some? ==> Typed(st, v2.value))
      modifies rec, rec.elems, this`errors
      ensures rec.Valid() && rec.Grown() && rec.log == Extended(old(rec.log), ds, us) && old(errors) <= errors
      ensures (v2.Some? ==> EnumsKnown(st, v2.value)) ==> errors == old(errors)
      ensures errors == old(errors) ==> IsDiff(rec.log.prefix, st, v1, v2, recordAll, ds, us)
      decreases st, 2
    {
      ds, us := [], [];
      if v1.None? {
        if v2.Some? {
          us := RecordUpdates(st, v2.value);
        }
        return;
      }
      if v2.None? {
        DiffGone(rec.log.prefix, st, v1.value, recordAll);
        ds := [rec.log.prefix];
        assert rec.log.prefix + [] == rec.log.prefix;
        rec.RecordDeletePath([]);
        return;
      }
      ds, us := ForFields(st, v1.value, v2.value);
    }

    /** The fields of two structs, from the last to the first. */
    method ForFields(st: Schema, s1: Struct, s2: Struct) returns (ghost ds: seq<Path>, ghost us: seq<Update>)
      requires DistinctNames(st) && Typed(st, s1) && Typed(st, s2) && rec.Valid()
      modifies rec, rec.elems, this`errors
      ensures rec.Valid() && rec.Grown() && rec.log == Extended(old(rec.log), ds, us) && old(errors) <= errors
      ensures EnumsKnown(st, s2) ==> errors == old(errors)
      ensures errors == old(errors) ==> IsDiff(rec.log.prefix, st, Some(s1), Some(s2), recordAll, ds, us)
      decreases st, 1, 1
    {
      ds, us := [], [];
      ghost var pre := rec.log.prefix;
      DiffNoFields(pre, st, Some(s1), Some(s2), recordAll);
      for i := |st.fields| downto 0
        invariant rec.Valid() && rec.Grown() && rec.log == Extended(old(rec.log), ds, us) && old(errors) <= errors
        invariant (forall j :: i <= j < |st.fields| ==> FieldKnown(st.fields[j].kind, s2.fields[j]))
          ==> errors == old(errors)
        invariant errors == old(errors) ==>
            DiffOn(pre, st, Some(s1), Some(s2), recordAll, Heads(ElemsFrom(st, i)), ds, us)
      {
        ghost var fds, fus := ForField(st, i, s1, s2);
        ExtendedMore(old(rec.log), ds, us, fds, fus);
        if errors == old(errors) {
          DiffNextField(pre, st, Some(s1), Some(s2), recordAll, i, ds, us, fds, fus);
        }
        ds, us := ds + fds, us + fus;
      }
      if errors == old(errors) {
        DiffAllFields(pre, st, Some(s1), Some(s2), recordAll, ds, us);
      }
    }

    method ForField(st: Schema, i: nat, s1: Struct, s2: Struct) returns (ghost ds: seq<Path>, ghost us: seq<Update>)
      requires DistinctNames(st) && Typed(st, s1) && Typed(st, s2) && i < |st.fields| && rec.Valid()
      modifies rec, rec.elems, this`errors
      ensures rec.Valid() && rec.Grown() && rec.log == Extended(old(rec.log), ds, us) && old(errors) <= errors
      ensures FieldKnown(st.fields[i].kind, s2.fields[i]) ==> errors == old(errors)
      ensures errors == old(errors) ==>
                DiffOn(rec.log.prefix, st, Some(s1), Some(s2), recordAll, Heads(ElemsNamed(st.fields[i].name)), ds, us)
      decreases st, 1, 0
    {
      var name, kind, f1, f2 := st.fields[i].name, st.fields[i].kind, s1.fields[i], s2.fields[i];
      assert FieldTyped(kind, f1) && FieldTyped(kind, f2);
      if kind.ContainerKind? {
        ds, us := ForContainer(st, i, s1, s2);
      } else if kind.ListKind? {
        ds, us := ForList(st, i, s1, s2);
      } else {
        LeafDiff(rec.log.prefix, st, s1, s2, recordAll, i);
        ds, us := ForLeafField(name, kind, f1, f2);
      }
    }

    method ForLeafField(name: string, kind: Kind, f1: Field, f2: Field)
      returns (ghost ds: seq<Path>, ghost us: seq<Update>)
      requires IsLeafKind(kind) && FieldTyped(kind, f1) && FieldTyped(kind, f2) && rec.Valid()
      modifies rec, this`errors
      ensures rec.Valid() && rec.Grown() && rec.elems == old(rec.elems)
      ensures rec.log == Extended(old(rec.log), ds, us) && old(errors) <= errors
      ensures FieldKnown(kind, f2) ==> errors == old(errors)
      ensures errors == old(errors) ==>
                && ds == LeafDeletes(rec.log.prefix, name, OwnLeaf(kind, f1), OwnLeaf(kind, f2))
                && us == LeafUpdates(rec.log.prefix, name, recordAll, OwnLeaf(kind, f1), OwnLeaf(kind, f2))
    {
      ds := LeafDeletes(rec.log.prefix, name, OwnLeaf(kind, f1), OwnLeaf(kind, f2));
      us := LeafUpdates(rec.log.prefix, name, recordAll, OwnLeaf(kind, f1), OwnLeaf(kind, f2));
      ghost var before := rec.log;
      match kind {
        case LeafKind =>
          var v1 := if f1.v.None? then None else Some(Scalar(f1.v.value));
          var v2 := if f2.v.None? then None else Some(Scalar(f2.v.value));
          ForLeaf(name, v1, v2);
        case EmptyKind => ForLeaf(name, Some(Flag(f1.b)), Some(Flag(f2.b)));
        case EnumKind(names) => ForEnum(name, names, f1.n, f2.n);
        case UnionKind => ForUnion(name, f1.u, f2.u);
        case LeafListKind => ForLeafList(name, f1.vs, f2.vs);
      }
      if errors != old(errors) && rec.log == before {
        ds, us := [], [];
      }
    }

    /** Two structs below one more element of the prefix, which is taken off again. */
    method ForNested(e: PathElem, st: Schema, v1: Option<Struct>, v2: Option<Struct>)
      returns (ghost ds: seq<Path>, ghost us: seq<Update>)
      requires DistinctNames(st) && rec.Valid()
      requires (v1.Some? ==> Typed(st, v1.value)) && (v2.Some? ==> Typed(st, v2.value))
      modifies rec, rec.elems, this`errors
      ensures rec.Valid() && rec.Grown() && rec.log == Extended(old(rec.log), ds, us) && old(errors) <= errors
      ensures (v2.Some? ==> EnumsKnown(st, v2.value)) ==> errors == old(errors)
      ensures errors == old(errors) ==> IsDiff(rec.log.prefix + [e], st, v1, v2, recordAll, ds, us)
      decreases st, 3
    {
      ghost var before := rec.log;
      rec.PushPrefix(e);
      ds, us := ForStruct(st, v1, v2);
      rec.PopPrefix();
      assert rec.log == Extended(before, ds, us);
    }

    method ForContainer(st: Schema, i: nat, s1: Struct, s2: Struct) returns (ghost ds: seq<Path>, ghost us: seq<Update>)
      requires DistinctNames(st) && Typed(st, s1) && Typed(st, s2)
      requires i < |st.fields| && st.fields[i].kind.ContainerKind?
      requires rec.Valid()
      modifies rec, rec.elems, this`errors
      ensures rec.Valid() && rec.Grown() && rec.log == Extended(old(rec.log), ds, us) && old(errors) <= errors
      ensures FieldKnown(st.fields[i].kind, s2.fields[i]) ==> errors == old(errors)
      ensures errors == old(errors) ==>
                DiffOn(rec.log.prefix, st, Some(s1), Some(s2), recordAll, Heads(ElemsNamed(st.fields[i].name)), ds, us)
      decreases st, 0
    {
      var e, kind, f1, f2 := Elem(st.fields[i].name), st.fields[i].kind, s1.fields[i], s2.fields[i];
      assert FieldTyped(kind, f1) && FieldTyped(kind, f2);
      ghost var before := rec.log;
      ds, us := ForNested(e, kind.schema, f1.c, f2.c);
      if errors == old(errors) {
        ChildOfField(st, s1, i, e, kind.schema);
        ChildOfField(st, s2, i, e, kind.schema);
        DiffLift(before.prefix, st, Some(s1), Some(s2), recordAll, e, kind.schema, f1.c, f2.c, ds, us);
        DiffRestOfField(before.prefix, st, Some(s1), Some(s2), recordAll, i, iset{e}, ds, us);
      }
    }

    method RecordInstance(e: PathElem, st: Schema, v: Struct) returns (ghost us: seq<Update>)
      requires DistinctNames(st) && Typed(st, v) && rec.Valid()
      modifies rec, rec.elems, this`errors
      ensures rec.Valid() && rec.Grown() && rec.log == Extended(old(rec.log), [], us) && old(errors) <= errors
      ensures EnumsKnown(st, v) ==> errors == old(errors)
      ensures errors == old(errors) ==> IsDiff(rec.log.prefix + [e], st, None, Some(v), recordAll, [], us)
    {
      ghost var before := rec.log;
      rec.PushPrefix(e);
      us := RecordUpdates(st, v);
      rec.PopPrefix();
      assert rec.log == Extended(before, [], us);
    }

    /** One list instance: compared when it is in both lists, deleted when it is in the old one only, else listed. */
    method ForInstance(st: Schema, i: nat, s1: Struct, s2: Struct, x: ListKey)
      returns (ghost ds: seq<Path>, ghost us: seq<Update>)
      requires DistinctNames(st) && Typed(st, s1) && Typed(st, s2) && i < |st.fields| && st.fields[i].kind.ListKind?
      requires FieldTyped(st.fields[i].kind, s1.fields[i]) && FieldTyped(st.fields[i].kind, s2.fields[i])
      requires (x in s1.fields[i].m || x in s2.fields[i].m) && rec.Valid()
      modifies rec, rec.elems, this`errors
      ensures rec.Valid() && rec.Grown() && rec.log == Extended(old(rec.log), ds, us) && old(errors) <= errors
      ensures (x in s2.fields[i].m ==> EnumsKnown(st.fields[i].kind.schema, s2.fields[i].m[x]))
              ==> errors == old(errors)
      ensures errors == old(errors) ==>
                DiffOn(rec.log.prefix, st, Some(s1), Some(s2), recordAll,
                       Heads(iset{PathElem(st.fields[i].name, Some(x))}), ds, us)
      decreases st, 0, 0
    {
      var name, st', m1, m2 := st.fields[i].name, st.fields[i].kind.schema, s1.fields[i].m, s2.fields[i].m;
      ghost var before := rec.log;
      ghost var e := PathElem(name, Some(x));
      ChildOfField(st, s1, i, e, st');
      ChildOfField(st, s2, i, e, st');
      ghost var a := if x in m1 then Some(m1[x]) else None;
      ghost var b := if x in m2 then Some(m2[x]) else None;
      if x in m1 && x in m2 {
        ds, us := ForNested(PathElem(name, Some(m2[x].key)), st', Some(m1[x]), Some(m2[x]));
      } else if x in m1 {
        DiffGone(before.prefix + [e], st', m1[x], recordAll);
        rec.RecordDeletePath([PathElem(name, Some(m1[x].key))]);
        ds, us := [before.prefix + [e]], [];
      } else {
        us := RecordInstance(PathElem(name, Some(m2[x].key)), st', m2[x]);
        ds := [];
      }
      if errors == old(errors) {
        DiffLift(before.prefix, st, Some(s1), Some(s2), recordAll, e, st', a, b, ds, us);
      }
    }

    /** The list instances with keys `ks`, in any order. */
    method ForInstances(st: Schema, i: nat, s1: Struct, s2: Struct, ks: set<ListKey>)
      returns (ghost ds: seq<Path>, ghost us: seq<Update>)
      requires DistinctNames(st) && Typed(st, s1) && Typed(st, s2) && i < |st.fields| && st.fields[i].kind.ListKind?
      requires FieldTyped(st.fields[i].kind, s1.fields[i]) && FieldTyped(st.fields[i].kind, s2.fields[i])
      requires ks <= s1.fields[i].m.Keys + s2.fields[i].m.Keys && rec.Valid()
      modifies rec, rec.elems, this`errors
      ensures rec.Valid() && rec.Grown() && rec.log == Extended(old(rec.log), ds, us) && old(errors) <= errors
      ensures FieldKnown(st.fields[i].kind, s2.fields[i]) ==> errors == old(errors)
      ensures errors == old(errors) ==>
                DiffOn(rec.log.prefix, st, Some(s1), Some(s2), recordAll, Heads(Instances(st.fields[i].name, ks)),
                       ds, us)
      decreases st, 0, 1
    {
      ghost var name, pre := st.fields[i].name, rec.log.prefix;
      ds, us := [], [];
      var todo := ks;
      ghost var done := {};
      assert Instances(name, {}) == iset{};
      DiffNothing(pre, st, Some(s1), Some(s2), recordAll, iset{});
      while todo != {}
        invariant done + todo == ks
        invariant rec.Valid() && rec.Grown() && rec.log == Extended(old(rec.log), ds, us) && old(errors) <= errors
        invariant FieldKnown(st.fields[i].kind, s2.fields[i]) ==> errors == old(errors)
        invariant errors == old(errors) ==>
                    DiffOn(pre, st, Some(s1), Some(s2), recordAll, Heads(Instances(name, done)), ds, us)
      {
        var x :| x in todo;
        todo := todo - {x};
        ghost var xds, xus := ForInstance(st, i, s1, s2, x);
        ExtendedMore(old(rec.log), ds, us, xds, xus);
        if errors == old(errors) {
          DiffNextInstance(pre, st, Some(s1), Some(s2), recordAll, name, done, x, ds, us, xds, xus);
        }
        ds, us, done := ds + xds, us + xus, done + {x};
      }
    }

    /** The instances of the old list, then those that only the new list has. */
    method ForList(st: Schema, i: nat, s1: Struct, s2: Struct) returns (ghost ds: seq<Path>, ghost us: seq<Update>)
      requires DistinctNames(st) && Typed(st, s1) && Typed(st, s2) && i < |st.fields| && st.fields[i].kind.ListKind?
      requires rec.Valid()
      modifies rec, rec.elems, this`errors
      ensures rec.Valid() && rec.Grown() && rec.log == Extended(old(rec.log), ds, us) && old(errors) <= errors
      ensures FieldKnown(st.fields[i].kind, s2.fields[i]) ==> errors == old(errors)
      ensures errors == old(errors) ==>
                DiffOn(rec.log.prefix, st, Some(s1), Some(s2), recordAll, Heads(ElemsNamed(st.fields[i].name)), ds, us)
      decreases st, 0, 2
    {
      var f1, f2 := s1.fields[i], s2.fields[i];
      assert FieldTyped(st.fields[i].kind, f1) && FieldTyped(st.fields[i].kind, f2);
      ghost var ds1, us1 := ForInstances(st, i, s1, s2, f1.m.Keys);
      ghost var ds2, us2 := ForInstances(st, i, s1, s2, f2.m.Keys - f1.m.Keys);
      ExtendedMore(old(rec.log), ds1, us1, ds2, us2);
      ds, us := ds1 + ds2, us1 + us2;
      if errors == old(errors) {
        ghost var name, ks1, ks2, pre := st.fields[i].name, f1.m.Keys, f2.m.Keys - f1.m.Keys, rec.log.prefix;
        DiffUnion(pre, st, Some(s1), Some(s2), recordAll, Instances(name, ks1), Instances(name, ks2),
                  ds1, us1, ds2, us2);
        assert Instances(name, ks1) + Instances(name, ks2) == Instances(name, ks1 + ks2);
        DiffRestOfField(pre, st, Some(s1), Some(s2), recordAll, i, Instances(name, ks1 + ks2), ds, us);
      }
    }
  }

  datatype DiffResults = DiffResults(update: seq<Update>, delete: seq<Path>)

  /** `Diff`: fails when the types differ or when the new tree holds an enum number without a name. */
  method Diff(t1: Schema, original: Option<Struct>, t2: Schema, modified: Option<Struct>, recordAll: bool)
    returns (res: DiffResults, ok: bool)
    requires DistinctNames(t1) && DistinctNames(t2)
    requires (original.Some? ==> Typed(t1, original.value)) && (modified.Some? ==> Typed(t2, modified.value))
    ensures original.Some? && t1 != t2 ==> !ok
    ensures (original.Some? ==> t1 == t2) && (modified.Some? ==> EnumsKnown(t2, modified.value)) ==> ok
    ensures ok ==> IsDiff([], t2, original, modified, recordAll, res.delete, res.update)
    ensures ok ==> && ReportsNew(t2, original, modified, recordAll, res.update)
                   && ReportsOnly(t2, original, modified, recordAll, res.update)
                   && ReportsGone(t2, original, modified, res.delete)
  {
    if original.Some? && t1 != t2 {
      return DiffResults([], []), false;
    }
    var yd := new YgotDiff(recordAll);
    ghost var ds, us := yd.ForStruct(t2, original, modified);
    assert yd.rec.log.delete == ds && yd.rec.log.update == us;
    var update, delete := yd.rec.Results();
    ok := |yd.errors| == 0;
    if ok {
      DiffReports(t2, original, modified, recordAll, delete, update);
    }
    return DiffResults(update, delete), ok;
  }
}
