/** Typed configuration trees (ygot structs), their leaves, and what a correct difference of two trees is. */
module YgotTree {
  import opened Options

  type ListKey = map<string, string>
  datatype PathElem = PathElem(name: string, key: Option<ListKey>)
  type Path = seq<PathElem>

  datatype Value = Scalar(s: string) | Named(n: int, text: string) | Many(vs: seq<string>) | Flag(b: bool)

  /** The Go type of a struct: its fields in order, each with its path tag. */
  datatype Kind =
    | LeafKind
    | EmptyKind
    | EnumKind(names: map<int, string>)
    | UnionKind
    | LeafListKind
    | ContainerKind(schema: Schema)
    | ListKind(schema: Schema)
  datatype FieldType = FieldType(name: string, kind: Kind)
  datatype Schema = Schema(fields: seq<FieldType>)

  /** A struct value. `key` is the path key that its key fields give it as a list instance. */
  datatype Field =
    | Leaf(v: Option<string>)
    | Empty(b: bool)
    | Enum(n: int)
    | Union(u: Option<string>)
    | LeafList(vs: seq<string>)
    | Container(c: Option<Struct>)
    | List(m: map<ListKey, Struct>)
  datatype Struct = Struct(key: ListKey, fields: seq<Field>)

  datatype Update = Update(path: Path, val: Value)

  predicate DistinctNames(st: Schema)
    decreases st
  {
    && (forall i, j :: 0 <= i < j < |st.fields| ==> st.fields[i].name != st.fields[j].name)
    && (forall i :: 0 <= i < |st.fields| ==>
                      var k := st.fields[i].kind;
                      (k.ContainerKind? || k.ListKind?) ==> DistinctNames(k.schema))
  }

  predicate FieldTyped(k: Kind, f: Field)
    decreases k
  {
    match k
    case LeafKind => f.Leaf?
    case EmptyKind => f.Empty?
    case EnumKind(_) => f.Enum?
    case UnionKind => f.Union?
    case LeafListKind => f.LeafList?
    case ContainerKind(st) => f.Container? && (f.c.Some? ==> Typed(st, f.c.value))
    case ListKind(st) => f.List? && forall x :: x in f.m ==> f.m[x].key == x && Typed(st, f.m[x])
  }

  predicate Typed(st: Schema, s: Struct)
    decreases st
  {
    |s.fields| == |st.fields| && forall i :: 0 <= i < |st.fields| ==> FieldTyped(st.fields[i].kind, s.fields[i])
  }

  /** Every enum field holds 0 (unset) or a number with a name. */
  predicate FieldKnown(k: Kind, f: Field)
    requires FieldTyped(k, f)
    decreases k
  {
    match k
    case EnumKind(names) => f.n == 0 || f.n in names
    case ContainerKind(st) => f.c.Some? ==> EnumsKnown(st, f.c.value)
    case ListKind(st) => forall x :: x in f.m ==> EnumsKnown(st, f.m[x])
    case _ => true
  }

  predicate EnumsKnown(st: Schema, s: Struct)
    requires Typed(st, s)
    decreases st
  {
    forall i :: 0 <= i < |st.fields| ==> FieldKnown(st.fields[i].kind, s.fields[i])
  }

  // ----- leaves and nodes by path

  function Find(fs: seq<FieldType>, name: string): (i: nat)
    ensures i <= |fs|
    ensures i < |fs| ==> fs[i].name == name
    ensures forall j :: 0 <= j < i ==> fs[j].name != name
  {
    if fs == [] || fs[0].name == name then 0 else 1 + Find(fs[1..], name)
  }

  function NameText(names: map<int, string>, n: int): string {
    if n in names then names[n] else ""
  }

  /** The value of a leaf field, if it is set. */
  function OwnLeaf(k: Kind, f: Field): Option<Value> {
    match f
    case Leaf(Some(v)) => Some(Scalar(v))
    case Empty(b) => Some(Flag(b))
    case Enum(n) => if n != 0 && k.EnumKind? then Some(Named(n, NameText(k.names, n))) else None
    case Union(Some(u)) => Some(Scalar(u))
    case LeafList(vs) => if vs != [] then Some(Many(vs)) else None
    case _ => None
  }

  /** The struct below a container or list field at path element `e`. */
  function Below(k: Kind, f: Field, e: PathElem): Option<(Schema, Struct)> {
    match (k, f)
    case (ContainerKind(st), Container(Some(c))) => if e.key.None? then Some((st, c)) else None
    case (ListKind(st), List(m)) => if e.key.Some? && e.key.value in m then Some((st, m[e.key.value])) else None
    case _ => None
  }

  function LeafAt(st: Schema, s: Struct, p: Path): Option<Value>
    decreases p
  {
    if p == [] then None else
    var i := Find(st.fields, p[0].name);
    if i >= |st.fields| || i >= |s.fields| then None else
    var (k, f) := (st.fields[i].kind, s.fields[i]);
    if k.ContainerKind? || k.ListKind? then
      var x := Below(k, f, p[0]);
      if x.None? then None else LeafAt(x.value.0, x.value.1, p[1..])
    else if p[0].key.None? && |p| == 1 then OwnLeaf(k, f) else None
  }

  /** A struct (the root, a container or a list instance) is present at `p`. */
  function NodeAt(st: Schema, s: Struct, p: Path): bool
    decreases p
  {
    if p == [] then true else
    var i := Find(st.fields, p[0].name);
    if i >= |st.fields| || i >= |s.fields| then false else
    var x := Below(st.fields[i].kind, s.fields[i], p[0]);
    x.Some? && NodeAt(x.value.0, x.value.1, p[1..])
  }

  function LeafOf(st: Schema, a: Option<Struct>, p: Path): Option<Value> {
    if a.None? then None else LeafAt(st, a.value, p)
  }

  function NodeOf(st: Schema, a: Option<Struct>, p: Path): bool {
    a.Some? && NodeAt(st, a.value, p)
  }

  /** An empty-type leaf that is false is the same as one that is not there. */
  function Eff(v: Option<Value>): Option<Value> {
    if v == Some(Flag(false)) then None else v
  }

  // ----- correct differences

  datatype Scope = Whole | Heads(es: iset<PathElem>) {
    ghost predicate Has(p: Path) { Whole? || (p != [] && p[0] in es) }
  }

  ghost predicate Covered(ds: seq<Path>, p: Path) {
    exists d :: d in ds && d <= p
  }

  /** A delete removes something that `b` does not have, and hits no leaf of `b`. */
  ghost predicate GoodDelete(pre: Path, st: Schema, a: Option<Struct>, b: Option<Struct>, scope: Scope, d: Path) {
    && pre <= d
    && var r := d[|pre|..];
    && scope.Has(r)
    && ((Eff(LeafOf(st, a, r)).Some? && LeafOf(st, b, r).None?) || (NodeOf(st, a, r) && !NodeOf(st, b, r)))
    && forall p :: r <= p ==> LeafOf(st, b, p).None?
  }

  /** An update carries the value of a leaf of `b`; unless all leaves are recorded, one that changed. */
  ghost predicate GoodUpdate(pre: Path, st: Schema, a: Option<Struct>, b: Option<Struct>, all: bool, scope: Scope,
                             u: Update) {
    && pre <= u.path
    && var r := u.path[|pre|..];
    && scope.Has(r)
    && LeafOf(st, b, r) == Some(u.val)
    && (!all ==> Eff(LeafOf(st, a, r)) != Eff(Some(u.val)))
  }

  /** The changes account for relative path `p`. */
  ghost predicate Settled(pre: Path, st: Schema, a: Option<Struct>, b: Option<Struct>, all: bool,
                          ds: seq<Path>, us: seq<Update>, p: Path) {
    var (la, lb) := (LeafOf(st, a, p), LeafOf(st, b, p));
    && (lb.Some? ==> Update(pre + p, lb.value) in us
                     || (!all && la == lb)
                     || (lb.value == Flag(false) && Eff(la).None?))
    && (lb.None? && Eff(la).Some? ==> Covered(ds, pre + p))
    && (NodeOf(st, a, p) && !NodeOf(st, b, p) ==> Covered(ds, pre + p))
  }

  ghost predicate DiffOn(pre: Path, st: Schema, a: Option<Struct>, b: Option<Struct>, all: bool, scope: Scope,
                         ds: seq<Path>, us: seq<Update>) {
    && (forall d :: d in ds ==> GoodDelete(pre, st, a, b, scope, d))
    && (forall u :: u in us ==> GoodUpdate(pre, st, a, b, all, scope, u))
    && (forall p :: scope.Has(p) ==> Settled(pre, st, a, b, all, ds, us, p))
  }

  ghost predicate IsDiff(pre: Path, st: Schema, a: Option<Struct>, b: Option<Struct>, all: bool,
                         ds: seq<Path>, us: seq<Update>) {
    DiffOn(pre, st, a, b, all, Whole, ds, us)
  }

  // ----- putting differences together

  lemma {:induction false} SettledMore(pre: Path, st: Schema, a: Option<Struct>, b: Option<Struct>, all: bool,
                                       ds: seq<Path>, us: seq<Update>, ds': seq<Path>, us': seq<Update>, p: Path)
    requires Settled(pre, st, a, b, all, ds, us, p)
    requires forall d :: d in ds ==> d in ds'
    requires forall u :: u in us ==> u in us'
    ensures Settled(pre, st, a, b, all, ds', us', p)
  {
    if Covered(ds, pre + p) {
      var d :| d in ds && d <= pre + p;
      assert d in ds';
    }
  }

  /** Changes for two parts of a struct are changes for both parts. */
  lemma {:induction false} DiffUnion(pre: Path, st: Schema, a: Option<Struct>, b: Option<Struct>, all: bool,
                                     x: iset<PathElem>, y: iset<PathElem>, ds: seq<Path>, us: seq<Update>,
                                     ds': seq<Path>, us': seq<Update>)
    requires DiffOn(pre, st, a, b, all, Heads(x), ds, us)
    requires DiffOn(pre, st, a, b, all, Heads(y), ds', us')
    ensures DiffOn(pre, st, a, b, all, Heads(x + y), ds + ds', us + us')
  {
    forall d | d in ds + ds' ensures GoodDelete(pre, st, a, b, Heads(x + y), d) {
      assert d in ds || d in ds';
    }
    forall u | u in us + us' ensures GoodUpdate(pre, st, a, b, all, Heads(x + y), u) {
      assert u in us || u in us';
    }
    forall p | Heads(x + y).Has(p) ensures Settled(pre, st, a, b, all, ds + ds', us + us', p) {
      if Heads(x).Has(p) {
        SettledMore(pre, st, a, b, all, ds, us, ds + ds', us + us', p);
      } else {
        assert Heads(y).Has(p);
        SettledMore(pre, st, a, b, all, ds', us', ds + ds', us + us', p);
      }
    }
  }

  /** Where neither struct has anything, no change is needed. */
  lemma {:induction false} DiffNothing(pre: Path, st: Schema, a: Option<Struct>, b: Option<Struct>, all: bool,
                                       x: iset<PathElem>)
    requires forall p :: Heads(x).Has(p) ==>
                           LeafOf(st, a, p).None? && LeafOf(st, b, p).None? && !NodeOf(st, a, p) && !NodeOf(st, b, p)
    ensures DiffOn(pre, st, a, b, all, Heads(x), [], [])
  {
  }

  /** The child at element `e`. */
  ghost predicate ChildIs(st: Schema, a: Option<Struct>, e: PathElem, st': Schema, a': Option<Struct>) {
    forall p {:trigger LeafOf(st', a', p)} {:trigger NodeOf(st', a', p)} ::
      LeafOf(st, a, [e] + p) == LeafOf(st', a', p) && NodeOf(st, a, [e] + p) == NodeOf(st', a', p)
  }

  /** Changes of a child, recorded under the longer prefix, are changes of the parent. */
  lemma {:induction false} DiffLift(pre: Path, st: Schema, a: Option<Struct>, b: Option<Struct>, all: bool,
                                    e: PathElem, st': Schema,
                                    a': Option<Struct>, b': Option<Struct>, ds: seq<Path>, us: seq<Update>)
    requires IsDiff(pre + [e], st', a', b', all, ds, us)
    requires ChildIs(st, a, e, st', a') && ChildIs(st, b, e, st', b')
    ensures DiffOn(pre, st, a, b, all, Heads(iset{e}), ds, us)
  {
    var scope := Heads(iset{e});
    forall d | d in ds ensures GoodDelete(pre, st, a, b, scope, d) {
      assert GoodDelete(pre + [e], st', a', b', Whole, d);
      LiftDelete(pre, st, a, b, e, st', a', b', d);
    }
    forall u | u in us ensures GoodUpdate(pre, st, a, b, all, scope, u) {
      assert GoodUpdate(pre + [e], st', a', b', all, Whole, u);
      Split(pre, e, u.path);
    }
    forall p | scope.Has(p) ensures Settled(pre, st, a, b, all, ds, us, p) {
      assert p == [e] + p[1..] && pre + p == (pre + [e]) + p[1..];
      assert Settled(pre + [e], st', a', b', all, ds, us, p[1..]);
    }
  }

  lemma {:induction false} Split(pre: Path, e: PathElem, q: Path)
    requires pre + [e] <= q
    ensures pre <= q && q[|pre|..] == [e] + q[|pre| + 1..] && q[|pre + [e]|..] == q[|pre| + 1..]
  {
    assert q == (pre + [e]) + q[|pre| + 1..];
    assert q[..|pre|] == pre;
    assert q[|pre|] == e;
  }

  lemma {:induction false} LiftDelete(pre: Path, st: Schema, a: Option<Struct>, b: Option<Struct>, e: PathElem,
                                      st': Schema,
                                      a': Option<Struct>, b': Option<Struct>, d: Path)
    requires GoodDelete(pre + [e], st', a', b', Whole, d)
    requires ChildIs(st, a, e, st', a') && ChildIs(st, b, e, st', b')
    ensures GoodDelete(pre, st, a, b, Heads(iset{e}), d)
  {
    Split(pre, e, d);
    var r, r' := d[|pre|..], d[|pre + [e]|..];
    assert r' == r[1..];
    forall p | r <= p ensures LeafOf(st, b, p).None? {
      assert p == [e] + p[1..] && r' <= p[1..];
      assert LeafOf(st', b', p[1..]).None?;
    }
  }

  /** Changes for all fields of a present struct are changes of the struct. */
  lemma {:induction false} DiffWhole(pre: Path, st: Schema, a: Option<Struct>, b: Option<Struct>, all: bool,
                                     x: iset<PathElem>,
                                     ds: seq<Path>, us: seq<Update>)
    requires b.Some?
    requires DiffOn(pre, st, a, b, all, Heads(x), ds, us)
    requires forall e: PathElem :: e !in x ==> Find(st.fields, e.name) == |st.fields|
    ensures IsDiff(pre, st, a, b, all, ds, us)
  {
    forall d | d in ds ensures GoodDelete(pre, st, a, b, Whole, d) {
      assert GoodDelete(pre, st, a, b, Heads(x), d);
    }
    forall u | u in us ensures GoodUpdate(pre, st, a, b, all, Whole, u) {
      assert GoodUpdate(pre, st, a, b, all, Heads(x), u);
    }
    forall p ensures Settled(pre, st, a, b, all, ds, us, p) {
      if Heads(x).Has(p) {
        assert Settled(pre, st, a, b, all, ds, us, p);
      }
    }
  }

  /** A struct that is gone is removed by one delete of its own path. */
  lemma {:induction false} DiffGone(pre: Path, st: Schema, a: Struct, all: bool)
    ensures IsDiff(pre, st, Some(a), None, all, [pre], [])
  {
    assert pre[|pre|..] == [];
    assert GoodDelete(pre, st, Some(a), None, Whole, pre);
    forall p: Path ensures Covered([pre], pre + p) {
      assert pre in [pre] && pre <= pre + p;
    }
  }

  function Prefixed(pre: Path, us: seq<Update>): seq<Update> {
    seq(|us|, i requires 0 <= i < |us| => Update(pre + us[i].path, us[i].val))
  }

  /** Moving the listing of a new struct below a prefix. */
  lemma {:induction false} DiffPrefixed(pre: Path, st: Schema, b: Option<Struct>, all: bool, us: seq<Update>)
    requires IsDiff([], st, None, b, false, [], us)
    ensures IsDiff(pre, st, None, b, all, [], Prefixed(pre, us))
  {
    var us' := Prefixed(pre, us);
    forall u' | u' in us' ensures GoodUpdate(pre, st, None, b, all, Whole, u') {
      var i :| 0 <= i < |us'| && us'[i] == u';
      assert us[i] in us && GoodUpdate([], st, None, b, false, Whole, us[i]);
      assert us[i].path[0..] == us[i].path && u'.path[|pre|..] == us[i].path;
    }
    forall p: Path ensures Settled(pre, st, None, b, all, [], us', p) {
      assert Settled([], st, None, b, false, [], us, p);
      assert [] + p == p;
      if LeafOf(st, b, p).Some? && Update(p, LeafOf(st, b, p).value) in us {
        var i :| 0 <= i < |us| && us[i] == Update(p, LeafOf(st, b, p).value);
        assert us'[i] == Update(pre + p, LeafOf(st, b, p).value);
      }
    }
  }
}
