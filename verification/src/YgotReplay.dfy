/** What a receiver gets from a difference: replaying it turns the leaves of the old tree into those of the new. */
module YgotReplay {
  import opened Options
  import opened YgotTree

  type Replica = map<Path, Value>

  function Get(m: Replica, p: Path): Option<Value> {
    if p in m then Some(m[p]) else None
  }

  ghost function WithDeletes(m: Replica, ds: seq<Path>): Replica {
    map p | p in m && !Covered(ds, p) :: m[p]
  }

  function WithUpdates(m: Replica, us: seq<Update>): Replica
    decreases |us|
  {
    if us == [] then m else WithUpdates(m[us[0].path := us[0].val], us[1..])
  }

  /** A receiver handles the deletes of a message before its updates. */
  ghost function Apply(m: Replica, ds: seq<Path>, us: seq<Update>): Replica {
    WithUpdates(WithDeletes(m, ds), us)
  }

  lemma {:induction false} UpdatesAt(m: Replica, us: seq<Update>, p: Path, v: Value)
    requires forall u :: u in us && u.path == p ==> u.val == v
    ensures Get(WithUpdates(m, us), p) == if Update(p, v) in us then Some(v) else Get(m, p)
    decreases |us|
  {
    if us != [] {
      var m' := m[us[0].path := us[0].val];
      UpdatesAt(m', us[1..], p, v);
      assert us == [us[0]] + us[1..];
      assert us[0] in us;
    }
  }

  /** No delete is a prefix of an update, so a receiver may handle them in either order. */
  lemma {:induction false} NoOverlap(pre: Path, st: Schema, a: Option<Struct>, b: Option<Struct>, all: bool,
                                     ds: seq<Path>, us: seq<Update>)
    requires IsDiff(pre, st, a, b, all, ds, us)
    ensures forall d, u :: d in ds && u in us ==> !(d <= u.path)
    ensures forall m: Replica :: WithDeletes(WithUpdates(m, us), ds) == Apply(m, ds, us)
  {
    forall d, u | d in ds && u in us ensures !(d <= u.path) {
      assert GoodDelete(pre, st, a, b, Whole, d) && GoodUpdate(pre, st, a, b, all, Whole, u);
    }
    forall m: Replica ensures WithDeletes(WithUpdates(m, us), ds) == Apply(m, ds, us) {
      EitherOrder(m, ds, us);
    }
  }

  lemma {:induction false} EitherOrder(m: Replica, ds: seq<Path>, us: seq<Update>)
    requires forall d, u :: d in ds && u in us ==> !(d <= u.path)
    ensures WithDeletes(WithUpdates(m, us), ds) == WithUpdates(WithDeletes(m, ds), us)
    decreases |us|
  {
    if us != [] {
      var u := us[0];
      assert u in us && !Covered(ds, u.path);
      assert WithDeletes(m[u.path := u.val], ds) == WithDeletes(m, ds)[u.path := u.val];
      EitherOrder(m[u.path := u.val], ds, us[1..]);
    }
  }

  /** `m` holds below `pre` exactly the leaves of `a`. */
  ghost predicate Mirrors(m: Replica, pre: Path, st: Schema, a: Option<Struct>) {
    forall p: Path {:trigger LeafOf(st, a, p)} :: Eff(Get(m, pre + p)) == Eff(LeafOf(st, a, p))
  }

  lemma {:induction false} AppliedAt(m: Replica, pre: Path, st: Schema, a: Option<Struct>, b: Option<Struct>, all: bool,
                                     ds: seq<Path>, us: seq<Update>, p: Path)
    requires IsDiff(pre, st, a, b, all, ds, us)
    requires Eff(Get(m, pre + p)) == Eff(LeafOf(st, a, p))
    ensures Eff(Get(Apply(m, ds, us), pre + p)) == Eff(LeafOf(st, b, p))
  {
    var q, lb := pre + p, LeafOf(st, b, p);
    var v := if lb.Some? then lb.value else Flag(false);
    assert q[|pre|..] == p;
    forall u | u in us && u.path == q ensures lb == Some(u.val) {
      assert GoodUpdate(pre, st, a, b, all, Whole, u);
    }
    UpdatesAt(WithDeletes(m, ds), us, q, v);
    assert Settled(pre, st, a, b, all, ds, us, p);
    if lb.Some? {
      forall d | d in ds ensures !(d <= q) {
        assert GoodDelete(pre, st, a, b, Whole, d);
      }
      assert !Covered(ds, q);
    }
  }

  /** MAIN RESULT. Applying the recorded changes to the leaves of the old tree gives the leaves of the new
      tree, and touches nothing outside the prefix. */
  lemma {:induction false} ReplayGivesNewTree(m: Replica, pre: Path, st: Schema, a: Option<Struct>, b: Option<Struct>,
                                              all: bool,
                                              ds: seq<Path>, us: seq<Update>)
    requires IsDiff(pre, st, a, b, all, ds, us) && Mirrors(m, pre, st, a)
    ensures Mirrors(Apply(m, ds, us), pre, st, b)
    ensures forall q: Path :: !(pre <= q) ==> Get(Apply(m, ds, us), q) == Get(m, q)
  {
    forall p: Path ensures Eff(Get(Apply(m, ds, us), pre + p)) == Eff(LeafOf(st, b, p)) {
      assert Eff(Get(m, pre + p)) == Eff(LeafOf(st, a, p));
      AppliedAt(m, pre, st, a, b, all, ds, us, p);
    }
    forall q: Path | !(pre <= q) ensures Get(Apply(m, ds, us), q) == Get(m, q) {
      forall u | u in us ensures u.path != q { assert GoodUpdate(pre, st, a, b, all, Whole, u); }
      forall d | d in ds ensures !(d <= q) { assert GoodDelete(pre, st, a, b, Whole, d); }
      UpdatesAt(WithDeletes(m, ds), us, q, Flag(false));
    }
  }

  /** Without `RecordAll` nothing is recorded exactly when the trees have the same leaves and every container
      and list instance of the old tree is in the new one. */
  lemma {:induction false} EmptyIff(pre: Path, st: Schema, a: Option<Struct>, b: Option<Struct>, ds: seq<Path>,
                                    us: seq<Update>)
    requires IsDiff(pre, st, a, b, false, ds, us)
    ensures ds == [] && us == [] <==>
            && (forall p: Path :: Eff(LeafOf(st, a, p)) == Eff(LeafOf(st, b, p)))
            && (forall p: Path :: NodeOf(st, a, p) ==> NodeOf(st, b, p))
  {
    if ds == [] && us == [] {
      forall p: Path
        ensures Eff(LeafOf(st, a, p)) == Eff(LeafOf(st, b, p)) && (NodeOf(st, a, p) ==> NodeOf(st, b, p))
      {
        assert Settled(pre, st, a, b, false, ds, us, p);
      }
    } else if ds != [] {
      assert ds[0] in ds && GoodDelete(pre, st, a, b, Whole, ds[0]);
      var r := ds[0][|pre|..];
      assert Eff(LeafOf(st, a, r)) != Eff(LeafOf(st, b, r)) || (NodeOf(st, a, r) && !NodeOf(st, b, r));
    } else {
      assert us[0] in us && GoodUpdate(pre, st, a, b, false, Whole, us[0]);
      var r := us[0].path[|pre|..];
      assert Eff(LeafOf(st, a, r)) != Eff(LeafOf(st, b, r));
    }
  }

  /** Equal leaves alone are not enough: an old container without leaves that is gone is still deleted. */
  lemma {:induction false} EqualLeavesMayDiffer()
    ensures exists st, a, b :: Typed(st, a) && Typed(st, b)
                               && (forall p: Path :: LeafAt(st, a, p) == LeafAt(st, b, p))
                               && forall ds, us :: IsDiff([], st, Some(a), Some(b), false, ds, us) ==> ds != []
  {
    var inner := Schema([]);
    var st := Schema([FieldType("c", ContainerKind(inner))]);
    var a, b := Struct(map[], [Container(Some(Struct(map[], [])))]), Struct(map[], [Container(None)]);
    assert FieldTyped(st.fields[0].kind, a.fields[0]) && FieldTyped(st.fields[0].kind, b.fields[0]);
    assert Typed(st, a) && Typed(st, b);
    forall p: Path ensures LeafAt(st, a, p) == LeafAt(st, b, p) {
      if p != [] && p[0].name == "c" {
        assert LeafAt(inner, Struct(map[], []), p[1..]).None?;
      }
    }
    var p := [PathElem("c", None)];
    assert Find(st.fields, "c") == 0;
    assert p[1..] == [];
    assert NodeAt(inner, Struct(map[], []), []);
    assert NodeAt(st, a, p) && !NodeAt(st, b, p);
    forall ds, us | IsDiff([], st, Some(a), Some(b), false, ds, us) ensures ds != [] {
      assert Settled([], st, Some(a), Some(b), false, ds, us, p);
      assert [] + p == p;
    }
  }

  /** With `RecordAll` every leaf of the new tree is recorded. */
  lemma {:induction false} RecordAllRecordsAll(pre: Path, st: Schema, a: Option<Struct>, b: Option<Struct>,
                                               ds: seq<Path>, us: seq<Update>, p: Path)
    requires IsDiff(pre, st, a, b, true, ds, us) && Eff(LeafOf(st, b, p)).Some?
    ensures Update(pre + p, LeafOf(st, b, p).value) in us
  {
    assert Settled(pre, st, a, b, true, ds, us, p);
  }
}
