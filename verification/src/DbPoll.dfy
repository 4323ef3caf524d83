/** Polling a database: each poll sends the present values, one delete per disappearance and a sync marker. */
module DbPoll {
  datatype Value = Text(text: string) | Table(fields: map<string, string>)
  datatype Observation = Missing | Failed | Got(val: Value)

  // ----- what one path reads

  /** A field of a hash, or the fields of a table. */
  datatype Source = FieldSource(present: bool, val: string) | TableSource(ok: bool, fields: map<string, string>)

  /** The fields of the tables read, later ones over earlier ones. */
  function Merged(ss: seq<Source>): map<string, string> {
    if ss == [] then map[]
    else Merged(ss[..|ss| - 1]) + (if ss[|ss| - 1].TableSource? then ss[|ss| - 1].fields else map[])
  }

  /** Reading goes on behind a source that neither ends it with a field value nor fails. */
  predicate GoesOn(s: Source) {
    if s.FieldSource? then !s.present else s.ok
  }

  /** The source that decides is the first that does not go on; without one the merged tables count, if they can be
      rendered. */
  ghost predicate IsObserved(ss: seq<Source>, renders: bool, o: Observation) {
    || (exists i :: 0 <= i < |ss| && !GoesOn(ss[i]) && (forall j :: 0 <= j < i ==> GoesOn(ss[j]))
                    && o == if ss[i].FieldSource? then Got(Text(ss[i].val)) else Failed)
    || ((forall j :: 0 <= j < |ss| ==> GoesOn(ss[j]))
        && o == if |Merged(ss)| == 0 then Missing else if renders then Got(Table(Merged(ss))) else Failed)
  }

  lemma {:induction false} MergedStep(ss: seq<Source>, i: nat)
    requires i < |ss|
    ensures Merged(ss[..i + 1]) == Merged(ss[..i]) + (if ss[i].TableSource? then ss[i].fields else map[])
  {
    assert ss[..i + 1][..i] == ss[..i];
  }

  lemma {:induction false} MergeGrows(a: map<string, string>, b: map<string, string>)
    ensures |a| > 0 ==> |a + b| > 0
  {
    if |a| > 0 {
      var x :| x in a;
      assert x in a + b;
    }
  }

  lemma {:induction false} MergeNothing(a: map<string, string>)
    ensures a + map[] == a
  {
  }

  method SubscribeTableData(ss: seq<Source>, renders: bool) returns (o: Observation)
    ensures IsObserved(ss, renders, o)
  {
    var msi := map[];
    var updateReceived := false;
    for i := 0 to |ss|
      invariant forall j :: 0 <= j < i ==> GoesOn(ss[j])
      invariant msi == Merged(ss[..i])
      invariant updateReceived <==> |msi| > 0
    {
      MergedStep(ss, i);
      if ss[i].FieldSource? {
        MergeNothing(msi);
        if ss[i].present {
          return Got(Text(ss[i].val));
        }
      } else {
        if !ss[i].ok {
          return Failed;
        }
        MergeGrows(msi, ss[i].fields);
        msi := msi + ss[i].fields;
        if !updateReceived && |msi| > 0 {
          updateReceived := true;
        }
      }
    }
    assert ss[..|ss|] == ss;
    if !updateReceived {
      return Missing;
    }
    return if renders then Got(Table(msi)) else Failed;
  }

  // ----- the stream and its receiver

  type Path = string
  type Reading = map<Path, Observation>
  datatype Msg = Update(path: Path, val: Value) | Delete(path: Path) | Sync
  type Store = map<Path, Value>

  function Received(s: Store, m: Msg): Store {
    match m
    case Update(p, v) => s[p := v]
    case Delete(p) => s - {p}
    case Sync => s
  }

  function Fold(q: seq<Msg>): Store {
    if q == [] then map[] else Received(Fold(q[..|q| - 1]), q[|q| - 1])
  }

  /** What the receiver holds at each sync marker. */
  function AtSyncs(q: seq<Msg>): seq<Store> {
    if q == [] then []
    else AtSyncs(q[..|q| - 1]) + (if q[|q| - 1].Sync? then [Fold(q)] else [])
  }

  function Deletes(q: seq<Msg>, p: Path): nat {
    if q == [] then 0 else Deletes(q[..|q| - 1], p) + (if q[|q| - 1] == Delete(p) then 1 else 0)
  }

  /** The values present in a reading. */
  function Present(r: Reading): Store {
    map p | p in r && r[p].Got? :: r[p].val
  }

  function Presents(rs: seq<Reading>): seq<Store> {
    seq(|rs|, i requires 0 <= i < |rs| => Present(rs[i]))
  }

  predicate Has(r: Reading, p: Path) {
    p in r && r[p].Got?
  }

  /** How often a path was present in one poll and missing in the next. */
  function Disappearances(rs: seq<Reading>, p: Path): nat {
    if |rs| < 2 then 0
    else Disappearances(rs[..|rs| - 1], p) + (if Has(rs[|rs| - 2], p) && !Has(rs[|rs| - 1], p) then 1 else 0)
  }

  predicate Complete(r: Reading) {
    forall p :: p in r ==> !r[p].Failed?
  }

  lemma {:induction false} OneMorePresent(rs: seq<Reading>, r: Reading)
    ensures Presents(rs + [r]) == Presents(rs) + [Present(r)]
  {
  }

  lemma {:induction false} OneMoreDisappearance(rs: seq<Reading>, r: Reading, p: Path)
    ensures Disappearances(rs + [r], p)
         == Disappearances(rs, p) + (if |rs| > 0 && Has(rs[|rs| - 1], p) && !Has(r, p) then 1 else 0)
  {
    assert (rs + [r])[..|rs|] == rs;
  }

  lemma {:induction false} Appended(q: seq<Msg>, m: Msg)
    ensures Fold(q + [m]) == Received(Fold(q), m)
    ensures AtSyncs(q + [m]) == AtSyncs(q) + (if m.Sync? then [Fold(q + [m])] else [])
    ensures forall p :: Deletes(q + [m], p) == Deletes(q, p) + (if m == Delete(p) then 1 else 0)
  {
    assert (q + [m])[..|q + [m]| - 1] == q;
  }

  type Flags = map<Path, bool>

  /** The store and the flag of a path agree with a reading. */
  predicate Agrees(store: Store, flags: Flags, r: Reading, p: Path) {
    && (p in store <==> Has(r, p)) && (Has(r, p) ==> store[p] == r[p].val)
    && (Has(r, p) <==> p in flags && flags[p])
  }

  /** The paths in `done` agree with the present reading, the others with the one before. */
  ghost predicate InStep(paths: set<Path>, store: Store, flags: Flags, prev: Reading, now: Reading, done: set<Path>) {
    && store.Keys <= paths
    && forall p :: p in paths ==> Agrees(store, flags, if p in done then now else prev, p)
  }

  lemma {:induction false} PathDone(paths: set<Path>, store: Store, flags: Flags, prev: Reading, now: Reading,
                                    done: set<Path>,
                                    store': Store, flags': Flags, p: Path)
    requires InStep(paths, store, flags, prev, now, done) && p in paths && Agrees(store', flags', now, p)
    requires forall x :: x != p ==> (x in store' <==> x in store) && (x in store ==> store'[x] == store[x])
    requires forall x :: x != p ==> (x in flags' <==> x in flags) && (x in flags ==> flags'[x] == flags[x])
    ensures InStep(paths, store', flags', prev, now, done + {p})
  {
    forall x | x in paths ensures Agrees(store', flags', if x in done + {p} then now else prev, x) {
      assert Agrees(store, flags, if x in done then now else prev, x);
    }
  }

  lemma {:induction false} AllDone(paths: set<Path>, store: Store, flags: Flags, prev: Reading, now: Reading)
    requires InStep(paths, store, flags, prev, now, paths) && now.Keys == paths
    ensures store == Present(now)
  {
    forall p | p in paths ensures p in store <==> p in Present(now) {
      assert Agrees(store, flags, now, p);
    }
    forall p | p in store ensures store[p] == Present(now)[p] {
      assert Agrees(store, flags, now, p);
    }
  }

  class DbClient {
    const paths: set<Path>
    var q: seq<Msg>
    var prevUpdates: Flags

    constructor (paths: set<Path>)
      ensures this.paths == paths && q == [] && prevUpdates == map[]
    {
      this.paths, q, prevUpdates := paths, [], map[];
    }

    /** One path of a poll: at most one message, a delete only for a path that was present. */
    method PollPath(p: Path, ghost prev: Reading, now: Reading, ghost done: set<Path>) returns (ok: bool)
      requires p in paths && p in now && p !in done
      requires InStep(paths, Fold(q), prevUpdates, prev, now, done)
      modifies `q, `prevUpdates
      ensures ok <==> !now[p].Failed?
      ensures ok ==> InStep(paths, Fold(q), prevUpdates, prev, now, done + {p})
      ensures AtSyncs(q) == AtSyncs(old(q))
      ensures forall x :: Deletes(q, x) == Deletes(old(q), x)
                                           + (if x == p && ok && Has(prev, p) && !Has(now, p) then 1 else 0)
    {
      assert Agrees(Fold(q), prevUpdates, prev, p);
      if now[p].Failed? {
        return false;
      }
      ghost var store, flags := Fold(q), prevUpdates;
      if now[p].Missing? {
        if p in prevUpdates && prevUpdates[p] {
          Appended(q, Delete(p));
          q := q + [Delete(p)];
          prevUpdates := prevUpdates[p := false];
        }
      } else {
        Appended(q, Update(p, now[p].val));
        q := q + [Update(p, now[p].val)];
        prevUpdates := prevUpdates[p := true];
      }
      PathDone(paths, store, flags, prev, now, done, Fold(q), prevUpdates, p);
      return true;
    }

    /** One poll: every path in any order, then the sync marker. */
    method PollOnce(ghost prev: Reading, now: Reading) returns (ok: bool)
      requires paths == now.Keys && InStep(paths, Fold(q), prevUpdates, prev, now, {})
      modifies `q, `prevUpdates
      ensures ok <==> Complete(now)
      ensures !ok ==> AtSyncs(q) == AtSyncs(old(q))
      ensures ok ==> InStep(paths, Fold(q), prevUpdates, prev, now, paths)
      ensures ok ==> AtSyncs(q) == AtSyncs(old(q)) + [Present(now)]
      ensures ok ==> forall p :: p in paths ==>
                                   Deletes(q, p) == Deletes(old(q), p) + (if Has(prev, p) && !Has(now, p) then 1 else 0)
    {
      var todo := paths;
      ghost var done := {};
      while todo != {}
        invariant done + todo == paths && done !! todo
        invariant InStep(paths, Fold(q), prevUpdates, prev, now, done) && AtSyncs(q) == AtSyncs(old(q))
        invariant forall p :: Deletes(q, p) == Deletes(old(q), p)
                                               + (if p in done && Has(prev, p) && !Has(now, p) then 1 else 0)
        invariant forall p :: p in done ==> !now[p].Failed?
      {
        var p :| p in todo;
        ok := PollPath(p, prev, now, done);
        if !ok {
          return false;
        }
        todo, done := todo - {p}, done + {p};
      }
      assert done == paths;
      AllDone(paths, Fold(q), prevUpdates, prev, now);
      Appended(q, Sync);
      q := q + [Sync];
      return true;
    }

    ghost function Last(rs: seq<Reading>): Reading {
      if rs == [] then map[] else rs[|rs| - 1]
    }

    /** The receiver, the flags and the deletes after the polls of `rs`. */
    ghost predicate After(rs: seq<Reading>)
      reads this
    {
      && InStep(paths, Fold(q), prevUpdates, Last(rs), Last(rs), {}) && AtSyncs(q) == Presents(rs)
      && forall p :: p in paths ==> Deletes(q, p) == Disappearances(rs, p)
    }

    method PollNext(ghost rs: seq<Reading>, now: Reading) returns (ok: bool)
      requires paths == now.Keys && After(rs)
      modifies `q, `prevUpdates
      ensures ok <==> Complete(now)
      ensures if ok then After(rs + [now]) else AtSyncs(q) == Presents(rs)
    {
      OneMorePresent(rs, now);
      forall p | p in paths {
        OneMoreDisappearance(rs, now, p);
      }
      NextReading(paths, Fold(q), prevUpdates, Last(rs), now);
      ok := PollOnce(Last(rs), now);
      if ok {
        NewReading(paths, Fold(q), prevUpdates, Last(rs), now);
      }
    }

    /** MAIN RESULT. For any history of readings, at every sync marker the receiver holds exactly the values present
        in that poll, and each disappearance is told by exactly one delete. */
    method PollRun(readings: seq<Reading>) returns (polls: nat)
      requires q == [] && prevUpdates == map[]
      requires forall i :: 0 <= i < |readings| ==> readings[i].Keys == paths
      modifies `q, `prevUpdates
      ensures polls <= |readings| && AtSyncs(q) == Presents(readings[..polls])
      ensures polls == |readings| <==> forall i :: 0 <= i < |readings| ==> Complete(readings[i])
      ensures polls == |readings| ==> forall p :: p in paths ==> Deletes(q, p) == Disappearances(readings, p)
    {
      polls := 0;
      while polls < |readings|
        invariant polls <= |readings| && After(readings[..polls])
        invariant forall i :: 0 <= i < polls ==> Complete(readings[i])
      {
        var ok := PollNext(readings[..polls], readings[polls]);
        if !ok {
          return;
        }
        assert readings[..polls + 1] == readings[..polls] + [readings[polls]];
        polls := polls + 1;
      }
      assert readings[..polls] == readings;
    }
  }

  lemma {:induction false} NextReading(paths: set<Path>, store: Store, flags: Flags, prev: Reading, now: Reading)
    requires InStep(paths, store, flags, prev, prev, {})
    ensures InStep(paths, store, flags, prev, now, {})
  {
    forall p | p in paths ensures Agrees(store, flags, prev, p) {
      assert Agrees(store, flags, if p in {} then prev else prev, p);
    }
  }

  lemma {:induction false} NewReading(paths: set<Path>, store: Store, flags: Flags, prev: Reading, now: Reading)
    requires InStep(paths, store, flags, prev, now, paths)
    ensures InStep(paths, store, flags, now, now, {})
  {
    forall p | p in paths ensures Agrees(store, flags, now, p) {
      assert Agrees(store, flags, if p in paths then now else prev, p);
    }
  }
}
