/** The sampled stream: a cache compares each response with the previous one, tells the receiver what changed,
    and at the end of a round deletes what was not sampled again. */
module SampleStream {
  import opened Options
  import opened YgotTree
  import opened YgotReplay
  import YgotDiff

  datatype Entry = Entry(st: Schema, s: Struct)
  datatype Response = Response(path: Path, st: Schema, s: Struct)
  datatype Notification = Notification(prefix: Path, update: seq<Update>, delete: seq<Path>)
  type Cache = map<Path, Entry>

  predicate WellTyped(st: Schema, s: Struct) {
    DistinctNames(st) && Typed(st, s)
  }

  function OldOf(c: Cache, p: Path): Option<Struct> {
    if p in c then Some(c[p].s) else None
  }

  /** The path to delete for a cache key: the subscribed leaf when the key is the parent of that leaf. */
  function DeletePath(pattern: Path, p: Path): Path {
    if |p| < |pattern| then p + pattern[|p|..] else p
  }

  /** It goes on from the key as the pattern does, and ends where the longer of the two ends. */
  lemma {:induction false} DeletePathIs(pattern: Path, p: Path)
    ensures var d := DeletePath(pattern, p);
            && p <= d && |d| == (if |p| < |pattern| then |pattern| else |p|)
            && forall i :: |p| <= i < |d| ==> d[i] == pattern[i]
  {
  }

  // ----- one message, as seen by the cache and by the receiver

  /** A response goes into the cache and yields the difference to what was there, which had the same type. */
  ghost predicate Sampled(c: Cache, rcvd: set<Path>, r: Response, filterMsgs: bool, filterDups: bool,
                          n: Option<Notification>, c': Cache, rcvd': set<Path>) {
    && c' == c[r.path := Entry(r.st, r.s)]
    && rcvd' == rcvd + {r.path}
    && if filterMsgs then n.None? else
       && n.Some? && n.value.prefix == r.path && (r.path in c ==> c[r.path].st == r.st)
       && IsDiff([], r.st, OldOf(c, r.path), Some(r.s), !filterDups, n.value.delete, n.value.update)
  }

  /** The end of a round drops the entries that were not received and tells their paths. */
  ghost predicate Swept(c: Cache, rcvd: set<Path>, pattern: Path, filterMsgs: bool,
                        n: Option<Notification>, c': Cache) {
    if filterMsgs then c' == c && n.None? else
    && c' == (map p | p in c && p in rcvd :: c[p])
    && (n.None? ==> c.Keys <= rcvd)
    && (n.Some? ==>
          && n.value.prefix == [] && n.value.update == []
          && forall d :: d in n.value.delete <==> exists p :: p in c && p !in rcvd && d == DeletePath(pattern, p))
  }

  function Absolute(pre: Path, ds: seq<Path>): seq<Path> {
    seq(|ds|, i requires 0 <= i < |ds| => pre + ds[i])
  }

  /** What a receiver holds after a notification. */
  ghost function Replay(m: Replica, n: Option<Notification>): Replica {
    if n.None? then m
    else Apply(m, Absolute(n.value.prefix, n.value.delete), Prefixed(n.value.prefix, n.value.update))
  }

  class TranslSubscriber {
    const filterMsgs: bool
    const filterDups: bool
    var rcvdPaths: set<Path>

    constructor (filterMsgs: bool, filterDups: bool)
      ensures this.filterMsgs == filterMsgs && this.filterDups == filterDups && rcvdPaths == {}
    {
      this.filterMsgs, this.filterDups, rcvdPaths := filterMsgs, filterDups, {};
    }
  }

  class YgotCache {
    const pattern: Path
    var values: Cache

    constructor (pattern: Path)
      ensures this.pattern == pattern && values == map[]
    {
      this.pattern, values := pattern, map[];
    }

    /** Remembers a response and reports how it differs from the last one of its path. Only a response of another type,
        or with an unknown enumeration value, gives an error. */
    method MsgBuilder(v: Response, ts: TranslSubscriber) returns (n: Option<Notification>, ok: bool)
      requires WellTyped(v.st, v.s)
      requires forall p :: p in values ==> WellTyped(values[p].st, values[p].s)
      modifies this, ts
      ensures values == old(values)[v.path := Entry(v.st, v.s)] && ts.rcvdPaths == old(ts.rcvdPaths) + {v.path}
      ensures !ok ==> n.None? && !ts.filterMsgs
                      && (!EnumsKnown(v.st, v.s) || (v.path in old(values) && old(values)[v.path].st != v.st))
      ensures ok ==> Sampled(old(values), old(ts.rcvdPaths), v, ts.filterMsgs, ts.filterDups, n, values, ts.rcvdPaths)
    {
      var old' := if v.path in values then Some(values[v.path].s) else None;
      var oldType := if v.path in values then values[v.path].st else v.st;
      values := values[v.path := Entry(v.st, v.s)];
      ts.rcvdPaths := ts.rcvdPaths + {v.path};
      if ts.filterMsgs {
        return None, true;
      }
      var res, diffOk := YgotDiff.Diff(oldType, old', v.st, Some(v.s), !ts.filterDups);
      if !diffOk {
        return None, false;
      }
      return Some(Notification(v.path, res.update, res.delete)), true;
    }

    /** Drops every entry whose path was not received and reports their paths. */
    method DeleteMsgBuilder(ts: TranslSubscriber) returns (n: Option<Notification>)
      modifies this
      ensures Swept(old(values), ts.rcvdPaths, pattern, ts.filterMsgs, n, values)
    {
      if ts.filterMsgs {
        return None;
      }
      var deletePaths := [];
      var todo := values.Keys;
      ghost var done := {};
      while todo != {}
        invariant done + todo == old(values).Keys && done !! todo
        invariant values == map p | p in old(values) && (p in todo || p in ts.rcvdPaths) :: old(values)[p]
        invariant forall d :: d in deletePaths <==>
                              exists p :: p in done && p !in ts.rcvdPaths && d == DeletePath(pattern, p)
        invariant deletePaths == [] ==> done <= ts.rcvdPaths
      {
        var path :| path in todo;
        ghost var done0, dels0 := done, deletePaths;
        todo, done := todo - {path}, done + {path};
        if path !in ts.rcvdPaths {
          deletePaths := deletePaths + [DeletePath(pattern, path)];
          values := values - {path};
          assert forall d :: d in deletePaths <==> d in dels0 || d == DeletePath(pattern, path);
        }
      }
      if |deletePaths| == 0 {
        return None;
      }
      return Some(Notification([], [], deletePaths));
    }
  }

  // ----- what the receiver holds

  /** The receiver holds exactly the leaves of the cached structs. */
  ghost predicate InStep(c: Cache, m: Replica) {
    && (forall k :: k in c ==> Mirrors(m, k, c[k].st, Some(c[k].s)))
    && (forall q: Path :: Eff(Get(m, q)).Some? ==> exists k :: k in c && k <= q)
  }

  ghost predicate PrefixFree(ps: iset<Path>) {
    forall p, q :: p in ps && q in ps && p <= q ==> p == q
  }

  /** A response with one of the paths `ps`; what it holds lies below the path that a sweep would delete. */
  ghost predicate Uniform(ps: iset<Path>, pattern: Path, r: Response) {
    && r.path in ps && WellTyped(r.st, r.s)
    && forall p: Path :: Eff(LeafAt(r.st, r.s, p)).Some? ==> DeletePath(pattern, r.path) <= r.path + p
  }

  ghost predicate CacheOk(c: Cache, ps: iset<Path>, pattern: Path) {
    forall k :: k in c ==> Uniform(ps, pattern, Response(k, c[k].st, c[k].s))
  }

  lemma {:induction false} Comparable(p: Path, q: Path, x: Path)
    requires p <= x && q <= x
    ensures p <= q || q <= p
  {
  }

  lemma {:induction false} DeletesMoved(pre: Path, st: Schema, a: Option<Struct>, b: Option<Struct>, ds: seq<Path>,
                                        d': Path)
    requires forall d :: d in ds ==> GoodDelete([], st, a, b, Whole, d)
    requires d' in Absolute(pre, ds)
    ensures GoodDelete(pre, st, a, b, Whole, d')
  {
    var i :| 0 <= i < |ds| && Absolute(pre, ds)[i] == d';
    assert GoodDelete([], st, a, b, Whole, ds[i]);
    assert ds[i][0..] == ds[i] && d'[|pre|..] == ds[i];
  }

  lemma {:induction false} UpdatesMoved(pre: Path, st: Schema, a: Option<Struct>, b: Option<Struct>, all: bool,
                                        us: seq<Update>, u': Update)
    requires forall u :: u in us ==> GoodUpdate([], st, a, b, all, Whole, u)
    requires u' in Prefixed(pre, us)
    ensures GoodUpdate(pre, st, a, b, all, Whole, u')
  {
    var i :| 0 <= i < |us| && Prefixed(pre, us)[i] == u';
    assert GoodUpdate([], st, a, b, all, Whole, us[i]);
    assert us[i].path[0..] == us[i].path && u'.path[|pre|..] == us[i].path;
  }

  lemma {:induction false} CoverMoved(pre: Path, ds: seq<Path>, p: Path)
    requires Covered(ds, p)
    ensures Covered(Absolute(pre, ds), pre + p)
  {
    var d :| d in ds && d <= p;
    var i :| 0 <= i < |ds| && ds[i] == d;
    assert Absolute(pre, ds)[i] == pre + d;
    assert pre + d in Absolute(pre, ds) && pre + d <= pre + p;
  }

  lemma {:induction false} UpdateMoved(pre: Path, us: seq<Update>, u: Update)
    requires u in us
    ensures Update(pre + u.path, u.val) in Prefixed(pre, us)
  {
    var i :| 0 <= i < |us| && us[i] == u;
    assert Prefixed(pre, us)[i] == Update(pre + u.path, u.val);
  }

  lemma {:induction false} SettledMoved(pre: Path, st: Schema, a: Option<Struct>, b: Option<Struct>, all: bool,
                                        ds: seq<Path>,
                                        us: seq<Update>, p: Path)
    requires Settled([], st, a, b, all, ds, us, p)
    ensures Settled(pre, st, a, b, all, Absolute(pre, ds), Prefixed(pre, us), p)
  {
    assert [] + p == p;
    if Covered(ds, p) {
      CoverMoved(pre, ds, p);
    }
    var lb := LeafOf(st, b, p);
    if lb.Some? && Update(p, lb.value) in us {
      UpdateMoved(pre, us, Update(p, lb.value));
    }
  }

  /** Changes recorded from the root of a response, moved below its path. */
  lemma {:induction false} DiffMoved(pre: Path, st: Schema, a: Option<Struct>, b: Option<Struct>, all: bool,
                                     ds: seq<Path>, us: seq<Update>)
    requires IsDiff([], st, a, b, all, ds, us)
    ensures IsDiff(pre, st, a, b, all, Absolute(pre, ds), Prefixed(pre, us))
  {
    var ds', us' := Absolute(pre, ds), Prefixed(pre, us);
    forall d' | d' in ds' ensures GoodDelete(pre, st, a, b, Whole, d') {
      DeletesMoved(pre, st, a, b, ds, d');
    }
    forall u' | u' in us' ensures GoodUpdate(pre, st, a, b, all, Whole, u') {
      UpdatesMoved(pre, st, a, b, all, us, u');
    }
    forall p: Path ensures Settled(pre, st, a, b, all, ds', us', p) {
      SettledMoved(pre, st, a, b, all, ds, us, p);
    }
  }

  /** A sampled response keeps the receiver in step with the cache. */
  lemma {:induction false} SampledKeepsStep(c: Cache, rcvd: set<Path>, r: Response, filterDups: bool,
                                            n: Option<Notification>, c': Cache,
                                            rcvd': set<Path>, m: Replica, ps: iset<Path>, pattern: Path)
    requires Sampled(c, rcvd, r, false, filterDups, n, c', rcvd') && InStep(c, m)
    requires PrefixFree(ps) && CacheOk(c, ps, pattern) && Uniform(ps, pattern, r)
    ensures InStep(c', Replay(m, n)) && CacheOk(c', ps, pattern)
  {
    var a := OldOf(c, r.path);
    DiffMoved(r.path, r.st, a, Some(r.s), !filterDups, n.value.delete, n.value.update);
    var ds, us := Absolute(r.path, n.value.delete), Prefixed(r.path, n.value.update);
    var m' := Replay(m, n);
    if r.path !in c {
      forall p: Path ensures Eff(Get(m, r.path + p)).None? {
        forall k | k in c && k <= r.path + p ensures k == r.path {
          Comparable(k, r.path, r.path + p);
        }
      }
    }
    assert Mirrors(m, r.path, r.st, a);
    ReplayGivesNewTree(m, r.path, r.st, a, Some(r.s), !filterDups, ds, us);
    forall k | k in c' ensures Mirrors(m', k, c'[k].st, Some(c'[k].s)) {
      if k != r.path {
        OtherKept(c, m, m', k, r.path, ps);
      }
    }
    forall q: Path | Eff(Get(m', q)).Some? ensures exists k :: k in c' && k <= q {
      if r.path <= q {
        assert r.path in c';
      } else {
        assert Get(m', q) == Get(m, q);
        var k :| k in c && k <= q;
        assert k in c';
      }
    }
  }

  lemma {:induction false} OtherKept(c: Cache, m: Replica, m': Replica, k: Path, changed: Path, ps: iset<Path>)
    requires k in c && Mirrors(m, k, c[k].st, Some(c[k].s))
    requires PrefixFree(ps) && k in ps && changed in ps && k != changed
    requires forall q: Path :: !(changed <= q) ==> Get(m', q) == Get(m, q)
    ensures Mirrors(m', k, c[k].st, Some(c[k].s))
  {
    forall p: Path ensures Eff(Get(m', k + p)) == Eff(LeafOf(c[k].st, Some(c[k].s), p)) {
      if changed <= k + p {
        Comparable(changed, k, k + p);
        assert false;
      }
      assert Eff(Get(m, k + p)) == Eff(LeafOf(c[k].st, Some(c[k].s), p));
    }
  }

  lemma {:induction false} AbsoluteOfRoot(ds: seq<Path>)
    ensures Absolute([], ds) == ds && Prefixed([], []) == []
  {
    forall i | 0 <= i < |ds| ensures Absolute([], ds)[i] == ds[i] {}
  }

  /** The sweep at the end of a round keeps the receiver in step with the cache. */
  lemma {:induction false} SweptKeepsStep(c: Cache, rcvd: set<Path>, pattern: Path, n: Option<Notification>,
                                          c': Cache, m: Replica,
                                          ps: iset<Path>)
    requires Swept(c, rcvd, pattern, false, n, c') && InStep(c, m)
    requires PrefixFree(ps) && CacheOk(c, ps, pattern)
    ensures InStep(c', Replay(m, n)) && CacheOk(c', ps, pattern)
  {
    if n.None? {
      assert c' == c;
      return;
    }
    var ds, m' := n.value.delete, Replay(m, n);
    AbsoluteOfRoot(ds);
    assert m' == WithDeletes(m, ds);
    forall k | k in c' ensures Mirrors(m', k, c'[k].st, Some(c'[k].s)) {
      SweptKeeps(c, rcvd, pattern, ds, m, k, ps);
    }
    forall q: Path | Eff(Get(m', q)).Some? ensures exists k :: k in c' && k <= q {
      assert Get(m', q) == Get(m, q);
      var k :| k in c && k <= q;
      LeafBelow(c, m, k, q, pattern, ps);
      assert k !in rcvd ==> DeletePath(pattern, k) in ds;
      assert k in c';
    }
  }

  /** A leaf below a cached path is below the delete path of that cached path. */
  lemma {:induction false} LeafBelow(c: Cache, m: Replica, k: Path, q: Path, pattern: Path, ps: iset<Path>)
    requires InStep(c, m) && CacheOk(c, ps, pattern) && k in c && k <= q && Eff(Get(m, q)).Some?
    ensures DeletePath(pattern, k) <= q
  {
    assert q == k + q[|k|..];
    assert Uniform(ps, pattern, Response(k, c[k].st, c[k].s));
    assert Eff(Get(m, k + q[|k|..])) == Eff(LeafOf(c[k].st, Some(c[k].s), q[|k|..]));
  }

  lemma {:induction false} SweptKeeps(c: Cache, rcvd: set<Path>, pattern: Path, ds: seq<Path>, m: Replica, k: Path,
                                      ps: iset<Path>)
    requires k in c && k in rcvd && InStep(c, m) && PrefixFree(ps) && CacheOk(c, ps, pattern)
    requires forall d :: d in ds ==> exists p :: p in c && p !in rcvd && d == DeletePath(pattern, p)
    ensures Mirrors(WithDeletes(m, ds), k, c[k].st, Some(c[k].s))
  {
    forall p: Path ensures Eff(Get(WithDeletes(m, ds), k + p)) == Eff(LeafOf(c[k].st, Some(c[k].s), p)) {
      forall d | d in ds ensures !(d <= k + p) {
        var x :| x in c && x !in rcvd && d == DeletePath(pattern, x);
        assert x <= d;
        if d <= k + p {
          Comparable(x, k, k + p);
          assert false;
        }
      }
      assert Eff(Get(m, k + p)) == Eff(LeafOf(c[k].st, Some(c[k].s), p));
    }
  }

  // ----- rounds

  datatype State = State(cache: Cache, rcvd: set<Path>, replica: Replica)
  datatype Round = Round(responses: seq<Response>, filterMsgs: bool, filterDups: bool)

  ghost predicate SampleStep(s: State, r: Response, round: Round, s': State) {
    exists n :: Sampled(s.cache, s.rcvd, r, round.filterMsgs, round.filterDups, n, s'.cache, s'.rcvd)
                && s'.replica == Replay(s.replica, n)
  }

  ghost predicate SweepStep(s: State, pattern: Path, round: Round, s': State) {
    exists n :: Swept(s.cache, s.rcvd, pattern, round.filterMsgs, n, s'.cache)
                && s'.rcvd == s.rcvd && s'.replica == Replay(s.replica, n)
  }

  /** `trace` goes through the responses of one round, one state per response. */
  ghost predicate RoundTrace(trace: seq<State>, round: Round) {
    && |trace| == |round.responses| + 1
    && trace[0].rcvd == {}
    && forall i :: 0 <= i < |round.responses| ==> SampleStep(trace[i], round.responses[i], round, trace[i + 1])
  }

  ghost predicate RoundStep(s: State, pattern: Path, round: Round, s': State) {
    exists trace :: RoundTrace(trace, round) && trace[0] == s.(rcvd := {})
                    && SweepStep(trace[|trace| - 1], pattern, round, s')
  }

  /** The last response for each path. */
  function Latest(rs: seq<Response>): Cache {
    if rs == [] then map[] else
    var r := rs[|rs| - 1];
    Latest(rs[..|rs| - 1])[r.path := Entry(r.st, r.s)]
  }

  /** What a response does to the cache, whether or not a message is sent. */
  ghost predicate Caches(s: State, r: Response, s': State) {
    s'.cache == s.cache[r.path := Entry(r.st, r.s)] && s'.rcvd == s.rcvd + {r.path}
  }

  lemma {:induction false} StepCaches(s: State, r: Response, round: Round, s': State)
    requires SampleStep(s, r, round, s')
    ensures Caches(s, r, s') && (round.filterMsgs ==> s'.replica == s.replica)
  {
  }

  lemma {:induction false} AddedLast(c: Cache, l: Cache, p: Path, e: Entry)
    ensures (c + l)[p := e] == c + l[p := e] && l[p := e].Keys == l.Keys + {p}
  {
  }

  lemma {:induction false} CachesLatest(trace: seq<State>, rs: seq<Response>)
    requires |trace| == |rs| + 1 && trace[0].rcvd == {}
    requires forall i :: 0 <= i < |rs| ==> Caches(trace[i], rs[i], trace[i + 1])
    ensures trace[|rs|].cache == trace[0].cache + Latest(rs)
    ensures trace[|rs|].rcvd == Latest(rs).Keys
    decreases |rs|
  {
    if rs != [] {
      var n := |rs| - 1;
      CachesLatest(trace[..n + 1], rs[..n]);
      assert Caches(trace[n], rs[n], trace[n + 1]);
      AddedLast(trace[0].cache, Latest(rs[..n]), rs[n].path, Entry(rs[n].st, rs[n].s));
    }
  }

  lemma {:induction false} TraceCache(trace: seq<State>, round: Round)
    requires RoundTrace(trace, round)
    ensures trace[|trace| - 1].cache == trace[0].cache + Latest(round.responses)
    ensures trace[|trace| - 1].rcvd == Latest(round.responses).Keys
  {
    forall i | 0 <= i < |round.responses| ensures Caches(trace[i], round.responses[i], trace[i + 1]) {
      StepCaches(trace[i], round.responses[i], round, trace[i + 1]);
    }
    CachesLatest(trace, round.responses);
  }

  lemma {:induction false} TraceInStep(trace: seq<State>, round: Round, i: nat, ps: iset<Path>,
                                       pattern: Path)
    requires RoundTrace(trace, round) && i <= |round.responses| && !round.filterMsgs && PrefixFree(ps)
    requires InStep(trace[0].cache, trace[0].replica) && CacheOk(trace[0].cache, ps, pattern)
    requires forall r :: r in round.responses ==> Uniform(ps, pattern, r)
    ensures InStep(trace[i].cache, trace[i].replica) && CacheOk(trace[i].cache, ps, pattern)
  {
    if i > 0 {
      TraceInStep(trace, round, i - 1, ps, pattern);
      var s, s', r := trace[i - 1], trace[i], round.responses[i - 1];
      assert SampleStep(s, r, round, s');
      var n :| Sampled(s.cache, s.rcvd, r, round.filterMsgs, round.filterDups, n, s'.cache, s'.rcvd)
               && s'.replica == Replay(s.replica, n);
      SampledKeepsStep(s.cache, s.rcvd, r, round.filterDups, n, s'.cache, s'.rcvd, s.replica, ps, pattern);
    }
  }

  lemma {:induction false} SweptToLatest(c: Cache, latest: Cache, pattern: Path, n: Option<Notification>, c': Cache)
    requires Swept(c + latest, latest.Keys, pattern, false, n, c')
    ensures c' == latest
  {
  }

  /** One round: the cache holds the latest response of each received path and nothing else, and the receiver
      holds exactly their leaves. */
  lemma {:induction false} RoundExact(s: State, pattern: Path, round: Round, s': State, ps: iset<Path>)
    requires RoundStep(s, pattern, round, s') && !round.filterMsgs && PrefixFree(ps)
    requires InStep(s.cache, s.replica) && CacheOk(s.cache, ps, pattern)
    requires forall r :: r in round.responses ==> Uniform(ps, pattern, r)
    ensures s'.cache == Latest(round.responses)
    ensures InStep(s'.cache, s'.replica) && CacheOk(s'.cache, ps, pattern)
  {
    var trace: seq<State> :| RoundTrace(trace, round) && trace[0] == s.(rcvd := {})
                             && SweepStep(trace[|trace| - 1], pattern, round, s');
    var k := |round.responses|;
    var t: State := trace[k];
    TraceCache(trace, round);
    TraceInStep(trace, round, k, ps, pattern);
    var n :| Swept(t.cache, t.rcvd, pattern, round.filterMsgs, n, s'.cache)
             && s'.rcvd == t.rcvd && s'.replica == Replay(t.replica, n);
    SweptKeepsStep(t.cache, t.rcvd, pattern, n, s'.cache, t.replica, ps);
    SweptToLatest(s.cache, Latest(round.responses), pattern, n, s'.cache);
  }

  /** An updates-only first round sends nothing and fills the empty cache. */
  lemma {:induction false} SilentRound(s: State, pattern: Path, round: Round, s': State)
    requires RoundStep(s, pattern, round, s') && round.filterMsgs && s.cache == map[]
    ensures s'.cache == Latest(round.responses) && s'.replica == s.replica
  {
    var trace: seq<State> :| RoundTrace(trace, round) && trace[0] == s.(rcvd := {})
                             && SweepStep(trace[|trace| - 1], pattern, round, s');
    var k := |round.responses|;
    TraceCache(trace, round);
    SilentTrace(trace, round, k);
    assert map[] + Latest(round.responses) == Latest(round.responses);
  }

  lemma {:induction false} SilentTrace(trace: seq<State>, round: Round, i: nat)
    requires RoundTrace(trace, round) && i <= |round.responses| && round.filterMsgs
    ensures trace[i].replica == trace[0].replica
  {
    if i > 0 {
      SilentTrace(trace, round, i - 1);
      assert SampleStep(trace[i - 1], round.responses[i - 1], round, trace[i]);
    }
  }

  /** The states between the rounds of a whole stream; only the first round may be silent. */
  ghost predicate Stream(states: seq<State>, pattern: Path, rounds: seq<Round>) {
    && |states| == |rounds| + 1
    && states[0].cache == map[]
    && (forall i :: 1 <= i < |rounds| ==> !rounds[i].filterMsgs)
    && forall i :: 0 <= i < |rounds| ==> RoundStep(states[i], pattern, rounds[i], states[i + 1])
  }

  /** The receiver starts with nothing, or with the leaves of the snapshot that a silent first round takes. */
  ghost predicate Seeded(states: seq<State>, rounds: seq<Round>) {
    rounds != [] && states != [] &&
    if rounds[0].filterMsgs then InStep(Latest(rounds[0].responses), states[0].replica)
    else InStep(map[], states[0].replica)
  }

  /** MAIN RESULT. After every round of any stream the receiver that replays the notifications holds exactly the
      leaves of that round, and the cache keys are the paths of that round. */
  lemma {:induction false} StreamExact(states: seq<State>, pattern: Path, rounds: seq<Round>, ps: iset<Path>,
                                       i: nat)
    requires Stream(states, pattern, rounds) && Seeded(states, rounds) && PrefixFree(ps)
    requires forall j, r :: 0 <= j < |rounds| && r in rounds[j].responses ==> Uniform(ps, pattern, r)
    requires 1 <= i <= |rounds|
    ensures states[i].cache == Latest(rounds[i - 1].responses)
    ensures InStep(states[i].cache, states[i].replica) && CacheOk(states[i].cache, ps, pattern)
  {
    assert RoundStep(states[i - 1], pattern, rounds[i - 1], states[i]);
    if i == 1 && rounds[0].filterMsgs {
      SilentRound(states[0], pattern, rounds[0], states[1]);
      LatestOk(rounds[0].responses, ps, pattern);
    } else {
      if i > 1 {
        StreamExact(states, pattern, rounds, ps, i - 1);
      }
      RoundExact(states[i - 1], pattern, rounds[i - 1], states[i], ps);
    }
  }

  lemma {:induction false} LatestOk(rs: seq<Response>, ps: iset<Path>, pattern: Path)
    requires forall r :: r in rs ==> Uniform(ps, pattern, r)
    ensures CacheOk(Latest(rs), ps, pattern)
    decreases |rs|
  {
    if rs != [] {
      LatestOk(rs[..|rs| - 1], ps, pattern);
      assert rs[|rs| - 1] in rs;
    }
  }
}
