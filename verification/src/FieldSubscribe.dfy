/** Sampling one field of many tables: a stream that carries only changed values against one that carries all. */
module FieldSubscribe {
  import opened Options

  /** Where a value is read, and where it goes in the payload. */
  datatype TablePath = TablePath(db: string, key: string, field: string, jsonTableKey: string, jsonField: string)

  type Reading = TablePath -> Option<string>
  datatype Cell = Cell(field: string, val: string)
  type Payload = map<string, Cell>
  type Values = map<TablePath, string>

  /** A missing value reads as empty, unless the path comes from a virtual one: then it is skipped. */
  function Read(t: TablePath, r: Reading): Option<string> {
    if r(t).Some? then r(t) else if t.jsonField != "" then None else Some("")
  }

  predicate Skipped(m: Values, t: TablePath, r: Reading, changedOnly: bool) {
    Read(t, r) == None || (changedOnly && t in m && m[t] == Read(t, r).value)
  }

  // ----- one tick

  function ValuesAfter(m: Values, ts: seq<TablePath>, r: Reading, changedOnly: bool): Values {
    if ts == [] then m else
    var (t, m') := (ts[|ts| - 1], ValuesAfter(m, ts[..|ts| - 1], r, changedOnly));
    if Skipped(m', t, r, changedOnly) then m' else m'[t := Read(t, r).value]
  }

  function PayloadOf(m: Values, ts: seq<TablePath>, r: Reading, changedOnly: bool): Payload {
    if ts == [] then map[] else
    var t, before := ts[|ts| - 1], ts[..|ts| - 1];
    var p := PayloadOf(m, before, r, changedOnly);
    if Skipped(ValuesAfter(m, before, r, changedOnly), t, r, changedOnly) then p
    else p[t.jsonTableKey := Cell(t.jsonField, Read(t, r).value)]
  }

  class DbClient {
    const tblPaths: seq<TablePath>
    const onChange: bool
    const updateOnly: bool
    var path2ValueMap: Values
    var q: seq<Payload>

    method ReadVal(r: Reading) returns (msi: Payload)
      modifies `path2ValueMap
      ensures path2ValueMap == ValuesAfter(old(path2ValueMap), tblPaths, r, onChange || updateOnly)
      ensures msi == PayloadOf(old(path2ValueMap), tblPaths, r, onChange || updateOnly)
    {
      msi := map[];
      for i := 0 to |tblPaths|
        invariant path2ValueMap == ValuesAfter(old(path2ValueMap), tblPaths[..i], r, onChange || updateOnly)
        invariant msi == PayloadOf(old(path2ValueMap), tblPaths[..i], r, onChange || updateOnly)
      {
        var t := tblPaths[i];
        assert tblPaths[..i + 1][..i] == tblPaths[..i];
        var val := "";
        if r(t) == None {
          if t.jsonField != "" {
            continue;
          }
        } else {
          val := r(t).value;
        }
        if (onChange || updateOnly) && t in path2ValueMap && path2ValueMap[t] == val {
          continue;
        }
        path2ValueMap := path2ValueMap[t := val];
        msi := msi[t.jsonTableKey := Cell(t.jsonField, val)];
      }
      assert tblPaths[..|tblPaths|] == tblPaths;
    }

    /** The first read and one per tick; an on-change stream leaves out empty payloads after the first. */
    method Run(rs: seq<Reading>)
      requires q == [] && path2ValueMap == map[]
      modifies `path2ValueMap, `q
      ensures Fold(q) == FoldRun(tblPaths, rs, onChange || updateOnly)
      ensures DistinctKeys(tblPaths) ==> ShowsLast(Fold(q), tblPaths, rs)
    {
      for i := 0 to |rs|
        invariant path2ValueMap == ValuesRun(tblPaths, rs[..i], onChange || updateOnly)
        invariant Fold(q) == FoldRun(tblPaths, rs[..i], onChange || updateOnly)
      {
        assert rs[..i + 1][..i] == rs[..i];
        var msi := ReadVal(rs[i]);
        if i == 0 || !onChange || |msi| != 0 {
          FoldMore(q, msi);
          q := q + [msi];
        } else {
          MergeNothing(Fold(q), msi);
        }
      }
      assert rs[..|rs|] == rs;
      if DistinctKeys(tblPaths) {
        RunShowsLast(tblPaths, rs, onChange || updateOnly);
      }
    }
  }

  // ----- the receiver

  function Fold(q: seq<Payload>): Payload {
    if q == [] then map[] else Fold(q[..|q| - 1]) + q[|q| - 1]
  }

  lemma {:induction false} FoldMore(q: seq<Payload>, p: Payload)
    ensures Fold(q + [p]) == Fold(q) + p
  {
    assert (q + [p])[..|q|] == q;
  }

  lemma {:induction false} MergeNothing(a: Payload, p: Payload)
    requires |p| == 0
    ensures a + p == a
  {
    assert p == map[];
  }

  function ValuesRun(ts: seq<TablePath>, rs: seq<Reading>, changedOnly: bool): Values {
    if rs == [] then map[] else ValuesAfter(ValuesRun(ts, rs[..|rs| - 1], changedOnly), ts, rs[|rs| - 1], changedOnly)
  }

  /** What a receiver of every payload holds after the readings. */
  function FoldRun(ts: seq<TablePath>, rs: seq<Reading>, changedOnly: bool): Payload {
    if rs == [] then map[] else
    var before := rs[..|rs| - 1];
    FoldRun(ts, before, changedOnly) + PayloadOf(ValuesRun(ts, before, changedOnly), ts, rs[|rs| - 1], changedOnly)
  }

  // ----- what the receiver holds

  /** The last value a table path had, empty if it was missing; one from a virtual path keeps the value it had. */
  function LastSeen(rs: seq<Reading>, t: TablePath): Option<string> {
    if rs == [] then None
    else if rs[|rs| - 1](t).Some? then rs[|rs| - 1](t)
    else if t.jsonField == "" then Some("")
    else LastSeen(rs[..|rs| - 1], t)
  }

  lemma {:induction false} ValuesAfterAt(m: Values, ts: seq<TablePath>, r: Reading, changedOnly: bool, t: TablePath)
    ensures var m' := ValuesAfter(m, ts, r, changedOnly);
            if t in ts && Read(t, r).Some? then t in m' && m'[t] == Read(t, r).value
            else (t in m' <==> t in m) && (t in m ==> m'[t] == m[t])
    decreases |ts|
  {
    if ts != [] {
      var before, last := ts[..|ts| - 1], ts[|ts| - 1];
      ValuesAfterAt(m, before, r, changedOnly, t);
      assert ts == before + [last];
    }
  }

  lemma {:induction false} ValuesRunAt(ts: seq<TablePath>, rs: seq<Reading>, changedOnly: bool, t: TablePath)
    requires t in ts
    ensures var m := ValuesRun(ts, rs, changedOnly);
            (t in m <==> LastSeen(rs, t).Some?) && (t in m ==> m[t] == LastSeen(rs, t).value)
    decreases |rs|
  {
    if rs != [] {
      var before := rs[..|rs| - 1];
      ValuesRunAt(ts, before, changedOnly, t);
      ValuesAfterAt(ValuesRun(ts, before, changedOnly), ts, rs[|rs| - 1], changedOnly, t);
    }
  }

  /** The state has at the key of each table path its last value, and nothing else. */
  ghost predicate ShowsLast(state: Payload, ts: seq<TablePath>, rs: seq<Reading>) {
    && (forall t :: t in ts && LastSeen(rs, t).Some? ==>
                      t.jsonTableKey in state && state[t.jsonTableKey] == Cell(t.jsonField, LastSeen(rs, t).value))
    && (forall k :: k in state ==> exists t :: t in ts && LastSeen(rs, t).Some? && t.jsonTableKey == k)
  }

  /** MAIN RESULT. With distinct keys a receiver of either stream holds the last value of every table path, after any
      readings. */
  lemma {:induction false} RunShowsLast(ts: seq<TablePath>, rs: seq<Reading>, changedOnly: bool)
    requires DistinctKeys(ts)
    ensures ShowsLast(FoldRun(ts, rs, changedOnly), ts, rs)
  {
    RunShows(ts, rs, changedOnly);
    var m, state := ValuesRun(ts, rs, changedOnly), FoldRun(ts, rs, changedOnly);
    forall t | t in ts && LastSeen(rs, t).Some?
      ensures t.jsonTableKey in state && state[t.jsonTableKey] == Cell(t.jsonField, LastSeen(rs, t).value)
    {
      ValuesRunAt(ts, rs, changedOnly, t);
    }
    forall k | k in state ensures exists t :: t in ts && LastSeen(rs, t).Some? && t.jsonTableKey == k {
      var t :| t in ts && t in m && t.jsonTableKey == k;
      ValuesRunAt(ts, rs, changedOnly, t);
    }
  }

  // ----- both streams say the same

  /** Different table paths go to different keys of the payload. */
  predicate DistinctKeys(ts: seq<TablePath>) {
    forall t, u :: t in ts && u in ts && t.jsonTableKey == u.jsonTableKey ==> t == u
  }

  /** Remembered values do not depend on the kind of stream. */
  lemma {:induction false} SameValues(m: Values, ts: seq<TablePath>, r: Reading)
    ensures ValuesAfter(m, ts, r, true) == ValuesAfter(m, ts, r, false)
    decreases |ts|
  {
    if ts != [] {
      SameValues(m, ts[..|ts| - 1], r);
      var m' := ValuesAfter(m, ts[..|ts| - 1], r, true);
      var t := ts[|ts| - 1];
      if Skipped(m', t, r, true) && !Skipped(m', t, r, false) {
        assert m'[t := Read(t, r).value] == m';
      }
    }
  }

  /** `state` holds exactly the remembered values of the table paths. */
  ghost predicate Shows(state: Payload, m: Values, ts: seq<TablePath>) {
    && (forall t :: t in ts && t in m ==> t.jsonTableKey in state && state[t.jsonTableKey] == Cell(t.jsonField, m[t]))
    && (forall k :: k in state ==> exists t :: t in ts && t in m && t.jsonTableKey == k)
  }

  lemma {:induction false} ShowsOne(a: Payload, b: Payload, m: Values, ts: seq<TablePath>)
    requires Shows(a, m, ts) && Shows(b, m, ts)
    ensures a == b
  {
    forall k | k in a ensures k in b && a[k] == b[k] {
      var t :| t in ts && t in m && t.jsonTableKey == k;
    }
    forall k | k in b ensures k in a {
      var t :| t in ts && t in m && t.jsonTableKey == k;
    }
  }

  /** Merging the payload of a tick keeps the receiver at the remembered values of all table paths. */
  lemma {:induction false} TickShows(state: Payload, m: Values, ts: seq<TablePath>, all: seq<TablePath>, r: Reading,
                                     changedOnly: bool)
    requires DistinctKeys(all) && (forall t :: t in ts ==> t in all) && Shows(state, m, all)
    ensures Shows(state + PayloadOf(m, ts, r, changedOnly), ValuesAfter(m, ts, r, changedOnly), all)
    decreases |ts|
  {
    if ts == [] {
      assert state + map[] == state;
    } else {
      var before, t := ts[..|ts| - 1], ts[|ts| - 1];
      TickShows(state, m, before, all, r, changedOnly);
      var m', p := ValuesAfter(m, before, r, changedOnly), PayloadOf(m, before, r, changedOnly);
      assert t in ts;
      OneTick(state, p, m', all, t, r, changedOnly);
    }
  }

  lemma {:induction false} MergeOne(state: Payload, p: Payload, k: string, c: Cell)
    ensures state + p[k := c] == (state + p)[k := c]
  {
  }

  lemma {:induction false} OneTick(state: Payload, p: Payload, m: Values, all: seq<TablePath>, t: TablePath,
                                   r: Reading, changedOnly: bool)
    requires DistinctKeys(all) && t in all && Shows(state + p, m, all)
    ensures !Skipped(m, t, r, changedOnly) ==>
              Shows(state + p[t.jsonTableKey := Cell(t.jsonField, Read(t, r).value)], m[t := Read(t, r).value], all)
  {
    if !Skipped(m, t, r, changedOnly) {
      var cell := Cell(t.jsonField, Read(t, r).value);
      MergeOne(state, p, t.jsonTableKey, cell);
      OneShown(state + p, m, all, t, Read(t, r).value);
    }
  }

  lemma {:induction false} OneShown(state: Payload, m: Values, ts: seq<TablePath>, t: TablePath, v: string)
    requires DistinctKeys(ts) && t in ts && Shows(state, m, ts)
    ensures Shows(state[t.jsonTableKey := Cell(t.jsonField, v)], m[t := v], ts)
  {
    var s', m' := state[t.jsonTableKey := Cell(t.jsonField, v)], m[t := v];
    forall k | k in s' ensures exists u :: u in ts && u in m' && u.jsonTableKey == k {
      if k == t.jsonTableKey {
        assert t in m';
      } else {
        var u :| u in ts && u in m && u.jsonTableKey == k;
        assert u in m';
      }
    }
  }

  lemma {:induction false} RunShows(ts: seq<TablePath>, rs: seq<Reading>, changedOnly: bool)
    requires DistinctKeys(ts)
    ensures Shows(FoldRun(ts, rs, changedOnly), ValuesRun(ts, rs, changedOnly), ts)
    decreases |rs|
  {
    if rs != [] {
      var before := rs[..|rs| - 1];
      RunShows(ts, before, changedOnly);
      TickShows(FoldRun(ts, before, changedOnly), ValuesRun(ts, before, changedOnly), ts, ts, rs[|rs| - 1],
                changedOnly);
    }
  }

  lemma {:induction false} SameValuesRun(ts: seq<TablePath>, rs: seq<Reading>)
    ensures ValuesRun(ts, rs, true) == ValuesRun(ts, rs, false)
    decreases |rs|
  {
    if rs != [] {
      SameValuesRun(ts, rs[..|rs| - 1]);
      SameValues(ValuesRun(ts, rs[..|rs| - 1], true), ts, rs[|rs| - 1]);
    }
  }

  ghost predicate StreamsAgree(ts: seq<TablePath>) {
    forall rs: seq<Reading> :: FoldRun(ts, rs, true) == FoldRun(ts, rs, false)
  }

  lemma {:induction false} DistinctAgree(ts: seq<TablePath>)
    requires DistinctKeys(ts)
    ensures StreamsAgree(ts)
  {
    forall rs: seq<Reading> ensures FoldRun(ts, rs, true) == FoldRun(ts, rs, false) {
      RunShows(ts, rs, true);
      RunShows(ts, rs, false);
      SameValuesRun(ts, rs);
      ShowsOne(FoldRun(ts, rs, true), FoldRun(ts, rs, false), ValuesRun(ts, rs, true), ts);
    }
  }

  // ----- and only with distinct keys

  function Constant(v: string): Reading {
    (t: TablePath) => Some(v)
  }

  function Except(w: TablePath, v: string, other: string): Reading {
    (t: TablePath) => Some(if t == w then other else v)
  }

  lemma {:induction false} AllRead(ts: seq<TablePath>, v: string, changedOnly: bool)
    ensures forall t :: t in ts ==> t in ValuesAfter(map[], ts, Constant(v), changedOnly)
    ensures forall t :: t in ValuesAfter(map[], ts, Constant(v), changedOnly) ==>
                          ValuesAfter(map[], ts, Constant(v), changedOnly)[t] == v
    decreases |ts|
  {
    if ts != [] {
      AllRead(ts[..|ts| - 1], v, changedOnly);
    }
  }

  /** When only `w` changed, a changed-only payload is about `w` only. */
  lemma {:induction false} OnlyChange(m: Values, ts: seq<TablePath>, w: TablePath, v: string, other: string)
    requires v != other && (forall t :: t in ts ==> t in m) && (forall t :: t in m ==> m[t] == v)
    ensures w in ts ==> w.jsonTableKey in PayloadOf(m, ts, Except(w, v, other), true)
    ensures forall k :: k in PayloadOf(m, ts, Except(w, v, other), true) ==>
                          PayloadOf(m, ts, Except(w, v, other), true)[k] == Cell(w.jsonField, other)
    ensures var m' := ValuesAfter(m, ts, Except(w, v, other), true);
            && (forall t :: t in m ==> t in m') && (forall t :: t in m' ==> t in m && (t != w ==> m'[t] == v))
            && (w in m' ==> m'[w] == if w in ts then other else v)
    decreases |ts|
  {
    if ts != [] {
      assert ts[|ts| - 1] in ts;
      OnlyChange(m, ts[..|ts| - 1], w, v, other);
    }
  }

  predicate LastWith(ts: seq<TablePath>, k: string, i: nat) {
    i < |ts| && ts[i].jsonTableKey == k && forall j :: i < j < |ts| ==> ts[j].jsonTableKey != k
  }

  /** In a full payload the last table path of a key wins. */
  lemma {:induction false} LastWins(m: Values, ts: seq<TablePath>, v: Reading, k: string, i: nat)
    requires LastWith(ts, k, i) && v(ts[i]).Some?
    ensures k in PayloadOf(m, ts, v, false) && PayloadOf(m, ts, v, false)[k] == Cell(ts[i].jsonField, v(ts[i]).value)
    decreases |ts|
  {
    if i < |ts| - 1 {
      LastWins(m, ts[..|ts| - 1], v, k, i);
    }
  }

  lemma {:induction false} FindLast(ts: seq<TablePath>, t: TablePath) returns (i: nat)
    requires t in ts
    ensures LastWith(ts, t.jsonTableKey, i)
    decreases |ts|
  {
    i := |ts| - 1;
    if ts[i].jsonTableKey != t.jsonTableKey {
      assert t in ts[..i];
      i := FindLast(ts[..i], t);
    }
  }

  lemma {:induction false} TwoTicks(ts: seq<TablePath>, r: Reading, r': Reading, changedOnly: bool)
    ensures FoldRun(ts, [r, r'], changedOnly)
         == FoldRun(ts, [r], changedOnly) + PayloadOf(ValuesAfter(map[], ts, r, changedOnly), ts, r', changedOnly)
  {
    assert [r, r'][..1] == [r] && [r][..0] == [];
    assert ValuesRun(ts, [r], changedOnly) == ValuesAfter(map[], ts, r, changedOnly);
  }

  lemma {:induction false} SharedKeyDisagrees(ts: seq<TablePath>, w: TablePath, i: nat)
    requires LastWith(ts, w.jsonTableKey, i) && w in ts && w != ts[i]
    ensures FoldRun(ts, [Constant("a"), Except(w, "a", "b")], true)
         != FoldRun(ts, [Constant("a"), Except(w, "a", "b")], false)
  {
    var r, r', k := Constant("a"), Except(w, "a", "b"), w.jsonTableKey;
    TwoTicks(ts, r, r', true);
    TwoTicks(ts, r, r', false);
    AllRead(ts, "a", true);
    OnlyChange(ValuesAfter(map[], ts, r, true), ts, w, "a", "b");
    LastWins(ValuesAfter(map[], ts, r, false), ts, r', k, i);
    assert FoldRun(ts, [r, r'], true)[k] == Cell(w.jsonField, "b");
    assert FoldRun(ts, [r, r'], false)[k] == Cell(ts[i].jsonField, "a");
  }

  /** MAIN RESULT. The changed-only stream and the full stream leave the receiver with the same values after every
      history of readings exactly when no two table paths share a key of the payload. */
  lemma {:induction false} StreamsAgreeIff(ts: seq<TablePath>)
    ensures StreamsAgree(ts) <==> DistinctKeys(ts)
  {
    if DistinctKeys(ts) {
      DistinctAgree(ts);
    } else {
      var t, u :| t in ts && u in ts && t.jsonTableKey == u.jsonTableKey && t != u;
      var i := FindLast(ts, t);
      SharedKeyDisagrees(ts, if t == ts[i] then u else t, i);
    }
  }
}
