/** The prefix stack and the recorded paths as arrays. A push after a pop writes over the slot that the pop left, so a
    recorded path must not share the array of the prefix. */
module YgotRecord {
  import opened YgotTree

  /** A recorded update: its path is an array of its own. */
  datatype UpdateRef = UpdateRef(path: array<PathElem>, val: Value)

  // ----- the same operations on values

  datatype Log = Log(prefix: Path, update: seq<Update>, delete: seq<Path>)
  datatype Op =
    | Push(e: PathElem) | Pop | Changed(e: PathElem, v: Value) | Deleted(e: PathElem) | Gone | Listed(us: seq<Update>)

  predicate Allowed(l: Log, op: Op) {
    op.Pop? ==> l.prefix != []
  }

  function Applied(l: Log, op: Op): Log
    requires Allowed(l, op)
  {
    match op
    case Push(e) => l.(prefix := l.prefix + [e])
    case Pop => l.(prefix := l.prefix[..|l.prefix| - 1])
    case Changed(e, v) => l.(update := l.update + [Update(l.prefix + [e], v)])
    case Deleted(e) => l.(delete := l.delete + [l.prefix + [e]])
    case Gone => l.(delete := l.delete + [l.prefix])
    case Listed(us) => l.(update := l.update + Prefixed(l.prefix, us))
  }

  predicate AllAllowed(l: Log, ops: seq<Op>)
    decreases |ops|
  {
    ops == [] || (Allowed(l, ops[0]) && AllAllowed(Applied(l, ops[0]), ops[1..]))
  }

  function AllApplied(l: Log, ops: seq<Op>): Log
    requires AllAllowed(l, ops)
    decreases |ops|
  {
    if ops == [] then l else AllApplied(Applied(l, ops[0]), ops[1..])
  }

  /** More changes behind those recorded. */
  function Extended(l: Log, ds: seq<Path>, us: seq<Update>): Log {
    l.(delete := l.delete + ds, update := l.update + us)
  }

  lemma {:induction false} ExtendedMore(l: Log, ds: seq<Path>, us: seq<Update>, ds': seq<Path>, us': seq<Update>)
    ensures Extended(Extended(l, ds, us), ds', us') == Extended(l, ds + ds', us + us')
  {
    assert (l.delete + ds) + ds' == l.delete + (ds + ds') && (l.update + us) + us' == l.update + (us + us');
  }

  // ----- the operations on arrays

  class Recorder {
    var elems: array<PathElem>
    var len: nat
    var updates: seq<UpdateRef>
    var deletes: seq<array<PathElem>>

    /** The arrays of the recorded paths. */
    ghost var recorded: set<array<PathElem>>
    ghost var log: Log

    /** The arrays hold the values, and no recorded path is in the array of the prefix. */
    ghost predicate Valid()
      reads this, elems, recorded
    {
      && len <= elems.Length && elems[..len] == log.prefix && elems !in recorded
      && |updates| == |log.update| && |deletes| == |log.delete|
      && (forall i :: 0 <= i < |updates| ==>
                        && updates[i].path in recorded && updates[i].path[..] == log.update[i].path
                        && updates[i].val == log.update[i].val)
      && (forall i :: 0 <= i < |deletes| ==> deletes[i] in recorded && deletes[i][..] == log.delete[i])
    }

    /** Only the array of the prefix may have been replaced, by a new one; what is recorded stays recorded. */
    twostate predicate Grown()
      reads this
    {
      && (elems == old(elems) || fresh(elems))
      && old(recorded) <= recorded && fresh(recorded - old(recorded))
      && old(updates) <= updates && old(deletes) <= deletes
    }

    constructor ()
      ensures Valid() && fresh(elems) && recorded == {} && log == Log([], [], [])
    {
      elems := new PathElem[0];
      len, updates, deletes := 0, [], [];
      recorded, log := {}, Log([], [], []);
    }

    /** Writes behind the last element, over whatever a pop left there, or into a larger array. */
    method PushPrefix(e: PathElem)
      requires Valid()
      modifies this`elems, this`len, this`log, elems
      ensures Valid() && Grown() && log == Applied(old(log), Push(e))
    {
      if len == elems.Length {
        var capacity: nat :| capacity > len;
        var larger := new PathElem[capacity];
        for i := 0 to len
          invariant elems[..len] == log.prefix
          invariant larger[..i] == log.prefix[..i]
          modifies larger
        {
          larger[i] := elems[i];
        }
        elems := larger;
      }
      elems[len] := e;
      len := len + 1;
      log := Applied(log, Push(e));
    }

    method PopPrefix()
      requires Valid() && log.prefix != []
      modifies this`len, this`log
      ensures Valid() && Grown() && log == Applied(old(log), Pop)
    {
      len := len - 1;
      log := Applied(log, Pop);
    }

    /** A new array with the prefix and what follows it. */
    method NewPath(rest: seq<PathElem>) returns (p: array<PathElem>)
      requires Valid()
      ensures fresh(p) && p[..] == log.prefix + rest
    {
      p := new PathElem[len + |rest|];
      for i := 0 to len
        invariant elems[..len] == log.prefix
        invariant p[..i] == log.prefix[..i]
        modifies p
      {
        p[i] := elems[i];
      }
      for i := 0 to |rest|
        invariant p[..len + i] == log.prefix + rest[..i]
        modifies p
      {
        p[len + i] := rest[i];
      }
      assert rest[..|rest|] == rest;
    }

    method RecordUpdate(rest: seq<PathElem>, v: Value)
      requires Valid()
      modifies this`updates, this`recorded, this`log
      ensures Valid() && Grown()
      ensures log == old(log).(update := old(log).update + [Update(old(log).prefix + rest, v)])
    {
      var p := NewPath(rest);
      updates := updates + [UpdateRef(p, v)];
      recorded := recorded + {p};
      log := log.(update := log.update + [Update(log.prefix + rest, v)]);
    }

    method RecordDeletePath(rest: seq<PathElem>)
      requires Valid()
      modifies this`deletes, this`recorded, this`log
      ensures Valid() && Grown() && log == old(log).(delete := old(log).delete + [old(log).prefix + rest])
    {
      var p := NewPath(rest);
      deletes := deletes + [p];
      recorded := recorded + {p};
      log := log.(delete := log.delete + [log.prefix + rest]);
    }

    /** The listed updates, each with an array of its own. */
    method RecordUpdates(us: seq<Update>)
      requires Valid()
      modifies this`updates, this`recorded, this`log
      ensures Valid() && Grown() && log == Applied(old(log), Listed(us))
    {
      for i := 0 to |us|
        invariant Valid() && Grown()
        invariant log == Applied(old(log), Listed(us[..i]))
      {
        RecordUpdate(us[i].path, us[i].val);
        assert Prefixed(log.prefix, us[..i + 1])
            == Prefixed(log.prefix, us[..i]) + [Update(log.prefix + us[i].path, us[i].val)];
      }
      assert us[..|us|] == us;
    }

    method PerformOne(op: Op)
      requires Valid() && Allowed(log, op)
      modifies this, elems
      ensures Valid() && Grown() && log == Applied(old(log), op)
    {
      match op {
        case Push(e) => PushPrefix(e);
        case Pop => PopPrefix();
        case Changed(e, v) => RecordUpdate([e], v);
        case Deleted(e) => RecordDeletePath([e]);
        case Gone =>
          assert log.prefix + [] == log.prefix;
          RecordDeletePath([]);
        case Listed(us) => RecordUpdates(us);
      }
    }

    /** MAIN RESULT. After any operations every recorded array holds what it held when it was recorded, and the arrays
        together hold what the operations give on values, where nothing is shared. */
    method Perform(ops: seq<Op>)
      requires Valid() && AllAllowed(log, ops)
      modifies this, elems
      ensures Valid() && Grown() && log == AllApplied(old(log), ops)
      ensures forall a :: a in old(recorded) ==> a[..] == old(a[..])
    {
      for i := 0 to |ops|
        invariant Valid() && Grown() && AllAllowed(log, ops[i..])
        invariant AllApplied(log, ops[i..]) == AllApplied(old(log), ops)
      {
        assert ops[i..][1..] == ops[i + 1..];
        PerformOne(ops[i]);
      }
    }

    /** The recorded changes as values, read from the arrays. */
    method Results() returns (us: seq<Update>, ds: seq<Path>)
      requires Valid()
      ensures us == log.update && ds == log.delete
    {
      us, ds := [], [];
      for i := 0 to |updates|
        invariant us == log.update[..i]
      {
        us := us + [Update(updates[i].path[..], updates[i].val)];
      }
      for i := 0 to |deletes|
        invariant ds == log.delete[..i]
      {
        ds := ds + [deletes[i][..]];
      }
    }
  }
}
