/** Rotation of the gRPC authorization policy: the policy file, the version kept in memory and two database rows
    change together or not at all. Every file operation and database write may fail. */
module AuthzServer {
  import opened Options

  datatype Meta = Meta(version: string, created: string)
  datatype Field = Version | CreatedOn

  /** Where the write of a field to the two rows fails. */
  datatype WriteFault = Written | P4rtFails | GnxiFails

  /** Where the saving of a policy fails: before its file is in place, or at setting the mode. */
  datatype SaveFault = Saved | NotInPlace | ModeFails

  datatype Upload = Upload(policy: string, version: string, created: string, validJson: bool, force: bool)
  datatype Msg = Broken | Finalize | Unknown
               | Request(upload: Upload, version: WriteFault, created: WriteFault, save: SaveFault, delivered: bool)

  /** Which of the writes that undo a session fail. */
  datatype Undo = Undo(copyFails: bool, version: WriteFault, created: WriteFault)
  {
    predicate RowsWork() {
      version == Written && created == Written
    }

    function Of(f: Field): WriteFault {
      if f == Version then version else created
    }
  }

  function WithField(m: Meta, f: Field, v: string): Meta {
    match f
    case Version => m.(version := v)
    case CreatedOn => m.(created := v)
  }

  function Get(m: Meta, f: Field): string {
    if f == Version then m.version else m.created
  }

  // ----- what a session does

  /** The policy file, the memory and the p4rt row. */
  datatype State = State(policy: Option<string>, meta: Meta, p4rt: Meta)

  /** A write to the p4rt row, then the gnxi row, then the memory. */
  function Put(st: State, f: Field, v: string, fault: WriteFault): State {
    st.(p4rt := if fault == P4rtFails then st.p4rt else WithField(st.p4rt, f, v),
    meta := if fault == Written then WithField(st.meta, f, v) else st.meta)
  }

  predicate Accepts(st: State, u: Upload) {
    && u.policy != "" && u.version != "" && u.validJson && st.policy.Some?
    && (st.meta.version != u.version || u.force)
  }

  /** The writes of a request up to the first that fails. */
  function Processed(st: State, m: Msg): State {
    if !m.Request? || !Accepts(st, m.upload) then st
    else
      var a := Put(st, Version, m.upload.version, m.version);
      if m.version != Written then a
      else
        var b := Put(a, CreatedOn, m.upload.created, m.created);
        if m.created != Written || m.save == NotInPlace then b else b.(policy := Some(m.upload.policy))
  }

  predicate Succeeds(st: State, m: Msg) {
    m.Request? && Accepts(st, m.upload) && m.version == Written && m.created == Written && m.save == Saved
  }

  function PolicyAfter(msgs: seq<Msg>, n: nat, was: Option<string>): Option<string>
    requires n <= |msgs|
  {
    if n == 0 || !msgs[n - 1].Request? then was else Some(msgs[n - 1].upload.policy)
  }

  function MetaAfter(msgs: seq<Msg>, n: nat, was: Meta): Meta
    requires n <= |msgs|
  {
    if n == 0 || !msgs[n - 1].Request? then was else Meta(msgs[n - 1].upload.version, msgs[n - 1].upload.created)
  }

  /** After `n` requests that all succeeded. */
  function After(msgs: seq<Msg>, n: nat, st: State): State
    requires n <= |msgs|
  {
    State(PolicyAfter(msgs, n, st.policy), MetaAfter(msgs, n, st.meta), MetaAfter(msgs, n, st.p4rt))
  }

  /** The first message from `i` on that is not a request that succeeds and is answered. */
  function Stop(msgs: seq<Msg>, st: State, i: nat): (n: nat)
    requires i <= |msgs|
    ensures i <= n <= |msgs|
    decreases |msgs| - i
  {
    if i < |msgs| && Succeeds(After(msgs, i, st), msgs[i]) && msgs[i].delivered then Stop(msgs, st, i + 1) else i
  }

  predicate Finalizes(msgs: seq<Msg>, st: State) {
    var n := Stop(msgs, st, 0);
    n < |msgs| && msgs[n].Finalize?
  }

  /** What the messages have written when the session ends. */
  function Reached(msgs: seq<Msg>, st: State): State {
    var n := Stop(msgs, st, 0);
    if n < |msgs| then Processed(After(msgs, n, st), msgs[n]) else After(msgs, n, st)
  }

  /** The writes that undo a session which started with `copy` and the policy file in `backup`. */
  function Undone(st: State, copy: Meta, backup: Option<string>, undo: Undo): State {
    var a := st.(policy := if backup.Some? && !undo.copyFails then backup else st.policy);
    Put(Put(a, Version, copy.version, undo.version), CreatedOn, copy.created, undo.created)
  }

  // ----- when a row is left behind

  /** The request writes the field to the p4rt row only. */
  predicate Splits(st: State, m: Msg, f: Field) {
    && m.Request? && Accepts(st, m.upload)
    && match f
       case Version => m.version == GnxiFails && m.upload.version != st.meta.version
       case CreatedOn => m.version == Written && m.created == GnxiFails && m.upload.created != st.meta.created
  }

  lemma {:induction false} SplitsIff(st: State, m: Msg, f: Field)
    requires st.p4rt == st.meta
    ensures Get(Processed(st, m).p4rt, f) != Get(Processed(st, m).meta, f) <==> Splits(st, m, f)
  {
  }

  /** What the undoing writes leave of a field. */
  lemma {:induction false} UndoneIff(st: State, copy: Meta, backup: Option<string>, undo: Undo, f: Field)
    ensures var e := Undone(st, copy, backup, undo);
            && (Get(e.meta, f) == Get(copy, f) <==> undo.Of(f) == Written || Get(st.meta, f) == Get(copy, f))
            && (Get(e.p4rt, f) == Get(e.meta, f) <==>
                match undo.Of(f)
                case Written => true
                case P4rtFails => Get(st.p4rt, f) == Get(st.meta, f)
                case GnxiFails => Get(st.meta, f) == Get(copy, f))
  {
  }

  /** MAIN RESULT. After a session that is not finalized the p4rt row is left with another value than the memory and
      the gnxi row exactly when the last request wrote it alone and its write back failed, or when it alone was
      written back from a value that had changed. */
  lemma {:induction false} LeftBehindIff(msgs: seq<Msg>, st: State, backup: Option<string>, undo: Undo, f: Field)
    requires st.p4rt == st.meta
    ensures var n := Stop(msgs, st, 0);
            var e := Undone(Reached(msgs, st), st.meta, backup, undo);
            Get(e.p4rt, f) != Get(e.meta, f) <==>
            || (undo.Of(f) == P4rtFails && n < |msgs| && Splits(After(msgs, n, st), msgs[n], f))
            || (undo.Of(f) == GnxiFails && Get(Reached(msgs, st).meta, f) != Get(st.meta, f))
  {
    var n := Stop(msgs, st, 0);
    UndoneIff(Reached(msgs, st), st.meta, backup, undo, f);
    if n < |msgs| {
      SplitsIff(After(msgs, n, st), msgs[n], f);
    }
  }

  /** Whichever writes of the revert fail, the p4rt row agrees with memory and gnxi row: exactly when the session has
      left both at the value of its start. */
  lemma {:induction false} NeverLeftBehindIff(msgs: seq<Msg>, st: State, backup: Option<string>, f: Field)
    ensures var r := Reached(msgs, st);
            (forall undo :: var e := Undone(r, st.meta, backup, undo); Get(e.p4rt, f) == Get(e.meta, f)) <==>
            Get(r.p4rt, f) == Get(st.meta, f) && Get(r.meta, f) == Get(st.meta, f)
  {
    var r := Reached(msgs, st);
    forall undo
      ensures Get(r.p4rt, f) == Get(st.meta, f) && Get(r.meta, f) == Get(st.meta, f) ==>
                var e := Undone(r, st.meta, backup, undo); Get(e.p4rt, f) == Get(e.meta, f)
    {
      UndoneIff(r, st.meta, backup, undo, f);
    }
    UndoneIff(r, st.meta, backup, Undo(false, P4rtFails, P4rtFails), f);
    UndoneIff(r, st.meta, backup, Undo(false, GnxiFails, GnxiFails), f);
  }

  /** An accepted request writes its version to the p4rt row, its write to the gnxi row fails, and so does the write
      to the p4rt row when the session is undone: the row keeps the version of a policy that is gone. */
  lemma {:induction false} RowLeftBehind(st: State, u: Upload, m: Msg, undo: Undo)
    requires st.p4rt == st.meta && Accepts(st, u) && st.meta.version != u.version
    requires m == Request(u, GnxiFails, Written, Saved, true) && undo == Undo(false, P4rtFails, Written)
    ensures var e := Undone(Reached([m], st), st.meta, st.policy, undo);
            e.meta == st.meta && e.policy == st.policy && e.p4rt.version == u.version != e.meta.version
  {
    assert !Succeeds(After([m], 0, st), m);
    assert Stop([m], st, 0) == 0;
  }

  /** The session of these messages is finalized by the one at `n`. */
  predicate EndsAt(msgs: seq<Msg>, n: nat) {
    n < |msgs| && msgs[n].Finalize? && forall i :: 0 <= i < n ==> msgs[i].Request?
  }

  class GNSIAuthzServer {
    var policy: Option<string>
    var backup: Option<string>
    var metadata: Meta
    var metadataCopy: Meta
    var p4rtRow: Meta
    var gnxiRow: Meta

    /** The database and the memory agree. */
    predicate Agree()
      reads this
    {
      p4rtRow == metadata && gnxiRow == metadata
    }

    ghost function Now(): State
      reads this
    {
      State(policy, metadata, p4rtRow)
    }

    /** Copies `src` over `dst`; setting the mode of the copy may fail after it is in place. */
    static method CopyFile(src: Option<string>, dst: Option<string>, copyFails: bool) returns (result: Option<string>,
                                                                                               ok: bool)
      ensures result == if src.Some? && !copyFails then src else dst
      ensures ok ==> src.Some? && !copyFails
    {
      if src == None || copyFails {
        return dst, false;
      }
      var modeFails: bool := *;
      return src, !modeFails;
    }

    /** Writes a field to both rows and then to the memory. */
    method WriteAuthzMetadataToDB(f: Field, v: string, fault: WriteFault) returns (ok: bool)
      modifies `p4rtRow, `gnxiRow, `metadata
      ensures ok <==> fault == Written
      ensures Now() == Put(old(Now()), f, v, fault)
      ensures gnxiRow == if ok then WithField(old(gnxiRow), f, v) else old(gnxiRow)
    {
      if fault == P4rtFails {
        return false;
      }
      p4rtRow := WithField(p4rtRow, f, v);
      if fault == GnxiFails {
        return false;
      }
      gnxiRow := WithField(gnxiRow, f, v);
      match f {
        case Version => metadata := metadata.(version := v);
        case CreatedOn => metadata := metadata.(created := v);
      }
      return true;
    }

    /** Writes and renames a temporary file; setting its mode may fail after that. */
    method SaveToAuthzFile(p: string, fault: SaveFault) returns (ok: bool)
      modifies `policy
      ensures ok <==> fault == Saved
      ensures policy == if fault == NotInPlace then old(policy) else Some(p)
    {
      if fault == NotInPlace {
        return false;
      }
      policy := Some(p);
      return fault == Saved;
    }

    method ProcessRotateRequest(msg: Msg) returns (ok: bool)
      requires gnxiRow == metadata
      modifies `policy, `p4rtRow, `gnxiRow, `metadata
      ensures ok <==> Succeeds(old(Now()), msg)
      ensures Now() == Processed(old(Now()), msg) && gnxiRow == metadata
      ensures ok ==> Agree() && policy == Some(msg.upload.policy)
                     && metadata == Meta(msg.upload.version, msg.upload.created)
      ensures msg.Request? && (msg.upload.policy == "" || msg.upload.version == "" || !msg.upload.validJson) ==>
                !ok && unchanged(this)
      ensures old(policy).None? ==> !ok && unchanged(this)
      ensures msg.Request? && msg.upload.version == old(metadata).version && !msg.upload.force ==>
                !ok && unchanged(this)
      ensures !msg.Request? ==> !ok && unchanged(this)
      ensures msg.Request? && !ok ==>
                || msg.upload.policy == "" || msg.upload.version == "" || !msg.upload.validJson || old(policy).None?
                || (msg.upload.version == old(metadata).version && !msg.upload.force)
                || msg.version != Written || msg.created != Written || msg.save != Saved
    {
      if !msg.Request? {
        return false;
      }
      var u := msg.upload;
      if u.policy == "" || u.version == "" || !u.validJson || policy == None {
        return false;
      }
      if metadata.version == u.version && !u.force {
        return false;
      }
      ok := WriteAuthzMetadataToDB(Version, u.version, msg.version);
      if !ok {
        return;
      }
      ok := WriteAuthzMetadataToDB(CreatedOn, u.created, msg.created);
      if !ok {
        return;
      }
      ok := SaveToAuthzFile(u.policy, msg.save);
    }

    /** Copies the backup over the policy file and writes the checkpointed version back. */
    method Revert(undo: Undo)
      requires gnxiRow == metadata
      modifies `policy, `p4rtRow, `gnxiRow, `metadata
      ensures Now() == Undone(old(Now()), metadataCopy, backup, undo) && gnxiRow == metadata
      ensures undo.RowsWork() ==> Agree() && metadata == metadataCopy
    {
      var copied;
      policy, copied := CopyFile(backup, policy, undo.copyFails);
      var _ := WriteAuthzMetadataToDB(Version, metadataCopy.version, undo.version);
      var _ := WriteAuthzMetadataToDB(CreatedOn, metadataCopy.created, undo.created);
    }

    method Commit()
      modifies `backup
    {
      var removalFails: bool := *;
      if policy.Some? && !removalFails {
        backup := None;
      }
    }

    /** MAIN RESULT. Whatever fails, the gnxi row and the memory agree. Unless a write of the revert fails, a session
        that is not finalized leaves the memory and both rows as at its start, and the policy file too if it could be
        checkpointed; a finalized session leaves all of them at its last upload. What is left when writes of the
        revert fail is given exactly. */
    method Rotate(msgs: seq<Msg>, checkpointFails: bool, undo: Undo) returns (ok: bool)
      requires gnxiRow == metadata
      modifies this
      ensures gnxiRow == metadata && (ok <==> Finalizes(msgs, old(Now())))
      ensures !ok && old(policy).Some? && !checkpointFails && !undo.copyFails ==> policy == old(policy)
      ensures !ok && undo.RowsWork() ==> Agree() && metadata == old(metadata)
      ensures !ok ==>
                && backup == (if old(policy).Some? && !checkpointFails then old(policy) else old(backup))
                && Now() == Undone(Reached(msgs, old(Now())), old(metadata), backup, undo)
      ensures ok ==> && (old(Agree()) ==> Agree())
                     && exists n :: EndsAt(msgs, n) && Now() == After(msgs, n, old(Now()))
    {
      ghost var start := Now();
      metadataCopy := metadata;
      var checkpointed;
      backup, checkpointed := CopyFile(policy, backup, checkpointFails);
      var i := 0;
      while i < |msgs|
        invariant i <= |msgs| && (forall j :: 0 <= j < i ==> msgs[j].Request?)
        invariant metadataCopy == old(metadata)
        invariant backup == (if old(policy).Some? && !checkpointFails then old(policy) else old(backup))
        invariant gnxiRow == metadata && Now() == After(msgs, i, start) && Stop(msgs, start, 0) == Stop(msgs, start, i)
      {
        if msgs[i].Broken? {
          break;
        }
        if msgs[i].Finalize? {
          Commit();
          assert EndsAt(msgs, i);
          return true;
        }
        var accepted := ProcessRotateRequest(msgs[i]);
        if !accepted || !msgs[i].delivered {
          break;
        }
        i := i + 1;
      }
      Revert(undo);
      return false;
    }
  }
}
