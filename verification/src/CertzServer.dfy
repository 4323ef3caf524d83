/** The rotation service over its files, links, policy file and database rows. Any file, link or database
    operation may fail. In a server with `undoWorks` the link and policy operations that undo an earlier one do not,
    with `removalsWork` no removal of a file does, with `keyLinkWorks` no making of a new key link, with
    `uploadRowsWork` or `revertRowsWork` no database write of an upload or of a revert, and with `uploadsWork` no file
    or link operation of an upload. */
module CertzServer {
  import opened Options
  import opened CertzProfile
  import opened CertzDisk
  import opened CertzMessages

  const DEFAULT_PROFILE := "gnxi"

  class GNSICertzServer {
    var profiles: map<string, Profile>
    var files: Files
    var links: Links
    var policy: Option<string>
    var backup: Option<string>
    var db: Rows
    var clock: nat
    const undoWorks: bool
    const removalsWork: bool
    const keyLinkWorks: bool
    const uploadRowsWork: bool
    const revertRowsWork: bool
    const uploadsWork: bool

    // ----- single operations

    method AttemptWrite(path: Path, data: string) returns (ok: bool)
      modifies `files
      ensures ok ==> files == old(files)[path := data]
      ensures SameExcept(files, old(files), {path})
      ensures uploadsWork ==> ok
    {
      ok :| uploadsWork ==> ok;
      if ok {
        files := files[path := data];
        return;
      }
      var removed: bool, partial: string := *, *;
      files := if removed then files - {path} else files[path := partial];
    }

    method Remove(path: Path)
      modifies `files
      ensures Removed(files, old(files), {path}, removalsWork)
    {
      var removed: bool :| removalsWork ==> removed;
      if removed {
        files := files - {path};
      }
    }

    method RmSymlink(l: Link, fails: bool) returns (target: Option<Path>, ok: bool)
      modifies `links
      ensures ok <==> !(l in old(links) && fails)
      ensures target == if ok && l in old(links) then Some(old(links)[l]) else None
      ensures links == if ok then old(links) - {l} else old(links)
    {
      if l !in links {
        return None, true;
      }
      if fails {
        return None, false;
      }
      target := Some(links[l]);
      links := links - {l};
      return target, true;
    }

    method RestoreSymlink(target: Option<Path>, l: Link, fails: bool) returns (ok: bool)
      modifies `links
      ensures ok <==> target.None? || (target.value in files && !fails)
      ensures ok ==> links == WithLink(old(links), l, target)
      ensures SameExcept(links, old(links), {l})
    {
      if target.None? {
        return true;
      }
      if target.value !in files {
        return false;
      }
      var removalFails: bool := *;
      var _, removed := RmSymlink(l, fails && removalFails);
      if !removed || fails {
        return false;
      }
      links := links[l := target.value];
      return true;
    }

    method RestorePair(cert: Option<Path>, key: Option<Path>, certFails: bool, keyFails: bool) returns (ok: bool)
      modifies `links
      ensures ok ==> links == WithLink(WithLink(old(links), CertLink, cert), KeyLink, key)
      ensures SameExcept(links, old(links), {CertLink, KeyLink})
      ensures !certFails && !keyFails && IsFile(cert, files) && IsFile(key, files) ==> ok
    {
      var a := RestoreSymlink(cert, CertLink, certFails);
      var b := RestoreSymlink(key, KeyLink, keyFails);
      ok := a && b;
    }

    /** Makes both links after the old ones were removed, or puts those back. */
    method MakePair(cert: Path, key: Path, oldCert: Option<Path>, oldKey: Option<Path>, fault: Fault, certFails: bool,
                    keyFails: bool) returns (ok: bool, restored: bool)
      modifies `links
      ensures ok <==> fault != NewCertLink && fault != NewKeyLink
      ensures ok ==> restored && links == old(links)[CertLink := cert][KeyLink := key]
      ensures !ok && restored ==>
                var made := if fault == NewKeyLink then old(links)[CertLink := cert] else old(links);
                links == WithLink(WithLink(made, CertLink, oldCert), KeyLink, oldKey)
      ensures !certFails && !keyFails && IsFile(oldCert, files) && IsFile(oldKey, files) ==> restored
      ensures SameExcept(links, old(links), {CertLink, KeyLink})
    {
      if fault == NewCertLink {
        restored := RestorePair(oldCert, oldKey, certFails, keyFails);
        return false, restored;
      }
      links := links[CertLink := cert];
      if fault == NewKeyLink {
        restored := RestorePair(oldCert, oldKey, certFails, keyFails);
        return false, restored;
      }
      links := links[KeyLink := key];
      return true, true;
    }

    /** Moves both links, or reports an error; `restored` says that what was removed is back. */
    method AtomicSetSrvCertKeyPair(cert: Path, key: Path, fault: Fault, certFails: bool, keyFails: bool)
      returns (ok: bool, restored: bool)
      modifies `links
      ensures ok <==> !Strikes(fault, old(links))
      ensures ok ==> links == old(links)[CertLink := cert][KeyLink := key]
      ensures !ok && restored ==> links == PairAfterFault(old(links), cert, fault)
      ensures !ok && restored ==> (links == old(links) <==> !(fault == NewKeyLink && CertLink !in old(links)))
      ensures !certFails && !keyFails && Leads(old(links), CertLink, files) && Leads(old(links), KeyLink, files)
              ==> restored
      ensures SameExcept(links, old(links), {CertLink, KeyLink})
    {
      NeitherMovedIff(links, cert, fault);
      if fault == AbsPath {
        return false, true;
      }
      var oldCert, certRemoved := RmSymlink(CertLink, fault == OldCertLink);
      if !certRemoved {
        return false, true;
      }
      var oldKey, keyRemoved := RmSymlink(KeyLink, fault == OldKeyLink);
      if !keyRemoved {
        restored := RestoreSymlink(oldCert, CertLink, certFails);
        return false, restored;
      }
      ok, restored := MakePair(cert, key, oldCert, oldKey, fault, certFails, keyFails);
    }

    method AtomicSetCACert(cert: Path, absFails: bool, removalFails: bool, linkFails: bool, restoreFails: bool)
      returns (ok: bool, restored: bool)
      modifies `links
      ensures ok <==> !absFails && !(CaLink in old(links) && removalFails) && !linkFails
      ensures ok ==> links == old(links)[CaLink := cert]
      ensures !ok && restored ==> links == old(links)
      ensures !restoreFails && (CaLink in old(links) ==> old(links)[CaLink] in files) ==> restored
      ensures SameExcept(links, old(links), {CaLink})
    {
      if absFails {
        return false, true;
      }
      var oldCert, removed := RmSymlink(CaLink, removalFails);
      if !removed {
        return false, true;
      }
      if linkFails {
        restored := RestoreSymlink(oldCert, CaLink, restoreFails);
        return false, restored;
      }
      links := links[CaLink := cert];
      return true, true;
    }

    /** Writes the two fields of a row; either write may fail and is then ignored. */
    method WriteEntityFreshness(id: string, e: Entity, createdFails: bool, versionFails: bool)
      modifies `db
      ensures !createdFails && !versionFails ==> RowAt(db, id, e)
      ensures SameExcept(db, old(db), {(id, e.kind)})
    {
      var row := if (id, e.kind) in db then db[(id, e.kind)] else Row(0, "");
      if !createdFails {
        row := row.(created := e.created * NANOSECONDS);
      }
      if !versionFails {
        row := row.(version := e.version);
      }
      if !createdFails || !versionFails {
        db := db[(id, e.kind) := row];
      }
    }

    // ----- uploads

    /** No failing replacement moves just one link of the pair. */
    ghost predicate Replaceable(links: Links) {
      CertLink in links || keyLinkWorks
    }

    /** What holds on disk in the middle of a session of profile `p`. */
    ghost predicate DiskHeld(p: Profile, s: Start)
      reads this
    {
      FilesHeld(p, files, clock, s) && (undoWorks ==> SessionDisk(p, links, files, s) && Replaceable(s.links))
    }

    ghost predicate FileHeld(final: bool, s: Start)
      reads this
    {
      undoWorks ==> PolicyHeld(final, policy, backup, s.policy)
    }

    ghost predicate FileBack(final: bool, s: Start)
      reads this
    {
      undoWorks ==> PolicyBack(final, policy, backup, s.policy)
    }

    ghost predicate RowsOk(id: string, p: Profile, s: Start)
      reads this
    {
      RowsHeld(db, id, p.active, p.active, s, uploadRowsWork)
    }

    method WriteRow(id: string, e: Entity, ghost p: Profile, ghost s: Start)
      requires InSession(p, s.active) && !e.final && RowsOk(id, p, s)
      modifies `db
      ensures RowsOk(id, Activated(p, e), s)
    {
      ghost var before := db;
      var createdFails: bool, versionFails: bool :| uploadRowsWork ==> !createdFails && !versionFails;
      WriteEntityFreshness(id, e, createdFails, versionFails);
      RowsActivated(before, db, id, p, e, s, uploadRowsWork);
    }

    /** Writes the row of an entity that is brought back. */
    method WriteRowBack(id: string, e: Entity, k: Kind, ghost p: Profile, ghost q: Profile, ghost s: Start)
      requires InSession(q, s.active) && e == q.last.Get(k) && RowsTurn(id, p, q, s) && !q.active.Get(k).final
      modifies `db
      ensures RowsTurn(id, p, Back(q, k), s)
    {
      ghost var before := db;
      var createdFails: bool, versionFails: bool :| revertRowsWork ==> !createdFails && !versionFails;
      WriteEntityFreshness(id, e, createdFails, versionFails);
      RowTurned(before, db, id, p.active, q, k, s, revertRowsWork);
    }

    ghost predicate RowsTurn(id: string, p: Profile, q: Profile, s: Start)
      reads this
    {
      RowsTurning(db, id, p.active, q.active, s, revertRowsWork)
    }

    method SaveCert(e: Entity, m: EntityMsg, ghost p: Profile, ghost s: Start) returns (ok: bool)
      requires InSession(p, s.active) && DiskHeld(p, s) && e.kind == Cert
      requires FreshFor(e.certPath, CertFile, clock, clock + 1) && FreshFor(e.keyPath, KeyFile, clock, clock + 1)
      modifies `files, `clock
      ensures clock == old(clock) + 1 && NewOnly(files, old(files), old(clock)) && (ok ==> Stored(e, m, files))
      ensures uploadsWork ==> (ok <==> m.acceptable)
      ensures DiskHeld(p, s)
    {
      ghost var files0 := files;
      clock := clock + 1;
      ok := m.acceptable;
      if ok {
        ok := AttemptWrite(e.keyPath, m.key);
        if ok {
          ok := AttemptWrite(e.certPath, m.data);
        }
      }
      FilesSaved(p, files0, files, clock - 1, s, {e.certPath, e.keyPath});
      if undoWorks {
        DiskSaved(p, links, files0, files, clock - 1, s, {e.certPath, e.keyPath});
      }
    }

    method MoveCert(e: Entity, ghost p: Profile, ghost s: Start) returns (ok: bool)
      requires e.kind == Cert && e.certPath in files && e.keyPath in files
      requires DiskHeld(p, s)
      requires FreshFor(e.certPath, CertFile, s.t, clock) && FreshFor(e.keyPath, KeyFile, s.t, clock)
      modifies `links
      ensures DiskHeld(if ok then Activated(p, e) else p, s) && (uploadsWork ==> ok)
    {
      var fault: Fault, certFails: bool, keyFails: bool :|
        (undoWorks ==> !certFails && !keyFails) && (keyLinkWorks ==> fault != NewKeyLink)
        && (uploadsWork ==> fault == NoFault);
      ghost var links0 := links;
      var restored;
      ok, restored := AtomicSetSrvCertKeyPair(e.certPath, e.keyPath, fault, certFails, keyFails);
      if ok && undoWorks {
        DiskCertActivated(p, links0, files, s, e);
      }
    }

    /** Saves a certificate and its key under new names and moves both links there. */
    method UploadCert(id: string, m: EntityMsg, ghost p: Profile, ghost s: Start) returns (ok: bool, e: Entity)
      requires InSession(p, s.active) && DiskHeld(p, s) && m.kind == Some(Cert)
      modifies `files, `clock, `links
      ensures Matches(e, m) && DiskHeld(if ok then Activated(p, e) else p, s)
      ensures NewOnly(files, old(files), old(clock)) && (ok ==> Stored(e, m, files))
      ensures uploadsWork ==> (ok <==> m.acceptable)
    {
      e := Entity(Cert, m.created, m.version, Made(CertFile, id, m.version, clock), Made(KeyFile, id, m.version, clock),
                  false);
      ok := SaveCert(e, m, p, s);
      if ok {
        ok := MoveCert(e, p, s);
      }
    }

    method SaveTrust(e: Entity, m: EntityMsg, ghost p: Profile, ghost s: Start) returns (ok: bool)
      requires InSession(p, s.active) && DiskHeld(p, s) && e.kind == Trust
      requires FreshFor(e.certPath, BundleFile, clock, clock + 1)
      modifies `files, `clock
      ensures clock == old(clock) + 1 && NewOnly(files, old(files), old(clock)) && (ok ==> Stored(e, m, files))
      ensures uploadsWork ==> (ok <==> m.acceptable)
      ensures DiskHeld(p, s)
    {
      ghost var files0 := files;
      clock := clock + 1;
      ok := m.acceptable;
      if ok {
        ok := AttemptWrite(e.certPath, m.data);
      }
      FilesSaved(p, files0, files, clock - 1, s, {e.certPath});
      if undoWorks {
        DiskSaved(p, links, files0, files, clock - 1, s, {e.certPath});
      }
    }

    method MoveTrust(e: Entity, ghost p: Profile, ghost s: Start) returns (ok: bool)
      requires e.kind == Trust && e.certPath in files
      requires DiskHeld(p, s) && FreshFor(e.certPath, BundleFile, s.t, clock)
      modifies `links
      ensures DiskHeld(if ok then Activated(p, e) else p, s) && (uploadsWork ==> ok)
    {
      var absFails: bool, removalFails: bool, linkFails: bool, restoreFails: bool :|
        (undoWorks ==> !restoreFails) && (uploadsWork ==> !absFails && !removalFails && !linkFails);
      ghost var links0 := links;
      var restored;
      ok, restored := AtomicSetCACert(e.certPath, absFails, removalFails, linkFails, restoreFails);
      if ok && undoWorks {
        DiskTrustActivated(p, links0, files, s, e);
      }
    }

    method UploadTrust(id: string, m: EntityMsg, ghost p: Profile, ghost s: Start) returns (ok: bool, e: Entity)
      requires InSession(p, s.active) && DiskHeld(p, s) && m.kind == Some(Trust)
      modifies `files, `clock, `links
      ensures Matches(e, m) && DiskHeld(if ok then Activated(p, e) else p, s)
      ensures NewOnly(files, old(files), old(clock)) && (ok ==> Stored(e, m, files))
      ensures uploadsWork ==> (ok <==> m.acceptable)
    {
      e := Entity(Trust, m.created, m.version, Made(BundleFile, id, m.version, clock), Named(""), false);
      ok := SaveTrust(e, m, p, s);
      if ok {
        ok := MoveTrust(e, p, s);
      }
    }

    /** There is a policy, in its file or in the backup. */
    ghost predicate HasPolicy()
      reads this
    {
      policy.Some? || backup.Some?
    }

    /** Moves the policy file to the backup unless there is one, then writes the new policy. */
    method SavePolicy(data: string, ghost final: bool, ghost s: Start) returns (ok: bool)
      requires FileHeld(final, s)
      modifies `policy, `backup
      ensures if ok then FileHeld(false, s) else FileBack(final, s)
      ensures ok ==> PolicyFiles(policy, backup) == Saved(old(PolicyFiles(policy, backup)), data)
      ensures (ok ==> old(HasPolicy())) && (uploadsWork ==> (ok <==> old(HasPolicy())))
    {
      if backup == None {
        var renameFails: bool :| uploadsWork ==> !renameFails;
        if policy == None || renameFails {
          return false;
        }
        policy, backup := None, policy;
      }
      var writeFails: bool :| uploadsWork ==> !writeFails;
      if writeFails {
        var left: Option<string>, restoreFails: bool :| undoWorks ==> !restoreFails;
        policy := left;
        if !restoreFails {
          policy, backup := backup, None;
        }
        return false;
      }
      policy := Some(data);
      return true;
    }

    /** Saves the data of an entity and, for a certificate or trust bundle, moves the links. */
    method SaveAndLink(id: string, m: EntityMsg, kind: Kind, ghost p: Profile, ghost s: Start) returns (ok: bool,
                                                                                                        e: Entity)
      requires InSession(p, s.active) && m.kind == Some(kind)
      requires DiskHeld(p, s) && FileHeld(p.active.policy.final, s)
      modifies `files, `clock, `links, `policy, `backup
      ensures Matches(e, m)
      ensures ok ==> DiskHeld(Activated(p, e), s) && FileHeld(Activated(p, e).active.policy.final, s)
      ensures !ok ==> DiskHeld(p, s) && FileBack(p.active.policy.final, s)
      ensures NewOnly(files, old(files), old(clock)) && (ok ==> Stored(e, m, files) && HasPolicy() == old(HasPolicy()))
      ensures ok ==> policy == if kind == Policy then Some(m.data) else old(policy)
      ensures uploadsWork ==> (ok <==> if kind == Policy then old(HasPolicy()) else m.acceptable)
    {
      if kind == Cert {
        ok, e := UploadCert(id, m, p, s);
      } else if kind == Trust {
        ok, e := UploadTrust(id, m, p, s);
      } else if kind == Crl {
        e := Entity(Crl, m.created, m.version, Named(id), Named(""), false);
        ok :| uploadsWork ==> ok == m.acceptable;
      } else {
        e := Entity(Policy, m.created, m.version, Named("policy"), Named(""), false);
        ok := SavePolicy(m.data, p.active.policy.final, s);
      }
    }

    /** The files, the policy file and the versions are those of the messages `ms`. */
    ghost predicate NotesOk(p: Profile, s: Start, ms: seq<EntityMsg>)
      reads this
    {
      Noted(p, files, policy, s.active, ms) && HasPolicy() == s.hasPolicy
    }

    /** Saves an entity that passed the checks. */
    method SaveNoted(id: string, m: EntityMsg, kind: Kind, ghost p: Profile, ghost s: Start, ghost ms: seq<EntityMsg>)
      returns (ok: bool, e: Entity)
      requires InSession(p, s.active) && m.kind == Some(kind)
      requires DiskHeld(p, s) && FileHeld(p.active.policy.final, s) && NotesOk(p, s, ms)
      modifies `files, `clock, `links, `policy, `backup
      ensures Matches(e, m)
      ensures ok ==> && DiskHeld(Activated(p, e), s) && FileHeld(Activated(p, e).active.policy.final, s)
                     && NotesOk(Activated(p, e), s, ms + [m])
      ensures !ok ==> DiskHeld(p, s) && FileBack(p.active.policy.final, s)
      ensures uploadsWork ==> (ok <==> if kind == Policy then s.hasPolicy else m.acceptable)
    {
      ghost var files0, policy0, clock0 := files, policy, clock;
      ok, e := SaveAndLink(id, m, kind, p, s);
      if ok {
        NotedKept(p, files0, files, policy0, clock0, s, ms);
        NotedMore(p, e, m, files, policy0, policy, s.active, ms);
      }
    }

    method PassesChecks(m: EntityMsg, overwrite: bool, p: Profile) returns (ok: bool)
      ensures ok <==> && m.created != 0 && m.version != "" && m.kind.Some?
                      && (overwrite || p.active.Get(m.kind.value).version != m.version)
    {
      if m.created == 0 || m.version == "" || m.kind == None {
        return false;
      }
      return overwrite || p.active.Get(m.kind.value).version != m.version;
    }

    /** In the middle of a session with profile `p`, after the entities of `ms`. */
    ghost predicate Steady(id: string, p: Profile, s: Start, ms: seq<EntityMsg>)
      reads this
    {
      && InSession(p, s.active) && DiskHeld(p, s) && FileHeld(p.active.policy.final, s) && RowsOk(id, p, s)
      && NotesOk(p, s, ms)
    }

    /** The same after a failed step. */
    ghost predicate Upset(id: string, p: Profile, s: Start)
      reads this
    {
      InSession(p, s.active) && DiskHeld(p, s) && FileBack(p.active.policy.final, s) && RowsOk(id, p, s)
    }

    /** One entity of an upload: checks, save, activate. */
    method UploadEntity(id: string, m: EntityMsg, overwrite: bool, p: Profile, ghost s: Start, ghost ms: seq<EntityMsg>)
      returns (ok: bool, e: Entity)
      requires Steady(id, p, s, ms)
      modifies `files, `clock, `links, `policy, `backup, `db
      ensures if ok then Matches(e, m) && Steady(id, Activated(p, e), s, ms + [m]) else Upset(id, p, s)
      ensures ok ==> m.created != 0 && m.version != "" && (!overwrite ==> p.active.Get(e.kind).version != m.version)
      ensures uploadsWork ==> (ok <==> MsgOk(s.active, s.hasPolicy, ms, m, overwrite))
    {
      e := p.active.cert;
      ok := PassesChecks(m, overwrite, p);
      if !ok {
        return false, e;
      }
      ok, e := SaveNoted(id, m, m.kind.value, p, s, ms);
      if ok {
        SessionActivated(p, e, s.active);
        WriteRow(id, e, p, s);
      }
    }

    lemma {:induction false} SteadyUpset(id: string, p: Profile, s: Start, ms: seq<EntityMsg>)
      requires Steady(id, p, s, ms)
      ensures Upset(id, p, s)
    {
    }

    /** After the first `i` entities of an upload, which lead from profile `p` to `q`. */
    ghost predicate Loading(id: string, entities: seq<EntityMsg>, overwrite: bool, i: nat, p: Profile, q: Profile,
                            es: seq<Entity>, s: Start, ms: seq<EntityMsg>)
      reads this
    {
      && i <= |entities| && |es| == i && Activates(p, q, es, entities) && Steady(id, q, s, ms + entities[..i])
      && (uploadsWork ==> FirstOk(s.active, s.hasPolicy, ms, entities, overwrite, i))
    }

    /** The entity at `i` of an upload, after those before it. */
    method UploadNext(id: string, entities: seq<EntityMsg>, i: nat, overwrite: bool, q: Profile, ghost p: Profile,
                      ghost es: seq<Entity>, ghost s: Start, ghost ms: seq<EntityMsg>)
      returns (ok: bool, q': Profile, ghost es': seq<Entity>)
      requires i < |entities| && Loading(id, entities, overwrite, i, p, q, es, s, ms)
      modifies `files, `clock, `links, `policy, `backup, `db
      ensures if ok then Loading(id, entities, overwrite, i + 1, p, q', es', s, ms)
              else q' == q && es' == es && Upset(id, q, s)
      ensures uploadsWork && !ok ==> !NextOk(s.active, s.hasPolicy, ms, entities, overwrite, i)
    {
      var e;
      ok, e := UploadEntity(id, entities[i], overwrite, q, s, ms + entities[..i]);
      if !ok {
        return false, q, es;
      }
      OneMore(ms, entities, i);
      ActivatesMore(p, q, es, entities, e);
      return true, Activated(q, e), es + [e];
    }

    /** All entities of an upload up to the first that fails. */
    method UploadAll(id: string, entities: seq<EntityMsg>, overwrite: bool, p: Profile, ghost s: Start,
                     ghost ms: seq<EntityMsg>) returns (ok: bool, q: Profile, ghost es: seq<Entity>)
      requires Steady(id, p, s, ms)
      modifies `files, `clock, `links, `policy, `backup, `db
      ensures Activates(p, q, es, entities)
      ensures if ok then |es| == |entities| && Steady(id, q, s, ms + entities) else Upset(id, q, s)
      ensures uploadsWork ==> (ok <==> FirstOk(s.active, s.hasPolicy, ms, entities, overwrite, |entities|))
    {
      q, es := p, [];
      assert ms + entities[..0] == ms;
      for i := 0 to |entities|
        invariant Loading(id, entities, overwrite, i, p, q, es, s, ms)
      {
        ok, q, es := UploadNext(id, entities, i, overwrite, q, p, es, s, ms);
        if !ok {
          return false, q, es;
        }
      }
      assert entities[..|entities|] == entities;
      return true, q, es;
    }

    method DoUpload(id: string, entities: seq<EntityMsg>, overwrite: bool, p: Profile, ghost s: Start,
                    ghost ms: seq<EntityMsg>) returns (ok: bool, q: Profile, ghost es: seq<Entity>)
      requires Steady(id, p, s, ms)
      modifies `files, `clock, `links, `policy, `backup, `db
      ensures q == AllActivated(p, es) && Uploads(es) && FirstMatch(es, entities)
      ensures if ok then Steady(id, q, s, ms + entities) && AllMatch(es, entities) else Upset(id, q, s)
      ensures uploadsWork ==> (ok <==> UploadOk(s.active, s.hasPolicy, ms, entities, overwrite))
    {
      if |entities| == 0 {
        SteadyUpset(id, p, s, ms);
        return false, p, [];
      }
      ok, q, es := UploadAll(id, entities, overwrite, p, s, ms);
      ActivatesMatch(p, q, es, entities);
    }

    // ----- the end of a session

    /** Links and files go back to the certificate of the start. */
    method UnlinkCert(p: Profile, ghost s: Start)
      requires InSession(p, s.active) && DiskHeld(p, s) && !p.active.cert.final
      modifies `links, `files
      ensures DiskHeld(Back(p, Cert), s)
      ensures Removed(files, old(files), PathsOf(p.active, true, false), removalsWork)
    {
      ghost var links0, files0 := links, files;
      var fault: Fault, certFails: bool, keyFails: bool :| undoWorks ==> fault == NoFault;
      var ok, _ := AtomicSetSrvCertKeyPair(p.last.cert.certPath, p.last.cert.keyPath, fault, certFails, keyFails);
      RemoveEntityFiles(p.active.cert);
      FilesCertReverted(p, files0, files, clock, s);
      if undoWorks {
        DiskCertReverted(p, links0, files0, files, clock, s);
      }
    }

    method RevertCert(id: string, p: Profile, ghost from: Profile, ghost s: Start) returns (q: Profile)
      requires InSession(p, s.active) && DiskHeld(p, s) && RowsTurn(id, from, p, s)
      modifies `links, `files, `db
      ensures q == Back(p, Cert) && InSession(q, s.active) && DiskHeld(q, s) && RowsTurn(id, from, q, s)
      ensures Removed(files, old(files), PathsOf(p.active, !p.active.cert.final, false), removalsWork)
    {
      q := p;
      if !p.active.cert.final {
        UnlinkCert(p, s);
        WriteRowBack(id, p.last.cert, Cert, from, p, s);
        q := p.(active := p.active.(cert := p.last.cert));
      }
    }

    method UnlinkTrust(p: Profile, ghost s: Start)
      requires InSession(p, s.active) && DiskHeld(p, s) && !p.active.trust.final
      modifies `links, `files
      ensures DiskHeld(Back(p, Trust), s)
      ensures Removed(files, old(files), PathsOf(p.active, false, true), removalsWork)
    {
      ghost var links0, files0 := links, files;
      var absFails: bool, removalFails: bool, linkFails: bool, restoreFails: bool :|
        undoWorks ==> !absFails && !removalFails && !linkFails;
      var ok, _ := AtomicSetCACert(p.last.trust.certPath, absFails, removalFails, linkFails, restoreFails);
      RemoveEntityFiles(p.active.trust);
      FilesTrustReverted(p, files0, files, clock, s);
      if undoWorks {
        DiskTrustReverted(p, links0, files0, files, clock, s);
      }
    }

    method RevertTrust(id: string, p: Profile, ghost from: Profile, ghost s: Start) returns (q: Profile)
      requires InSession(p, s.active) && DiskHeld(p, s) && RowsTurn(id, from, p, s)
      modifies `links, `files, `db
      ensures q == Back(p, Trust) && InSession(q, s.active) && DiskHeld(q, s) && RowsTurn(id, from, q, s)
      ensures Removed(files, old(files), PathsOf(p.active, false, !p.active.trust.final), removalsWork)
    {
      q := p;
      if !p.active.trust.final {
        UnlinkTrust(p, s);
        WriteRowBack(id, p.last.trust, Trust, from, p, s);
        q := p.(active := p.active.(trust := p.last.trust));
      }
    }

    method RevertCrl(id: string, p: Profile, ghost from: Profile, ghost s: Start) returns (q: Profile)
      requires InSession(p, s.active) && DiskHeld(p, s) && RowsTurn(id, from, p, s)
      modifies `db
      ensures q == Back(p, Crl) && InSession(q, s.active) && DiskHeld(q, s) && RowsTurn(id, from, q, s)
    {
      q := p;
      if !p.active.crl.final {
        WriteRowBack(id, p.last.crl, Crl, from, p, s);
        q := p.(active := p.active.(crl := p.last.crl));
      }
    }

    method RestorePolicy(ghost s: Start)
      requires FileBack(false, s)
      modifies `policy, `backup
      ensures undoWorks ==> backup == None && policy == s.policy
      ensures undoWorks ==> PolicyFiles(policy, backup) == Restored(old(PolicyFiles(policy, backup)))
    {
      if backup.Some? {
        var renameFails: bool :| undoWorks ==> !renameFails;
        if !renameFails {
          policy, backup := backup, None;
        }
      }
    }

    /** Brings back the policy of the start; the backup may already be in place again. */
    method RevertPolicy(id: string, p: Profile, ghost from: Profile, ghost s: Start) returns (q: Profile)
      requires InSession(p, s.active) && DiskHeld(p, s) && RowsTurn(id, from, p, s)
      requires FileBack(p.active.policy.final, s)
      modifies `policy, `backup, `db
      ensures q == Back(p, Policy) && InSession(q, s.active) && DiskHeld(q, s) && RowsTurn(id, from, q, s)
      ensures undoWorks ==> backup == None && policy == s.policy
    {
      q := p;
      if !p.active.policy.final {
        RestorePolicy(s);
        WriteRowBack(id, p.last.policy, Policy, from, p, s);
        q := p.(active := p.active.(policy := p.last.policy));
      }
    }

    /** Between sessions of profile `id`. */
    ghost predicate Rest(id: string)
      reads this
    {
      && id in profiles && AtRest(profiles[id])
      && (undoWorks ==> RestDisk(profiles[id].active, links, files, clock) && Replaceable(links) && backup == None)
    }

    ghost function Now(id: string): Start
      requires id in profiles
      reads this
    {
      Start(profiles[id].active, links, files, policy, HasPolicy(), db, clock)
    }

    /** Brings back the entities with files. */
    method RevertLinked(id: string, p: Profile, ghost s: Start) returns (q: Profile)
      requires InSession(p, s.active) && DiskHeld(p, s) && RowsTurn(id, p, p, s)
      modifies `links, `files, `db
      ensures q == Back(Back(p, Cert), Trust) && InSession(q, s.active) && DiskHeld(q, s) && RowsTurn(id, p, q, s)
      ensures Removed(files, old(files), NewFiles(p.active), removalsWork)
    {
      ghost var files0 := files;
      q := RevertCert(id, p, p, s);
      ghost var files1 := files;
      q := RevertTrust(id, q, p, s);
      RemovedMore(files0, files1, files, PathsOf(p.active, !p.active.cert.final, false),
                  PathsOf(p.active, false, !p.active.trust.final), removalsWork);
    }

    /** Brings back the other entities. */
    method RevertLoose(id: string, p: Profile, ghost from: Profile, ghost s: Start) returns (q: Profile)
      requires InSession(p, s.active) && DiskHeld(p, s) && RowsTurn(id, from, p, s)
      requires FileBack(p.active.policy.final, s)
      modifies `policy, `backup, `db
      ensures q == Back(Back(p, Crl), Policy) && InSession(q, s.active) && DiskHeld(q, s) && RowsTurn(id, from, q, s)
      ensures undoWorks ==> backup == None && policy == s.policy
    {
      q := RevertCrl(id, p, from, s);
      q := RevertPolicy(id, q, from, s);
    }

    method RevertEach(id: string, p: Profile, ghost s: Start) returns (q: Profile)
      requires InSession(p, s.active) && DiskHeld(p, s) && FileBack(p.active.policy.final, s) && RowsTurn(id, p, p, s)
      modifies `links, `files, `policy, `backup, `db
      ensures q == Reverted(p) && DiskHeld(q, s) && RowsTurn(id, p, q, s)
      ensures undoWorks ==> backup == None && policy == s.policy
      ensures Removed(files, old(files), NewFiles(p.active), removalsWork)
    {
      q := RevertLinked(id, p, s);
      q := RevertLoose(id, q, p, s);
    }

    /** Brings back every kind. Only the files of the last upload of each kind are removed: those of uploads it had
        replaced stay. */
    method RevertAll(id: string, p: Profile, ghost s: Start) returns (q: Profile)
      requires InSession(p, s.active) && DiskHeld(p, s) && FileBack(p.active.policy.final, s) && RowsOk(id, p, s)
      modifies `links, `files, `policy, `backup, `db
      ensures q == Reverted(p) && q.active == s.active
      ensures undoWorks ==> && RestDisk(s.active, links, files, clock) && Replaceable(links)
                            && LinksHeld(links, s.active, true, true, s.links) && policy == s.policy && backup == None
      ensures OldKept(files, s, {}) && Removed(files, old(files), NewFiles(p.active), removalsWork)
      ensures RowsHeld(db, id, p.active, s.active, s, revertRowsWork)
    {
      RowsTurn0(db, id, p, s, uploadRowsWork, revertRowsWork);
      q := RevertEach(id, p, s);
      RevertGivesStart(p, s.active);
      RowsTurned(db, id, p.active, q.active, s, revertRowsWork);
      if undoWorks {
        DiskBack(q, links, files, clock, s);
      }
    }

    method RemoveEntityFiles(e: Entity)
      modifies `files
      ensures e.kind == Cert ==> Removed(files, old(files), {e.certPath, e.keyPath}, removalsWork)
      ensures e.kind == Trust ==> Removed(files, old(files), {e.certPath}, removalsWork)
      ensures e.kind != Cert && e.kind != Trust ==> files == old(files)
    {
      if e.kind == Cert {
        Remove(e.certPath);
        Remove(e.keyPath);
      } else if e.kind == Trust {
        Remove(e.certPath);
      }
    }

    /** Removes the files of the replaced entities. */
    method RemoveReplaced(p: Profile, ghost s: Start)
      requires InSession(p, s.active)
      modifies `files
      ensures Removed(files, old(files), Replaced(p), removalsWork)
    {
      ghost var files0 := files;
      if !p.active.cert.final {
        RemoveEntityFiles(p.last.cert);
      }
      ghost var files1 := files;
      if !p.active.trust.final {
        RemoveEntityFiles(p.last.trust);
      }
      RemovedMore(files0, files1, files, PathsOf(p.last, !p.active.cert.final, false),
                  PathsOf(p.last, false, !p.active.trust.final), removalsWork);
    }

    /** Makes the new entities final and removes what they replaced. The links keep leading to files unless the
        session replaced one of two entities with a common file, and then a file is missing once it is removed. */
    method FinalizeAll(id: string, p: Profile, ghost s: Start, ghost ms: seq<EntityMsg>) returns (q: Profile)
      requires InSession(p, s.active) && DiskHeld(p, s) && FileHeld(p.active.policy.final, s) && NotesOk(p, s, ms)
      modifies `files, `backup
      ensures q == Finalized(p)
      ensures undoWorks ==> && LinksHeld(links, q.active, p.active.cert.final, p.active.trust.final, s.links)
                            && AllBefore(q.active, clock)
      ensures undoWorks && (p.active.policy.final || removalsWork) ==> backup == None
      ensures undoWorks && !Clash(p, s.active) ==> Present(q.active, files)
      ensures undoWorks && removalsWork ==> (Present(q.active, files) <==> !Clash(p, s.active))
      ensures OldKept(files, s, Replaced(p)) && Removed(files, old(files), Replaced(p), removalsWork)
      ensures undoWorks ==> LinksCarry(!p.active.cert.final, !p.active.trust.final, links, files, ms)
    {
      ghost var files0 := files;
      RemoveReplaced(p, s);
      if undoWorks {
        NotedFinalized(p, links, files0, files, policy, clock, s, ms);
        DiskFinalized(p, links, files0, files, clock, s);
        FinalizedLeadsIff(p, links, files0, clock, s);
      }
      q := p;
      q := q.(active := q.active.(cert := q.active.cert.(final := true)));
      q := q.(last := q.last.(cert := q.active.cert));
      q := q.(active := q.active.(trust := q.active.trust.(final := true)));
      q := q.(last := q.last.(trust := q.active.trust));
      if !q.active.crl.final {
        q := q.(active := q.active.(crl := q.active.crl.(final := true)));
        q := q.(last := q.last.(crl := q.active.crl));
      }
      if !q.active.policy.final {
        var removalFails: bool :| removalsWork ==> !removalFails;
        if !removalFails {
          backup := None;
        }
        q := q.(active := q.active.(policy := q.active.policy.(final := true)));
      }
      q := q.(last := q.last.(policy := q.active.policy));
    }

    // ----- whole sessions

    ghost predicate Held(id: string, s: Start, ms: seq<EntityMsg>)
      reads this
    {
      id in profiles && Steady(id, profiles[id], s, ms)
    }

    /** The same after a failed step. */
    ghost predicate Shaken(id: string, s: Start)
      reads this
    {
      id in profiles && Upset(id, profiles[id], s)
    }

    ghost predicate BackAt(id: string, s: Start)
      reads this
    {
      && Rest(id) && profiles[id].active == s.active && OldKept(files, s, {})
      && (undoWorks ==> policy == s.policy && LinksHeld(links, s.active, true, true, s.links))
    }

    method RevertProfile(id: string, ghost s: Start)
      requires id in profiles ==> Shaken(id, s)
      modifies this
      ensures id !in old(profiles) ==> profiles == old(profiles)
      ensures id in old(profiles) ==>
                && BackAt(id, s) && profiles == old(profiles)[id := profiles[id]]
                && RowsHeld(db, id, old(profiles)[id].active, s.active, s, revertRowsWork)
    {
      if id in profiles {
        var q := RevertAll(id, profiles[id], s);
        RevertGivesStart(profiles[id], s.active);
        profiles := profiles[id := q];
      }
    }

    /** What is left on disk when `g` is final: its files are there unless just one of two entities with a common
        file was replaced, and if every removal works exactly then. */
    ghost predicate FilesEnd(certNew: bool, trustNew: bool, g: Group, s: Start)
      reads this
    {
      var clash := Shared(s.active) && certNew != trustNew;
      && (undoWorks ==> LinksHeld(links, g, !certNew, !trustNew, s.links) && AllBefore(g, clock))
      && (undoWorks && removalsWork ==> backup == None)
      && (undoWorks && !clash ==> Present(g, files))
      && (undoWorks && removalsWork ==> (Present(g, files) <==> !clash))
      && OldKept(files, s, PathsOf(s.active, certNew, trustNew))
    }

    method FinalizeProfile(id: string, ghost s: Start, ghost ms: seq<EntityMsg>) returns (ok: bool)
      requires Held(id, s, ms)
      modifies this
      ensures profiles == old(profiles)[id := Finalized(old(profiles)[id])] && AtRest(profiles[id])
      ensures var a := old(profiles)[id].active;
              && FilesEnd(!a.cert.final, !a.trust.final, profiles[id].active, s)
              && DataEnd(!a.cert.final, !a.trust.final, !a.policy.final, s, ms)
      ensures RowsHeld(db, id, old(profiles)[id].active, profiles[id].active, s, uploadRowsWork)
    {
      var q := FinalizeAll(id, profiles[id], s, ms);
      profiles := profiles[id := q];
      ok := *;
    }

    /** What the links lead to and what the policy file holds after finalizing: what the last message of a new kind
        carries, and the old policy if there is no new one. */
    ghost predicate DataEnd(certNew: bool, trustNew: bool, policyNew: bool, s: Start, ms: seq<EntityMsg>)
      reads this
    {
      && (undoWorks ==> LinksCarry(certNew, trustNew, links, files, ms))
      && (policyNew ==> LastMsg(ms, Policy).Some? && policy == Some(LastMsg(ms, Policy).value.data))
      && (undoWorks && !policyNew ==> policy == s.policy)
    }

    method ProcessRotateRequest(id: string, body: Body, ghost s: Start, ghost ms: seq<EntityMsg>)
      returns (ok: bool, ghost es: seq<Entity>)
      requires id in profiles ==> Held(id, s, ms)
      modifies this
      ensures id !in old(profiles) ==> !ok && profiles == old(profiles) && es == []
      ensures id in old(profiles) ==>
                && Shaken(id, s) && Uploads(es) && FirstMatch(es, Entities(body))
                && profiles == old(profiles)[id := AllActivated(old(profiles)[id], es)]
      ensures ok ==> Held(id, s, ms + Entities(body)) && AllMatch(es, Entities(body))
      ensures uploadsWork ==> (ok <==> id in old(profiles) && BodyOk(s.active, s.hasPolicy, ms, body))
    {
      es := [];
      if id !in profiles {
        return false, es;
      }
      assert ms + [] == ms;
      if body.GenerateCsr? {
        return body.ok, es;
      }
      if body.Unknown? {
        return false, es;
      }
      var q;
      ok, q, es := DoUpload(id, body.entities, body.overwrite, profiles[id], s, ms);
      if ok {
        SteadyUpset(id, q, s, ms + body.entities);
      }
      profiles := profiles[id := q];
    }

    /** In the middle of a session that started with profiles `start` and accepted `es`, made of `ms`. */
    ghost predicate Running(id: string, s: Start, start: map<string, Profile>, es: seq<Entity>, ms: seq<EntityMsg>)
      reads this
    {
      if id in start
      then AtRest(start[id]) && s.active == start[id].active && Uploads(es) && Held(id, s, ms)
           && profiles == start[id := AllActivated(start[id], es)]
      else profiles == start && es == []
    }

    /** The same after a failed request. */
    ghost predicate Halted(id: string, s: Start, start: map<string, Profile>, es: seq<Entity>)
      reads this
    {
      if id in start
      then AtRest(start[id]) && s.active == start[id].active && Uploads(es) && Shaken(id, s)
           && profiles == start[id := AllActivated(start[id], es)]
      else profiles == start && es == []
    }

    /** After a session that was not finalized. */
    ghost predicate Undone(id: string, s: Start, start: map<string, Profile>, es: seq<Entity>)
      reads this
    {
      if id in start
      then && s.active == start[id].active && BackAt(id, s) && profiles == start[id := profiles[id]]
           && RowsEnd(db, id, Kinds(es), s.active, s, revertRowsWork)
      else profiles == start
    }

    /** After a finalized session. */
    ghost predicate Finished(id: string, s: Start, start: map<string, Profile>, es: seq<Entity>, ms: seq<EntityMsg>)
      reads this
    {
      && id in start && id in profiles && AtRest(profiles[id]) && profiles == start[id := profiles[id]]
      && FinalizedFrom(profiles[id].active, start[id].active, es)
      && FilesEnd(Cert in Kinds(es), Trust in Kinds(es), profiles[id].active, s)
      && DataEnd(Cert in Kinds(es), Trust in Kinds(es), Policy in Kinds(es), s, ms)
      && RowsEnd(db, id, Kinds(es), profiles[id].active, s, uploadRowsWork)
    }

    /** Reverts a session that accepted `es`. */
    method Withdraw(id: string, ghost s: Start, ghost start: map<string, Profile>, ghost es: seq<Entity>)
      requires Halted(id, s, start, es)
      modifies this
      ensures Undone(id, s, start, es)
    {
      RevertProfile(id, s);
      if id in start {
        RowsByKind(db, id, start[id], es, s.active, s, revertRowsWork);
      }
    }

    /** Reverts the profile of the session, the default one if no request has come. */
    method Abort(profileId: string, ghost id: string, ghost s: Start, ghost start: map<string, Profile>,
                 ghost es: seq<Entity>, ghost ms: seq<EntityMsg>)
      requires Running(id, s, start, es, ms) && id != ""
      requires profileId == id || (profileId == "" && id == DEFAULT_PROFILE)
      modifies this
      ensures Undone(id, s, start, es)
    {
      if profileId == "" {
        Withdraw(DEFAULT_PROFILE, s, start, es);
      } else {
        Withdraw(profileId, s, start, es);
      }
    }

    method Serve(id: string, msg: Msg, ghost s: Start, ghost start: map<string, Profile>, ghost es: seq<Entity>,
                 ghost ms: seq<EntityMsg>) returns (ok: bool, ghost more: seq<Entity>)
      requires Running(id, s, start, es, ms) && msg.Request?
      modifies this
      ensures FirstMatch(more, Uploaded(msg))
      ensures ok ==> && Running(id, s, start, es + more, ms + Uploaded(msg)) && AllMatch(more, Uploaded(msg))
                     && id in start
      ensures !ok ==> Undone(id, s, start, es + more)
      ensures uploadsWork ==> (ok <==> id in start && BodyOk(s.active, s.hasPolicy, ms, msg.body) && msg.delivered)
    {
      ok, more := ProcessRotateRequest(id, msg.body, s, ms);
      if id in start {
        ActivatedMore(start[id], es, more);
      }
      if !ok || !msg.delivered {
        Withdraw(id, s, start, es + more);
        return false, more;
      }
    }

    /** Finalizes the session; without a request before there is no profile to finalize. */
    method Conclude(id: string, ghost name: string, ghost s: Start, ghost start: map<string, Profile>,
                    ghost es: seq<Entity>, ghost ms: seq<EntityMsg>) returns (ok: bool, finalized: bool)
      requires if id == "" then "" !in profiles && Undone(name, s, start, es) else id == name && id in start
      requires Running(name, s, start, es, ms)
      modifies this
      ensures finalized <==> id != ""
      ensures if finalized then Finished(name, s, start, es, ms) else !ok && Undone(name, s, start, es)
    {
      if id !in profiles {
        return false, false;
      }
      ok := FinalizeProfile(id, s, ms);
      FinalEntities(start[id], es);
      NewKinds(start[id], es, Cert);
      NewKinds(start[id], es, Trust);
      NewKinds(start[id], es, Policy);
      RowsByKind(db, id, start[id], es, profiles[id].active, s, uploadRowsWork);
      return ok, true;
    }

    /** One message of a session. It goes on after a request that was served; before the first request the profile
        is not known yet. */
    method Receive(profileId: string, msg: Msg, ghost id: string, ghost s: Start, ghost start: map<string, Profile>,
                   ghost es: seq<Entity>, ghost ms: seq<EntityMsg>)
      returns (next: string, more: bool, ok: bool, finalized: bool, ghost new': seq<Entity>)
      requires Running(id, s, start, es, ms) && id != ""
      requires if profileId == "" then "" !in profiles && Undone(id, s, start, es) && id == ProfileOf(msg)
               else profileId == id && id in start
      modifies this
      ensures FirstMatch(new', Uploaded(msg))
      ensures more ==> && msg.Request? && next == id && id in start && !finalized
                       && Running(id, s, start, es + new', ms + Uploaded(msg)) && AllMatch(new', Uploaded(msg))
      ensures finalized <==> msg.Finalize? && profileId != ""
      ensures finalized ==> new' == [] && Finished(id, s, start, es, ms)
      ensures !more && !finalized ==> !ok && Undone(id, s, start, es + new')
      ensures uploadsWork ==> (more <==> && msg.Request? && msg.delivered && id in start
                                         && BodyOk(s.active, s.hasPolicy, ms, msg.body))
    {
      next, new' := profileId, [];
      assert es + new' == es;
      if msg.Broken? {
        Abort(profileId, id, s, start, es, ms);
        return next, false, false, false, new';
      }
      if msg.Finalize? {
        ok, finalized := Conclude(profileId, id, s, start, es, ms);
        return next, false, ok, finalized, new';
      }
      if next == "" {
        next := DEFAULT_PROFILE;
        if msg.profile != "" {
          next := msg.profile;
        }
      }
      ok, new' := Serve(next, msg, s, start, es, ms);
      return next, ok, ok, false, new';
    }

    /** Before message `i` of a session, all messages before it having been served. */
    ghost predicate Talking(profileId: string, msgs: seq<Msg>, i: nat, id: string, s: Start,
                            start: map<string, Profile>, es: seq<Entity>)
      reads this
    {
      && i <= |msgs| && Heard(msgs, i, es) && Running(id, s, start, es, UploadedBefore(msgs, i))
      && profileId == (if i == 0 then "" else id) && (i > 0 ==> id in start)
      && (i == 0 ==> "" !in profiles && Undone(id, s, start, es))
      && (uploadsWork ==> AllRequestsOk(s.active, s.hasPolicy, msgs, i))
    }

    /** After a session that stopped at message `n`. */
    ghost predicate Stopped(ok: bool, finalized: bool, msgs: seq<Msg>, n: nat, id: string, s: Start,
                            start: map<string, Profile>, es: seq<Entity>)
      reads this
    {
      && n <= |msgs| && (finalized <==> 0 < n < |msgs| && msgs[n].Finalize?)
      && (!finalized ==> !ok && Undone(id, s, start, es))
      && (finalized ==> && EndsAt(msgs, n) && AllMatch(es, UploadedBefore(msgs, n))
                        && Finished(id, s, start, es, UploadedBefore(msgs, n)))
      && (uploadsWork ==> StopsAt(s.active, s.hasPolicy, msgs, id in start, n))
    }

    /** The stream ends before a Finalize message. */
    method Leave(profileId: string, msgs: seq<Msg>, ghost id: string, ghost s: Start,
                 ghost start: map<string, Profile>, ghost es: seq<Entity>)
      requires id != "" && id == SessionProfile(msgs) && Talking(profileId, msgs, |msgs|, id, s, start, es)
      modifies this
      ensures FromMessages(msgs, es) && Stopped(false, false, msgs, |msgs|, id, s, start, es)
    {
      Abort(profileId, id, s, start, es, UploadedBefore(msgs, |msgs|));
    }

    /** Before message `n` of a session, or after a session that stopped there. */
    ghost predicate Stands(phase: Phase, msgs: seq<Msg>, n: nat, id: string, s: Start, start: map<string, Profile>,
                           es: seq<Entity>)
      reads this
    {
      match phase
      case Going(profileId) => Talking(profileId, msgs, n, id, s, start, es)
      case Over(ok, finalized) => FromMessages(msgs, es) && Stopped(ok, finalized, msgs, n, id, s, start, es)
    }

    /** Message `n` of a session, or the end of the stream. */
    method Hear(profileId: string, msgs: seq<Msg>, n: nat, ghost id: string, ghost s: Start,
                ghost start: map<string, Profile>, ghost es: seq<Entity>)
      returns (next: Phase, n': nat, ghost es': seq<Entity>)
      requires id != "" && id == SessionProfile(msgs) && Stands(Going(profileId), msgs, n, id, s, start, es)
      modifies this
      ensures n' == (if next.Going? then n + 1 else n) && n' <= |msgs| && Stands(next, msgs, n', id, s, start, es')
    {
      if n == |msgs| {
        Leave(profileId, msgs, id, s, start, es);
        return Over(false, false), n, es;
      }
      var profileId', more, ok, finalized;
      ghost var new';
      profileId', more, ok, finalized, new' := Receive(profileId, msgs[n], id, s, start, es, UploadedBefore(msgs, n));
      HeardMore(msgs, n, es, new');
      assert finalized ==> es + new' == es;
      es' := es + new';
      if uploadsWork {
        RequestsMore(s.active, s.hasPolicy, msgs, id in start, n, more);
      }
      next, n' := if more then Going(profileId') else Over(ok, finalized), if more then n + 1 else n;
    }

    lemma {:induction false} BeginsTalking(msgs: seq<Msg>, id: string, s: Start, start: map<string, Profile>)
      requires "" !in profiles && Running(id, s, start, [], []) && Undone(id, s, start, [])
      ensures Stands(Going(""), msgs, 0, id, s, start, [])
    {
    }

    /** The messages of a session, one after the other, until the one at `n`. */
    method Converse(msgs: seq<Msg>, ghost id: string, ghost s: Start, ghost start: map<string, Profile>)
      returns (phase: Phase, n: nat, ghost es: seq<Entity>)
      requires id != "" && id == SessionProfile(msgs) && Stands(Going(""), msgs, 0, id, s, start, [])
      modifies this
      ensures phase.Over? && Stands(phase, msgs, n, id, s, start, es)
    {
      phase, n, es := Going(""), 0, [];
      while phase.Going?
        invariant n <= |msgs| && Stands(phase, msgs, n, id, s, start, es)
        decreases phase.Going?, |msgs| - n
      {
        phase, n, es := Hear(phase.profileId, msgs, n, id, s, start, es);
      }
    }

    /** After a session that a Finalize message ended. */
    ghost predicate FinishedBy(id: string, s: Start, start: map<string, Profile>, es: seq<Entity>, msgs: seq<Msg>)
      reads this
    {
      exists n :: EndsAt(msgs, n) && AllMatch(es, UploadedBefore(msgs, n))
                  && Finished(id, s, start, es, UploadedBefore(msgs, n))
    }

    /** MAIN RESULT. Whatever messages a session consists of and whichever operations fail: a session that is not
        finalized leaves the active entities and every file of its start, a finalized one the last upload of each kind.
        If no undoing operation failed, the links and the policy file agree with that, down to the data of the last
        message of each kind. The row of a kind that was not uploaded is untouched, and that of an uploaded one is right
        if its own writes worked. If no operation of an upload fails, exactly the sessions of acceptable requests with
        Finalize at the end are finalized. */
    method Rotate(msgs: seq<Msg>, ghost s: Start) returns (ok: bool, finalized: bool, ghost es: seq<Entity>)
      requires "" !in profiles
      requires SessionProfile(msgs) in profiles ==> Rest(SessionProfile(msgs)) && s == Now(SessionProfile(msgs))
      modifies this
      ensures FromMessages(msgs, es)
      ensures !finalized ==> !ok && Undone(SessionProfile(msgs), s, old(profiles), es)
      ensures finalized ==> FinishedBy(SessionProfile(msgs), s, old(profiles), es, msgs)
      ensures uploadsWork ==>
                (finalized <==> SessionProfile(msgs) in old(profiles) && SessionOk(s.active, s.hasPolicy, msgs))
    {
      Begin(SessionProfile(msgs), s, profiles);
      BeginsTalking(msgs, SessionProfile(msgs), s, profiles);
      var phase, n;
      phase, n, es := Converse(msgs, SessionProfile(msgs), s, profiles);
      ok, finalized := phase.ok, phase.finalized;
      if uploadsWork {
        StoppedAt(s.active, s.hasPolicy, msgs, SessionProfile(msgs) in old(profiles), n);
      }
    }

    /** Before the first message there is nothing to undo. */
    lemma {:induction false} Begin(id: string, s: Start, start: map<string, Profile>)
      requires profiles == start && (id in start ==> Rest(id) && s == Now(id))
      ensures Running(id, s, start, [], []) && Undone(id, s, start, [])
    {
    }
  }
}
