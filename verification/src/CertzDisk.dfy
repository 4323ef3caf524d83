/** What a rotation session finds and leaves on disk and in the database: link pairs, the files of its entities, the
    policy file and the rows. */
module CertzDisk {
  import opened Options
  import opened CertzProfile

  datatype Link = CertLink | KeyLink | CaLink
  type Links = map<Link, Path>
  type Files = map<Path, string>

  datatype Row = Row(created: nat, version: string)
  type Rows = map<(string, Kind), Row>

  const NANOSECONDS := 1_000_000_000

  ghost predicate SameExcept<K(!new), V>(a: map<K, V>, b: map<K, V>, changed: set<K>) {
    forall x :: x !in changed ==> (x in a <==> x in b) && (x in a && x in b ==> a[x] == b[x])
  }

  // ----- replacing a pair of links

  /** The step of a link replacement that fails. */
  datatype Fault = NoFault | AbsPath | OldCertLink | OldKeyLink | NewCertLink | NewKeyLink

  /** Only an existing link can fail to be removed. */
  predicate Strikes(fault: Fault, links: Links) {
    match fault
    case NoFault => false
    case OldCertLink => CertLink in links
    case OldKeyLink => KeyLink in links
    case _ => true
  }

  /** The link, if there is one, leads to a file. */
  predicate Leads(links: Links, l: Link, files: Files) {
    l in links ==> links[l] in files
  }

  /** The target, if there is one, is a file. */
  predicate IsFile(target: Option<Path>, files: Files) {
    target.Some? ==> target.value in files
  }

  function WithLink(links: Links, l: Link, target: Option<Path>): Links {
    if target.Some? then links[l := target.value] else links
  }

  function Target(links: Links, l: Link): Option<Path> {
    if l in links then Some(links[l]) else None
  }

  /** The links after the steps before the one that fails, and after what was removed has been restored. */
  function PairAfterFault(links: Links, cert: Path, fault: Fault): Links {
    var bare := links - {CertLink, KeyLink};
    match fault
    case OldKeyLink => WithLink(links - {CertLink}, CertLink, Target(links, CertLink))
    case NewCertLink => WithLink(WithLink(bare, CertLink, Target(links, CertLink)), KeyLink, Target(links, KeyLink))
    case NewKeyLink =>
      WithLink(WithLink(bare[CertLink := cert], CertLink, Target(links, CertLink)), KeyLink, Target(links, KeyLink))
    case _ => links
  }

  lemma {:induction false} NeitherMovedIff(links: Links, cert: Path, fault: Fault)
    ensures PairAfterFault(links, cert, fault) == links <==> !(fault == NewKeyLink && CertLink !in links)
  {
    if fault == NewKeyLink && CertLink !in links {
      assert CertLink in PairAfterFault(links, cert, fault);
    }
  }

  /** Whichever step fails, neither link moves: exactly when there is a certificate link before the call. */
  lemma {:induction false} FailureMovesNothingIff(links: Links, cert: Path)
    ensures (forall fault :: Strikes(fault, links) ==> PairAfterFault(links, cert, fault) == links)
       <==> CertLink in links
  {
    forall fault ensures PairAfterFault(links, cert, fault) == links <==> !(fault == NewKeyLink && CertLink !in links) {
      NeitherMovedIff(links, cert, fault);
    }
    assert Strikes(NewKeyLink, links);
  }

  /** Without a certificate link, a new key link that fails leaves the new certificate beside the old key. */
  lemma {:induction false} NewCertWithOldKey(links: Links, cert: Path)
    requires CertLink !in links
    ensures Strikes(NewKeyLink, links)
    ensures PairAfterFault(links, cert, NewKeyLink) == links[CertLink := cert] != links
  {
    assert CertLink in links[CertLink := cert];
  }

  // ----- what a session keeps on disk

  datatype Start = Start(active: Group, links: Links, files: Files, policy: Option<string>, hasPolicy: bool, rows: Rows,
                         t: nat)

  predicate LinkAt(links: Links, l: Link, target: Path) {
    l in links && links[l] == target
  }

  /** Every link there is leads to the active entity. */
  predicate LinksFit(links: Links, g: Group) {
    && (CertLink in links ==> links[CertLink] == g.cert.certPath)
    && (KeyLink in links ==> links[KeyLink] == g.cert.keyPath)
    && (CaLink in links ==> links[CaLink] == g.trust.certPath)
  }

  /** The link leads to its target. Only where nothing was uploaded it may be missing, if it was before. */
  predicate LinkHeld(links: Links, l: Link, target: Path, kept: bool, was: Links) {
    LinkAt(links, l, target) || (kept && l !in links && l !in was)
  }

  predicate LinksHeld(links: Links, g: Group, certKept: bool, trustKept: bool, was: Links) {
    && LinkHeld(links, CertLink, g.cert.certPath, certKept, was)
    && LinkHeld(links, KeyLink, g.cert.keyPath, certKept, was)
    && LinkHeld(links, CaLink, g.trust.certPath, trustKept, was)
  }

  predicate Present(g: Group, files: Files)
  {
    g.cert.certPath in files && g.cert.keyPath in files && g.trust.certPath in files
  }

  /** The trust bundle is also the certificate or the key. */
  predicate Shared(g: Group) {
    g.trust.certPath == g.cert.certPath || g.trust.certPath == g.cert.keyPath
  }

  /** The files of the given entities of a group. */
  function PathsOf(g: Group, cert: bool, trust: bool): set<Path> {
    (if cert then {g.cert.certPath, g.cert.keyPath} else {}) + (if trust then {g.trust.certPath} else {})
  }

  predicate Before(q: Path, t: nat) {
    q.Made? ==> q.t < t
  }

  predicate AllBefore(g: Group, t: nat)
  {
    Before(g.cert.certPath, t) && Before(g.cert.keyPath, t) && Before(g.trust.certPath, t)
  }

  predicate FreshFor(q: Path, part: Part, from: nat, to: nat) {
    q.Made? && q.part == part && from <= q.t < to
  }

  predicate SameFile(q: Path, files: Files, files': Files) {
    (q in files <==> q in files') && (q in files && q in files' ==> files[q] == files'[q])
  }

  /** Every file of before the session is as it was, but for the given ones. */
  ghost predicate OldKept(files: Files, s: Start, gone: set<Path>) {
    forall q :: Before(q, s.t) && q !in gone ==> SameFile(q, files, s.files)
  }

  /** New entities have new files, and the old files are untouched. */
  ghost predicate FilesHeld(p: Profile, files: Files, clock: nat, s: Start)
  {
    && s.t <= clock && OldKept(files, s, {})
    && (!p.active.cert.final ==> FreshFor(p.active.cert.certPath, CertFile, s.t, clock)
                                 && FreshFor(p.active.cert.keyPath, KeyFile, s.t, clock))
    && (!p.active.trust.final ==> FreshFor(p.active.trust.certPath, BundleFile, s.t, clock))
  }

  /** The links lead to the active entities, whose files exist, as they did at the start. */
  predicate SessionDisk(p: Profile, links: Links, files: Files, s: Start)
  {
    && LinksHeld(links, p.active, p.active.cert.final, p.active.trust.final, s.links)
    && Present(p.active, files) && AllBefore(s.active, s.t) && Present(s.active, s.files)
  }

  predicate RestDisk(g: Group, links: Links, files: Files, clock: nat)
  {
    LinksFit(links, g) && Present(g, files) && AllBefore(g, clock)
  }

  /** The files of the entities that are not final. */
  function NewFiles(g: Group): set<Path> {
    PathsOf(g, !g.cert.final, !g.trust.final)
  }

  /** Only the given files are gone, and all of them if every removal works. */
  ghost predicate Removed(files': Files, files: Files, gone: set<Path>, works: bool) {
    SameExcept(files', files, gone) && (works ==> files' == files - gone)
  }

  lemma {:induction false} RemovedMore(files: Files, files': Files, files'': Files, a: set<Path>, b: set<Path>,
                                       works: bool)
    requires Removed(files', files, a, works) && Removed(files'', files', b, works)
    ensures Removed(files'', files, a + b, works)
  {
  }

  /** While a policy upload is not final the policy of the start is in the backup. */
  predicate PolicyHeld(final: bool, policy: Option<string>, backup: Option<string>, start: Option<string>) {
    if final then backup == None && policy == start else backup.Some? && backup == start
  }

  /** The policy file and its backup. */
  datatype PolicyFiles = PolicyFiles(policy: Option<string>, backup: Option<string>)

  /** A successful save: only the first moves the policy to the backup. */
  function Saved(f: PolicyFiles, data: string): PolicyFiles {
    PolicyFiles(Some(data), if f.backup == None then f.policy else f.backup)
  }

  function Restored(f: PolicyFiles): PolicyFiles {
    if f.backup.Some? then PolicyFiles(f.backup, None) else f
  }

  /** The files after any number of saves. */
  function AllSaved(f: PolicyFiles, data: seq<string>): PolicyFiles {
    if data == [] then f else Saved(AllSaved(f, data[..|data| - 1]), data[|data| - 1])
  }

  lemma {:induction false} SavesKeepBackup(f: PolicyFiles, data: seq<string>)
    requires data != [] && f.policy.Some?
    ensures AllSaved(f, data) == PolicyFiles(Some(data[|data| - 1]), if f.backup == None then f.policy else f.backup)
    decreases |data|
  {
    if |data| > 1 {
      SavesKeepBackup(f, data[..|data| - 1]);
    } else {
      assert AllSaved(f, data[..0]) == f;
    }
  }

  /** However many policies a session saves, restoring brings back the one of its start: exactly when no backup was
      left behind by an earlier session, or one with the same policy. */
  lemma {:induction false} PolicyBackIff(f: PolicyFiles, data: seq<string>)
    requires data != [] && f.policy.Some?
    ensures Restored(AllSaved(f, data)).policy == f.policy <==> f.backup == None || f.backup == f.policy
  {
    SavesKeepBackup(f, data);
  }

  /** After a failed save the backup may already be back in place. */
  predicate PolicyBack(final: bool, policy: Option<string>, backup: Option<string>, start: Option<string>) {
    (backup == None && policy == start) || PolicyHeld(final, policy, backup, start)
  }

  predicate RowAt(db: Rows, id: string, e: Entity) {
    (id, e.kind) in db && db[(id, e.kind)] == Row(e.created * 1_000_000_000, e.version)
  }

  predicate RowsAt(db: Rows, id: string, g: Group) {
    RowAt(db, id, g.cert) && RowAt(db, id, g.trust) && RowAt(db, id, g.crl) && RowAt(db, id, g.policy)
  }

  predicate SameRow(db: Rows, rows: Rows, id: string, k: Kind) {
    ((id, k) in db <==> (id, k) in rows) && ((id, k) in db && (id, k) in rows ==> db[(id, k)] == rows[(id, k)])
  }

  /** The row of a kind without an upload is untouched, that of an uploaded kind is written. */
  predicate RowHeld(db: Rows, id: string, kept: bool, e: Entity, s: Start, works: bool) {
    if kept then SameRow(db, s.rows, id, e.kind) else works ==> RowAt(db, id, e)
  }

  /** The rows hold `g` where `active` is not final. */
  predicate RowsHeld(db: Rows, id: string, active: Group, g: Group, s: Start, works: bool) {
    && RowHeld(db, id, active.cert.final, g.cert, s, works) && RowHeld(db, id, active.trust.final, g.trust, s, works)
    && RowHeld(db, id, active.crl.final, g.crl, s, works) && RowHeld(db, id, active.policy.final, g.policy, s, works)
  }

  /** The row of one kind was written if the kind is not final, and no other row. */
  ghost predicate RowBack(db: Rows, db': Rows, id: string, final: bool, e: Entity, works: bool) {
    SameExcept(db', db, if final then {} else {(id, e.kind)}) && (!final && works ==> RowAt(db', id, e))
  }

  predicate RowTurning(db: Rows, id: string, kept: bool, back: bool, e: Entity, s: Start, works: bool) {
    if kept then back && SameRow(db, s.rows, id, e.kind) else back && works ==> RowAt(db, id, e)
  }

  /** In the middle of a revert of `p`, when `q` is left. */
  predicate RowsTurning(db: Rows, id: string, p: Group, q: Group, s: Start, works: bool) {
    && RowTurning(db, id, p.cert.final, q.cert.final, s.active.cert, s, works)
    && RowTurning(db, id, p.trust.final, q.trust.final, s.active.trust, s, works)
    && RowTurning(db, id, p.crl.final, q.crl.final, s.active.crl, s, works)
    && RowTurning(db, id, p.policy.final, q.policy.final, s.active.policy, s, works)
  }

  /** The same by the kinds that were uploaded. */
  ghost predicate RowsEnd(db: Rows, id: string, kinds: set<Kind>, g: Group, s: Start, works: bool) {
    forall k: Kind :: RowHeld(db, id, k !in kinds, g.Get(k), s, works)
  }

  lemma {:induction false} SessionActivated(p: Profile, e: Entity, start: Group)
    requires InSession(p, start) && !e.final
    ensures InSession(Activated(p, e), start)
  {
  }

  /** Writing under a name made now keeps everything in use. */
  lemma {:induction false} FilesSaved(p: Profile, files: Files, files': Files, clock: nat, s: Start, written: set<Path>)
    requires FilesHeld(p, files, clock, s) && SameExcept(files', files, written)
    requires forall q :: q in written ==> q.Made? && q.t == clock
    ensures FilesHeld(p, files', clock + 1, s)
  {
  }

  lemma {:induction false} DiskSaved(p: Profile, links: Links, files: Files, files': Files, clock: nat, s: Start,
                                     written: set<Path>)
    requires InSession(p, s.active) && FilesHeld(p, files, clock, s) && SessionDisk(p, links, files, s)
    requires SameExcept(files', files, written)
    requires forall q :: q in written ==> q.Made? && q.t == clock
    ensures SessionDisk(p, links, files', s)
  {
  }

  lemma {:induction false} DiskCertActivated(p: Profile, links: Links, files: Files, s: Start, e: Entity)
    requires SessionDisk(p, links, files, s) && e.kind == Cert && e.certPath in files && e.keyPath in files
    ensures SessionDisk(Activated(p, e), links[CertLink := e.certPath][KeyLink := e.keyPath], files, s)
  {
  }

  lemma {:induction false} DiskTrustActivated(p: Profile, links: Links, files: Files, s: Start, e: Entity)
    requires SessionDisk(p, links, files, s) && e.kind == Trust && e.certPath in files
    ensures SessionDisk(Activated(p, e), links[CaLink := e.certPath], files, s)
  {
  }

  lemma {:induction false} RowsActivated(db: Rows, db': Rows, id: string, p: Profile, e: Entity, s: Start, works: bool)
    requires InSession(p, s.active) && !e.final && RowsHeld(db, id, p.active, p.active, s, works)
    requires SameExcept(db', db, {(id, e.kind)}) && (works ==> RowAt(db', id, e))
    ensures RowsHeld(db', id, Activated(p, e).active, Activated(p, e).active, s, works)
  {
  }

  lemma {:induction false} FilesCertReverted(p: Profile, files: Files, files': Files, clock: nat, s: Start)
    requires InSession(p, s.active) && FilesHeld(p, files, clock, s) && !p.active.cert.final
    requires SameExcept(files', files, PathsOf(p.active, true, false))
    ensures FilesHeld(Back(p, Cert), files', clock, s)
  {
  }

  lemma {:induction false} DiskCertReverted(p: Profile, links: Links, files: Files, files': Files, clock: nat, s: Start)
    requires InSession(p, s.active) && FilesHeld(p, files, clock, s) && SessionDisk(p, links, files, s)
    requires !p.active.cert.final && SameExcept(files', files, PathsOf(p.active, true, false))
    ensures SessionDisk(Back(p, Cert), links[CertLink := p.last.cert.certPath][KeyLink := p.last.cert.keyPath],
                        files', s)
  {
  }

  lemma {:induction false} FilesTrustReverted(p: Profile, files: Files, files': Files, clock: nat, s: Start)
    requires InSession(p, s.active) && FilesHeld(p, files, clock, s) && !p.active.trust.final
    requires SameExcept(files', files, PathsOf(p.active, false, true))
    ensures FilesHeld(Back(p, Trust), files', clock, s)
  {
  }

  lemma {:induction false} DiskTrustReverted(p: Profile, links: Links, files: Files, files': Files, clock: nat,
                                             s: Start)
    requires InSession(p, s.active) && FilesHeld(p, files, clock, s) && SessionDisk(p, links, files, s)
    requires !p.active.trust.final && SameExcept(files', files, PathsOf(p.active, false, true))
    ensures SessionDisk(Back(p, Trust), links[CaLink := p.last.trust.certPath], files', s)
  {
  }

  lemma {:induction false} DiskBack(q: Profile, links: Links, files: Files, clock: nat, s: Start)
    requires q.active == s.active && s.active.Final() && s.t <= clock && SessionDisk(q, links, files, s)
    ensures RestDisk(s.active, links, files, clock) && LinksHeld(links, s.active, true, true, s.links)
    ensures CertLink in s.links ==> CertLink in links
  {
  }

  /** The files of the entities that finalizing drops. */
  function Replaced(p: Profile): set<Path> {
    PathsOf(p.last, !p.active.cert.final, !p.active.trust.final)
  }

  /** One of two entities with a common file is replaced. */
  predicate Clash(p: Profile, start: Group) {
    Shared(start) && p.active.cert.final != p.active.trust.final
  }

  lemma {:induction false} DiskFinalized(p: Profile, links: Links, files: Files, files': Files, clock: nat, s: Start)
    requires InSession(p, s.active) && FilesHeld(p, files, clock, s) && SessionDisk(p, links, files, s)
    requires SameExcept(files', files, Replaced(p))
    ensures AllBefore(p.active, clock)
    ensures !Clash(p, s.active) ==> Present(p.active, files')
  {
  }

  /** MAIN RESULT. Once the replaced files are removed, the links lead to files exactly when the session did not
      replace just one of a certificate and a trust bundle that shared a file. */
  lemma {:induction false} FinalizedLeadsIff(p: Profile, links: Links, files: Files, clock: nat, s: Start)
    requires InSession(p, s.active) && FilesHeld(p, files, clock, s) && SessionDisk(p, links, files, s)
    ensures LinksFit(links, p.active) && (Present(p.active, files - Replaced(p)) <==> !Clash(p, s.active))
  {
    DiskFinalized(p, links, files, files - Replaced(p), clock, s);
  }

  /** One self-signed file for server and authority: a new certificate, finalized, leaves the authority's link
      without a file. */
  lemma {:induction false} SharedFileDangles(p: Profile, links: Links, files: Files, clock: nat, s: Start, e: Entity)
    requires AtRest(p) && s.active == p.active && p.active.trust.certPath == p.active.cert.certPath
    requires FilesHeld(p, files, clock, s) && SessionDisk(p, links, files, s) && CaLink in links
    requires e.kind == Cert && !e.final && e.certPath in files && e.keyPath in files
    ensures var q := Activated(p, e);
            var links' := links[CertLink := e.certPath][KeyLink := e.keyPath];
            && LinksFit(links', Finalized(q).active) && links'[CaLink] == p.active.trust.certPath
            && links'[CaLink] in files && links'[CaLink] !in files - Replaced(q)
  {
    assert p.active.cert.certPath in PathsOf(Activated(p, e).last, true, false);
  }
}
