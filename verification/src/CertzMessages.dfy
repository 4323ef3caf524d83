/** The messages of a rotation session: what they upload, what of it is accepted, and what the profile, its files and
    its rows owe to them. */
module CertzMessages {
  import opened Options
  import opened CertzProfile
  import opened CertzDisk

  datatype EntityMsg = EntityMsg(created: nat, version: string, kind: Option<Kind>, data: string, key: string,
                                 acceptable: bool)
  datatype Body = GenerateCsr(ok: bool) | Certificates(entities: seq<EntityMsg>, overwrite: bool) | Unknown
  datatype Msg = Broken | Finalize | Request(profile: string, body: Body, delivered: bool)

  /** A session waits for its next message, or is over. */
  datatype Phase = Going(profileId: string) | Over(ok: bool, finalized: bool)

  // ----- the messages of a session

  function ProfileOf(msg: Msg): string {
    if !msg.Request? || msg.profile == "" then "gnxi" else msg.profile
  }

  /** The profile of the first request, or the default one. */
  function SessionProfile(msgs: seq<Msg>): string {
    if msgs == [] then "gnxi" else ProfileOf(msgs[0])
  }

  function Entities(b: Body): seq<EntityMsg> {
    if b.Certificates? then b.entities else []
  }

  function Uploaded(msg: Msg): seq<EntityMsg> {
    if msg.Request? then Entities(msg.body) else []
  }

  /** Everything uploaded before the message at `n`. */
  function UploadedBefore(msgs: seq<Msg>, n: nat): seq<EntityMsg>
    requires n <= |msgs|
  {
    if n == 0 then [] else UploadedBefore(msgs, n - 1) + Uploaded(msgs[n - 1])
  }

  predicate Matches(e: Entity, m: EntityMsg) {
    m.kind == Some(e.kind) && e.created == m.created && e.version == m.version && !e.final
  }

  predicate AllMatch(es: seq<Entity>, ms: seq<EntityMsg>) {
    |es| == |ms| && forall i :: 0 <= i < |es| ==> Matches(es[i], ms[i])
  }

  /** The entities made of the first messages. */
  predicate FirstMatch(es: seq<Entity>, ms: seq<EntityMsg>) {
    |es| <= |ms| && forall i :: 0 <= i < |es| ==> Matches(es[i], ms[i])
  }

  function Kinds(es: seq<Entity>): set<Kind> {
    set e | e in es :: e.kind
  }

  lemma {:induction false} LatestFinal(es: seq<Entity>, k: Kind, was: Entity)
    requires was.final && Uploads(es)
    ensures Latest(es, k, was).final <==> forall e :: e in es ==> e.kind != k
    decreases |es|
  {
    if es != [] {
      var before, e := es[..|es| - 1], es[|es| - 1];
      assert e in es;
      LatestFinal(before, k, was);
      assert es == before + [e];
    }
  }

  /** An entity is final until one of its kind is uploaded. */
  lemma {:induction false} NewKinds(p: Profile, es: seq<Entity>, k: Kind)
    requires AtRest(p) && Uploads(es)
    ensures AllActivated(p, es).active.Get(k).final <==> k !in Kinds(es)
  {
    SessionKept(p, es);
    LatestFinal(es, k, p.active.Get(k));
  }

  /** Just one of a certificate and a trust bundle with a common file is uploaded. */
  predicate OneOfTwo(g: Group, es: seq<Entity>) {
    Shared(g) && (Cert in Kinds(es)) != (Trust in Kinds(es))
  }

  /** What finalizing replaces, and whether a link then leads nowhere, by the kinds that were uploaded. */
  lemma {:induction false} ReplacedByKind(p: Profile, es: seq<Entity>)
    requires AtRest(p) && Uploads(es)
    ensures Clash(AllActivated(p, es), p.active) <==> OneOfTwo(p.active, es)
    ensures Replaced(AllActivated(p, es)) == PathsOf(p.active, Cert in Kinds(es), Trust in Kinds(es))
  {
    NewKinds(p, es, Cert);
    NewKinds(p, es, Trust);
    SessionKept(p, es);
  }

  /** The rows at the end of a session. */
  lemma {:induction false} RowsByKind(db: Rows, id: string, p: Profile, es: seq<Entity>, g: Group, s: Start,
                                      works: bool)
    requires AtRest(p) && Uploads(es) && RowsHeld(db, id, AllActivated(p, es).active, g, s, works)
    ensures RowsEnd(db, id, Kinds(es), g, s, works)
  {
    forall k: Kind ensures RowHeld(db, id, k !in Kinds(es), g.Get(k), s, works) {
      NewKinds(p, es, k);
    }
  }

  lemma {:induction false} RowTurned(db: Rows, db': Rows, id: string, p: Group, q: Profile, k: Kind, s: Start,
                                     works: bool)
    requires s.active.Sorted() && s.active.Final() && q.last.Get(k) == s.active.Get(k)
    requires RowsTurning(db, id, p, q.active, s, works) && !q.active.Get(k).final
    requires RowBack(db, db', id, false, s.active.Get(k), works)
    ensures RowsTurning(db', id, p, Back(q, k).active, s, works)
  {
  }

  lemma {:induction false} RowsTurned(db: Rows, id: string, p: Group, q: Group, s: Start, works: bool)
    requires q == s.active && s.active.Final() && RowsTurning(db, id, p, q, s, works)
    ensures RowsHeld(db, id, p, s.active, s, works)
  {
  }

  lemma {:induction false} RowsTurn0(db: Rows, id: string, p: Profile, s: Start, worked: bool, works: bool)
    requires InSession(p, s.active) && RowsHeld(db, id, p.active, p.active, s, worked)
    ensures RowsTurning(db, id, p.active, p.active, s, works)
  {
  }

  /** If every write worked and the rows agreed with the profile, they agree again. */
  lemma {:induction false} RowsAgree(db: Rows, id: string, kinds: set<Kind>, g: Group, s: Start)
    requires RowsEnd(db, id, kinds, g, s, true) && g.Sorted() && RowsAt(s.rows, id, s.active)
    requires forall k: Kind :: k !in kinds ==> g.Get(k) == s.active.Get(k)
    ensures RowsAt(db, id, g)
  {
    assert RowHeld(db, id, Cert !in kinds, g.Get(Cert), s, true);
    assert RowHeld(db, id, Trust !in kinds, g.Get(Trust), s, true);
    assert RowHeld(db, id, Crl !in kinds, g.Get(Crl), s, true);
    assert RowHeld(db, id, Policy !in kinds, g.Get(Policy), s, true);
  }

  lemma {:induction false} UploadedGrows(msgs: seq<Msg>, m: nat, n: nat)
    requires m <= n <= |msgs|
    ensures UploadedBefore(msgs, m) <= UploadedBefore(msgs, n)
    decreases n
  {
    if m < n {
      UploadedGrows(msgs, m, n - 1);
    }
  }

  /** Activating the entities of the first messages leads from one profile to the other. */
  predicate Activates(p: Profile, q: Profile, es: seq<Entity>, ms: seq<EntityMsg>) {
    q == AllActivated(p, es) && FirstMatch(es, ms)
  }

  lemma {:induction false} ActivatesMore(p: Profile, q: Profile, es: seq<Entity>, ms: seq<EntityMsg>, e: Entity)
    requires Activates(p, q, es, ms) && |es| < |ms| && Matches(e, ms[|es|])
    ensures Activates(p, Activated(q, e), es + [e], ms)
  {
    assert (es + [e])[..|es + [e]| - 1] == es;
  }

  lemma {:induction false} ActivatesMatch(p: Profile, q: Profile, es: seq<Entity>, ms: seq<EntityMsg>)
    requires Activates(p, q, es, ms)
    ensures Uploads(es) && (|es| == |ms| ==> AllMatch(es, ms))
  {
  }

  lemma {:induction false} FinalEntities(p: Profile, es: seq<Entity>)
    requires AtRest(p) && Uploads(es)
    ensures FinalizedFrom(Finalized(AllActivated(p, es)).active, p.active, es)
  {
    SessionEnds(p, es);
  }

  lemma {:induction false} MatchMore(es: seq<Entity>, ms: seq<EntityMsg>, more: seq<Entity>, ms': seq<EntityMsg>)
    requires AllMatch(es, ms) && FirstMatch(more, ms')
    ensures FirstMatch(es + more, ms + ms')
  {
    forall i | 0 <= i < |es + more| ensures Matches((es + more)[i], (ms + ms')[i]) {
      assert i < |es| || (es + more)[i] == more[i - |es|];
    }
  }

  /** The session of these messages is finalized by the one at `n`. */
  predicate EndsAt(msgs: seq<Msg>, n: nat) {
    n < |msgs| && msgs[n].Finalize? && forall i :: 0 <= i < n ==> msgs[i].Request?
  }

  /** The uploads are those before the Finalize message that ends the session. */
  ghost predicate EndedBy(msgs: seq<Msg>, es: seq<Entity>) {
    exists n :: EndsAt(msgs, n) && AllMatch(es, UploadedBefore(msgs, n))
  }

  predicate Heard(msgs: seq<Msg>, i: nat, es: seq<Entity>) {
    i <= |msgs| && (forall j :: 0 <= j < i ==> msgs[j].Request?) && AllMatch(es, UploadedBefore(msgs, i))
  }

  predicate FromMessages(msgs: seq<Msg>, es: seq<Entity>) {
    FirstMatch(es, UploadedBefore(msgs, |msgs|))
  }

  lemma {:induction false} HeardMore(msgs: seq<Msg>, i: nat, es: seq<Entity>, new': seq<Entity>)
    requires i < |msgs| && Heard(msgs, i, es) && FirstMatch(new', Uploaded(msgs[i]))
    ensures FromMessages(msgs, es + new')
    ensures msgs[i].Request? && AllMatch(new', Uploaded(msgs[i])) ==> Heard(msgs, i + 1, es + new')
    ensures msgs[i].Finalize? ==> EndedBy(msgs, es)
  {
    MatchMore(es, UploadedBefore(msgs, i), new', Uploaded(msgs[i]));
    UploadedGrows(msgs, i + 1, |msgs|);
    assert msgs[i].Finalize? ==> EndsAt(msgs, i);
  }

  /** What `g` becomes when everything uploaded in `es` is finalized. */
  ghost predicate FinalizedFrom(g: Group, start: Group, es: seq<Entity>) {
    forall k: Kind :: g.Get(k) == Latest(es, k, start.Get(k)).(final := true)
  }

  // ----- what the messages carry

  /** The last message of a kind. */
  function LastMsg(ms: seq<EntityMsg>, k: Kind): Option<EntityMsg> {
    if ms == [] then None
    else if ms[|ms| - 1].kind == Some(k) then Some(ms[|ms| - 1])
    else LastMsg(ms[..|ms| - 1], k)
  }

  lemma {:induction false} LastMsgIs(ms: seq<EntityMsg>, k: Kind)
    ensures LastMsg(ms, k).None? <==> forall m :: m in ms ==> m.kind != Some(k)
    ensures LastMsg(ms, k).Some? ==>
              exists i :: 0 <= i < |ms| && ms[i] == LastMsg(ms, k).value && ms[i].kind == Some(k)
                          && forall j :: i < j < |ms| ==> ms[j].kind != Some(k)
    decreases |ms|
  {
    if ms != [] {
      var before, m := ms[..|ms| - 1], ms[|ms| - 1];
      assert ms == before + [m];
      if m.kind == Some(k) {
        assert ms[|ms| - 1] == m && m in ms;
      } else {
        LastMsgIs(before, k);
      }
    }
  }

  lemma {:induction false} LastMsgMore(ms: seq<EntityMsg>, m: EntityMsg, k: Kind)
    ensures LastMsg(ms + [m], k) == if m.kind == Some(k) then Some(m) else LastMsg(ms, k)
  {
    assert (ms + [m])[..|ms|] == ms;
  }

  predicate FileIs(files: Files, q: Path, data: string) {
    q in files && files[q] == data
  }

  /** The files of an entity hold what its message carries. */
  predicate Stored(e: Entity, m: EntityMsg, files: Files) {
    && (e.kind == Cert ==> FileIs(files, e.certPath, m.data) && FileIs(files, e.keyPath, m.key))
    && (e.kind == Trust ==> FileIs(files, e.certPath, m.data))
  }

  predicate CertNoted(e: Entity, files: Files, ms: seq<EntityMsg>) {
    !e.final ==> LastMsg(ms, Cert).Some? && FileIs(files, e.certPath, LastMsg(ms, Cert).value.data)
                 && FileIs(files, e.keyPath, LastMsg(ms, Cert).value.key)
  }

  predicate TrustNoted(e: Entity, files: Files, ms: seq<EntityMsg>) {
    !e.final ==> LastMsg(ms, Trust).Some? && FileIs(files, e.certPath, LastMsg(ms, Trust).value.data)
  }

  predicate PolicyNoted(final: bool, policy: Option<string>, ms: seq<EntityMsg>) {
    !final ==> LastMsg(ms, Policy).Some? && policy == Some(LastMsg(ms, Policy).value.data)
  }

  /** The version of a kind after these messages. */
  function VersionAfter(start: Group, ms: seq<EntityMsg>, k: Kind): string {
    if LastMsg(ms, k).Some? then LastMsg(ms, k).value.version else start.Get(k).version
  }

  predicate VersionsNoted(g: Group, start: Group, ms: seq<EntityMsg>) {
    && g.cert.version == VersionAfter(start, ms, Cert) && g.trust.version == VersionAfter(start, ms, Trust)
    && g.crl.version == VersionAfter(start, ms, Crl) && g.policy.version == VersionAfter(start, ms, Policy)
  }

  /** Every entity that is not final has what the last message of its kind carries. */
  predicate Noted(p: Profile, files: Files, policy: Option<string>, start: Group, ms: seq<EntityMsg>) {
    && CertNoted(p.active.cert, files, ms) && TrustNoted(p.active.trust, files, ms)
    && PolicyNoted(p.active.policy.final, policy, ms) && VersionsNoted(p.active, start, ms)
  }

  /** Only files with names made at `t` changed. */
  ghost predicate NewOnly(files': Files, files: Files, t: nat) {
    forall q: Path :: !(q.Made? && q.t == t) ==> SameFile(q, files', files)
  }

  lemma {:induction false} NotedKept(p: Profile, files: Files, files': Files, policy: Option<string>, clock: nat,
                                     s: Start, ms: seq<EntityMsg>)
    requires FilesHeld(p, files, clock, s) && NewOnly(files', files, clock) && Noted(p, files, policy, s.active, ms)
    ensures Noted(p, files', policy, s.active, ms)
  {
  }

  lemma {:induction false} NotedMore(p: Profile, e: Entity, m: EntityMsg, files: Files, policy: Option<string>,
                                     policy': Option<string>, start: Group, ms: seq<EntityMsg>)
    requires Noted(p, files, policy, start, ms) && Matches(e, m) && Stored(e, m, files)
    requires policy' == if e.kind == Policy then Some(m.data) else policy
    ensures Noted(Activated(p, e), files, policy', start, ms + [m])
  {
    LastMsgMore(ms, m, Cert);
    LastMsgMore(ms, m, Trust);
    LastMsgMore(ms, m, Crl);
    LastMsgMore(ms, m, Policy);
  }

  /** The link leads to a file with this content. */
  predicate LeadsTo(links: Links, files: Files, l: Link, data: string) {
    l in links && FileIs(files, links[l], data)
  }

  /** The links of what is new lead to what the last message of its kind carries. */
  predicate LinksCarry(certNew: bool, trustNew: bool, links: Links, files: Files, ms: seq<EntityMsg>) {
    && (certNew ==> LastMsg(ms, Cert).Some? && LeadsTo(links, files, CertLink, LastMsg(ms, Cert).value.data)
                    && LeadsTo(links, files, KeyLink, LastMsg(ms, Cert).value.key))
    && (trustNew ==> LastMsg(ms, Trust).Some? && LeadsTo(links, files, CaLink, LastMsg(ms, Trust).value.data))
  }

  lemma {:induction false} NotedFinalized(p: Profile, links: Links, files: Files, files': Files, policy: Option<string>,
                                          clock: nat, s: Start, ms: seq<EntityMsg>)
    requires InSession(p, s.active) && FilesHeld(p, files, clock, s) && SessionDisk(p, links, files, s)
    requires SameExcept(files', files, Replaced(p)) && Noted(p, files, policy, s.active, ms)
    ensures LinksCarry(!p.active.cert.final, !p.active.trust.final, links, files', ms)
  {
  }

  // ----- what is accepted

  /** An entity is accepted after those of `ms`: it has a time and a new version, unless overwriting is asked for, and
      can be saved. */
  predicate MsgOk(start: Group, hasPolicy: bool, ms: seq<EntityMsg>, m: EntityMsg, overwrite: bool) {
    && m.created != 0 && m.version != "" && m.kind.Some?
    && (overwrite || VersionAfter(start, ms, m.kind.value) != m.version)
    && if m.kind.value == Policy then hasPolicy else m.acceptable
  }

  predicate FirstOk(start: Group, hasPolicy: bool, ms: seq<EntityMsg>, entities: seq<EntityMsg>, overwrite: bool,
                    n: nat)
    requires n <= |entities|
  {
    forall i :: 0 <= i < n ==> NextOk(start, hasPolicy, ms, entities, overwrite, i)
  }

  /** The entity at `i` is accepted after those before it. */
  predicate NextOk(start: Group, hasPolicy: bool, ms: seq<EntityMsg>, entities: seq<EntityMsg>, overwrite: bool, i: nat)
    requires i < |entities|
  {
    MsgOk(start, hasPolicy, ms + entities[..i], entities[i], overwrite)
  }

  lemma {:induction false} OneMore(ms: seq<EntityMsg>, entities: seq<EntityMsg>, i: nat)
    requires i < |entities|
    ensures ms + entities[..i + 1] == ms + entities[..i] + [entities[i]]
  {
  }

  /** There are entities, and each is accepted after those before it. */
  predicate UploadOk(start: Group, hasPolicy: bool, ms: seq<EntityMsg>, entities: seq<EntityMsg>, overwrite: bool) {
    entities != [] && FirstOk(start, hasPolicy, ms, entities, overwrite, |entities|)
  }

  predicate BodyOk(start: Group, hasPolicy: bool, ms: seq<EntityMsg>, b: Body) {
    match b
    case GenerateCsr(ok) => ok
    case Certificates(entities, overwrite) => UploadOk(start, hasPolicy, ms, entities, overwrite)
    case Unknown => false
  }

  predicate RequestOk(start: Group, hasPolicy: bool, msgs: seq<Msg>, j: nat)
    requires j < |msgs|
  {
    && msgs[j].Request? && msgs[j].delivered
    && BodyOk(start, hasPolicy, UploadedBefore(msgs, j), msgs[j].body)
  }

  predicate AllRequestsOk(start: Group, hasPolicy: bool, msgs: seq<Msg>, n: nat)
    requires n <= |msgs|
  {
    forall j :: 0 <= j < n ==> RequestOk(start, hasPolicy, msgs, j)
  }

  /** Requests that are all accepted and answered, at least one, and then Finalize. */
  ghost predicate SessionOk(start: Group, hasPolicy: bool, msgs: seq<Msg>) {
    exists n :: 0 < n < |msgs| && msgs[n].Finalize? && AllRequestsOk(start, hasPolicy, msgs, n)
  }

  lemma {:induction false} SessionEndsAt(start: Group, hasPolicy: bool, msgs: seq<Msg>, i: nat)
    requires i <= |msgs| && AllRequestsOk(start, hasPolicy, msgs, i)
    ensures i < |msgs| && i > 0 && msgs[i].Finalize? ==> SessionOk(start, hasPolicy, msgs)
    ensures i == |msgs| || (!RequestOk(start, hasPolicy, msgs, i) && !(i > 0 && msgs[i].Finalize?)) ==>
              !SessionOk(start, hasPolicy, msgs)
  {
    forall n | 0 < n < |msgs| && msgs[n].Finalize? && AllRequestsOk(start, hasPolicy, msgs, n)
      ensures n >= i && (i < n ==> RequestOk(start, hasPolicy, msgs, i))
    {
      assert n < i ==> RequestOk(start, hasPolicy, msgs, n);
    }
  }

  /** The message at `n` is the first that is not an accepted request to a known profile. */
  predicate StopsAt(start: Group, hasPolicy: bool, msgs: seq<Msg>, known: bool, n: nat) {
    && n <= |msgs| && AllRequestsOk(start, hasPolicy, msgs, n) && (n > 0 ==> known)
    && (n < |msgs| ==> !(known && RequestOk(start, hasPolicy, msgs, n)))
  }

  lemma {:induction false} RequestsMore(start: Group, hasPolicy: bool, msgs: seq<Msg>, known: bool, i: nat, more: bool)
    requires i < |msgs| && AllRequestsOk(start, hasPolicy, msgs, i) && (i > 0 ==> known)
    requires more <==> known && RequestOk(start, hasPolicy, msgs, i)
    ensures if more then AllRequestsOk(start, hasPolicy, msgs, i + 1) else StopsAt(start, hasPolicy, msgs, known, i)
  {
  }

  lemma {:induction false} StoppedAt(start: Group, hasPolicy: bool, msgs: seq<Msg>, known: bool, n: nat)
    requires StopsAt(start, hasPolicy, msgs, known, n)
    ensures 0 < n < |msgs| && msgs[n].Finalize? <==> known && SessionOk(start, hasPolicy, msgs)
  {
    SessionEndsAt(start, hasPolicy, msgs, n);
  }
}
