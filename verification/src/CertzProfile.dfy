/** Credential profiles: the active entity of each kind, the one to fall back to, and what a rotation session makes
    of them. */
module CertzProfile {
  datatype Kind = Cert | Trust | Crl | Policy
  datatype Part = CertFile | KeyFile | BundleFile

  /** File names made for an upload carry the profile, the version and the time. */
  datatype Path = Made(part: Part, profile: string, version: string, t: nat) | Named(name: string)

  datatype Entity = Entity(kind: Kind, created: nat, version: string, certPath: Path, keyPath: Path, final: bool)

  datatype Group = Group(cert: Entity, trust: Entity, crl: Entity, policy: Entity)
  {
    function Get(k: Kind): Entity {
      match k
      case Cert => cert
      case Trust => trust
      case Crl => crl
      case Policy => policy
    }

    function With(k: Kind, e: Entity): Group {
      match k
      case Cert => this.(cert := e)
      case Trust => this.(trust := e)
      case Crl => this.(crl := e)
      case Policy => this.(policy := e)
    }

    predicate Sorted() {
      cert.kind == Cert && trust.kind == Trust && crl.kind == Crl && policy.kind == Policy
    }

    predicate Final() {
      cert.final && trust.final && crl.final && policy.final
    }
  }

  datatype Profile = Profile(active: Group, last: Group)

  // ----- the effect of each operation

  /** The first upload of a session keeps the finalized entity; later ones replace each other. */
  function Activated(p: Profile, e: Entity): Profile {
    var old' := p.active.Get(e.kind);
    Profile(p.active.With(e.kind, e), if old'.final then p.last.With(e.kind, old') else p.last)
  }

  /** One kind brought back. */
  function Back(p: Profile, k: Kind): Profile {
    if p.active.Get(k).final then p else p.(active := p.active.With(k, p.last.Get(k)))
  }

  function Reverted(p: Profile): Profile {
    Back(Back(Back(Back(p, Cert), Trust), Crl), Policy)
  }

  /** All but an untouched revocation list bundle become the ones to fall back to. */
  function Finalized(p: Profile): Profile {
    var a := p.active;
    var active := Group(a.cert.(final := true), a.trust.(final := true), a.crl.(final := true),
                        a.policy.(final := true));
    Profile(active, if a.crl.final then active.(crl := p.last.crl) else active)
  }

  // ----- sessions

  function AllActivated(p: Profile, es: seq<Entity>): Profile {
    if es == [] then p else Activated(AllActivated(p, es[..|es| - 1]), es[|es| - 1])
  }

  lemma {:induction false} ActivatedMore(p: Profile, a: seq<Entity>, b: seq<Entity>)
    ensures AllActivated(p, a + b) == AllActivated(AllActivated(p, a), b)
    decreases |b|
  {
    if b == [] {
      assert a + b == a;
    } else {
      ActivatedMore(p, a, b[..|b| - 1]);
      assert (a + b)[..|a + b| - 1] == a + b[..|b| - 1];
    }
  }

  /** The last upload of a kind, or what was there. */
  function Latest(es: seq<Entity>, k: Kind, was: Entity): Entity {
    if es == [] then was
    else if es[|es| - 1].kind == k then es[|es| - 1]
    else Latest(es[..|es| - 1], k, was)
  }

  predicate AtRest(p: Profile) {
    p.active.Sorted() && p.active.Final()
  }

  predicate Kept(active: Entity, last: Entity, start: Entity) {
    active.kind == start.kind && if active.final then active == start else last == start
  }

  /** What a session that started with the finalized entities `start` keeps: an entity that is not final has the one
      of the start behind it. */
  predicate InSession(p: Profile, start: Group) {
    && start.Sorted() && start.Final()
    && Kept(p.active.cert, p.last.cert, start.cert) && Kept(p.active.trust, p.last.trust, start.trust)
    && Kept(p.active.crl, p.last.crl, start.crl) && Kept(p.active.policy, p.last.policy, start.policy)
  }

  predicate Uploads(es: seq<Entity>) {
    forall e :: e in es ==> !e.final
  }

  lemma {:induction false} SessionKept(p: Profile, es: seq<Entity>)
    requires AtRest(p) && Uploads(es)
    ensures InSession(AllActivated(p, es), p.active)
    ensures forall k: Kind :: AllActivated(p, es).active.Get(k) == Latest(es, k, p.active.Get(k))
    decreases |es|
  {
    if es != [] {
      SessionKept(p, es[..|es| - 1]);
      assert es[|es| - 1] in es;
    }
  }

  lemma {:induction false} RevertGivesStart(q: Profile, start: Group)
    requires InSession(q, start)
    ensures Reverted(q).active == start && AtRest(Reverted(q))
  {
  }

  /** MAIN RESULT. Whatever was uploaded, reverting brings back every entity of the start of the session, and
      finalizing leaves the last upload of each kind, or the old entity if there was none; both leave all final. */
  lemma {:induction false} SessionEnds(p: Profile, es: seq<Entity>)
    requires AtRest(p) && Uploads(es)
    ensures var q := AllActivated(p, es);
            && Reverted(q).active == p.active && AtRest(Reverted(q)) && AtRest(Finalized(q))
            && (forall k: Kind :: Finalized(q).active.Get(k) == Latest(es, k, p.active.Get(k)).(final := true))
            && forall k: Kind :: k != Crl || !q.active.crl.final ==>
                                   Finalized(q).last.Get(k) == Finalized(q).active.Get(k)
  {
    SessionKept(p, es);
    var q := AllActivated(p, es);
    RevertGivesStart(q, p.active);
    forall k: Kind ensures Finalized(q).active.Get(k) == Latest(es, k, p.active.Get(k)).(final := true) {
      assert q.active.Get(k) == Latest(es, k, p.active.Get(k));
    }
  }
}
