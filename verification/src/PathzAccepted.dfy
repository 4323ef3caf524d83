/** What the trie of any accepted policy means. A node is found by the values of its keys; the key names on the way are
    those that some rule gives, whatever rule had an empty name there. */
module PathzAccepted {
  import opened Options
  import opened PathzPolicy
  import opened PathzTrie
  import opened PathzProofs
  import opened PathzTheorems

  // ----- paths by their values

  function Blind(t: Token): Token {
    if t.Key? then Key("", t.v) else t
  }

  function Values(p: seq<Token>): seq<Token> {
    seq(|p|, i requires 0 <= i < |p| => Blind(p[i]))
  }

  lemma {:induction false} SameStep(a: seq<Token>, b: seq<Token>)
    requires a != [] && b != []
    ensures Values(a) == Values(b) <==> Blind(a[0]) == Blind(b[0]) && Values(a[1..]) == Values(b[1..])
  {
    assert Values(a)[1..] == Values(a[1..]) && Values(b)[1..] == Values(b[1..]);
    assert Values(a) == [Blind(a[0])] + Values(a)[1..] && Values(b) == [Blind(b[0])] + Values(b)[1..];
  }

  lemma {:induction false} SamePrefix(a: seq<Token>, b: seq<Token>, d: nat)
    requires Values(a) == Values(b) && d <= |a|
    ensures |a| == |b| && Values(a[..d]) == Values(b[..d])
    ensures d < |a| ==> Blind(a[d]) == Blind(b[d])
  {
    assert |Values(a)| == |Values(b)|;
    assert Values(a[..d]) == Values(a)[..d] && Values(b[..d]) == Values(b)[..d];
    assert d < |a| ==> Values(a)[d] == Values(b)[d];
  }

  // ----- what the nodes of a trie hold

  /** The node a path leads to, whatever the key names. */
  function NodeBy(t: Trie, x: seq<Token>): Option<Trie>
    decreases x
  {
    if x == [] then Some(t) else
    match x[0]
    case Name(n) => if n in t.nameNext then NodeBy(t.nameNext[n], x[1..]) else None
    case Key(_, v) => if v in t.keyNext then NodeBy(t.keyNext[v], x[1..]) else None
    case Malformed => None
  }

  function ContentBy(t: Trie, x: seq<Token>): Content {
    if NodeBy(t, x).None? then Content(map[], map[], "") else ContentOf(NodeBy(t, x).value)
  }

  /** The key name of the node, empty if there is none. */
  function KeyBy(t: Trie, x: seq<Token>): string {
    if NodeBy(t, x).None? then "" else NodeBy(t, x).value.key
  }

  lemma {:induction false} NothingBy(x: seq<Token>)
    ensures ContentBy(EMPTY, x) == Content(map[], map[], "") && KeyBy(EMPTY, x) == ""
  {
  }

  lemma {:induction false} ByStep(t: Trie, x: seq<Token>)
    requires x != []
    ensures x[0].Name? ==> ContentBy(t, x) == ContentBy(Child(t.nameNext, x[0].n), x[1..])
                           && KeyBy(t, x) == KeyBy(Child(t.nameNext, x[0].n), x[1..])
    ensures x[0].Key? ==> ContentBy(t, x) == ContentBy(Child(t.keyNext, x[0].v), x[1..])
                          && KeyBy(t, x) == KeyBy(Child(t.keyNext, x[0].v), x[1..])
    ensures x[0].Malformed? ==> ContentBy(t, x) == Content(map[], map[], "") && KeyBy(t, x) == ""
  {
    NothingBy(x[1..]);
  }

  /** A path goes through the node at `x` with a key. */
  predicate Passes(p: seq<Token>, x: seq<Token>) {
    |x| < |p| && Values(p[..|x|]) == Values(x) && p[|x|].Key?
  }

  lemma {:induction false} PassesStep(p: seq<Token>, x: seq<Token>)
    requires p != [] && x != []
    ensures Passes(p, x) <==> Blind(p[0]) == Blind(x[0]) && Passes(p[1..], x[1..])
    ensures Passes(p, x) ==> p[|x|] == p[1..][|x[1..]|]
  {
    if |x| < |p| {
      SameStep(p[..|x|], x);
      assert p[..|x|][1..] == p[1..][..|x| - 1];
    }
  }

  /** What a successful insertion does at `x`: the rule is added at its own values, and the key name of each node it
      passes becomes its own; there it was the same or empty before. */
  ghost predicate InsertedBy(t: Trie, p: seq<Token>, r: Rule, x: seq<Token>, t': Trie) {
    && ContentBy(t', x) == (if Values(x) == Values(p) then AddTo(ContentBy(t, x), r) else ContentBy(t, x))
    && KeyBy(t', x) == (if Passes(p, x) then p[|x|].k else KeyBy(t, x))
    && (Passes(p, x) ==> KeyBy(t, x) == "" || KeyBy(t, x) == p[|x|].k)
  }

  lemma {:induction false} InsertBy(t: Trie, p: seq<Token>, r: Rule, x: seq<Token>)
    requires Insert(t, p, r).ok
    ensures InsertedBy(t, p, r, x, Insert(t, p, r).tree)
    decreases p
  {
    if p == [] {
      AddRuleBy(t, r, x);
    } else if x == [] {
      InsertByRoot(t, p, r);
    } else if p[0].Name? {
      var c := Child(t.nameNext, p[0].n);
      InsertBy(c, p[1..], r, x[1..]);
      InsertByName(t, p, r, x, Insert(c, p[1..], r).tree);
    } else {
      var c := Child(t.keyNext, p[0].v);
      InsertBy(c, p[1..], r, x[1..]);
      InsertByKey(t, p, r, x, Insert(c, p[1..], r).tree);
    }
  }

  lemma {:induction false} InsertByName(t: Trie, p: seq<Token>, r: Rule, x: seq<Token>, sub: Trie)
    requires p != [] && x != [] && p[0].Name?
    requires InsertedBy(Child(t.nameNext, p[0].n), p[1..], r, x[1..], sub)
    ensures InsertedBy(t, p, r, x, WithName(t, p[0].n, sub))
  {
    SameStep(x, p);
    PassesStep(p, x);
    ByStep(t, x);
    ByStep(WithName(t, p[0].n, sub), x);
  }

  lemma {:induction false} InsertByKey(t: Trie, p: seq<Token>, r: Rule, x: seq<Token>, sub: Trie)
    requires p != [] && x != [] && p[0].Key?
    requires InsertedBy(Child(t.keyNext, p[0].v), p[1..], r, x[1..], sub)
    ensures InsertedBy(t, p, r, x, WithKey(t, p[0].k, p[0].v, sub))
  {
    SameStep(x, p);
    PassesStep(p, x);
    ByStep(t, x);
    ByStep(WithKey(t, p[0].k, p[0].v, sub), x);
  }

  lemma {:induction false} InsertByRoot(t: Trie, p: seq<Token>, r: Rule)
    requires Insert(t, p, r).ok && p != []
    ensures InsertedBy(t, p, r, [], Insert(t, p, r).tree)
  {
    assert p[..0] == [];
    assert |Values(p)| == |p|;
  }

  lemma {:induction false} KeptBelow(t: Trie, t': Trie, x: seq<Token>)
    requires t'.nameNext == t.nameNext && t'.keyNext == t.keyNext && t'.key == t.key
    ensures KeyBy(t', x) == KeyBy(t, x) && (x != [] ==> ContentBy(t', x) == ContentBy(t, x))
  {
  }

  lemma {:induction false} AddRuleBy(t: Trie, r: Rule, x: seq<Token>)
    ensures InsertedBy(t, [], r, x, AddRule(t, r).tree)
  {
    KeptBelow(t, AddRule(t, r).tree, x);
    AddRuleContent(t, r, []);
    assert |Values(x)| == |x|;
  }

  // ----- what an accepted policy says at one place

  /** Some rule for this principal and mode whose path has the values of `x` has action `a`. */
  ghost predicate SaysBy(rules: seq<Rule>, x: seq<Token>, who: Principal, mode: Mode, a: Action) {
    exists r :: r in rules && Values(Tokens(r.path)) == Values(x)
                && r.principal == who && r.mode == mode && r.action == a
  }

  ghost function ActionBy(rules: seq<Rule>, x: seq<Token>, who: Principal, mode: Mode): Action {
    if SaysBy(rules, x, who, mode, Deny) then Deny
    else if SaysBy(rules, x, who, mode, Permit) then Permit
    else Unspecified
  }

  /** `k` is the key name at `x`: a rule gives it unless it is empty, and no rule gives another one. */
  ghost predicate IsName(rules: seq<Rule>, x: seq<Token>, k: string) {
    && (k != "" ==> exists r :: r in rules && Passes(Tokens(r.path), x) && Tokens(r.path)[|x|].k == k)
    && (forall r :: r in rules && Passes(Tokens(r.path), x) ==>
                      Tokens(r.path)[|x|].k == "" || Tokens(r.path)[|x|].k == k)
  }

  lemma {:induction false} NameUnique(rules: seq<Rule>, x: seq<Token>, k: string, l: string)
    requires IsName(rules, x, k) && IsName(rules, x, l)
    ensures k == l
  {
  }

  lemma {:induction false} NameMore(rules: seq<Rule>, last: Rule, x: seq<Token>, k: string, l: string)
    requires IsName(rules, x, k)
    requires var p := Tokens(last.path);
             if Passes(p, x) then (k == "" || k == p[|x|].k) && l == p[|x|].k else l == k
    ensures IsName(rules + [last], x, l)
  {
    forall r ensures r in rules + [last] <==> r in rules || r == last {}
    if l != "" {
      var r :| r in rules + [last] && Passes(Tokens(r.path), x) && Tokens(r.path)[|x|].k == l;
    }
  }

  lemma {:induction false} SaysByMore(rules: seq<Rule>, last: Rule, x: seq<Token>, who: Principal, mode: Mode,
                                      a: Action)
    ensures SaysBy(rules + [last], x, who, mode, a) <==>
            SaysBy(rules, x, who, mode, a)
            || (Values(Tokens(last.path)) == Values(x) && last.principal == who
                && last.mode == mode && last.action == a)
  {
    forall r ensures r in rules + [last] <==> r in rules || r == last {}
    if Values(Tokens(last.path)) == Values(x) && last.principal == who && last.mode == mode && last.action == a {
      assert last in rules + [last];
    }
  }

  function Stronger(a: Action, b: Action): Action {
    if a == Deny || b == Deny then Deny else if a == Permit || b == Permit then Permit else Unspecified
  }

  function Said(r: Rule, who: Principal, mode: Mode): Action {
    if r.principal == who && r.mode == mode then r.action else Unspecified
  }

  lemma {:induction false} ActionByMore(rules: seq<Rule>, last: Rule, x: seq<Token>, who: Principal, mode: Mode)
    ensures ActionBy(rules + [last], x, who, mode)
         == if Values(Tokens(last.path)) != Values(x) then ActionBy(rules, x, who, mode)
            else Stronger(ActionBy(rules, x, who, mode), Said(last, who, mode))
  {
    SaysByMore(rules, last, x, who, mode, Deny);
    SaysByMore(rules, last, x, who, mode, Permit);
  }

  lemma {:induction false} AddedAction(x: Content, last: Rule, who: Principal, mode: Mode)
    requires (mode == Read || mode == Write) && !who.NoPrincipal?
    ensures ActionIn(AddTo(x, last), who, mode).action == Stronger(ActionIn(x, who, mode).action, Said(last, who, mode))
  {
    AddToAction(x, last, who, mode);
  }

  lemma {:induction false} BuildName(rules: seq<Rule>, x: seq<Token>)
    requires Build(rules).ok
    ensures IsName(rules, x, KeyBy(Build(rules).tree, x))
    decreases |rules|
  {
    if rules == [] {
      NothingBy(x);
    } else {
      var init, last := rules[..|rules| - 1], rules[|rules| - 1];
      assert rules == init + [last];
      BuildName(init, x);
      InsertBy(Build(init).tree, Tokens(last.path), last, x);
      NameMore(init, last, x, KeyBy(Build(init).tree, x), KeyBy(Build(rules).tree, x));
    }
  }

  lemma {:induction false} BuildAction(rules: seq<Rule>, x: seq<Token>, who: Principal, mode: Mode)
    requires Build(rules).ok && (mode == Read || mode == Write) && !who.NoPrincipal?
    ensures ActionIn(ContentBy(Build(rules).tree, x), who, mode).action == ActionBy(rules, x, who, mode)
    decreases |rules|
  {
    if rules == [] {
      NothingBy(x);
    } else {
      var init, last := rules[..|rules| - 1], rules[|rules| - 1];
      assert rules == init + [last];
      BuildAction(init, x, who, mode);
      InsertBy(Build(init).tree, Tokens(last.path), last, x);
      ActionByMore(init, last, x, who, mode);
      AddedAction(ContentBy(Build(init).tree, x), last, who, mode);
    }
  }

  /** A verdict at a node carries the id of a rule that gives it. */
  lemma {:induction false} BuildId(rules: seq<Rule>, x: seq<Token>, who: Principal, mode: Mode)
    requires Build(rules).ok && (mode == Read || mode == Write) && !who.NoPrincipal?
    ensures var a := ActionIn(ContentBy(Build(rules).tree, x), who, mode);
            a.action != Unspecified ==> exists r :: r in rules && GivenBy(r, x, who, mode, a)
    decreases |rules|
  {
    if rules == [] {
      NothingBy(x);
    } else {
      var init, last := rules[..|rules| - 1], rules[|rules| - 1];
      BuildId(init, x, who, mode);
      InsertBy(Build(init).tree, Tokens(last.path), last, x);
      AddToAction(ContentBy(Build(init).tree, x), last, who, mode);
      var a := ActionIn(ContentBy(Build(init).tree, x), who, mode);
      if r :| r in init && GivenBy(r, x, who, mode, a) {
        assert r in rules;
      }
      assert last in rules;
    }
  }

  predicate GivenBy(r: Rule, x: seq<Token>, who: Principal, mode: Mode, a: RuleAction) {
    && Values(Tokens(r.path)) == Values(x) && r.principal == who && r.mode == mode
    && r.action == a.action && r.id == a.ruleId
  }

  // ----- the verdict at one path

  ghost predicate GroupsSayBy(rules: seq<Rule>, x: seq<Token>, c: Query, a: Action) {
    exists g :: c.InGroup(g) && ActionBy(rules, x, Group(g), c.mode) == a
  }

  /** The verdict of the rules with the values of `x`: user rules precede group rules, deny beats permit. */
  ghost function VerdictBy(rules: seq<Rule>, x: seq<Token>, c: Query): Action {
    if c.mode != Read && c.mode != Write then Unspecified
    else if ActionBy(rules, x, User(c.user), c.mode) != Unspecified then ActionBy(rules, x, User(c.user), c.mode)
    else if GroupsSayBy(rules, x, c, Deny) then Deny
    else if GroupsSayBy(rules, x, c, Permit) then Permit
    else Unspecified
  }

  ghost predicate Named(rules: seq<Rule>, p: seq<Token>) {
    forall d :: 0 <= d < |p| && p[d].Key? ==> IsName(rules, p[..d], p[d].k)
  }

  /** The verdict of a policy at `p`: there is one only where `p` has the key names of the policy. */
  ghost function PolicyVerdict(rules: seq<Rule>, p: seq<Token>, c: Query): Action {
    if Named(rules, p) then VerdictBy(rules, p, c) else Unspecified
  }

  predicate KeysAgree(t: Trie, p: seq<Token>) {
    forall d :: 0 <= d < |p| && p[d].Key? ==> KeyBy(t, p[..d]) == p[d].k
  }

  lemma {:induction false} KeysAgreeStep(t: Trie, p: seq<Token>, c: Trie)
    requires p != [] && forall x :: x != [] && x[0] == p[0] ==> KeyBy(t, x) == KeyBy(c, x[1..])
    ensures KeysAgree(t, p) <==> (p[0].Key? ==> t.key == p[0].k) && KeysAgree(c, p[1..])
  {
    assert p[..0] == [];
    forall d | 0 < d < |p| ensures KeyBy(t, p[..d]) == KeyBy(c, p[1..][..d - 1]) {
      assert p[..d][1..] == p[1..][..d - 1] && p[..d][0] == p[0];
    }
    if KeysAgree(t, p) {
      forall d | 0 <= d < |p[1..]| && p[1..][d].Key? ensures KeyBy(c, p[1..][..d]) == p[1..][d].k {
        assert KeyBy(t, p[..d + 1]) == p[d + 1].k;
      }
    }
    if (p[0].Key? ==> t.key == p[0].k) && KeysAgree(c, p[1..]) {
      forall d | 0 <= d < |p| && p[d].Key? ensures KeyBy(t, p[..d]) == p[d].k {
        if d > 0 { assert KeyBy(c, p[1..][..d - 1]) == p[1..][d - 1].k; }
      }
    }
  }

  /** A node is found under the key names it has, and under no others. */
  lemma {:induction false} NodeAtIff(t: Trie, p: seq<Token>)
    ensures NodeBy(t, p).Some? ==> NodeAt(t, p) == if KeysAgree(t, p) then NodeBy(t, p) else None
    ensures NodeBy(t, p).None? ==> NodeAt(t, p) == None
    decreases p
  {
    if p != [] {
      match p[0] {
        case Name(n) =>
          forall x: seq<Token> | x != [] && x[0] == p[0] ensures KeyBy(t, x) == KeyBy(Child(t.nameNext, n), x[1..]) {
            ByStep(t, x);
          }
          KeysAgreeStep(t, p, Child(t.nameNext, n));
          NodeAtIff(Child(t.nameNext, n), p[1..]);
        case Key(k, v) =>
          forall x: seq<Token> | x != [] && x[0] == p[0] ensures KeyBy(t, x) == KeyBy(Child(t.keyNext, v), x[1..]) {
            ByStep(t, x);
          }
          KeysAgreeStep(t, p, Child(t.keyNext, v));
          NodeAtIff(Child(t.keyNext, v), p[1..]);
        case Malformed =>
      }
    }
  }

  lemma {:induction false} NamedIff(rules: seq<Rule>, p: seq<Token>)
    requires Build(rules).ok
    ensures Named(rules, p) <==> KeysAgree(Build(rules).tree, p)
  {
    forall d | 0 <= d < |p| && p[d].Key?
      ensures IsName(rules, p[..d], p[d].k) <==> KeyBy(Build(rules).tree, p[..d]) == p[d].k
    {
      BuildName(rules, p[..d]);
      if IsName(rules, p[..d], p[d].k) {
        NameUnique(rules, p[..d], p[d].k, KeyBy(Build(rules).tree, p[..d]));
      }
    }
  }

  /** The trie of every accepted policy holds at every path exactly the verdict of the policy there. */
  lemma {:induction false} VerdictOfAccepted(rules: seq<Rule>, p: seq<Token>, c: Query)
    requires Build(rules).ok
    ensures VerdictAt(Build(rules).tree, p, c) == PolicyVerdict(rules, p, c)
  {
    var t := Build(rules).tree;
    NamedIff(rules, p);
    NodeAtIff(t, p);
    VerdictOfContent(rules, p, c, ContentBy(t, p));
    OwnIsContent(t, p, c, ContentAt(t, p));
  }

  lemma {:induction false} VerdictOfContent(rules: seq<Rule>, p: seq<Token>, c: Query, x: Content)
    requires Build(rules).ok && x == ContentBy(Build(rules).tree, p)
    ensures VerdictBy(rules, p, c) ==
            if ActionIn(x, User(c.user), c.mode).action != Unspecified then ActionIn(x, User(c.user), c.mode).action
            else if exists g :: c.InGroup(g) && ActionIn(x, Group(g), c.mode).action == Deny then Deny
            else if exists g :: c.InGroup(g) && ActionIn(x, Group(g), c.mode).action == Permit then Permit
            else Unspecified
  {
    if c.mode == Read || c.mode == Write {
      BuildAction(rules, p, User(c.user), c.mode);
      forall g ensures ActionIn(x, Group(g), c.mode).action == ActionBy(rules, p, Group(g), c.mode) {
        BuildAction(rules, p, Group(g), c.mode);
      }
      forall a
        ensures GroupsSayBy(rules, p, c, a) <==> exists g :: c.InGroup(g) && ActionIn(x, Group(g), c.mode).action == a
      {
        if GroupsSayBy(rules, p, c, a) {
          var g :| c.InGroup(g) && ActionBy(rules, p, Group(g), c.mode) == a;
          assert ActionIn(x, Group(g), c.mode).action == a;
        }
      }
    }
  }

  // ----- the decision

  ghost predicate PolicyCandidate(rules: seq<Rule>, q: seq<Token>, c: Query, p: seq<Token>) {
    Matches(p, q) && PolicyVerdict(rules, p, c) != Unspecified
  }

  ghost predicate IsPolicyBest(rules: seq<Rule>, q: seq<Token>, c: Query, p: seq<Token>) {
    && PolicyCandidate(rules, q, c, p)
    && forall r :: PolicyCandidate(rules, q, c, r) && r != p ==> Beats(p, r, q)
  }

  /** The decision of the flat rule list in which a rule with an empty key name takes the name the others give. */
  ghost predicate IsPolicyDecision(rules: seq<Rule>, q: seq<Token>, c: Query, a: Action) {
    if a == Unspecified then forall p :: !PolicyCandidate(rules, q, c, p)
    else exists p :: IsPolicyBest(rules, q, c, p) && PolicyVerdict(rules, p, c) == a
  }

  /** MAIN RESULT. The walk over the trie of every accepted policy takes the decision of the policy. */
  lemma {:induction false} AcceptedDecides(rules: seq<Rule>, q: seq<Token>, c: Query)
    requires Build(rules).ok
    ensures IsPolicyDecision(rules, q, c, WalkAction(Build(rules).tree, q, c))
  {
    var t := Build(rules).tree;
    WalkBest(t, q, c);
    forall p ensures VerdictAt(t, p, c) == PolicyVerdict(rules, p, c) { VerdictOfAccepted(rules, p, c); }
    forall p ensures Stored(t, q, c, p) <==> PolicyCandidate(rules, q, c, p) {}
    if Walk(t, q, c).Some? {
      assert IsPolicyBest(rules, q, c, Walk(t, q, c).value);
    }
  }

  lemma {:induction false} PolicyDecisionUnique(rules: seq<Rule>, q: seq<Token>, c: Query, a: Action, b: Action)
    requires IsPolicyDecision(rules, q, c, a) && IsPolicyDecision(rules, q, c, b)
    ensures a == b
  {
    if a != Unspecified && b != Unspecified {
      var p :| IsPolicyBest(rules, q, c, p) && PolicyVerdict(rules, p, c) == a;
      var r :| IsPolicyBest(rules, q, c, r) && PolicyVerdict(rules, r, c) == b;
      if p != r {
        BeatsAsymmetric(p, r, q);
      }
    }
  }

  lemma {:induction false} VerdictOfRuleSet(xs: seq<Rule>, ys: seq<Rule>, p: seq<Token>, c: Query)
    requires forall r :: r in xs <==> r in ys
    ensures PolicyVerdict(xs, p, c) == PolicyVerdict(ys, p, c)
  {
    forall x: seq<Token>, k ensures IsName(xs, x, k) == IsName(ys, x, k) {}
    forall who, m, a ensures SaysBy(xs, p, who, m, a) == SaysBy(ys, p, who, m, a) {}
  }

  lemma {:induction false} DecisionOfRuleSet(xs: seq<Rule>, ys: seq<Rule>, q: seq<Token>, c: Query, a: Action)
    requires (forall r :: r in xs <==> r in ys) && IsPolicyDecision(xs, q, c, a)
    ensures IsPolicyDecision(ys, q, c, a)
  {
    forall p ensures PolicyVerdict(xs, p, c) == PolicyVerdict(ys, p, c) { VerdictOfRuleSet(xs, ys, p, c); }
    forall p ensures PolicyCandidate(xs, q, c, p) == PolicyCandidate(ys, q, c, p) {}
    if a != Unspecified {
      var p :| IsPolicyBest(xs, q, c, p) && PolicyVerdict(xs, p, c) == a;
      assert IsPolicyBest(ys, q, c, p);
    }
  }

  /** MAIN RESULT. Two accepted orders of the same rules decide every request alike. */
  lemma {:induction false} DecisionIgnoresOrder(xs: seq<Rule>, ys: seq<Rule>, q: seq<Token>, c: Query)
    requires multiset(xs) == multiset(ys) && Accepted(xs) && Accepted(ys)
    ensures WalkAction(Build(xs).tree, q, c) == WalkAction(Build(ys).tree, q, c)
  {
    AcceptedDecides(xs, q, c);
    AcceptedDecides(ys, q, c);
    forall r ensures r in xs <==> r in ys { assert r in multiset(xs) <==> r in multiset(ys); }
    DecisionOfRuleSet(xs, ys, q, c, WalkAction(Build(xs).tree, q, c));
    PolicyDecisionUnique(ys, q, c, WalkAction(Build(xs).tree, q, c), WalkAction(Build(ys).tree, q, c));
  }
}
