/** The policy processor: building a policy, replacing it, and answering requests. */
module PathzProcessor {
  import opened Options
  import opened PathzPolicy
  import opened PathzTrie
  import opened PathzProofs
  import opened PathzTheorems
  import opened PathzAccepted
  import opened PathzAuthorizer

  /** `m` maps each declared group to the union of the users of all its declarations. */
  ghost predicate IsGroups(defs: seq<GroupDef>, m: Groups) {
    && (forall g :: g in m <==> Declares(defs, g))
    && (forall g, u :: g in m ==> (u in m[g] <==> Lists(defs, g, u)))
  }

  /** Some declaration has this name. */
  predicate Declares(defs: seq<GroupDef>, g: string) {
    exists i :: 0 <= i < |defs| && defs[i].name == g
  }

  /** Some declaration with this name lists the user. */
  predicate Lists(defs: seq<GroupDef>, g: string, u: string) {
    exists i :: 0 <= i < |defs| && defs[i].name == g && u in defs[i].users
  }

  method CreateGroups(defs: seq<GroupDef>) returns (m: Groups)
    ensures IsGroups(defs, m)
  {
    m := map[];
    for i := 0 to |defs|
      invariant IsGroups(defs[..i], m)
    {
      var d := defs[i];
      ghost var m0 := m;
      if d.name !in m {
        m := m[d.name := {}];
      }
      for j := 0 to |d.users|
        invariant d.name in m && m.Keys == m0.Keys + {d.name}
        invariant forall g :: g in m0 && g != d.name ==> m[g] == m0[g]
        invariant forall u :: u in m[d.name] <==> (d.name in m0 && u in m0[d.name]) || u in d.users[..j]
      {
        m := m[d.name := m[d.name] + {d.users[j]}];
      }
      assert d.users[..|d.users|] == d.users;
      GroupsAppend(defs, i, m0, m);
    }
    assert defs[..|defs|] == defs;
  }

  lemma {:induction false} DeclaresMore(defs: seq<GroupDef>, i: nat, g: string)
    requires i < |defs|
    ensures Declares(defs[..i + 1], g) <==> Declares(defs[..i], g) || defs[i].name == g
  {
    var before, with' := defs[..i], defs[..i + 1];
    if Declares(before, g) {
      var k :| 0 <= k < |before| && before[k].name == g;
      assert with'[k].name == g;
    }
    assert with'[i] == defs[i] && forall k :: 0 <= k < i ==> with'[k] == before[k];
  }

  lemma {:induction false} ListsMore(defs: seq<GroupDef>, i: nat, g: string, u: string)
    requires i < |defs|
    ensures Lists(defs[..i + 1], g, u) <==> Lists(defs[..i], g, u) || (defs[i].name == g && u in defs[i].users)
  {
    var before, with' := defs[..i], defs[..i + 1];
    if Lists(before, g, u) {
      var k :| 0 <= k < |before| && before[k].name == g && u in before[k].users;
      assert with'[k].name == g && u in with'[k].users;
    }
    assert with'[i] == defs[i] && forall k :: 0 <= k < i ==> with'[k] == before[k];
  }

  lemma {:induction false} GroupsAppend(defs: seq<GroupDef>, i: nat, m0: Groups, m: Groups)
    requires i < |defs| && IsGroups(defs[..i], m0)
    requires m.Keys == m0.Keys + {defs[i].name}
    requires forall g :: g in m0 && g != defs[i].name ==> m[g] == m0[g]
    requires forall u :: u in m[defs[i].name] <==>
                         (defs[i].name in m0 && u in m0[defs[i].name]) || u in defs[i].users
    ensures IsGroups(defs[..i + 1], m)
  {
    forall g ensures g in m <==> Declares(defs[..i + 1], g) {
      DeclaresMore(defs, i, g);
    }
    forall g, u | g in m ensures u in m[g] <==> Lists(defs[..i + 1], g, u) {
      ListsMore(defs, i, g, u);
      DeclaresMore(defs, i, g);
    }
  }

  /** What an answer of the walk means for the policy: it is the decision of the flat rule list, and a
      verdict names a rule of the policy at the best path, for this user and mode, with that action. */
  ghost predicate Explained(rules: seq<Rule>, q: seq<Token>, c: Query, r: Result) {
    && IsDecision(rules, q, c, r.action)
    && (r.action != Unspecified ==>
          exists x :: x in rules && IsBest(rules, q, c, Tokens(x.path)) && c.Covers(x.principal) && x.mode == c.mode
                      && x.action == r.action && x.id == r.ruleId && PrintPath(x.path) == r.matchedRule)
  }

  lemma {:induction false} AnswersExplained(rules: seq<Rule>, q: seq<Token>, c: Query, r: Result)
    requires WellFormedRules(rules) && Answers(Build(rules).tree, q, c, r)
    ensures Explained(rules, q, c, r)
  {
    var t := Build(rules).tree;
    WalkDecides(rules, q, c);
    if Walk(t, q, c).Some? {
      var p := Walk(t, q, c).value;
      var n := NodeAt(t, p).value;
      var who := Provenance(n, c, r);
      assert c.mode == Read || c.mode == Write;
      StoredReflects(rules, p, who, c.mode);
      StoredLabel(rules, p);
      var x :| x in rules && Tokens(x.path) == p && x.principal == who && x.mode == c.mode
               && x.action == r.action && x.id == r.ruleId;
      PrintPathIsLabel(x.path);
    }
  }

  /** Whatever was accepted, the answer of the walk is the decision of the policy. */
  lemma {:induction false} AnswersDecide(rules: seq<Rule>, q: seq<Token>, c: Query, r: Result)
    requires Build(rules).ok && Answers(Build(rules).tree, q, c, r)
    ensures IsPolicyDecision(rules, q, c, r.action)
  {
    AcceptedDecides(rules, q, c);
  }

  /** The principal is the user, or a group that some declaration lists the user in. */
  predicate IsFor(who: Principal, defs: seq<GroupDef>, user: string) {
    match who
    case User(u) => u == user
    case Group(g) => Lists(defs, g, user)
    case NoPrincipal => false
  }

  /** The path of a rule covers the path of a request: the same names, and for each key the same value or "*". */
  predicate OnPath(p: seq<Token>, q: seq<Token>) {
    && |p| <= |q|
    && forall i :: 0 <= i < |p| ==>
                     match p[i]
                     case Name(n) => q[i] == Name(n)
                     case Key(_, v) => q[i].Key? && (v == q[i].v || v == "*")
                     case Malformed => false
  }

  predicate OnNamedPath(p: seq<Token>, q: seq<Token>) {
    OnPath(p, q) && forall i :: 0 <= i < |p| && p[i].Key? ==> p[i].k == q[i].k
  }

  lemma {:induction false} MatchesIff(p: seq<Token>, q: seq<Token>)
    requires Malformed !in p
    ensures Matches(p, q) <==> OnNamedPath(p, q)
  {
    if Matches(p, q) {
      SameValuesOnPath(p, p, q);
      forall i | 0 <= i < |p| && p[i].Key? ensures p[i].k == q[i].k {
        assert TokenMatches(p[i], q[i]);
      }
    }
    if OnNamedPath(p, q) {
      forall i | 0 <= i < |p| ensures TokenMatches(p[i], q[i]) {
        assert p[i] in p;
      }
    }
  }

  /** The rule gives this result for the request. */
  predicate Gives(x: Rule, p: Policy, user: string, mode: Mode, q: seq<Token>, r: Result) {
    && x in p.rules && IsFor(x.principal, p.groups, user) && x.mode == mode && OnPath(Tokens(x.path), q)
    && x.action == r.action && x.id == r.ruleId
  }

  /** A user is in a group exactly when some declaration says so. */
  lemma {:induction false} InGroupIff(defs: seq<GroupDef>, c: Query, g: string)
    requires IsGroups(defs, c.groups)
    ensures c.InGroup(g) <==> Lists(defs, g, c.user)
  {
    if Lists(defs, g, c.user) {
      var i :| 0 <= i < |defs| && defs[i].name == g && c.user in defs[i].users;
      assert Declares(defs, g);
    }
  }

  lemma {:induction false} CoversIff(defs: seq<GroupDef>, c: Query, who: Principal)
    requires IsGroups(defs, c.groups)
    ensures c.Covers(who) <==> IsFor(who, defs, c.user)
  {
    if who.Group? {
      InGroupIff(defs, c, who.name);
    }
  }

  lemma {:induction false} SameValuesOnPath(p: seq<Token>, x: seq<Token>, q: seq<Token>)
    requires Values(x) == Values(p) && Matches(p, q) && Malformed !in x
    ensures OnPath(x, q)
  {
    assert |x| == |Values(x)| == |p|;
    forall i | 0 <= i < |x|
      ensures match x[i]
              case Name(n) => q[i] == Name(n)
              case Key(_, v) => q[i].Key? && (v == q[i].v || v == "*")
              case Malformed => false
    {
      assert Values(x)[i] == Values(p)[i] && TokenMatches(p[i], q[i]) && x[i] in x;
    }
  }

  /** Whatever was accepted, a verdict comes from a rule for this user and mode on this path. */
  lemma {:induction false} VerdictFromRule(p: Policy, q: seq<Token>, c: Query, r: Result)
    requires Build(p.rules).ok && Answers(Build(p.rules).tree, q, c, r) && IsGroups(p.groups, c.groups)
    requires r.action != Unspecified
    ensures exists x :: Gives(x, p, c.user, c.mode, q, r)
  {
    var t := Build(p.rules).tree;
    WalkBest(t, q, c);
    var at := Walk(t, q, c).value;
    var who := Provenance(NodeAt(t, at).value, c, r);
    CoversIff(p.groups, c, who);
    NodeAtIff(t, at);
    BuildId(p.rules, at, who, c.mode);
    var x :| x in p.rules && GivenBy(x, at, who, c.mode, RuleAction(r.ruleId, r.action));
    TokensAreFlat(x.path);
    SameValuesOnPath(at, Tokens(x.path), q);
    assert Gives(x, p, c.user, c.mode, q, r);
  }

  /** A policy of one rule decides as that rule says for the users it is for on the paths it covers, and nothing
      else. */
  lemma {:induction false} OneRuleDecides(x: Rule, defs: seq<GroupDef>, c: Query, q: seq<Token>, a: Action)
    requires IsGroups(defs, c.groups) && (c.mode == Read || c.mode == Write)
    requires IsDecision([x], q, c, a)
    ensures a == if IsFor(x.principal, defs, c.user) && x.mode == c.mode && OnNamedPath(Tokens(x.path), q)
                 then x.action else Unspecified
  {
    TokensAreFlat(x.path);
    MatchesIff(Tokens(x.path), q);
    CoversIff(defs, c, x.principal);
    forall p ensures FlatVerdict([x], p, c) == if c.Covers(x.principal) && x.mode == c.mode && Tokens(x.path) == p
                                               then x.action else Unspecified {
      OneVerdict(x, p, c);
    }
    if a != Unspecified {
      var p :| IsBest([x], q, c, p) && FlatVerdict([x], p, c) == a;
    } else {
      assert !Candidate([x], q, c, Tokens(x.path));
    }
  }

  lemma {:induction false} OneVerdict(x: Rule, p: seq<Token>, c: Query)
    requires c.mode == Read || c.mode == Write
    ensures FlatVerdict([x], p, c)
         == if c.Covers(x.principal) && x.mode == c.mode && Tokens(x.path) == p then x.action else Unspecified
  {
    forall who, b ensures Says([x], p, who, c.mode, b) <==>
                          Tokens(x.path) == p && x.principal == who && x.mode == c.mode && x.action == b {
      assert x in [x];
    }
    if x.principal.Group? && c.InGroup(x.principal.name) {
      assert Says([x], p, Group(x.principal.name), c.mode, x.action) ==> GroupsSay([x], p, c, x.action);
    }
  }

  lemma {:induction false} Provenance(n: Trie, c: Query, r: Result) returns (who: Principal)
    requires OwnResult(n, c, r) && r.action != Unspecified
    ensures c.Covers(who) && ActionIn(ContentOf(n), who, c.mode) == RuleAction(r.ruleId, r.action)
    ensures n.users != map[] || n.groups != map[]
  {
    if UserAction(n, c).action != Unspecified {
      who := User(c.user);
    } else {
      var g :| g in n.groups && c.InGroup(g) && Access(n.groups[g], c.mode) == RuleAction(r.ruleId, r.action);
      who := Group(g);
    }
  }

  lemma {:induction false} BuildStep(rules: seq<Rule>, i: nat)
    requires i < |rules| && Build(rules[..i]).ok
    ensures Build(rules[..i + 1]) == Insert(Build(rules[..i]).tree, Tokens(rules[i].path), rules[i])
  {
    assert rules[..i + 1][..i] == rules[..i];
  }

  lemma {:induction false} BuildFails(rules: seq<Rule>, i: nat)
    requires i <= |rules| && !Build(rules[..i]).ok
    ensures !Build(rules).ok
  {
    assert rules[..i] + rules[i..] == rules;
    FailureSticks(rules[..i], rules[i..]);
  }

  /** The rule at `i` goes into the tree of those before it. */
  method InsertNext(node: Node, rules: seq<Rule>, i: nat) returns (ok: bool)
    requires i < |rules| && node.Valid() && Build(rules[..i]) == Inserted(node.tree, true)
    modifies node.Repr
    ensures node.Valid() && fresh(node.Repr - old(node.Repr))
    ensures if ok then Build(rules[..i + 1]) == Inserted(node.tree, true) else !Build(rules).ok
  {
    BuildStep(rules, i);
    ok := node.InsertPath(rules[i], 0, [], 0);
    if !ok {
      BuildFails(rules, i + 1);
    }
  }

  /** `createPolicies`: no tree for an empty list or when a rule does not go in. */
  method CreatePolicies(rules: seq<Rule>) returns (root: Node?)
    ensures root != null <==> Accepted(rules)
    ensures root != null ==> root.Valid() && fresh(root.Repr) && root.tree == Build(rules).tree
  {
    if |rules| == 0 {
      return null;
    }
    var node := new Node();
    for i := 0 to |rules|
      invariant node.Valid() && fresh(node.Repr)
      invariant Build(rules[..i]) == Inserted(node.tree, true)
    {
      var ok := InsertNext(node, rules, i);
      if !ok {
        return null;
      }
    }
    assert rules[..|rules|] == rules;
    return node;
  }

  class GnmiAuthzProcessor {
    var groups: Groups
    var root: Node?
    var policy: Option<Policy>

    ghost predicate Valid()
      reads this, root, if root == null then {} else root.Repr
    {
      match policy
      case None => root == null
      case Some(p) =>
        && root != null && root.Valid() && Accepted(p.rules)
        && root.tree == Build(p.rules).tree && IsGroups(p.groups, groups)
    }

    constructor ()
      ensures Valid() && policy == None
    {
      groups, root, policy := map[], null, None;
    }

    /** Replaces the policy; a rejected policy leaves the processor as it was. */
    method UpdatePolicyFromProto(p: Policy) returns (ok: bool)
      requires Valid()
      modifies this
      ensures Valid() && ok == Accepted(p.rules)
      ensures if ok then policy == Some(p) else unchanged(this)
    {
      var newRoot := CreatePolicies(p.rules);
      var newGroups := CreateGroups(p.groups);
      if newRoot == null {
        return false;
      }
      root, groups, policy := newRoot, newGroups, Some(p);
      return true;
    }

    /** Answers a request; `None` is the error for a request without a mode. */
    method AuthorizeWithPrefix(user: string, prefix: Path, path: Path, mode: Mode) returns (r: Option<Result>)
      requires Valid()
      ensures r.None? <==> mode == ModeUnspecified
      ensures r.Some? && policy.None? ==> r.value == NO_RESULT
      ensures r.Some? && policy.Some? ==>
                IsPolicyDecision(policy.value.rules, Tokens(prefix + path), Query(user, mode, groups), r.value.action)
      ensures r.Some? && policy.Some? && WellFormedRules(policy.value.rules) ==>
                Explained(policy.value.rules, Tokens(prefix + path), Query(user, mode, groups), r.value)
      ensures policy.Some? ==>
                forall g :: Query(user, mode, groups).InGroup(g) <==> Lists(policy.value.groups, g, user)
      ensures r.Some? && policy.Some? && r.value.action != Unspecified ==>
                exists x :: Gives(x, policy.value, user, mode, Tokens(prefix + path), r.value)
    {
      if policy.Some? {
        forall g ensures Query(user, mode, groups).InGroup(g) <==> Lists(policy.value.groups, g, user) {
          InGroupIff(policy.value.groups, Query(user, mode, groups), g);
        }
      }
      if mode == ModeUnspecified {
        return None;
      }
      if root == null {
        return Some(NO_RESULT);
      }
      var c := Query(user, mode, groups);
      var a := root.Authorize(c, prefix + path, 0, [], 0);
      AnswersDecide(policy.value.rules, Tokens(prefix + path), c, a);
      if WellFormedRules(policy.value.rules) {
        AnswersExplained(policy.value.rules, Tokens(prefix + path), c, a);
      }
      if a.action != Unspecified {
        VerdictFromRule(policy.value, Tokens(prefix + path), c, a);
      }
      return Some(a);
    }

    method Authorize(user: string, path: Path, mode: Mode) returns (r: Option<Result>)
      requires Valid()
      ensures r.None? <==> mode == ModeUnspecified
      ensures r.Some? && policy.None? ==> r.value == NO_RESULT
      ensures r.Some? && policy.Some? ==>
                IsPolicyDecision(policy.value.rules, Tokens(path), Query(user, mode, groups), r.value.action)
      ensures r.Some? && policy.Some? && WellFormedRules(policy.value.rules) ==>
                Explained(policy.value.rules, Tokens(path), Query(user, mode, groups), r.value)
      ensures policy.Some? ==>
                forall g :: Query(user, mode, groups).InGroup(g) <==> Lists(policy.value.groups, g, user)
      ensures r.Some? && policy.Some? && r.value.action != Unspecified ==>
                exists x :: Gives(x, policy.value, user, mode, Tokens(path), r.value)
    {
      r := AuthorizeWithPrefix(user, [], path, mode);
      assert [] + path == path;
    }
  }
}
