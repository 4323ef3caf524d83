/** Main results about the path authorizer. */
module PathzTheorems {
  import opened Options
  import opened PathzPolicy
  import opened PathzTrie
  import opened PathzProofs

  // ----- what the trie of a rule list stores at one path

  function PermIn(x: Content, who: Principal): Option<Permission> {
    match who
    case User(u) => if u in x.users then Some(x.users[u]) else None
    case Group(g) => if g in x.groups then Some(x.groups[g]) else None
    case NoPrincipal => None
  }

  function ActionIn(x: Content, who: Principal, mode: Mode): RuleAction {
    var p := PermIn(x, who);
    if p.None? then NO_ACTION else Access(p.value, mode)
  }

  /** `a` is what the rules for `who` at `p` say: deny when some rule denies, else permit when some
      rule permits, else nothing; and a verdict carries the id of a rule that gives it. */
  ghost predicate Reflects(rules: seq<Rule>, p: seq<Token>, who: Principal, mode: Mode, a: RuleAction) {
    && (a.action == Deny <==> Says(rules, p, who, mode, Deny))
    && (a.action == Permit <==> Says(rules, p, who, mode, Permit) && !Says(rules, p, who, mode, Deny))
    && (a.action != Unspecified ==>
          exists r :: r in rules && Tokens(r.path) == p && r.principal == who && r.mode == mode
                      && r.action == a.action && r.id == a.ruleId)
  }

  lemma {:induction false} SaysAppend(rules: seq<Rule>, last: Rule, p: seq<Token>, who: Principal, mode: Mode,
                                      a: Action)
    ensures Says(rules + [last], p, who, mode, a) <==>
            Says(rules, p, who, mode, a)
            || (Tokens(last.path) == p && last.principal == who && last.mode == mode && last.action == a)
  {
    forall r ensures r in rules + [last] <==> r in rules || r == last {}
    if Tokens(last.path) == p && last.principal == who && last.mode == mode && last.action == a {
      assert last in rules + [last];
    }
  }

  lemma {:induction false} ReflectsAppend(rules: seq<Rule>, last: Rule, p: seq<Token>, who: Principal, mode: Mode,
                                          a: RuleAction, b: RuleAction)
    requires mode == Read || mode == Write
    requires Reflects(rules, p, who, mode, a)
    requires b == if Tokens(last.path) == p && last.principal == who && last.mode == mode
                     && last.action != Unspecified
                  then UpdateRuleAction(a, last.action, last.id) else a
    ensures Reflects(rules + [last], p, who, mode, b)
  {
    SaysAppend(rules, last, p, who, mode, Deny);
    SaysAppend(rules, last, p, who, mode, Permit);
    if b.action != Unspecified {
      if b == a {
        var r :| r in rules && Tokens(r.path) == p && r.principal == who && r.mode == mode
                 && r.action == a.action && r.id == a.ruleId;
        assert r in rules + [last];
      } else {
        assert last in rules + [last];
      }
    }
  }

  lemma {:induction false} StoredReflects(rules: seq<Rule>, p: seq<Token>, who: Principal, mode: Mode)
    requires WellFormedRules(rules) && (mode == Read || mode == Write)
    ensures Reflects(rules, p, who, mode, ActionIn(ContentAt(Build(rules).tree, p), who, mode))
    decreases |rules|
  {
    if rules == [] {
      EmptyContent(p);
    } else {
      var init, last := rules[..|rules| - 1], rules[|rules| - 1];
      assert rules == init + [last];
      StoredReflects(init, p, who, mode);
      InsertLast(rules, p);
      var x, y := ContentAt(Build(init).tree, p), ContentAt(Build(rules).tree, p);
      var a, b := ActionIn(x, who, mode), ActionIn(y, who, mode);
      AddToAction(x, last, who, mode);
      ReflectsAppend(init, last, p, who, mode, a, b);
    }
  }

  lemma {:induction false} AddToAction(x: Content, last: Rule, who: Principal, mode: Mode)
    requires mode == Read || mode == Write
    ensures ActionIn(AddTo(x, last), who, mode) ==
            if last.principal == who && !who.NoPrincipal? && last.mode == mode && last.action != Unspecified
            then UpdateRuleAction(ActionIn(x, who, mode), last.action, last.id)
            else ActionIn(x, who, mode)
  {
  }

  lemma {:induction false} InsertLast(rules: seq<Rule>, p: seq<Token>)
    requires WellFormedRules(rules) && rules != []
    ensures var init, last := rules[..|rules| - 1], rules[|rules| - 1];
            && WellFormedRules(init) && Build(init).ok && Build(rules).ok
            && ContentAt(Build(rules).tree, p)
               == if p == Tokens(last.path) then AddTo(ContentAt(Build(init).tree, p), last)
                  else ContentAt(Build(init).tree, p)
  {
    var init, last := rules[..|rules| - 1], rules[|rules| - 1];
    BuildFits(rules);
    BuildFits(init);
    TokensAreFlat(last.path);
    forall r | r in init ensures Compatible(Tokens(r.path), Tokens(last.path)) {
      var i :| 0 <= i < |init| && init[i] == r;
    }
    InsertContent(Build(init).tree, Tokens(last.path), last, p);
  }

  /** Nodes that hold verdicts are labelled with their own path. */
  lemma {:induction false} StoredLabel(rules: seq<Rule>, p: seq<Token>)
    requires WellFormedRules(rules)
    ensures var x := ContentAt(Build(rules).tree, p);
            x.users != map[] || x.groups != map[] ==> x.rule == Label(p)
    decreases |rules|
  {
    if rules == [] {
      EmptyContent(p);
    } else {
      InsertLast(rules, p);
      StoredLabel(rules[..|rules| - 1], p);
      PrintPathIsLabel(rules[|rules| - 1].path);
    }
  }

  // ----- the verdict at one path

  lemma {:induction false} OwnIsContent(t: Trie, p: seq<Token>, c: Query, x: Content)
    requires x == ContentAt(t, p)
    ensures VerdictAt(t, p, c) ==
            if ActionIn(x, User(c.user), c.mode).action != Unspecified then ActionIn(x, User(c.user), c.mode).action
            else if exists g :: c.InGroup(g) && ActionIn(x, Group(g), c.mode).action == Deny then Deny
            else if exists g :: c.InGroup(g) && ActionIn(x, Group(g), c.mode).action == Permit then Permit
            else Unspecified
  {
    if NodeAt(t, p).Some? {
      var n := NodeAt(t, p).value;
      forall a | a != Unspecified
        ensures GroupHas(n, c, a) <==> exists g :: c.InGroup(g) && ActionIn(x, Group(g), c.mode).action == a
      {
        if GroupHas(n, c, a) {
          var g :| g in n.groups && c.InGroup(g) && Access(n.groups[g], c.mode).action == a;
          assert ActionIn(x, Group(g), c.mode).action == a;
        }
      }
    }
  }

  /** The trie holds at every path exactly the verdict of the flat rule list. */
  lemma {:induction false} VerdictAgrees(rules: seq<Rule>, p: seq<Token>, c: Query)
    requires WellFormedRules(rules)
    ensures VerdictAt(Build(rules).tree, p, c) == FlatVerdict(rules, p, c)
  {
    var x := ContentAt(Build(rules).tree, p);
    OwnIsContent(Build(rules).tree, p, c, x);
    if c.mode == Read || c.mode == Write {
      StoredReflects(rules, p, User(c.user), c.mode);
      forall g ensures Reflects(rules, p, Group(g), c.mode, ActionIn(x, Group(g), c.mode)) {
        StoredReflects(rules, p, Group(g), c.mode);
      }
      GroupsAgree(rules, p, c, x);
    }
  }

  lemma {:induction false} GroupsAgree(rules: seq<Rule>, p: seq<Token>, c: Query, x: Content)
    requires forall g :: Reflects(rules, p, Group(g), c.mode, ActionIn(x, Group(g), c.mode))
    ensures GroupsSay(rules, p, c, Deny) <==>
            exists g :: c.InGroup(g) && ActionIn(x, Group(g), c.mode).action == Deny
    ensures !GroupsSay(rules, p, c, Deny) ==>
              (GroupsSay(rules, p, c, Permit) <==>
               exists g :: c.InGroup(g) && ActionIn(x, Group(g), c.mode).action == Permit)
  {
    if GroupsSay(rules, p, c, Deny) {
      var g :| c.InGroup(g) && Says(rules, p, Group(g), c.mode, Deny);
      assert Reflects(rules, p, Group(g), c.mode, ActionIn(x, Group(g), c.mode));
    } else if GroupsSay(rules, p, c, Permit) {
      var g :| c.InGroup(g) && Says(rules, p, Group(g), c.mode, Permit);
      assert Reflects(rules, p, Group(g), c.mode, ActionIn(x, Group(g), c.mode));
    }
  }

  /** MAIN RESULT. The walk over the trie of a policy takes the decision of the flat rule list:
      the verdict at the best matching path, which is the path it returns. */
  lemma {:induction false} WalkDecides(rules: seq<Rule>, q: seq<Token>, c: Query)
    requires WellFormedRules(rules)
    ensures IsDecision(rules, q, c, WalkAction(Build(rules).tree, q, c))
    ensures var w := Walk(Build(rules).tree, q, c);
            w.Some? ==> IsBest(rules, q, c, w.value)
                        && FlatVerdict(rules, w.value, c) == WalkAction(Build(rules).tree, q, c)
  {
    var t := Build(rules).tree;
    WalkBest(t, q, c);
    forall p ensures VerdictAt(t, p, c) == FlatVerdict(rules, p, c) { VerdictAgrees(rules, p, c); }
    forall p ensures Stored(t, q, c, p) <==> Candidate(rules, q, c, p) {}
    if Walk(t, q, c).Some? {
      assert IsBest(rules, q, c, Walk(t, q, c).value);
    }
  }

  // ----- acceptance and the empty key name

  ghost predicate AcceptedInEveryOrder(rules: seq<Rule>) {
    forall ys :: multiset(ys) == multiset(rules) ==> Accepted(ys)
  }

  /** Of two incompatible rules, one shuts the other out. */
  lemma {:induction false} IncompatibleClash(a: seq<Token>, ra: Rule, b: seq<Token>, rb: Rule)
    requires !Compatible(a, b) && Malformed !in a && Malformed !in b
    ensures !Insert(Insert(EMPTY, a, ra).tree, b, rb).ok || !Insert(Insert(EMPTY, b, rb).tree, a, ra).ok
    decreases a
  {
    if a[0] == b[0] {
      IncompatibleClash(a[1..], ra, b[1..], rb);
      match a[0]
      case Name(n) =>
        assert Child(Insert(EMPTY, a, ra).tree.nameNext, n) == Insert(EMPTY, a[1..], ra).tree;
        assert Child(Insert(EMPTY, b, rb).tree.nameNext, n) == Insert(EMPTY, b[1..], rb).tree;
      case Key(k, v) =>
        assert Child(Insert(EMPTY, a, ra).tree.keyNext, v) == Insert(EMPTY, a[1..], ra).tree;
        assert Child(Insert(EMPTY, b, rb).tree.keyNext, v) == Insert(EMPTY, b[1..], rb).tree;
    } else {
      assert Insert(EMPTY, a, ra).tree.key == a[0].k && Insert(EMPTY, b, rb).tree.key == b[0].k;
    }
  }

  lemma {:induction false} FailureSticks(xs: seq<Rule>, ys: seq<Rule>)
    requires !Build(xs).ok
    ensures !Build(xs + ys).ok
    decreases |ys|
  {
    if ys == [] {
      assert xs + ys == xs;
    } else {
      var zs := xs + ys;
      FailureSticks(xs, ys[..|ys| - 1]);
      assert zs[..|zs| - 1] == xs + ys[..|ys| - 1];
    }
  }

  lemma {:induction false} TwoRules(a: Rule, b: Rule)
    ensures Build([a]) == Insert(EMPTY, Tokens(a.path), a)
    ensures Build([a]).ok ==> Build([a, b]) == Insert(Build([a]).tree, Tokens(b.path), b)
    ensures !Build([a]).ok ==> !Build([a, b]).ok
  {
    assert [a][..0] == [] && [a, b][..1] == [a];
  }

  lemma {:induction false} MovedToFront(rules: seq<Rule>, i: nat, j: nat)
    requires i < j < |rules|
    ensures var rest := rules[..i] + rules[i + 1..j] + rules[j + 1..];
            && multiset([rules[i], rules[j]] + rest) == multiset(rules)
            && multiset([rules[j], rules[i]] + rest) == multiset(rules)
  {
    assert rules == rules[..i] + [rules[i]] + rules[i + 1..j] + [rules[j]] + rules[j + 1..];
  }

  /** A rule list is accepted in every order if and only if every rule has a principal and no two
      rules name different keys at the same place. */
  lemma {:induction false} AcceptedInEveryOrderIff(rules: seq<Rule>)
    ensures AcceptedInEveryOrder(rules) <==> rules != [] && WellFormedRules(rules)
  {
    if rules != [] && WellFormedRules(rules) {
      forall ys | multiset(ys) == multiset(rules) ensures Accepted(ys) {
        WellFormedPermutes(rules, ys);
        BuildFits(ys);
        assert |ys| == |multiset(ys)| == |rules|;
      }
    }
    if AcceptedInEveryOrder(rules) {
      assert Accepted(rules);
      AcceptedHavePrincipals(rules);
      forall i, j | 0 <= i < j < |rules| ensures Compatible(Tokens(rules[i].path), Tokens(rules[j].path)) {
        if !Compatible(Tokens(rules[i].path), Tokens(rules[j].path)) {
          ClashRefutes(rules, i, j);
        }
      }
    }
  }

  lemma {:induction false} ClashPair(a: Rule, b: Rule)
    requires !Compatible(Tokens(a.path), Tokens(b.path))
    ensures !Build([a, b]).ok || !Build([b, a]).ok
  {
    TokensAreFlat(a.path);
    TokensAreFlat(b.path);
    IncompatibleClash(Tokens(a.path), a, Tokens(b.path), b);
    TwoRules(a, b);
    TwoRules(b, a);
  }

  lemma {:induction false} RefutedBy(rules: seq<Rule>, front: seq<Rule>, rest: seq<Rule>)
    requires !Build(front).ok && multiset(front + rest) == multiset(rules)
    ensures !AcceptedInEveryOrder(rules)
  {
    FailureSticks(front, rest);
    assert !Accepted(front + rest);
  }

  lemma {:induction false} ClashRefutes(rules: seq<Rule>, i: nat, j: nat)
    requires i < j < |rules| && !Compatible(Tokens(rules[i].path), Tokens(rules[j].path))
    ensures !AcceptedInEveryOrder(rules)
  {
    var a, b, rest := rules[i], rules[j], rules[..i] + rules[i + 1..j] + rules[j + 1..];
    ClashPair(a, b);
    MovedToFront(rules, i, j);
    if !Build([a, b]).ok {
      RefutedBy(rules, [a, b], rest);
    } else {
      RefutedBy(rules, [b, a], rest);
    }
  }

  lemma {:induction false} AcceptedHavePrincipals(rules: seq<Rule>)
    requires Build(rules).ok
    ensures HavePrincipals(rules) && KeysMarked(Build(rules).tree, false)
    decreases |rules|
  {
    if rules != [] {
      var init, last := rules[..|rules| - 1], rules[|rules| - 1];
      assert rules == init + [last];
      AcceptedHavePrincipals(init);
      TokensAreFlat(last.path);
      InsertOk(Build(init).tree, Tokens(last.path), last, false);
      InsertKeepsMarked(Build(init).tree, Tokens(last.path), last, false);
    }
  }

  /** With an empty key name the order of two rules can decide whether the policy is accepted. */
  lemma {:induction false} EmptyKeyNameBreaksOrder()
    ensures exists a, b :: Accepted([a, b]) && !Accepted([b, a])
  {
    var a := Rule("1", [PathElem("x", map["" := "v"])], User("u"), Read, Permit);
    var b := Rule("2", [PathElem("x", map["k" := "v"])], User("u"), Read, Permit);
    KeyedTokens("x", "", "v");
    KeyedTokens("x", "k", "v");
    KeyOrder(a, b, "x", "k", "v");
    assert Accepted([a, b]) && !Accepted([b, a]);
  }

  lemma {:induction false} KeyOrder(a: Rule, b: Rule, x: string, k: string, v: string)
    requires Tokens(a.path) == [Name(x), Key("", v)] && Tokens(b.path) == [Name(x), Key(k, v)] && k != ""
    requires a.principal.User? && b.principal.User?
    ensures Accepted([a, b]) && !Accepted([b, a])
  {
    TwoRules(a, b);
    TwoRules(b, a);
    InsertKeyed(EMPTY, x, "", v, a);
    InsertKeyed(EMPTY, x, k, v, b);
    InsertKeyed(Build([a]).tree, x, k, v, b);
    InsertKeyed(Build([b]).tree, x, "", v, a);
  }

  lemma {:induction false} KeyedTokens(x: string, k: string, v: string)
    ensures Tokens([PathElem(x, map[k := v])]) == [Name(x), Key(k, v)]
  {
    var path := [PathElem(x, map[k := v])];
    TokensAreFlat(path);
    var names := SortedNames.SortNames({k});
    SortedNames.SortNamesSorted({k});
    assert map[k := v].Keys == {k};
    assert |names| == 1 && names[0] in names;
    assert names == [k];
    assert KeyTokens(path[0].key, names) == [Key(k, v)] + KeyTokens(path[0].key, names[1..]);
    assert path[1..] == [];
  }

  lemma {:induction false} InsertKeyed(t: Trie, x: string, k: string, v: string, r: Rule)
    requires r.principal.User?
    ensures var n := Child(t.nameNext, x);
            var done := Insert(t, [Name(x), Key(k, v)], r);
            && done.ok == (n.key == "" || n.key == k)
            && (done.ok ==> x in done.tree.nameNext && done.tree.nameNext[x].key == k)
  {
    var n := Child(t.nameNext, x);
    assert [Name(x), Key(k, v)][1..] == [Key(k, v)];
    assert [Key(k, v)][1..] == [];
    assert Insert(Child(n.keyNext, v), [], r).ok;
  }
}
