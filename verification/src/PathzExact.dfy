/** Which accepted policies the trie decides as the flat rule list does: exactly those in which no two rules ask for
    different key names at the same place. An empty key name lets others be accepted, too. */
module PathzExact {
  import opened PathzPolicy
  import opened PathzTrie
  import opened PathzProofs
  import opened PathzTheorems
  import opened PathzAccepted

  // ----- acceptance depends on the paths only

  predicate Alike(t: Trie, t': Trie) {
    && t.key == t'.key && t.nameNext.Keys == t'.nameNext.Keys && t.keyNext.Keys == t'.keyNext.Keys
    && (forall n :: n in t.nameNext ==> Alike(t.nameNext[n], t'.nameNext[n]))
    && (forall v :: v in t.keyNext ==> Alike(t.keyNext[v], t'.keyNext[v]))
  }

  lemma {:induction false} AlikeName(t: Trie, t': Trie, n: string, c: Trie, c': Trie)
    requires Alike(t, t') && Alike(c, c')
    ensures Alike(WithName(t, n, c), WithName(t', n, c'))
  {
  }

  lemma {:induction false} AlikeKey(t: Trie, t': Trie, k: string, v: string, c: Trie, c': Trie)
    requires Alike(t, t') && Alike(c, c')
    ensures Alike(WithKey(t, k, v, c), WithKey(t', k, v, c'))
  {
  }

  predicate SameBelow(t: Trie, u: Trie) {
    t.key == u.key && t.nameNext == u.nameNext && t.keyNext == u.keyNext
  }

  lemma {:induction false} AlikeBelow(t: Trie, t': Trie, u: Trie, u': Trie)
    requires Alike(t, t') && SameBelow(t, u) && SameBelow(t', u')
    ensures Alike(u, u')
  {
  }

  lemma {:induction false} AddRuleBelow(t: Trie, r: Rule)
    ensures SameBelow(t, AddRule(t, r).tree) && AddRule(t, r).ok == !r.principal.NoPrincipal?
  {
  }

  function ChildAt(t: Trie, k: Token): Trie {
    match k
    case Name(n) => Child(t.nameNext, n)
    case Key(_, v) => Child(t.keyNext, v)
    case Malformed => EMPTY
  }

  lemma {:induction false} AlikeChild(t: Trie, t': Trie, k: Token)
    requires Alike(t, t')
    ensures Alike(ChildAt(t, k), ChildAt(t', k)) && t.key == t'.key
  {
  }

  lemma {:induction false} InsertStep(t: Trie, p: seq<Token>, r: Rule)
    requires p != []
    ensures var sub := Insert(ChildAt(t, p[0]), p[1..], r);
            Insert(t, p, r) ==
            match p[0]
            case Name(n) => Inserted(WithName(t, n, sub.tree), sub.ok)
            case Key(k, v) =>
              if t.key != "" && t.key != k then Inserted(t, false) else Inserted(WithKey(t, k, v, sub.tree), sub.ok)
            case Malformed => Inserted(t, false)
  {
  }

  lemma {:induction false} InsertAlike(t: Trie, t': Trie, p: seq<Token>, r: Rule, r': Rule)
    requires Alike(t, t') && !r.principal.NoPrincipal? && !r'.principal.NoPrincipal?
    ensures Insert(t, p, r).ok == Insert(t', p, r').ok && Alike(Insert(t, p, r).tree, Insert(t', p, r').tree)
    decreases p
  {
    if p == [] {
      AddRuleBelow(t, r);
      AddRuleBelow(t', r');
      AlikeBelow(t, t', AddRule(t, r).tree, AddRule(t', r').tree);
    } else {
      AlikeChild(t, t', p[0]);
      if !p[0].Malformed? {
        InsertAlike(ChildAt(t, p[0]), ChildAt(t', p[0]), p[1..], r, r');
      }
      InsertStep(t, p, r);
      InsertStep(t', p, r');
      match p[0]
      case Name(n) =>
        AlikeName(t, t', n, Insert(ChildAt(t, p[0]), p[1..], r).tree, Insert(ChildAt(t', p[0]), p[1..], r').tree);
      case Key(k, v) =>
        AlikeKey(t, t', k, v, Insert(ChildAt(t, p[0]), p[1..], r).tree, Insert(ChildAt(t', p[0]), p[1..], r').tree);
      case Malformed =>
    }
  }

  /** Two policies for the same paths. */
  predicate SamePaths(xs: seq<Rule>, ys: seq<Rule>) {
    |xs| == |ys| && forall i :: 0 <= i < |xs| ==> xs[i].path == ys[i].path
  }

  lemma {:induction false} BuildAlike(xs: seq<Rule>, ys: seq<Rule>)
    requires SamePaths(xs, ys) && HavePrincipals(xs) && HavePrincipals(ys)
    ensures Build(xs).ok == Build(ys).ok && Alike(Build(xs).tree, Build(ys).tree)
    decreases |xs|
  {
    if xs != [] {
      var n := |xs| - 1;
      BuildAlike(xs[..n], ys[..n]);
      assert xs[n] in xs && ys[n] in ys;
      InsertAlike(Build(xs[..n]).tree, Build(ys[..n]).tree, Tokens(xs[n].path), xs[n], ys[n]);
    }
  }

  // ----- an incompatible pair

  predicate ClashAt(a: seq<Token>, b: seq<Token>, d: nat) {
    d < |a| && d < |b| && a[..d] == b[..d] && a[d].Key? && b[d].Key? && a[d].k != b[d].k
  }

  lemma {:induction false} FindClash(a: seq<Token>, b: seq<Token>) returns (d: nat)
    requires !Compatible(a, b)
    ensures ClashAt(a, b, d)
    decreases a
  {
    if a[0].Key? && b[0].Key? && a[0].k != b[0].k {
      d := 0;
    } else {
      var e := FindClash(a[1..], b[1..]);
      d := e + 1;
      assert a[..d] == [a[0]] + a[1..][..e] && b[..d] == [b[0]] + b[1..][..e];
    }
  }

  /** Of two rules of an accepted policy that clash, one has an empty key name where the other has one. */
  lemma {:induction false} ClashIsEmpty(rules: seq<Rule>, i: nat, j: nat, d: nat)
    requires Build(rules).ok && i < |rules| && j < |rules| && ClashAt(Tokens(rules[i].path), Tokens(rules[j].path), d)
    ensures Tokens(rules[i].path)[d].k == "" || Tokens(rules[j].path)[d].k == ""
  {
    var p, q := Tokens(rules[i].path), Tokens(rules[j].path);
    BuildName(rules, p[..d]);
    assert |p[..d]| == d && rules[i] in rules && rules[j] in rules;
    assert Passes(p, p[..d]) && Passes(q, p[..d]);
  }

  // ----- a rule that its own path does not reach

  /** The same paths, with a verdict in one rule only. */
  function OneDenial(rules: seq<Rule>, i: nat, u: string): seq<Rule> {
    seq(|rules|, x requires 0 <= x < |rules| =>
      Rule(rules[x].id, rules[x].path, User(u), Read, if x == i then Deny else Unspecified))
  }

  lemma {:induction false} OnePlace(rules: seq<Rule>, i: nat, u: string, p: seq<Token>)
    requires i < |rules|
    ensures var ys, c := OneDenial(rules, i, u), Query(u, Read, map[]);
            && FlatVerdict(ys, Tokens(rules[i].path), c) == Deny
            && (VerdictBy(ys, p, c) != Unspecified ==> Values(p) == Values(Tokens(rules[i].path)))
  {
    var ys := OneDenial(rules, i, u);
    assert ys[i] in ys;
    assert Says(ys, Tokens(rules[i].path), User(u), Read, Deny);
  }

  /** Where another rule gives a key name, the path of a rule with an empty name is none of the policy's. */
  lemma {:induction false} OutOfReach(ys: seq<Rule>, i: nat, j: nat, d: nat, p: seq<Token>)
    requires i < |ys| && j < |ys| && ClashAt(Tokens(ys[i].path), Tokens(ys[j].path), d) && Tokens(ys[j].path)[d].k != ""
    requires Values(p) == Values(Tokens(ys[i].path)) && Matches(p, Tokens(ys[i].path))
    ensures !Named(ys, p)
  {
    var a, b := Tokens(ys[i].path), Tokens(ys[j].path);
    SamePrefix(p, a, d);
    assert TokenMatches(p[d], a[d]);
    assert |p[..d]| == d && ys[j] in ys && Passes(b, p[..d]);
    assert !IsName(ys, p[..d], p[d].k);
  }

  /** A rule with an empty key name where another rule has one: the flat list denies its own path as a request, and
      the walk finds nothing. */
  lemma {:induction false} LostRule(rules: seq<Rule>, i: nat, j: nat, d: nat)
    requires Accepted(rules) && i < |rules| && j < |rules|
    requires ClashAt(Tokens(rules[i].path), Tokens(rules[j].path), d) && Tokens(rules[j].path)[d].k != ""
    ensures var ys, q, c := OneDenial(rules, i, "u"), Tokens(rules[i].path), Query("u", Read, map[]);
            && SamePaths(rules, ys) && HavePrincipals(ys) && Accepted(ys)
            && WalkAction(Build(ys).tree, q, c) == Unspecified && IsDecision(ys, q, c, Deny)
  {
    var ys, q, c := OneDenial(rules, i, "u"), Tokens(rules[i].path), Query("u", Read, map[]);
    AcceptedHavePrincipals(rules);
    BuildAlike(rules, ys);
    AcceptedDecides(ys, q, c);
    forall p ensures !PolicyCandidate(ys, q, c, p) {
      OnePlace(rules, i, "u", p);
      if Matches(p, q) && Values(p) == Values(q) {
        OutOfReach(ys, i, j, d, p);
      }
    }
    OnlyRule(rules, i);
  }

  lemma {:induction false} OnlyRule(rules: seq<Rule>, i: nat)
    requires i < |rules|
    ensures IsDecision(OneDenial(rules, i, "u"), Tokens(rules[i].path), Query("u", Read, map[]), Deny)
  {
    var ys, q, c := OneDenial(rules, i, "u"), Tokens(rules[i].path), Query("u", Read, map[]);
    OnePlace(rules, i, "u", q);
    forall p | FlatVerdict(ys, p, c) != Unspecified ensures p == q {}
    assert IsBest(ys, q, c, q);
  }

  // ----- the exact condition

  /** With these paths, every choice of principals, modes and actions is decided as the flat list does on every
      request. */
  ghost predicate DecidedRight(rules: seq<Rule>) {
    forall ys, path: Path, c :: SamePaths(rules, ys) && HavePrincipals(ys) ==>
                                  IsDecision(ys, Tokens(path), c, WalkAction(Build(ys).tree, Tokens(path), c))
  }

  /** MAIN RESULT. An accepted policy is decided as the flat rule list does, whatever its principals and actions,
      exactly when no two of its rules ask for different key names at the same place. */
  lemma {:induction false} DecidedRightIff(rules: seq<Rule>)
    requires Accepted(rules)
    ensures DecidedRight(rules) <==> PairwiseCompatible(rules)
  {
    if PairwiseCompatible(rules) {
      forall ys, path: Path, c | SamePaths(rules, ys) && HavePrincipals(ys)
        ensures IsDecision(ys, Tokens(path), c, WalkAction(Build(ys).tree, Tokens(path), c))
      {
        WalkDecides(ys, Tokens(path), c);
      }
    } else {
      var i, j :| 0 <= i < j < |rules| && !Compatible(Tokens(rules[i].path), Tokens(rules[j].path));
      Undecided(rules, i, j);
    }
  }

  lemma {:induction false} Undecided(rules: seq<Rule>, i: nat, j: nat)
    requires Accepted(rules) && i < j < |rules| && !Compatible(Tokens(rules[i].path), Tokens(rules[j].path))
    ensures !DecidedRight(rules)
  {
    var d := FindClash(Tokens(rules[i].path), Tokens(rules[j].path));
    ClashIsEmpty(rules, i, j, d);
    var (l, o) := if Tokens(rules[j].path)[d].k != "" then (i, j) else (j, i);
    LostRule(rules, l, o, d);
    var ys, q, c := OneDenial(rules, l, "u"), Tokens(rules[l].path), Query("u", Read, map[]);
    if IsDecision(ys, q, c, Unspecified) {
      DecisionUnique(ys, q, c, Unspecified, Deny);
    }
  }
}
