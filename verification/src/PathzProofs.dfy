/** Why the trie of an accepted policy decides exactly as the flat rule list, in any rule order. */
module PathzProofs {
  import opened PathzPolicy
  import opened PathzTrie

  // ----- rule labels depend on the tokens only

  function PrintTokens(p: seq<Token>): string {
    if p == [] then "" else PrintToken(p[0]) + PrintTokens(p[1..])
  }

  function PrintToken(t: Token): string {
    match t
    case Name(n) => "/" + n
    case Key(k, v) => "[" + k + "=" + v + "]"
    case Malformed => ""
  }

  function Label(p: seq<Token>): string {
    if PrintTokens(p) == "" then "/" else PrintTokens(p)
  }

  lemma {:induction false} ConcatAssociative(a: string, b: string, c: string)
    ensures a + (b + c) == (a + b) + c
  {
  }

  function Joined(texts: seq<string>): string {
    if texts == [] then "" else texts[0] + Joined(texts[1..])
  }

  function Texts(p: seq<Token>): seq<string> {
    seq(|p|, i requires 0 <= i < |p| => PrintToken(p[i]))
  }

  lemma {:induction false} JoinedConcat(a: seq<string>, b: seq<string>)
    ensures Joined(a + b) == Joined(a) + Joined(b)
  {
    if a == [] {
      assert a + b == b;
    } else {
      JoinedConcat(a[1..], b);
      assert (a + b)[1..] == a[1..] + b;
      ConcatAssociative(a[0], Joined(a[1..]), Joined(b));
    }
  }

  lemma {:induction false} PrintJoined(p: seq<Token>)
    ensures PrintTokens(p) == Joined(Texts(p))
  {
    if p != [] {
      PrintJoined(p[1..]);
      assert Texts(p)[1..] == Texts(p[1..]);
    }
  }

  lemma {:induction false} PrintConcat(p: seq<Token>, r: seq<Token>)
    ensures PrintTokens(p + r) == PrintTokens(p) + PrintTokens(r)
  {
    PrintJoined(p);
    PrintJoined(r);
    PrintJoined(p + r);
    TextsConcat(p, r);
  }

  lemma {:induction false} TextsConcat(p: seq<Token>, r: seq<Token>)
    ensures Joined(Texts(p + r)) == Joined(Texts(p)) + Joined(Texts(r))
  {
    assert Texts(p + r) == Texts(p) + Texts(r);
    JoinedConcat(Texts(p), Texts(r));
  }

  lemma {:induction false} PrintKeysAreTokens(key: map<string, string>, names: seq<string>)
    requires forall k :: k in names ==> k in key
    ensures PrintKeys(key, names) == PrintTokens(KeyTokens(key, names))
  {
    if names != [] {
      PrintKeysAreTokens(key, names[1..]);
      var t := KeyTokens(key, names);
      assert t[1..] == KeyTokens(key, names[1..]);
    }
  }

  lemma {:induction false} PrintElemsAreTokens(path: Path)
    ensures PrintElems(path) == PrintTokens(FlatTokens(path))
  {
    if path != [] {
      PrintElemsAreTokens(path[1..]);
      PrintConcat(ElemTokens(path[0]), FlatTokens(path[1..]));
      var names := SortedNames.SortNames(path[0].key.Keys);
      PrintKeysAreTokens(path[0].key, names);
      assert ElemTokens(path[0])[1..] == KeyTokens(path[0].key, names);
    }
  }

  lemma {:induction false} PrintPathIsLabel(path: Path)
    ensures PrintPath(path) == Label(Tokens(path))
  {
    TokensAreFlat(path);
    PrintElemsAreTokens(path);
  }

  // ----- labels tell paths apart

  const DELIMITERS := {'/', '[', '=', ']'}

  predicate Clean(t: string) {
    forall c :: c in t ==> c !in DELIMITERS
  }

  /** Names are not empty, and no text contains a delimiter. */
  predicate CleanToken(t: Token) {
    match t
    case Name(n) => n != "" && Clean(n)
    case Key(k, v) => Clean(k) && Clean(v)
    case Malformed => false
  }

  predicate CleanTokens(p: seq<Token>) {
    forall t :: t in p ==> CleanToken(t)
  }

  predicate Delimited(t: string) {
    t == "" || t[0] in DELIMITERS
  }

  lemma {:induction false} WhereCut(t: string, a: string, x: string)
    requires t == a + x && Clean(a) && Delimited(x)
    ensures t[..|a|] == a && t[|a|..] == x && (|a| < |t| ==> t[|a|] in DELIMITERS)
    ensures forall i :: 0 <= i < |a| ==> t[i] !in DELIMITERS
  {
    forall i | 0 <= i < |a| ensures t[i] !in DELIMITERS {
      assert a[i] in a;
    }
  }

  lemma {:induction false} CutThere(a: string, x: string, b: string, y: string)
    requires a + x == b + y && Clean(a) && Clean(b) && Delimited(x) && Delimited(y)
    ensures a == b && x == y
  {
    WhereCut(a + x, a, x);
    WhereCut(a + x, b, y);
  }

  lemma {:induction false} TextsDelimited(p: seq<Token>)
    requires CleanTokens(p)
    ensures Delimited(PrintTokens(p)) && (p != [] ==> PrintTokens(p) != "")
    ensures p != [] ==> (PrintTokens(p)[0] == '/' <==> p[0].Name?)
  {
    if p != [] {
      assert p[0] in p;
      assert PrintTokens(p)[0] == PrintToken(p[0])[0];
    }
  }

  /** What follows the name of a key. */
  function AfterName(v: string, x: string): string {
    ['='] + (v + AfterValue(x))
  }

  function AfterValue(x: string): string {
    [']'] + x
  }

  lemma {:induction false} NameTail(n: string, x: string)
    ensures (PrintToken(Name(n)) + x)[1..] == n + x
  {
  }

  lemma {:induction false} KeyTail(k: string, v: string, x: string)
    ensures (PrintToken(Key(k, v)) + x)[1..] == k + AfterName(v, x)
  {
  }

  lemma {:induction false} SameName(n: string, x: string, m: string, y: string)
    requires PrintToken(Name(n)) + x == PrintToken(Name(m)) + y && Clean(n) && Clean(m) && Delimited(x) && Delimited(y)
    ensures n == m && x == y
  {
    NameTail(n, x);
    NameTail(m, y);
    CutThere(n, x, m, y);
  }

  lemma {:induction false} SameKey(k: string, v: string, x: string, l: string, w: string, y: string)
    requires PrintToken(Key(k, v)) + x == PrintToken(Key(l, w)) + y && Clean(k) && Clean(v) && Clean(l) && Clean(w)
    ensures k == l && v == w && x == y
  {
    KeyTail(k, v, x);
    KeyTail(l, w, y);
    CutThere(k, AfterName(v, x), l, AfterName(w, y));
    SameValue(v, x, w, y);
  }

  lemma {:induction false} SameValue(v: string, x: string, w: string, y: string)
    requires AfterName(v, x) == AfterName(w, y) && Clean(v) && Clean(w)
    ensures v == w && x == y
  {
    assert AfterName(v, x)[1..] == v + AfterValue(x) && AfterName(w, y)[1..] == w + AfterValue(y);
    CutThere(v, AfterValue(x), w, AfterValue(y));
    assert AfterValue(x)[1..] == x && AfterValue(y)[1..] == y;
  }

  lemma {:induction false} SameFirst(a: Token, x: string, b: Token, y: string)
    requires CleanToken(a) && CleanToken(b) && a.Name? == b.Name? && Delimited(x) && Delimited(y)
    requires PrintToken(a) + x == PrintToken(b) + y
    ensures a == b && x == y
  {
    if a.Name? {
      SameName(a.n, x, b.n, y);
    } else {
      SameKey(a.k, a.v, x, b.k, b.v, y);
    }
  }

  lemma {:induction false} TextsTellApart(p: seq<Token>, q: seq<Token>)
    requires CleanTokens(p) && CleanTokens(q) && PrintTokens(p) == PrintTokens(q)
    ensures p == q
  {
    TextsDelimited(p);
    TextsDelimited(q);
    if p != [] && q != [] {
      CleanRest(p);
      CleanRest(q);
      SameFirst(p[0], PrintTokens(p[1..]), q[0], PrintTokens(q[1..]));
      TextsTellApart(p[1..], q[1..]);
      assert p == [p[0]] + p[1..] && q == [q[0]] + q[1..];
    }
  }

  lemma {:induction false} CleanRest(p: seq<Token>)
    requires CleanTokens(p) && p != []
    ensures CleanToken(p[0]) && CleanTokens(p[1..]) && Delimited(PrintTokens(p[1..]))
  {
    assert p[0] in p;
    assert forall t :: t in p[1..] ==> t in p;
    TextsDelimited(p[1..]);
  }

  /** The printed text tells which path it is of, for names that are not empty and contain no delimiter. */
  lemma {:induction false} PrintPathTellsApart(p: Path, q: Path)
    requires CleanTokens(Tokens(p)) && CleanTokens(Tokens(q)) && PrintPath(p) == PrintPath(q)
    ensures Tokens(p) == Tokens(q)
  {
    PrintPathIsLabel(p);
    PrintPathIsLabel(q);
    NotJustSlash(Tokens(p));
    NotJustSlash(Tokens(q));
    TextsTellApart(Tokens(p), Tokens(q));
  }

  lemma {:induction false} NotJustSlash(p: seq<Token>)
    requires CleanTokens(p)
    ensures PrintTokens(p) != "/" && (PrintTokens(p) == "" <==> p == [])
  {
    TextsDelimited(p);
    if p != [] {
      assert p[0] in p && |PrintTokens(p)| >= |PrintToken(p[0])| >= 2;
    }
  }

  // ----- one insertion

  lemma {:induction false} MarkedName(t: Trie, n: string, sub: Trie, strict: bool)
    requires KeysMarked(t, strict) && KeysMarked(sub, strict)
    ensures KeysMarked(t.(nameNext := t.nameNext[n := sub]), strict)
  {
  }

  lemma {:induction false} MarkedKey(t: Trie, k: string, v: string, sub: Trie, strict: bool)
    requires KeysMarked(t, strict) && KeysMarked(sub, strict) && (strict ==> k != "")
    ensures KeysMarked(t.(key := k, keyNext := t.keyNext[v := sub]), strict)
  {
    assert v in t.keyNext[v := sub];
  }

  lemma {:induction false} MarkedContent(t: Trie, t': Trie, strict: bool)
    requires KeysMarked(t, strict) && t' == t.(users := t'.users, groups := t'.groups, rule := t'.rule)
    ensures KeysMarked(t', strict)
  {
  }

  lemma {:induction false} InsertKeepsMarked(t: Trie, p: seq<Token>, r: Rule, strict: bool)
    requires KeysMarked(t, strict)
    requires strict ==> NoEmptyKey(p)
    ensures KeysMarked(Insert(t, p, r).tree, strict)
    decreases p
  {
    if p != [] {
      match p[0]
      case Name(n) =>
        InsertKeepsMarked(Child(t.nameNext, n), p[1..], r, strict);
        var sub := Insert(Child(t.nameNext, n), p[1..], r).tree;
        MarkedName(t, n, sub, strict);
      case Key(k, v) =>
        InsertKeepsMarked(Child(t.keyNext, v), p[1..], r, strict);
        var sub := Insert(Child(t.keyNext, v), p[1..], r).tree;
        MarkedKey(t, k, v, sub, strict);
      case Malformed =>
    } else {
      MarkedContent(t, AddRule(t, r).tree, strict);
    }
  }

  predicate NoEmptyKey(p: seq<Token>) {
    forall i :: 0 <= i < |p| && p[i].Key? ==> p[i].k != ""
  }

  /** A rule goes in when it has a principal and fits; with non-empty key names, only then. */
  lemma {:induction false} InsertOk(t: Trie, p: seq<Token>, r: Rule, strict: bool)
    requires KeysMarked(t, strict) && Malformed !in p
    requires strict ==> NoEmptyKey(p)
    ensures Insert(t, p, r).ok ==> !r.principal.NoPrincipal?
    ensures Fits(t, p) && !r.principal.NoPrincipal? ==> Insert(t, p, r).ok
    ensures strict && Insert(t, p, r).ok ==> Fits(t, p)
    decreases p
  {
    if p != [] {
      match p[0]
      case Name(n) => InsertOk(Child(t.nameNext, n), p[1..], r, strict); FitsEmpty(p[1..]);
      case Key(k, v) => InsertOk(Child(t.keyNext, v), p[1..], r, strict); FitsEmpty(p[1..]);
    }
  }

  lemma {:induction false} FitsEmpty(p: seq<Token>)
    requires Malformed !in p
    ensures Fits(EMPTY, p)
  {
  }

  function WithName(t: Trie, n: string, sub: Trie): Trie {
    t.(nameNext := t.nameNext[n := sub])
  }

  function WithKey(t: Trie, k: string, v: string, sub: Trie): Trie {
    t.(key := k, keyNext := t.keyNext[v := sub])
  }

  lemma {:induction false} FitsWithKey(t: Trie, k: string, v: string, sub: Trie, p: seq<Token>)
    requires p != [] && p[0].Key? && (t.keyNext == map[] || t.key == k)
    ensures Fits(WithKey(t, k, v, sub), p) <==>
            p[0].k == k && if p[0].v == v then Fits(sub, p[1..]) else Fits(t, p)
  {
    assert v in WithKey(t, k, v, sub).keyNext;
  }

  /** Lookups below a node depend on its children only. */
  lemma {:induction false} SameChildren(t: Trie, t': Trie, p: seq<Token>)
    requires t'.nameNext == t.nameNext && t'.keyNext == t.keyNext && t'.key == t.key
    ensures Fits(t', p) == Fits(t, p)
    ensures p != [] ==> NodeAt(t', p) == NodeAt(t, p)
  {
  }

  lemma {:induction false} AddedFits(t: Trie, r: Rule, text: string, p: seq<Token>)
    ensures Fits(AddLabelled(t, r, text).tree, p) == Fits(t, p)
  {
    SameChildren(t, AddLabelled(t, r, text).tree, p);
  }

  /** Inserting a rule blocks exactly the paths that are incompatible with it. */
  lemma {:induction false} InsertFits(t: Trie, p: seq<Token>, r: Rule, p': seq<Token>)
    requires KeysMarked(t, false) && Fits(t, p) && Malformed !in p && Malformed !in p'
    ensures Fits(Insert(t, p, r).tree, p') <==> Fits(t, p') && Compatible(p, p')
    decreases p, 1
  {
    if p != [] && p' != [] {
      if p[0].Name? { InsertFitsName(t, p, r, p'); } else { InsertFitsKey(t, p, r, p'); }
    } else if p == [] {
      AddedFits(t, r, PrintPath(r.path), p');
    }
  }

  lemma {:induction false} InsertFitsName(t: Trie, p: seq<Token>, r: Rule, p': seq<Token>)
    requires KeysMarked(t, false) && Fits(t, p) && Malformed !in p && Malformed !in p'
    requires p != [] && p' != [] && p[0].Name?
    ensures Fits(Insert(t, p, r).tree, p') <==> Fits(t, p') && Compatible(p, p')
    decreases p, 0
  {
    var sub := Insert(Child(t.nameNext, p[0].n), p[1..], r).tree;
    assert Insert(t, p, r).tree == WithName(t, p[0].n, sub);
    if p'[0] == p[0] {
      FitsEmpty(p[1..]);
      FitsEmpty(p'[1..]);
      InsertFits(Child(t.nameNext, p[0].n), p[1..], r, p'[1..]);
      assert Fits(WithName(t, p[0].n, sub), p') == Fits(sub, p'[1..]);
    }
  }

  lemma {:induction false} InsertFitsKey(t: Trie, p: seq<Token>, r: Rule, p': seq<Token>)
    requires KeysMarked(t, false) && Fits(t, p) && Malformed !in p && Malformed !in p'
    requires p != [] && p' != [] && p[0].Key?
    ensures Fits(Insert(t, p, r).tree, p') <==> Fits(t, p') && Compatible(p, p')
    decreases p, 0
  {
    var sub := Insert(Child(t.keyNext, p[0].v), p[1..], r).tree;
    assert Insert(t, p, r).tree == WithKey(t, p[0].k, p[0].v, sub);
    if p'[0].Key? {
      FitsWithKey(t, p[0].k, p[0].v, sub, p');
      if p'[0] == p[0] {
        FitsEmpty(p[1..]);
        FitsEmpty(p'[1..]);
        InsertFits(Child(t.keyNext, p[0].v), p[1..], r, p'[1..]);
      }
    }
  }

  datatype Content = Content(users: map<string, Permission>, groups: map<string, Permission>, rule: string)

  function ContentOf(t: Trie): Content { Content(t.users, t.groups, t.rule) }

  function ContentAt(t: Trie, p: seq<Token>): Content {
    if NodeAt(t, p).None? then Content(map[], map[], "") else ContentOf(NodeAt(t, p).value)
  }

  function AddTo(was: Content, r: Rule): Content {
    ContentOf(AddRule(EMPTY.(users := was.users, groups := was.groups, rule := was.rule), r).tree)
  }

  lemma {:induction false} ContentStep(t: Trie, p: seq<Token>)
    requires p != []
    ensures p[0].Name? ==> ContentAt(t, p) == ContentAt(Child(t.nameNext, p[0].n), p[1..])
    ensures p[0].Key? ==> ContentAt(t, p) == if p[0].k == t.key then ContentAt(Child(t.keyNext, p[0].v), p[1..])
                                             else Content(map[], map[], "")
    ensures p[0].Malformed? ==> ContentAt(t, p) == Content(map[], map[], "")
  {
    EmptyContent(p[1..]);
  }

  lemma {:induction false} AddedContent(t: Trie, r: Rule, text: string, p: seq<Token>)
    ensures ContentAt(AddLabelled(t, r, text).tree, p)
         == if p == [] then
              ContentOf(AddLabelled(EMPTY.(users := t.users, groups := t.groups, rule := t.rule), r, text).tree)
            else ContentAt(t, p)
  {
    SameChildren(t, AddLabelled(t, r, text).tree, p);
  }

  lemma {:induction false} AddRuleContent(t: Trie, r: Rule, p: seq<Token>)
    ensures ContentAt(AddRule(t, r).tree, p) == if p == [] then AddTo(ContentAt(t, []), r) else ContentAt(t, p)
  {
    AddedContent(t, r, PrintPath(r.path), p);
  }

  /** An insertion changes the rules stored at its own path and nowhere else. */
  lemma {:induction false} InsertContent(t: Trie, p: seq<Token>, r: Rule, p': seq<Token>)
    requires KeysMarked(t, false) && Fits(t, p) && Malformed !in p
    ensures ContentAt(Insert(t, p, r).tree, p') == if p' == p then AddTo(ContentAt(t, p), r) else ContentAt(t, p')
    decreases p, 1
  {
    if p != [] && p' != [] {
      if p[0].Name? { InsertContentName(t, p, r, p'); } else { InsertContentKey(t, p, r, p'); }
    } else if p == [] {
      AddRuleContent(t, r, p');
    } else {
      assert ContentOf(Insert(t, p, r).tree) == ContentOf(t);
    }
  }

  lemma {:induction false} InsertContentName(t: Trie, p: seq<Token>, r: Rule, p': seq<Token>)
    requires KeysMarked(t, false) && Fits(t, p) && Malformed !in p
    requires p != [] && p' != [] && p[0].Name?
    ensures ContentAt(Insert(t, p, r).tree, p') == if p' == p then AddTo(ContentAt(t, p), r) else ContentAt(t, p')
    decreases p, 0
  {
    assert p == [p[0]] + p[1..] && p' == [p'[0]] + p'[1..];
    var sub := Insert(Child(t.nameNext, p[0].n), p[1..], r).tree;
    assert Insert(t, p, r).tree == WithName(t, p[0].n, sub);
    ContentStep(t, p');
    ContentStep(WithName(t, p[0].n, sub), p');
    if p'[0] == p[0] {
      FitsEmpty(p[1..]);
      InsertContent(Child(t.nameNext, p[0].n), p[1..], r, p'[1..]);
    }
  }

  lemma {:induction false} InsertContentKey(t: Trie, p: seq<Token>, r: Rule, p': seq<Token>)
    requires KeysMarked(t, false) && Fits(t, p) && Malformed !in p
    requires p != [] && p' != [] && p[0].Key?
    ensures ContentAt(Insert(t, p, r).tree, p') == if p' == p then AddTo(ContentAt(t, p), r) else ContentAt(t, p')
    decreases p, 0
  {
    assert p == [p[0]] + p[1..] && p' == [p'[0]] + p'[1..];
    var sub := Insert(Child(t.keyNext, p[0].v), p[1..], r).tree;
    assert Insert(t, p, r).tree == WithKey(t, p[0].k, p[0].v, sub);
    ContentStep(t, p');
    ContentStep(WithKey(t, p[0].k, p[0].v, sub), p');
    EmptyContent(p'[1..]);
    if p'[0] == p[0] {
      FitsEmpty(p[1..]);
      InsertContent(Child(t.keyNext, p[0].v), p[1..], r, p'[1..]);
    }
  }

  lemma {:induction false} EmptyContent(p: seq<Token>)
    ensures ContentAt(EMPTY, p) == Content(map[], map[], "")
  {
  }

  // ----- acceptance of a whole rule list

  predicate HavePrincipals(rules: seq<Rule>) {
    forall r :: r in rules ==> !r.principal.NoPrincipal?
  }

  predicate PairwiseCompatible(rules: seq<Rule>) {
    forall i, j :: 0 <= i < j < |rules| ==> Compatible(Tokens(rules[i].path), Tokens(rules[j].path))
  }

  predicate KeyNamesGiven(rules: seq<Rule>) {
    forall r :: r in rules ==> NoEmptyKey(Tokens(r.path))
  }

  ghost predicate WellFormedRules(rules: seq<Rule>) {
    HavePrincipals(rules) && PairwiseCompatible(rules)
  }

  lemma {:induction false} CompatibleSymmetric(a: seq<Token>, b: seq<Token>)
    ensures Compatible(a, b) == Compatible(b, a)
    decreases a
  {
    if a != [] && b != [] {
      CompatibleSymmetric(a[1..], b[1..]);
    }
  }

  lemma {:induction false} BuildFits(rules: seq<Rule>)
    requires WellFormedRules(rules)
    ensures Build(rules).ok && KeysMarked(Build(rules).tree, false)
    ensures forall p :: Malformed !in p && (forall r :: r in rules ==> Compatible(Tokens(r.path), p))
                        ==> Fits(Build(rules).tree, p)
    decreases |rules|
  {
    if rules == [] {
      forall p | Malformed !in p ensures Fits(EMPTY, p) { FitsEmpty(p); }
    } else {
      var init, last := rules[..|rules| - 1], rules[|rules| - 1];
      BuildFits(init);
      var t, tl := Build(init).tree, Tokens(last.path);
      TokensAreFlat(last.path);
      assert forall r :: r in init ==> exists i :: 0 <= i < |rules| - 1 && rules[i] == r;
      assert Fits(t, tl);
      InsertOk(t, tl, last, false);
      InsertKeepsMarked(t, tl, last, false);
      forall p | Malformed !in p && (forall r :: r in rules ==> Compatible(Tokens(r.path), p))
        ensures Fits(Build(rules).tree, p)
      {
        assert forall r :: r in init ==> r in rules;
        InsertFits(t, tl, last, p);
      }
    }
  }

  /** With non-empty key names an accepted list has no two rules that disagree on a key name. */
  lemma {:induction false} AcceptedIsWellFormed(rules: seq<Rule>)
    requires KeyNamesGiven(rules) && Build(rules).ok
    ensures WellFormedRules(rules)
    ensures KeysMarked(Build(rules).tree, true)
    ensures forall p :: Malformed !in p && Fits(Build(rules).tree, p) ==>
                          forall r :: r in rules ==> Compatible(Tokens(r.path), p)
    decreases |rules|
  {
    if rules != [] {
      var init, last := rules[..|rules| - 1], rules[|rules| - 1];
      assert rules == init + [last];
      AcceptedIsWellFormed(init);
      var t, tl := Build(init).tree, Tokens(last.path);
      TokensAreFlat(last.path);
      InsertOk(t, tl, last, true);
      InsertKeepsMarked(t, tl, last, true);
      MarkedWeaken(t);
      forall i, j | 0 <= i < j < |rules| ensures Compatible(Tokens(rules[i].path), Tokens(rules[j].path)) {
        if j < |rules| - 1 {
          assert init[i] == rules[i] && init[j] == rules[j];
        } else {
          assert init[i] == rules[i];
        }
      }
      forall p | Malformed !in p && Fits(Build(rules).tree, p)
        ensures forall r :: r in rules ==> Compatible(Tokens(r.path), p)
      {
        InsertFits(t, tl, last, p);
      }
    }
  }

  lemma {:induction false} MarkedWeaken(t: Trie)
    requires KeysMarked(t, true)
    ensures KeysMarked(t, false)
  {
    forall n | n in t.nameNext ensures KeysMarked(t.nameNext[n], false) { MarkedWeaken(t.nameNext[n]); }
    forall v | v in t.keyNext ensures KeysMarked(t.keyNext[v], false) { MarkedWeaken(t.keyNext[v]); }
  }

  lemma {:induction false} WellFormedPermutes(xs: seq<Rule>, ys: seq<Rule>)
    requires multiset(xs) == multiset(ys) && WellFormedRules(xs)
    ensures WellFormedRules(ys)
  {
    forall r | r in ys ensures r in xs { assert r in multiset(ys); }
    forall i, j | 0 <= i < j < |ys| ensures Compatible(Tokens(ys[i].path), Tokens(ys[j].path)) {
      assert ys[i] in xs && ys[j] in xs;
      var a :| 0 <= a < |xs| && xs[a] == ys[i];
      var b :| 0 <= b < |xs| && xs[b] == ys[j];
      if a == b {
        CompatibleReflexive(Tokens(xs[a].path));
      } else {
        CompatibleSymmetric(Tokens(xs[a].path), Tokens(xs[b].path));
      }
    }
  }

  lemma {:induction false} CompatibleReflexive(a: seq<Token>)
    ensures Compatible(a, a)
  {
    if a != [] {
      CompatibleReflexive(a[1..]);
    }
  }

  /** Whether a policy with non-empty key names is accepted does not depend on the order of its rules. */
  lemma {:induction false} AcceptanceIgnoresOrder(xs: seq<Rule>, ys: seq<Rule>)
    requires multiset(xs) == multiset(ys) && KeyNamesGiven(xs)
    ensures Accepted(xs) == Accepted(ys)
  {
    assert |xs| == |multiset(xs)| == |multiset(ys)| == |ys|;
    forall r ensures r in xs <==> r in ys { assert r in multiset(xs) <==> r in multiset(ys); }
    if Accepted(xs) {
      AcceptedIsWellFormed(xs);
      WellFormedPermutes(xs, ys);
      BuildFits(ys);
    }
    if Accepted(ys) {
      AcceptedIsWellFormed(ys);
      WellFormedPermutes(ys, xs);
      BuildFits(xs);
    }
  }
}
