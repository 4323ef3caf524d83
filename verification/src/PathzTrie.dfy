/** The rule trie of the authorizer on values: insertion of a rule, and the authorization walk with the stored path it
    finds. */
module PathzTrie {
  import opened Options
  import opened PathzPolicy

  datatype Trie = Trie(users: map<string, Permission>, groups: map<string, Permission>, rule: string,
                       nameNext: map<string, Trie>, key: string, keyNext: map<string, Trie>)

  const EMPTY := Trie(map[], map[], "", map[], "", map[])

  datatype Inserted = Inserted(tree: Trie, ok: bool)

  // ----- insertion

  function PermOr(m: map<string, Permission>, k: string): Permission {
    if k in m then m[k] else NO_PERMISSION
  }

  function AddRule(t: Trie, r: Rule): Inserted { AddLabelled(t, r, PrintPath(r.path)) }

  function AddLabelled(t: Trie, r: Rule, text: string): Inserted {
    var t1 := t.(rule := text);
    match r.principal
    case User(u) =>
      Inserted(t1.(users := t.users[u := UpdatePermission(PermOr(t.users, u), r.action, r.mode, r.id)]), true)
    case Group(g) =>
      Inserted(t1.(groups := t.groups[g := UpdatePermission(PermOr(t.groups, g), r.action, r.mode, r.id)]), true)
    case NoPrincipal => Inserted(t1, false)
  }

  function Child(m: map<string, Trie>, k: string): Trie {
    if k in m then m[k] else EMPTY
  }

  /** `insertPath` on the tokens that are left; on failure the nodes made so far stay. */
  function Insert(t: Trie, p: seq<Token>, r: Rule): Inserted
    decreases p
  {
    if p == [] then AddRule(t, r) else
    match p[0]
    case Name(n) =>
      var sub := Insert(Child(t.nameNext, n), p[1..], r);
      Inserted(t.(nameNext := t.nameNext[n := sub.tree]), sub.ok)
    case Key(k, v) =>
      if t.key != "" && t.key != k then Inserted(t, false) else
      var sub := Insert(Child(t.keyNext, v), p[1..], r);
      Inserted(t.(key := k, keyNext := t.keyNext[v := sub.tree]), sub.ok)
    case Malformed => Inserted(t, false)
  }

  /** `createPolicies` after the check for an empty list: rules are inserted in order until one fails. */
  function Build(rules: seq<Rule>): Inserted {
    if rules == [] then Inserted(EMPTY, true) else
    var b := Build(rules[..|rules| - 1]);
    if !b.ok then b else Insert(b.tree, Tokens(rules[|rules| - 1].path), rules[|rules| - 1])
  }

  predicate Accepted(rules: seq<Rule>) { rules != [] && Build(rules).ok }

  // ----- the walk

  function UserAction(t: Trie, c: Query): RuleAction {
    if c.user in t.users then Access(t.users[c.user], c.mode) else NO_ACTION
  }

  predicate GroupHas(t: Trie, c: Query, a: Action) {
    exists g :: g in t.groups && c.InGroup(g) && Access(t.groups[g], c.mode).action == a
  }

  function GroupAction(t: Trie, c: Query): Action {
    if GroupHas(t, c, Deny) then Deny else if GroupHas(t, c, Permit) then Permit else Unspecified
  }

  /** The verdict of the rules stored at one node. */
  function Own(t: Trie, c: Query): Action {
    if UserAction(t, c).action != Unspecified then UserAction(t, c).action else GroupAction(t, c)
  }

  function OwnPath(t: Trie, c: Query): Option<seq<Token>> {
    if Own(t, c) != Unspecified then Some([]) else None
  }

  function WalkChild(m: map<string, Trie>, k: string, step: Token, q: seq<Token>, c: Query): Option<seq<Token>>
    decreases q, 2
  {
    if k !in m then None else
    match Walk(m[k], q, c)
    case None => None
    case Some(p) => Some([step] + p)
  }

  /** `authorize`: the stored path whose rules decide the request `q`, if any.
      Exact key first, then the wildcard, then the rules of the node itself. */
  function Walk(t: Trie, q: seq<Token>, c: Query): Option<seq<Token>>
    decreases q, 1
  {
    if q == [] then OwnPath(t, c) else
    match q[0]
    case Name(n) =>
      var w := WalkChild(t.nameNext, n, q[0], q[1..], c);
      if w.Some? then w else OwnPath(t, c)
    case Key(k, v) =>
      if k != t.key then OwnPath(t, c) else
      var w := WalkChild(t.keyNext, v, q[0], q[1..], c);
      if w.Some? then w else
      var w' := WalkChild(t.keyNext, WILDCARD, Key(k, WILDCARD), q[1..], c);
      if w'.Some? then w' else OwnPath(t, c)
    case Malformed => OwnPath(t, c)
  }

  function NodeAt(t: Trie, p: seq<Token>): Option<Trie>
    decreases p
  {
    if p == [] then Some(t) else
    match p[0]
    case Name(n) => if n in t.nameNext then NodeAt(t.nameNext[n], p[1..]) else None
    case Key(k, v) => if k == t.key && v in t.keyNext then NodeAt(t.keyNext[v], p[1..]) else None
    case Malformed => None
  }

  /** Verdict of the rules stored exactly at path `p` of the trie. */
  function VerdictAt(t: Trie, p: seq<Token>, c: Query): Action {
    var n := NodeAt(t, p);
    if n.None? then Unspecified else Own(n.value, c)
  }

  function WalkAction(t: Trie, q: seq<Token>, c: Query): Action {
    var w := Walk(t, q, c);
    if w.None? then Unspecified else VerdictAt(t, w.value, c)
  }

  // ----- the walk finds the best stored path

  ghost predicate Stored(t: Trie, q: seq<Token>, c: Query, p: seq<Token>) {
    Matches(p, q) && VerdictAt(t, p, c) != Unspecified
  }

  lemma {:induction false} BeatsUnderStep(s: Token, p: seq<Token>, r: seq<Token>, q: seq<Token>)
    requires q != [] && Beats(p, r, q[1..])
    ensures Beats([s] + p, [s] + r, q)
  {
    var i: nat :| BeatsAt(p, r, q[1..], i);
    assert ([s] + p)[..i + 1] == [s] + p[..i] == [s] + r[..i] == ([s] + r)[..i + 1];
    assert BeatsAt([s] + p, [s] + r, q, i + 1);
  }

  lemma {:induction false} MatchesStep(p: seq<Token>, q: seq<Token>)
    requires p != [] && q != []
    ensures Matches(p, q) <==> TokenMatches(p[0], q[0]) && Matches(p[1..], q[1..])
  {
    if TokenMatches(p[0], q[0]) && Matches(p[1..], q[1..]) {
      forall i | 0 <= i < |p| ensures TokenMatches(p[i], q[i]) {
        if i > 0 { assert TokenMatches(p[1..][i - 1], q[1..][i - 1]); }
      }
    }
    if Matches(p, q) {
      forall i | 0 <= i < |p| - 1 ensures TokenMatches(p[1..][i], q[1..][i]) {
        assert TokenMatches(p[i + 1], q[i + 1]);
      }
    }
  }

  /** The winner of one subtree is a stored path and beats every other stored path of the same subtree. */
  ghost predicate BestVia(t: Trie, q: seq<Token>, c: Query, w: Option<seq<Token>>, step: Token) {
    && (w.Some? ==> w.value != [] && w.value[0] == step && Stored(t, q, c, w.value))
    && forall r :: Stored(t, q, c, r) && r != [] && r[0] == step ==>
                     w.Some? && (r != w.value ==> Beats(w.value, r, q))
  }

  ghost predicate BestOf(t: Trie, q: seq<Token>, c: Query, w: Option<seq<Token>>) {
    && (w.Some? ==> Stored(t, q, c, w.value))
    && forall r :: Stored(t, q, c, r) ==> w.Some? && (r != w.value ==> Beats(w.value, r, q))
  }

  lemma {:induction false} ChildBest(t: Trie, m: map<string, Trie>, k: string, step: Token, q: seq<Token>, c: Query)
    requires q != [] && TokenMatches(step, q[0])
    requires (step == Name(k) && m == t.nameNext) || (step == Key(t.key, k) && m == t.keyNext)
    ensures BestVia(t, q, c, WalkChild(m, k, step, q[1..], c), step)
    decreases q, 0
  {
    var w := WalkChild(m, k, step, q[1..], c);
    if k in m {
      WalkBest(m[k], q[1..], c);
      if w.Some? {
        assert w.value[1..] == Walk(m[k], q[1..], c).value;
        MatchesStep(w.value, q);
      }
    }
    forall r | Stored(t, q, c, r) && r != [] && r[0] == step
      ensures w.Some? && (r != w.value ==> Beats(w.value, r, q))
    {
      MatchesStep(r, q);
      assert k in m && Stored(m[k], q[1..], c, r[1..]);
      assert r == [step] + r[1..] && w.value == [step] + w.value[1..];
      if r != w.value {
        BeatsUnderStep(step, w.value[1..], r[1..], q);
      }
    }
  }

  lemma {:induction false} BeatsByStep(p: seq<Token>, r: seq<Token>, q: seq<Token>)
    requires p != [] && q != [] && (r == [] || (p[0] != r[0] && p[0] == q[0]))
    ensures Beats(p, r, q)
  {
    assert BeatsAt(p, r, q, 0);
  }

  /** The walk returns the best of all stored matching paths, and fails only when there is none. */
  lemma {:induction false} WalkBest(t: Trie, q: seq<Token>, c: Query)
    ensures BestOf(t, q, c, Walk(t, q, c))
    decreases q, 1
  {
    var w := Walk(t, q, c);
    assert NodeAt(t, []) == Some(t) && Matches([], q);
    if q != [] {
      match q[0]
      case Name(n) =>
        ChildBest(t, t.nameNext, n, q[0], q, c);
        forall r | Stored(t, q, c, r) ensures w.Some? && (r != w.value ==> Beats(w.value, r, q)) {
          if r != [] {
            MatchesStep(r, q);
          } else if w.Some? && w.value != [] {
            BeatsByStep(w.value, r, q);
          }
        }
      case Key(k, v) =>
        WalkBestKey(t, q, c);
      case Malformed =>
        forall r | Stored(t, q, c, r) ensures r == [] {
          if r != [] { MatchesStep(r, q); }
        }
    }
  }

  lemma {:induction false} WalkBestKey(t: Trie, q: seq<Token>, c: Query)
    requires q != [] && q[0].Key?
    ensures BestOf(t, q, c, Walk(t, q, c))
    decreases q, 1, 0
  {
    var w := Walk(t, q, c);
    assert NodeAt(t, []) == Some(t) && Matches([], q);
    var wild := Key(q[0].k, WILDCARD);
    if q[0].k == t.key {
      ChildBest(t, t.keyNext, q[0].v, q[0], q, c);
      ChildBest(t, t.keyNext, WILDCARD, wild, q, c);
    }
    forall r | Stored(t, q, c, r) ensures w.Some? && (r != w.value ==> Beats(w.value, r, q)) {
      if r != [] {
        MatchesStep(r, q);
        assert r[0] == q[0] || r[0] == wild;
        if r[0] == wild != q[0] && w.Some? && w.value != [] && w.value[0] == q[0] {
          BeatsByStep(w.value, r, q);
        }
      } else if w.Some? && w.value != [] {
        BeatsByStepOrStop(w.value, q);
      }
    }
  }

  lemma {:induction false} BeatsByStepOrStop(p: seq<Token>, q: seq<Token>)
    requires p != [] && q != []
    ensures Beats(p, [], q)
  {
    assert BeatsAt(p, [], q, 0);
  }

  // ----- what a built trie stores

  /** Along `p`, no node already indexes a different key name. */
  predicate Fits(t: Trie, p: seq<Token>)
    decreases p
  {
    p == [] ||
    match p[0]
    case Name(n) => n in t.nameNext ==> Fits(t.nameNext[n], p[1..])
    case Key(k, v) => t.keyNext == map[] || (t.key == k && (v in t.keyNext ==> Fits(t.keyNext[v], p[1..])))
    case Malformed => false
  }

  /** Two rule paths never ask for different key names at the same place. */
  predicate Compatible(a: seq<Token>, b: seq<Token>)
    decreases a
  {
    a == [] || b == [] ||
    if a[0].Key? && b[0].Key? then a[0].k == b[0].k && (a[0] == b[0] ==> Compatible(a[1..], b[1..]))
    else a[0] == b[0] ==> Compatible(a[1..], b[1..])
  }

  /** A node without key children records no key name; under `strict` a node with key children records one. */
  predicate KeysMarked(t: Trie, strict: bool) {
    && (t.keyNext == map[] ==> t.key == "")
    && (strict && t.keyNext != map[] ==> t.key != "")
    && (forall n :: n in t.nameNext ==> KeysMarked(t.nameNext[n], strict))
    && (forall v :: v in t.keyNext ==> KeysMarked(t.keyNext[v], strict))
  }
}
