/** Policies, permissions and paths of the gNMI path authorizer, and the
    declarative meaning of a policy: the verdict of the best matching rule. */
module PathzPolicy {
  import opened SortedNames

  const WILDCARD := "*"

  datatype Action = Unspecified | Permit | Deny
  datatype Mode = ModeUnspecified | Read | Write | OtherMode
  datatype Principal = User(name: string) | Group(name: string) | NoPrincipal
  datatype PathElem = PathElem(name: string, key: map<string, string>)
  type Path = seq<PathElem>
  datatype Rule = Rule(id: string, path: Path, principal: Principal, mode: Mode, action: Action)
  datatype GroupDef = GroupDef(name: string, users: seq<string>)
  datatype Policy = Policy(rules: seq<Rule>, groups: seq<GroupDef>)

  datatype RuleAction = RuleAction(ruleId: string, action: Action)
  datatype Permission = Permission(read: RuleAction, write: RuleAction)
  const NO_ACTION := RuleAction("", Unspecified)
  const NO_PERMISSION := Permission(NO_ACTION, NO_ACTION)

  type Groups = map<string, set<string>>

  /** Who asks for what: the parts of a request that stay fixed during a walk. */
  datatype Query = Query(user: string, mode: Mode, groups: Groups) {
    predicate InGroup(g: string) { g in groups && user in groups[g] }
    predicate Covers(p: Principal) {
      match p
      case User(u) => u == user
      case Group(g) => InGroup(g)
      case NoPrincipal => false
    }
  }

  function Access(p: Permission, mode: Mode): RuleAction {
    match mode
    case Read => p.read
    case Write => p.write
    case _ => NO_ACTION
  }

  function UpdateRuleAction(r: RuleAction, a: Action, id: string): RuleAction {
    if r.action == Deny then r else RuleAction(id, a)
  }

  function UpdatePermission(p: Permission, a: Action, m: Mode, id: string): Permission {
    if a == Unspecified then p else
    match m
    case Read => p.(read := UpdateRuleAction(p.read, a, id))
    case Write => p.(write := UpdateRuleAction(p.write, a, id))
    case _ => p
  }

  // ----- paths as token sequences

  /** One lookup step of a path. `Malformed` stands for a key that the element does not carry. */
  datatype Token = Name(n: string) | Key(k: string, v: string) | Malformed

  /** What is left of `path` at element `nameIdx`, inside its key list at `keyIdx` when `keys` is not empty. */
  function Remaining(path: Path, nameIdx: nat, keys: seq<string>, keyIdx: nat): seq<Token>
    decreases |path| - nameIdx, if keys == [] then 1 else 0, |keys| - keyIdx
  {
    if nameIdx >= |path| then []
    else if keys != [] then
      if keyIdx >= |keys| || keys[keyIdx] !in path[nameIdx].key then [Malformed]
      else [Key(keys[keyIdx], path[nameIdx].key[keys[keyIdx]])] +
           (if keyIdx + 1 == |keys| then Remaining(path, nameIdx + 1, [], 0)
            else Remaining(path, nameIdx, keys, keyIdx + 1))
    else [Name(path[nameIdx].name)] +
         (if path[nameIdx].key == map[] then Remaining(path, nameIdx + 1, [], 0)
          else Remaining(path, nameIdx, SortNames(path[nameIdx].key.Keys), 0))
  }

  function Tokens(path: Path): seq<Token> { Remaining(path, 0, [], 0) }

  /** The declarative reading of `Remaining`: the name of an element, then its keys in ascending order. */
  function KeyTokens(key: map<string, string>, names: seq<string>): (s: seq<Token>)
    requires forall k :: k in names ==> k in key
    ensures Malformed !in s
  {
    if names == [] then [] else [Key(names[0], key[names[0]])] + KeyTokens(key, names[1..])
  }

  function ElemTokens(e: PathElem): seq<Token> {
    [Name(e.name)] + KeyTokens(e.key, SortNames(e.key.Keys))
  }

  function FlatTokens(path: Path): (s: seq<Token>)
    ensures Malformed !in s
  {
    if path == [] then [] else ElemTokens(path[0]) + FlatTokens(path[1..])
  }

  lemma {:induction false} KeyRemaining(path: Path, nameIdx: nat, keys: seq<string>, keyIdx: nat)
    requires nameIdx < |path| && keyIdx < |keys| && keys[keyIdx] in path[nameIdx].key
    ensures var rest := if keyIdx + 1 == |keys| then Remaining(path, nameIdx + 1, [], 0)
                        else Remaining(path, nameIdx, keys, keyIdx + 1);
            Remaining(path, nameIdx, keys, keyIdx) == [Key(keys[keyIdx], path[nameIdx].key[keys[keyIdx]])] + rest
  {
  }

  lemma {:induction false} KeysRemaining(path: Path, nameIdx: nat, keys: seq<string>, keyIdx: nat)
    requires nameIdx < |path| && keyIdx < |keys|
    requires forall k :: k in keys ==> k in path[nameIdx].key
    ensures Remaining(path, nameIdx, keys, keyIdx)
         == KeyTokens(path[nameIdx].key, keys[keyIdx..]) + Remaining(path, nameIdx + 1, [], 0)
    decreases |keys| - keyIdx
  {
    KeyRemaining(path, nameIdx, keys, keyIdx);
    assert keys[keyIdx..][1..] == keys[keyIdx + 1..];
    if keyIdx + 1 < |keys| {
      KeysRemaining(path, nameIdx, keys, keyIdx + 1);
    } else {
      assert KeyTokens(path[nameIdx].key, keys[keyIdx + 1..]) == [];
    }
  }

  lemma {:induction false} RemainingIsFlat(path: Path, nameIdx: nat)
    requires nameIdx <= |path|
    ensures Remaining(path, nameIdx, [], 0) == FlatTokens(path[nameIdx..])
    decreases |path| - nameIdx
  {
    if nameIdx < |path| {
      var e := path[nameIdx];
      RemainingIsFlat(path, nameIdx + 1);
      assert path[nameIdx..][1..] == path[nameIdx + 1..];
      var names := SortNames(e.key.Keys);
      if e.key == map[] {
        assert names == [];
        assert KeyTokens(e.key, names) == [];
      } else {
        assert e.key.Keys != {};
        KeysRemaining(path, nameIdx, names, 0);
        assert names[0..] == names;
      }
    }
  }

  /** The cursor the authorizer moves over a path yields exactly the sorted flattening of the path. */
  lemma {:induction false} TokensAreFlat(path: Path)
    ensures Tokens(path) == FlatTokens(path)
  {
    RemainingIsFlat(path, 0);
    assert path[0..] == path;
  }

  function PrintKeys(key: map<string, string>, names: seq<string>): string
    requires forall k :: k in names ==> k in key
  {
    if names == [] then "" else
    "[" + names[0] + "=" + key[names[0]] + "]" + PrintKeys(key, names[1..])
  }

  function PrintElems(path: Path): string {
    if path == [] then "" else
    "/" + path[0].name + PrintKeys(path[0].key, SortNames(path[0].key.Keys)) + PrintElems(path[1..])
  }

  function PrintPath(path: Path): (s: string)
    ensures s != ""
  {
    if PrintElems(path) == "" then "/" else PrintElems(path)
  }

  // ----- the declarative meaning of a policy

  /** Some rule at token path `p` for this principal and mode has action `a`. */
  ghost predicate Says(rules: seq<Rule>, p: seq<Token>, who: Principal, mode: Mode, a: Action) {
    exists r :: r in rules && Tokens(r.path) == p && r.principal == who && r.mode == mode && r.action == a
  }

  ghost predicate GroupsSay(rules: seq<Rule>, p: seq<Token>, c: Query, a: Action) {
    exists g :: c.InGroup(g) && Says(rules, p, Group(g), c.mode, a)
  }

  /** Verdict of the rules written for exactly the path `p`: user rules precede group rules, deny beats permit. */
  ghost function FlatVerdict(rules: seq<Rule>, p: seq<Token>, c: Query): Action {
    if c.mode != Read && c.mode != Write then Unspecified
    else if Says(rules, p, User(c.user), c.mode, Deny) then Deny
    else if Says(rules, p, User(c.user), c.mode, Permit) then Permit
    else if GroupsSay(rules, p, c, Deny) then Deny
    else if GroupsSay(rules, p, c, Permit) then Permit
    else Unspecified
  }

  predicate TokenMatches(p: Token, q: Token) {
    p == q || (p.Key? && q.Key? && p.k == q.k && p.v == WILDCARD)
  }

  predicate Matches(p: seq<Token>, q: seq<Token>) {
    |p| <= |q| && forall i :: 0 <= i < |p| ==> TokenMatches(p[i], q[i])
  }

  /** `p` is preferred to `r` for request `q`: at the first difference `p` goes on where `r` stops,
      or `p` has the exact token of the request. */
  ghost predicate Beats(p: seq<Token>, r: seq<Token>, q: seq<Token>) {
    exists i: nat :: BeatsAt(p, r, q, i)
  }

  predicate BeatsAt(p: seq<Token>, r: seq<Token>, q: seq<Token>, i: nat) {
    i < |p| && i <= |r| && i < |q| && p[..i] == r[..i] && (i == |r| || (p[i] != r[i] && p[i] == q[i]))
  }

  ghost predicate Candidate(rules: seq<Rule>, q: seq<Token>, c: Query, p: seq<Token>) {
    Matches(p, q) && FlatVerdict(rules, p, c) != Unspecified
  }

  ghost predicate IsBest(rules: seq<Rule>, q: seq<Token>, c: Query, p: seq<Token>) {
    Candidate(rules, q, c, p) && forall r :: Candidate(rules, q, c, r) && r != p ==> Beats(p, r, q)
  }

  ghost predicate IsDecision(rules: seq<Rule>, q: seq<Token>, c: Query, a: Action) {
    if a == Unspecified then forall p :: !Candidate(rules, q, c, p)
    else exists p :: IsBest(rules, q, c, p) && FlatVerdict(rules, p, c) == a
  }

  lemma {:induction false} BeatsAsymmetric(p: seq<Token>, r: seq<Token>, q: seq<Token>)
    requires Beats(p, r, q)
    ensures !Beats(r, p, q)
  {
    var i: nat :| BeatsAt(p, r, q, i);
    forall j: nat ensures !BeatsAt(r, p, q, j) {
      if i <= j < |r| && j <= |p| {
        assert p[..j] == r[..j] ==> p[i] == r[i] || i == j;
      }
    }
  }

  /** The declarative decision is unique. */
  lemma {:induction false} DecisionUnique(rules: seq<Rule>, q: seq<Token>, c: Query, a: Action, b: Action)
    requires IsDecision(rules, q, c, a) && IsDecision(rules, q, c, b)
    ensures a == b
  {
    if a != Unspecified && b != Unspecified {
      var p :| IsBest(rules, q, c, p) && FlatVerdict(rules, p, c) == a;
      var r :| IsBest(rules, q, c, r) && FlatVerdict(rules, r, c) == b;
      if p != r {
        BeatsAsymmetric(p, r, q);
      }
    }
  }

  /** Rules that are the same up to order (or repetition) mean the same. */
  lemma {:induction false} DecisionDependsOnRuleSet(xs: seq<Rule>, ys: seq<Rule>, q: seq<Token>, c: Query, a: Action)
    requires forall r :: r in xs <==> r in ys
    requires IsDecision(xs, q, c, a)
    ensures IsDecision(ys, q, c, a)
  {
    forall p ensures FlatVerdict(xs, p, c) == FlatVerdict(ys, p, c) {
      forall who, m, b ensures Says(xs, p, who, m, b) == Says(ys, p, who, m, b) {}
    }
    forall p ensures Candidate(xs, q, c, p) == Candidate(ys, q, c, p) {}
    if a != Unspecified {
      var p :| IsBest(xs, q, c, p) && FlatVerdict(xs, p, c) == a;
      assert IsBest(ys, q, c, p);
    }
  }
}
