/** The authorizer as the program runs it: linked trie nodes that `InsertPath` changes in place, and the recursive
    `Authorize` walk with its loop over groups. */
module PathzAuthorizer {
  import opened SortedNames
  import opened PathzPolicy
  import opened PathzTrie

  datatype Result = Result(action: Action, ruleId: string, matchedRule: string)
  const NO_RESULT := Result(Unspecified, "", "")

  function UpdateResult(r: Result, p: Permission, mode: Mode, rule: string): Result {
    if r.action == Deny then r
    else if Access(p, mode).action == Unspecified then r
    else Result(Access(p, mode).action, Access(p, mode).ruleId, rule)
  }

  /** `r` is a verdict of the rules stored at node `n`: of the user rule when it gives one, else of some
      group rule for a group of the user. */
  predicate OwnResult(n: Trie, c: Query, r: Result) {
    && r.action == Own(n, c)
    && (r.action == Unspecified ==> r == NO_RESULT)
    && (r.action != Unspecified ==>
          && r.matchedRule == n.rule && r.matchedRule != ""
          && if UserAction(n, c).action != Unspecified then UserAction(n, c) == RuleAction(r.ruleId, r.action)
             else exists g :: g in n.groups && c.InGroup(g)
                              && Access(n.groups[g], c.mode) == RuleAction(r.ruleId, r.action))
  }

  /** `r` answers the request `q` as the walk over `t` does. */
  predicate Answers(t: Trie, q: seq<Token>, c: Query, r: Result) {
    match Walk(t, q, c)
    case None => r == NO_RESULT
    case Some(p) => NodeAt(t, p).Some? && r.action != Unspecified && OwnResult(NodeAt(t, p).value, c, r)
  }

  lemma {:induction false} InsertNameStep(t: Trie, r: Rule, i: nat, next: nat, keys: seq<string>)
    requires i < |r.path|
    requires if r.path[i].key == map[] then next == i + 1 && keys == []
             else next == i && keys == SortNames(r.path[i].key.Keys)
    ensures var n := r.path[i].name;
            var sub := Insert(Child(t.nameNext, n), Remaining(r.path, next, keys, 0), r);
            Insert(t, Remaining(r.path, i, [], 0), r) == Inserted(t.(nameNext := t.nameNext[n := sub.tree]), sub.ok)
  {
    var p := Remaining(r.path, i, [], 0);
    assert p[0] == Name(r.path[i].name) && p[1..] == Remaining(r.path, next, keys, 0);
  }

  lemma {:induction false} InsertKeyStep(t: Trie, r: Rule, i: nat, keys: seq<string>, j: nat, next: nat,
                                         keys': seq<string>, j': nat)
    requires i < |r.path| && j < |keys| && keys[j] in r.path[i].key && (t.key == "" || t.key == keys[j])
    requires if j + 1 == |keys| then next == i + 1 && keys' == [] && j' == 0
             else next == i && keys' == keys && j' == j + 1
    ensures var v := r.path[i].key[keys[j]];
            var sub := Insert(Child(t.keyNext, v), Remaining(r.path, next, keys', j'), r);
            Insert(t, Remaining(r.path, i, keys, j), r)
            == Inserted(t.(key := keys[j], keyNext := t.keyNext[v := sub.tree]), sub.ok)
  {
    var p := Remaining(r.path, i, keys, j);
    assert p[0] == Key(keys[j], r.path[i].key[keys[j]]) && p[1..] == Remaining(r.path, next, keys', j');
  }

  /** Which child of a node: below a key value, or below a name. */
  datatype Slot = Slot(keyed: bool, at: string)

  class Node {
    var users: map<string, Permission>
    var groups: map<string, Permission>
    var rule: string
    var nameNext: map<string, Node>
    var key: string
    var keyNext: map<string, Node>
    ghost var tree: Trie
    ghost var Repr: set<object>
    ghost var nameRepr: set<object>
    ghost var keyRepr: set<object>

    /** The node at `k` represents the trie `t` inside `repr`. */
    static ghost predicate Kid(n: Node, t: Trie, repr: set<object>)
      reads repr
      decreases repr, 1
    {
      n in repr && n.Repr <= repr && n.Valid() && n.tree == t
    }

    /** The nodes of `m`, with disjoint subtrees inside `repr`, represent the tries `tm`. */
    static ghost predicate Forest(m: map<string, Node>, tm: map<string, Trie>, repr: set<object>)
      reads repr
      decreases repr, 2
    {
      && m.Keys == tm.Keys
      && (forall k :: k in m ==> Kid(m[k], tm[k], repr))
      && (forall k, k' :: k in m && k' in m && k != k' ==> m[k].Repr !! m[k'].Repr)
    }

    ghost predicate Valid()
      reads this, Repr
      ensures Valid() ==> this in Repr
      decreases Repr, 0
    {
      && Repr == {this} + nameRepr + keyRepr
      && this !in nameRepr && this !in keyRepr && nameRepr !! keyRepr
      && users == tree.users && groups == tree.groups && rule == tree.rule && key == tree.key
      && (users != map[] || groups != map[] ==> rule != "")
      && Forest(nameNext, tree.nameNext, nameRepr)
      && Forest(keyNext, tree.keyNext, keyRepr)
    }

    ghost function Next(keyed: bool): map<string, Node>
      reads this
    {
      if keyed then keyNext else nameNext
    }

    ghost function Tries(keyed: bool): map<string, Trie>
      reads this
    {
      if keyed then tree.keyNext else tree.nameNext
    }

    ghost function Area(keyed: bool): set<object>
      reads this
    {
      if keyed then keyRepr else nameRepr
    }

    /** Only the child at `x` changed, growing by fresh objects: the others stay as they were. */
    twostate lemma {:induction false} ForestChanged(slot: Slot)
      requires old(Forest(Next(slot.keyed), Tries(slot.keyed), Area(slot.keyed)))
      requires Next(slot.keyed) == old(Next(slot.keyed)) && slot.at in Next(slot.keyed)
      requires Next(slot.keyed)[slot.at].Valid()
      requires fresh(Next(slot.keyed)[slot.at].Repr - old(Next(slot.keyed)[slot.at].Repr))
      requires unchanged(old(Area(slot.keyed) - Next(slot.keyed)[slot.at].Repr))
      ensures Forest(Next(slot.keyed), old(Tries(slot.keyed))[slot.at := Next(slot.keyed)[slot.at].tree],
                     old(Area(slot.keyed)) + Next(slot.keyed)[slot.at].Repr)
    {
      var x := slot.at;
      var m, tm, repr := Next(slot.keyed), old(Tries(slot.keyed)), old(Area(slot.keyed));
      var repr', tm' := repr + m[x].Repr, tm[x := m[x].tree];
      forall k | k in m ensures Kid(m[k], tm'[k], repr') && (k != x ==> m[k].Repr == old(m[k].Repr)) {
        assert old(Kid(m[k], tm[k], repr));
        if k != x {
          assert old(m[k].Repr !! m[x].Repr);
          assert old(m[k].Valid());
        }
      }
      forall k, k' | k in m && k' in m && k != k' ensures m[k].Repr !! m[k'].Repr {
        assert old(m[k].Repr !! m[k'].Repr);
        assert old(Kid(m[k], tm[k], repr)) && old(Kid(m[k'], tm[k'], repr));
      }
    }

    /** A fresh empty node is hung at `x`; the others did not change. */
    twostate lemma {:induction false} ForestAdded(slot: Slot)
      requires old(Forest(Next(slot.keyed), Tries(slot.keyed), Area(slot.keyed))) && slot.at !in old(Next(slot.keyed))
      requires slot.at in Next(slot.keyed)
      requires Next(slot.keyed) == old(Next(slot.keyed))[slot.at := Next(slot.keyed)[slot.at]]
      requires Next(slot.keyed)[slot.at].Valid() && fresh(Next(slot.keyed)[slot.at].Repr)
      requires Next(slot.keyed)[slot.at].tree == EMPTY
      requires unchanged(old(Area(slot.keyed)))
      ensures Forest(Next(slot.keyed), old(Tries(slot.keyed))[slot.at := EMPTY],
                     old(Area(slot.keyed)) + Next(slot.keyed)[slot.at].Repr)
    {
      var x := slot.at;
      var m, tm, repr := old(Next(slot.keyed)), old(Tries(slot.keyed)), old(Area(slot.keyed));
      var m', repr', tm' := Next(slot.keyed), repr + Next(slot.keyed)[x].Repr, tm[x := EMPTY];
      forall k | k in m' ensures Kid(m'[k], tm'[k], repr') && (k != x ==> m'[k].Repr == old(m[k].Repr)) {
        if k != x {
          assert old(Kid(m[k], tm[k], repr));
          assert old(m[k].Valid());
        }
      }
      forall k, k' | k in m' && k' in m' && k != k' ensures m'[k].Repr !! m'[k'].Repr {
        if k != x { assert old(Kid(m[k], tm[k], repr)); }
        if k' != x { assert old(Kid(m[k'], tm[k'], repr)); }
      }
    }

    static lemma {:induction false} KidOf(m: map<string, Node>, tm: map<string, Trie>, x: string, repr: set<object>)
      requires Forest(m, tm, repr) && x in m
      ensures x in tm && m[x] in repr && m[x].Valid() && m[x].Repr <= repr && m[x].tree == tm[x]
    {
      assert Kid(m[x], tm[x], repr);
    }

    constructor ()
      ensures Valid() && fresh(Repr) && tree == EMPTY
    {
      users, groups, rule, nameNext, key, keyNext := map[], map[], "", map[], "", map[];
      tree := EMPTY;
      Repr, nameRepr, keyRepr := {this}, {}, {};
    }

    /** Records what this node now represents. */
    ghost method Commit(t: Trie, nr: set<object>, kr: set<object>)
      requires this !in nr && this !in kr && nr !! kr
      requires users == t.users && groups == t.groups && rule == t.rule && key == t.key
      requires users != map[] || groups != map[] ==> rule != ""
      requires Forest(nameNext, t.nameNext, nr) && Forest(keyNext, t.keyNext, kr)
      modifies this`tree, this`Repr, this`nameRepr, this`keyRepr
      ensures Valid() && tree == t && Repr == {this} + nr + kr
    {
      tree, nameRepr, keyRepr, Repr := t, nr, kr, {this} + nr + kr;
      assert Forest(nameNext, t.nameNext, nr) && Forest(keyNext, t.keyNext, kr);
    }

    /** Inserts `r` below this node, from the cursor (nameIdx, keys, keyIdx) in its path. */
    method InsertPath(r: Rule, nameIdx: nat, keys: seq<string>, keyIdx: nat) returns (ok: bool)
      requires Valid()
      modifies Repr
      ensures Valid() && fresh(Repr - old(Repr))
      ensures Inserted(tree, ok) == Insert(old(tree), Remaining(r.path, nameIdx, keys, keyIdx), r)
      decreases |r.path| - nameIdx, if keys == [] then 1 else 0, if keyIdx < |keys| then |keys| - keyIdx else 0, 0
    {
      if nameIdx >= |r.path| {
        ok := StoreRule(r, PrintPath(r.path));
      } else if |keys| > 0 {
        if keyIdx >= |keys| || keys[keyIdx] !in r.path[nameIdx].key || (key != "" && key != keys[keyIdx]) {
          return false;
        }
        var nextNameIdx, nextKeys, nextKeyIdx := nameIdx, keys, keyIdx + 1;
        if nextKeyIdx == |keys| {
          nextNameIdx, nextKeys, nextKeyIdx := nameIdx + 1, [], 0;
        }
        InsertKeyStep(tree, r, nameIdx, keys, keyIdx, nextNameIdx, nextKeys, nextKeyIdx);
        ok := InsertBelowKey(r, keys[keyIdx], r.path[nameIdx].key[keys[keyIdx]], nextNameIdx, nextKeys, nextKeyIdx);
      } else {
        var nextNameIdx, nextKeys := nameIdx + 1, [];
        if r.path[nameIdx].key != map[] {
          nextNameIdx, nextKeys := nameIdx, SortNames(r.path[nameIdx].key.Keys);
          assert nextKeys != [];
        }
        InsertNameStep(tree, r, nameIdx, nextNameIdx, nextKeys);
        ok := InsertBelowName(r, r.path[nameIdx].name, nextNameIdx, nextKeys);
      }
    }

    /** Goes on in the child at `slot`; only that child changes. */
    method InsertBelow(slot: Slot, r: Rule, next: nat, keys: seq<string>, keyIdx: nat) returns (ok: bool)
      requires Valid() && slot.at in Next(slot.keyed)
      modifies Repr - {this}
      ensures var child := Next(slot.keyed)[slot.at];
              && slot.at in Tries(slot.keyed) && fresh(child.Repr - old(Repr))
              && this !in child.Repr && child.Repr !! Area(!slot.keyed)
              && Inserted(child.tree, ok)
                 == Insert(Tries(slot.keyed)[slot.at], Remaining(r.path, next, keys, keyIdx), r)
              && Forest(Next(slot.keyed), Tries(slot.keyed)[slot.at := child.tree], Area(slot.keyed) + child.Repr)
              && Forest(Next(!slot.keyed), Tries(!slot.keyed), Area(!slot.keyed))
      decreases |r.path| - next, if keys == [] then 1 else 0, if keyIdx < |keys| then |keys| - keyIdx else 0, 1
    {
      var child := if slot.keyed then keyNext[slot.at] else nameNext[slot.at];
      KidOf(Next(slot.keyed), Tries(slot.keyed), slot.at, Area(slot.keyed));
      ok := child.InsertPath(r, next, keys, keyIdx);
      ForestChanged(slot);
      assert Forest(Next(!slot.keyed), Tries(!slot.keyed), Area(!slot.keyed));
    }

    method InsertBelowName(r: Rule, name: string, next: nat, keys: seq<string>) returns (ok: bool)
      requires Valid()
      modifies Repr
      ensures Valid() && fresh(Repr - old(Repr))
      ensures var sub := Insert(Child(old(tree).nameNext, name), Remaining(r.path, next, keys, 0), r);
              ok == sub.ok && tree == old(tree).(nameNext := old(tree).nameNext[name := sub.tree])
      decreases |r.path| - next, if keys == [] then 1 else 0, |keys|, 2
    {
      ghost var t0 := tree;
      AddName(name);
      ok := InsertBelow(Slot(false, name), r, next, keys, 0);
      ghost var child := nameNext[name];
      assert tree.nameNext[name := child.tree] == t0.nameNext[name := child.tree];
      Commit(t0.(nameNext := t0.nameNext[name := child.tree]), nameRepr + child.Repr, keyRepr);
    }

    method InsertBelowKey(r: Rule, k: string, v: string, next: nat, keys: seq<string>, keyIdx: nat) returns (ok: bool)
      requires Valid()
      modifies Repr
      ensures Valid() && fresh(Repr - old(Repr))
      ensures var sub := Insert(Child(old(tree).keyNext, v), Remaining(r.path, next, keys, keyIdx), r);
              ok == sub.ok && tree == old(tree).(key := k, keyNext := old(tree).keyNext[v := sub.tree])
      decreases |r.path| - next, if keys == [] then 1 else 0, if keyIdx < |keys| then |keys| - keyIdx else 0, 2
    {
      ghost var t0 := tree;
      AddKey(k, v);
      ok := InsertBelow(Slot(true, v), r, next, keys, keyIdx);
      ghost var child := keyNext[v];
      assert tree.keyNext[v := child.tree] == t0.keyNext[v := child.tree];
      Commit(t0.(key := k, keyNext := t0.keyNext[v := child.tree]), nameRepr, keyRepr + child.Repr);
    }

    method AddName(name: string)
      requires Valid()
      modifies this
      ensures Valid() && fresh(Repr - old(Repr)) && old(Repr) <= Repr
      ensures name in nameNext
      ensures tree == old(tree).(nameNext := old(tree).nameNext[name := Child(old(tree).nameNext, name)])
    {
      if name !in nameNext {
        var n := new Node();
        nameNext := nameNext[name := n];
        ForestAdded(Slot(false, name));
        assert Forest(keyNext, tree.keyNext, keyRepr);
        Commit(tree.(nameNext := tree.nameNext[name := EMPTY]), nameRepr + n.Repr, keyRepr);
      } else {
        assert tree.nameNext[name := tree.nameNext[name]] == tree.nameNext;
      }
    }

    method AddKey(k: string, v: string)
      requires Valid()
      modifies this
      ensures Valid() && fresh(Repr - old(Repr)) && old(Repr) <= Repr
      ensures v in keyNext
      ensures tree == old(tree).(key := k, keyNext := old(tree).keyNext[v := Child(old(tree).keyNext, v)])
    {
      key := k;
      if v !in keyNext {
        var n := new Node();
        keyNext := keyNext[v := n];
        ForestAdded(Slot(true, v));
        assert Forest(nameNext, tree.nameNext, nameRepr);
        Commit(tree.(key := k, keyNext := tree.keyNext[v := EMPTY]), nameRepr, keyRepr + n.Repr);
      } else {
        assert tree.keyNext[v := tree.keyNext[v]] == tree.keyNext;
        Commit(tree.(key := k), nameRepr, keyRepr);
      }
    }

    method StoreRule(r: Rule, text: string) returns (ok: bool)
      requires Valid() && text != ""
      modifies this
      ensures Valid() && Repr == old(Repr)
      ensures Inserted(tree, ok) == AddLabelled(old(tree), r, text)
    {
      rule := text;
      match r.principal {
        case User(u) =>
          var p := UpdatePermission(PermOr(users, u), r.action, r.mode, r.id);
          users := users[u := p];
          ok := true;
        case Group(g) =>
          var p := UpdatePermission(PermOr(groups, g), r.action, r.mode, r.id);
          groups := groups[g := p];
          ok := true;
        case NoPrincipal =>
          ok := false;
      }
      Commit(tree.(users := users, groups := groups, rule := rule), nameRepr, keyRepr);
    }

    /** The verdict of this node's own rules; the groups are visited in any order. */
    method OwnVerdict(c: Query) returns (ret: Result)
      requires Valid()
      ensures OwnResult(tree, c, ret)
    {
      ret := NO_RESULT;
      if c.user in users {
        ret := UpdateResult(ret, users[c.user], c.mode, rule);
      }
      if ret.action == Unspecified || ret.matchedRule == "" {
        var todo := groups.Keys;
        ghost var seen := {};
        while todo != {}
          invariant seen + todo == groups.Keys
          invariant ret.action == Unspecified ==> ret == NO_RESULT
          invariant ret.action == Unspecified ==> !SeenGroup(tree, c, seen, Permit)
          invariant ret.action != Deny ==> !SeenGroup(tree, c, seen, Deny)
          invariant ret.action != Unspecified ==> ret.matchedRule == rule
          invariant ret.action != Unspecified ==>
                      exists g :: g in groups && c.InGroup(g)
                                  && Access(groups[g], c.mode) == RuleAction(ret.ruleId, ret.action)
        {
          var g :| g in todo;
          todo := todo - {g};
          SeenOneMore(tree, c, seen, g);
          seen := seen + {g};
          if g in c.groups && c.user in c.groups[g] {
            ret := UpdateResult(ret, groups[g], c.mode, rule);
            if ret.action == Deny && ret.matchedRule != "" {
              break;
            }
          }
        }
      }
    }

    /** The authorization walk below this node, from the cursor (nameIdx, keys, keyIdx) in the request path. */
    method Authorize(c: Query, path: Path, nameIdx: nat, keys: seq<string>, keyIdx: nat) returns (ret: Result)
      requires Valid()
      ensures Answers(tree, Remaining(path, nameIdx, keys, keyIdx), c, ret)
      decreases |path| - nameIdx, if keys == [] then 1 else 0, if keyIdx < |keys| then |keys| - keyIdx else 0, 0
    {
      ret := OwnVerdict(c);
      if nameIdx >= |path| {
        return;
      }
      if |keys| > 0 {
        if keyIdx >= |keys| || keys[keyIdx] != key || key !in path[nameIdx].key {
          return;
        }
        var nextNameIdx, nextKeys, nextKeyIdx := nameIdx, keys, keyIdx + 1;
        if nextKeyIdx == |keys| {
          nextNameIdx, nextKeys, nextKeyIdx := nameIdx + 1, [], 0;
        }
        RemainingKeyStep(path, nameIdx, keys, keyIdx, nextNameIdx, nextKeys, nextKeyIdx);
        ret := AuthorizeKey(c, path, path[nameIdx].key[key], nextNameIdx, nextKeys, nextKeyIdx, ret);
      } else {
        var name := path[nameIdx].name;
        var nextNameIdx, nextKeys := nameIdx + 1, [];
        if path[nameIdx].key != map[] {
          nextNameIdx, nextKeys := nameIdx, SortNames(path[nameIdx].key.Keys);
          assert nextKeys != [];
        }
        RemainingNameStep(path, nameIdx, nextNameIdx, nextKeys);
        ret := AuthorizeName(c, path, name, nextNameIdx, nextKeys, ret);
      }
    }

    method AuthorizeName(c: Query, path: Path, name: string, next: nat, keys: seq<string>, own: Result)
      returns (ret: Result)
      requires Valid() && OwnResult(tree, c, own)
      ensures Answers(tree, [Name(name)] + Remaining(path, next, keys, 0), c, ret)
      decreases |path| - next, if keys == [] then 1 else 0, |keys|, 1
    {
      ghost var q := [Name(name)] + Remaining(path, next, keys, 0);
      assert q[1..] == Remaining(path, next, keys, 0);
      if name in nameNext {
        KidOf(nameNext, tree.nameNext, name, nameRepr);
        var r := nameNext[name].Authorize(c, path, next, keys, 0);
        if r.action != Unspecified && r.matchedRule != "" {
          return r;
        }
      }
      return own;
    }

    method AuthorizeKey(c: Query, path: Path, value: string, next: nat, keys: seq<string>, keyIdx: nat, own: Result)
      returns (ret: Result)
      requires Valid() && OwnResult(tree, c, own)
      ensures Answers(tree, [Key(key, value)] + Remaining(path, next, keys, keyIdx), c, ret)
      decreases |path| - next, if keys == [] then 1 else 0, if keyIdx < |keys| then |keys| - keyIdx else 0, 1
    {
      ghost var q := [Key(key, value)] + Remaining(path, next, keys, keyIdx);
      assert q[1..] == Remaining(path, next, keys, keyIdx);
      if value in keyNext {
        KidOf(keyNext, tree.keyNext, value, keyRepr);
        var r := keyNext[value].Authorize(c, path, next, keys, keyIdx);
        if r.action != Unspecified && r.matchedRule != "" {
          return r;
        }
      }
      if WILDCARD in keyNext {
        KidOf(keyNext, tree.keyNext, WILDCARD, keyRepr);
        var r := keyNext[WILDCARD].Authorize(c, path, next, keys, keyIdx);
        if r.action != Unspecified && r.matchedRule != "" {
          return r;
        }
      }
      return own;
    }
  }

  /** Among the groups in `seen`, one that the user is in has action `a` at node `t`. */
  ghost predicate SeenGroup(t: Trie, c: Query, seen: set<string>, a: Action) {
    exists g :: g in seen && g in t.groups && c.InGroup(g) && Access(t.groups[g], c.mode).action == a
  }

  lemma {:induction false} SeenOneMore(t: Trie, c: Query, seen: set<string>, g: string)
    requires g in t.groups
    ensures forall a :: SeenGroup(t, c, seen + {g}, a) <==>
                        SeenGroup(t, c, seen, a) || (c.InGroup(g) && Access(t.groups[g], c.mode).action == a)
  {
    forall a ensures SeenGroup(t, c, seen + {g}, a) <==>
                     SeenGroup(t, c, seen, a) || (c.InGroup(g) && Access(t.groups[g], c.mode).action == a)
    {
      if c.InGroup(g) && Access(t.groups[g], c.mode).action == a {
        assert g in seen + {g};
      }
    }
  }

  lemma {:induction false} RemainingNameStep(path: Path, i: nat, next: nat, keys: seq<string>)
    requires i < |path|
    requires if path[i].key == map[] then next == i + 1 && keys == []
             else next == i && keys == SortNames(path[i].key.Keys)
    ensures Remaining(path, i, [], 0) == [Name(path[i].name)] + Remaining(path, next, keys, 0)
  {
  }

  lemma {:induction false} RemainingKeyStep(path: Path, i: nat, keys: seq<string>, j: nat, next: nat,
                                            keys': seq<string>, j': nat)
    requires i < |path| && j < |keys| && keys[j] in path[i].key
    requires if j + 1 == |keys| then next == i + 1 && keys' == [] && j' == 0
             else next == i && keys' == keys && j' == j + 1
    ensures Remaining(path, i, keys, j) == [Key(keys[j], path[i].key[keys[j]])] + Remaining(path, next, keys', j')
  {
  }
}
