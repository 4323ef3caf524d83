/** The registry of super-subscriptions as an object that its calls change in place. Each call that meets no other
    client is a run of steps of the protocol. */
module SuperSubscriptions {
  import opened Options
  import opened SuperSubscription

  // ----- what an uncontended call does, and the steps it consists of

  predicate MayJoin(s: State, c: Client, id: SubId) {
    && c in s.clients && s.clients[c].stage == Start && s.mutex == None
    && (forall i :: i in s.subs ==> s.subs[i].lock == None)
    && if exists i :: i in s.registered && i in s.subs && s.subs[i].request == s.clients[c].request
       then id in s.registered && id in s.subs && s.subs[id].request == s.clients[c].request
       else id !in s.subs && id !in s.registered
  }

  function AfterJoin(s: State, c: Client, id: SubId): State
    requires c in s.clients
  {
    var sub := if id in s.subs then s.subs[id] else NewSub(s.clients[c].request);
    SetSub(SetClient(s, c, s.clients[c].(stage := Populating, sub := Some(id))), id, WithMember(sub, c))
    .(registered := s.registered + {id})
  }

  lemma {:induction false} JoinIsRun(s: State, c: Client, id: SubId) returns (locked: State)
    requires MayJoin(s, c, id)
    ensures JoinLock(s, c, id, locked) && JoinAdd(locked, c, AfterJoin(s, c, id))
  {
    var base := if id in s.subs then s else SetSub(s, id, NewSub(s.clients[c].request));
    locked := SetClient(base, c, s.clients[c].(stage := Joining(id)));
    locked := locked.(mutex := Some(c), registered := s.registered + {id});
    var after := AfterJoin(s, c, id);
    assert after.clients == locked.clients[c := after.clients[c]];
    assert after.subs == locked.subs[id := after.subs[id]];
    assert id in s.registered ==> s.registered + {id} == s.registered;
  }

  predicate MayPopulate(s: State, c: Client) {
    InSub(s, c) && s.clients[c].stage == Populating && SubOf(s, c).lock == None
  }

  /** `made` are the tickers made when there were none. */
  function AfterPopulate(s: State, c: Client, made: Tickers): State
    requires InSub(s, c)
  {
    var (cs, sub) := (s.clients[c], SubOf(s, c));
    if sub.tickers == map[] then
      SetSub(SetClient(s, c, cs.(stage := Check, tickers := made)), cs.sub.value, sub.(tickers := made))
      .(made := s.made + made.Values)
    else if Accepts(sub.tickers, cs.intervals) then
      SetClient(s, c, cs.(stage := Check, tickers := TickersFor(sub.tickers, cs.intervals)))
    else
      SetClient(s, c, cs.(stage := Leaving))
  }

  lemma {:induction false} PopulateIsRun(s: State, c: Client, made: Tickers) returns (locked: State)
    requires MayPopulate(s, c)
    requires SubOf(s, c).tickers == map[] ==> NewTickers(made, s.clients[c].intervals, s.made)
    ensures SubLock(s, c, locked)
    ensures || PopMake(locked, c, made, AfterPopulate(s, c, made))
            || PopReuse(locked, c, AfterPopulate(s, c, made))
            || PopRefuse(locked, c, AfterPopulate(s, c, made))
  {
    var cs, sub, after := s.clients[c], SubOf(s, c), AfterPopulate(s, c, made);
    locked := SetSub(SetClient(s, c, cs.(stage := PopHeld)), cs.sub.value, sub.(lock := Some(c)));
    assert after.clients == locked.clients[c := after.clients[c]];
    assert after.subs == locked.subs[cs.sub.value := after.subs[cs.sub.value]];
    if sub.tickers == map[] {
      assert PopMake(locked, c, made, after);
    } else if Accepts(sub.tickers, cs.intervals) {
      assert PopReuse(locked, c, after);
    } else {
      assert PopRefuse(locked, c, after);
    }
  }

  /** The members other than the primary client have an empty wake-up channel. */
  predicate MayLeave(s: State, c: Client) {
    && InSub(s, c) && s.clients[c].stage == Leaving && s.mutex == None && SubOf(s, c).lock == None
    && forall m :: m in SubOf(s, c).members && SubOf(s, c).primary != Some(m) ==> m in s.clients && !s.clients[m].wake
  }

  lemma {:induction false} LeavingMayLeave(s: State, c: Client)
    requires Inv(s) && c in s.clients && s.clients[c].stage == Leaving && s.mutex == None
    requires forall id :: id in s.subs ==> s.subs[id].lock == None
    ensures MayLeave(s, c)
  {
    assert ClientOk(s, c) && SubOk(s, s.clients[c].sub.value);
    forall m | m in SubOf(s, c).members && SubOf(s, c).primary != Some(m) ensures m in s.clients && !s.clients[m].wake {
      assert ClientOk(s, m);
    }
  }

  predicate Heir(s: State, c: Client, heir: Client)
    requires InSub(s, c)
  {
    SubOf(s, c).members - {c} != {} && SubOf(s, c).primary == Some(c) ==> heir in SubOf(s, c).members - {c}
  }

  function AfterLeave(s: State, c: Client, heir: Client): State
    requires MayLeave(s, c) && Heir(s, c, heir)
  {
    var (cs, id) := (s.clients[c].(stage := Done), s.clients[c].sub.value);
    var sub := SubOf(s, c).(members := SubOf(s, c).members - {c});
    if sub.members == {} then
      SetSub(SetClient(s, c, cs), id, sub).(registered := s.registered - {id},
      stopped := s.stopped + sub.tickers.Values)
    else if sub.primary == Some(c) then
      SetSub(SetClient(SetClient(s, heir, s.clients[heir].(wake := true)), c, cs), id, sub.(primary := Some(heir)))
    else
      SetSub(SetClient(s, c, cs), id, sub)
  }

  lemma {:induction false} LeaveIsRun(s: State, c: Client, heir: Client) returns (entered: State, locked: State,
                                                                                  promoted: State)
    requires MayLeave(s, c) && Heir(s, c, heir)
    ensures LeaveLock(s, c, entered) && SubLock(entered, c, locked)
    ensures || LeaveLast(locked, c, AfterLeave(s, c, heir))
            || LeaveSecondary(locked, c, AfterLeave(s, c, heir))
            || (LeavePromote(locked, c, heir, promoted) && Send(promoted, c, AfterLeave(s, c, heir)))
  {
    var cs, id, sub, after := s.clients[c], s.clients[c].sub.value, SubOf(s, c), AfterLeave(s, c, heir);
    entered := SetClient(s, c, cs.(stage := LeavingSub)).(mutex := Some(c));
    locked := SetSub(SetClient(s, c, cs.(stage := LeaveHeld)), id, sub.(lock := Some(c))).(mutex := Some(c));
    assert locked.clients == entered.clients[c := locked.clients[c]];
    promoted := SetSub(SetClient(locked, c, cs.(stage := Sending(heir))), id,
                       sub.(members := sub.members - {c}, primary := Some(heir), lock := Some(c)));
    assert after.subs == locked.subs[id := after.subs[id]] == promoted.subs[id := after.subs[id]];
    if sub.members - {c} != {} && sub.primary == Some(c) {
      assert after.clients == promoted.clients[heir := after.clients[heir]][c := after.clients[c]];
    } else {
      assert after.clients == locked.clients[c := after.clients[c]];
    }
  }

  class Registry {
    var clients: map<Client, ClientState>
    var subs: map<SubId, Sub>
    var registered: set<SubId>
    var nextId: SubId
    var nextTicker: Ticker
    ghost var made: set<Ticker>
    ghost var stopped: set<Ticker>

    /** The registry between calls: no lock is held. */
    ghost function View(): State
      reads this
    {
      State(clients, subs, registered, None, made, stopped)
    }

    ghost predicate Counted()
      reads this
    {
      && (forall id :: id in subs ==> id < nextId && subs[id].lock == None)
      && (forall t :: t in made ==> t < nextTicker)
    }

    method FindSuperSubscription(request: Request) returns (found: Option<SubId>)
      requires registered <= subs.Keys
      ensures found.Some? ==> found.value in registered && subs[found.value].request == request
      ensures found.None? ==> forall id :: id in registered ==> subs[id].request != request
    {
      var todo := registered;
      while todo != {}
        invariant todo <= registered
        invariant forall id :: id in registered - todo ==> subs[id].request != request
      {
        var id :| id in todo;
        if subs[id].request == request {
          return Some(id);
        }
        todo := todo - {id};
      }
      return None;
    }

    method CreateSuperSubscription(request: Request) returns (id: SubId)
      requires Counted()
      modifies `subs, `registered, `nextId
      ensures id !in old(subs) && subs == old(subs)[id := NewSub(request)] && registered == old(registered) + {id}
      ensures Counted()
    {
      id := nextId;
      nextId := nextId + 1;
      subs := subs[id := NewSub(request)];
      registered := registered + {id};
    }

    /** Joins the super-subscription of the client's request, made if there is none. */
    method AddClient(c: Client) returns (id: SubId)
      requires Counted() && registered <= subs.Keys && c in clients && clients[c].stage == Start
      modifies `clients, `subs, `registered, `nextId
      ensures Counted() && MayJoin(old(View()), c, id) && View() == AfterJoin(old(View()), c, id)
    {
      var found := FindSuperSubscription(clients[c].request);
      if found.Some? {
        id := found.value;
      } else {
        id := CreateSuperSubscription(clients[c].request);
      }
      var sub := subs[id];
      sub := sub.(members := sub.members + {c});
      if sub.primary.None? {
        sub := sub.(primary := Some(c));
      }
      clients := clients[c := clients[c].(stage := Populating, sub := Some(id))];
      subs := subs[id := sub];
    }

    method MakeTickers(intervals: set<Interval>) returns (ts: Tickers)
      requires forall t :: t in made ==> t < nextTicker
      modifies `nextTicker
      ensures NewTickers(ts, intervals, made)
      ensures forall t :: t in made + ts.Values ==> t < nextTicker
    {
      ts := map[];
      var todo := intervals;
      while todo != {}
        invariant todo <= intervals && ts.Keys == intervals - todo
        invariant forall i :: i in ts ==> ts[i] !in made && ts[i] < nextTicker
        invariant (forall t :: t in made ==> t < nextTicker) && OneEach(ts)
      {
        var interval :| interval in todo;
        ts := ts[interval := nextTicker];
        nextTicker := nextTicker + 1;
        todo := todo - {interval};
      }
    }

    /** The shared tickers of the intervals, unless one is missing. */
    method ShareTickers(existing: Tickers, intervals: set<Interval>) returns (ok: bool, ts: Tickers)
      ensures ok <==> |existing| == |intervals| && intervals <= existing.Keys
      ensures ok ==> ts == TickersFor(existing, intervals)
    {
      ts := map[];
      if |existing| != |intervals| {
        return false, ts;
      }
      var todo := intervals;
      while todo != {}
        invariant todo <= intervals && intervals - todo <= existing.Keys
        invariant ts == map i | i in intervals && i !in todo :: existing[i]
      {
        var interval :| interval in todo;
        if interval !in existing {
          return false, ts;
        }
        ts := ts[interval := existing[interval]];
        todo := todo - {interval};
      }
      return true, ts;
    }

    method StoreTickers(c: Client, ts: Tickers)
      requires MayPopulate(View(), c) && (forall t :: t in made + ts.Values ==> t < nextTicker)
      requires forall id :: id in subs ==> id < nextId && subs[id].lock == None
      modifies `clients, `subs, `made
      ensures Counted()
      ensures var (s, cs) := (old(View()), old(clients[c]));
              View() == SetSub(SetClient(s, c, cs.(stage := Check, tickers := ts)), cs.sub.value,
                               SubOf(s, c).(tickers := ts)).(made := s.made + ts.Values)
    {
      var cs := clients[c];
      clients := clients[c := cs.(stage := Check, tickers := ts)];
      subs := subs[cs.sub.value := subs[cs.sub.value].(tickers := ts)];
      made := made + ts.Values;
    }

    method PopulateTickers(c: Client) returns (ok: bool, ghost ts: Tickers)
      requires Counted() && MayPopulate(View(), c)
      modifies `clients, `subs, `nextTicker, `made
      ensures Counted() && View() == AfterPopulate(old(View()), c, ts)
      ensures ok <==> Accepts(SubOf(old(View()), c).tickers, old(clients[c].intervals))
      ensures SubOf(old(View()), c).tickers == map[] ==> NewTickers(ts, old(clients[c].intervals), old(made))
    {
      var cs := clients[c];
      var id := cs.sub.value;
      var sub := subs[id];
      ts := map[];
      if |sub.tickers| == 0 {
        var fresh' := MakeTickers(cs.intervals);
        ts := fresh';
        StoreTickers(c, fresh');
        return true, ts;
      }
      var fits, shared := ShareTickers(sub.tickers, cs.intervals);
      if !fits {
        clients := clients[c := cs.(stage := Leaving)];
        return false, ts;
      }
      clients := clients[c := cs.(stage := Check, tickers := shared)];
      return true, ts;
    }

    /** Leaves: the last client ends the super-subscription, a leaving primary client names and wakes another. */
    method LeaveSuperSubscription(c: Client) returns (heir: Client)
      requires Counted() && MayLeave(View(), c)
      modifies `clients, `subs, `registered, `stopped
      ensures Counted() && Heir(old(View()), c, heir) && View() == AfterLeave(old(View()), c, heir)
    {
      heir := c;
      var id := clients[c].sub.value;
      var sub := subs[id].(members := subs[id].members - {c});
      if sub.members == {} {
        registered := registered - {id};
        stopped := stopped + sub.tickers.Values;
      } else if sub.primary == Some(c) {
        heir :| heir in sub.members;
        sub := sub.(primary := Some(heir));
        clients := clients[heir := clients[heir].(wake := true)];
      }
      clients := clients[c := clients[c].(stage := Done)];
      subs := subs[id := sub];
    }
  }
}
