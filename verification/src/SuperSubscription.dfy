/** Streaming clients with equal requests share one super-subscription. The protocol is a state machine: each step
    is one client's move, taken only when the lock or channel it waits for lets it. */
module SuperSubscription {
  import opened Options

  type Client = nat
  type SubId = nat
  type Ticker = nat
  type Interval = nat
  type Request = string
  type Tickers = map<Interval, Ticker>

  /** Where a client is in its stream. */
  datatype Stage =
    | Start                    // not yet in a super-subscription
    | Joining(id: SubId)       // holds the global lock, has found or made `id`
    | Populating               // joined, wants the lock of its super-subscription
    | PopHeld                  // populates its tickers under that lock
    | Check                    // asks whether it is the primary client
    | Select                   // waits to be woken or closed
    | Sampling                 // listens to the tickers
    | Leaving                  // wants the global lock
    | LeavingSub               // holds it, wants the lock of its super-subscription
    | LeaveHeld                // holds both
    | Sending(heir: Client)    // holds both, sends the wake-up to the new primary client
    | Done

  datatype ClientState = ClientState(request: Request, intervals: set<Interval>, stage: Stage, sub: Option<SubId>,
                                     wake: bool, tickers: Tickers)
  datatype Sub = Sub(request: Request, members: set<Client>, primary: Option<Client>, tickers: Tickers,
                     lock: Option<Client>)
  datatype State = State(clients: map<Client, ClientState>, subs: map<SubId, Sub>, registered: set<SubId>,
                         mutex: Option<Client>, made: set<Ticker>, stopped: set<Ticker>)

  // ----- effects shared with the imperative form

  function NewSub(req: Request): Sub {
    Sub(req, {}, None, map[], None)
  }

  function WithMember(sub: Sub, c: Client): Sub {
    sub.(members := sub.members + {c}, primary := if sub.primary.None? then Some(c) else sub.primary)
  }

  /** Existing tickers are taken over only when they are for the same intervals. */
  predicate Accepts(existing: Tickers, intervals: set<Interval>) {
    existing == map[] || (|existing| == |intervals| && intervals <= existing.Keys)
  }

  /** Different intervals have different tickers. */
  predicate OneEach(ts: Tickers) {
    forall i, j :: i in ts && j in ts && i != j ==> ts[i] != ts[j]
  }

  /** New tickers, one for each interval. */
  predicate NewTickers(ts: Tickers, intervals: set<Interval>, made: set<Ticker>) {
    ts.Keys == intervals && ts.Values !! made && OneEach(ts)
  }

  function TickersFor(existing: Tickers, intervals: set<Interval>): Tickers {
    map i | i in intervals && i in existing :: existing[i]
  }

  // ----- steps

  function SetClient(s: State, c: Client, cs: ClientState): State {
    s.(clients := s.clients[c := cs])
  }

  function SetSub(s: State, id: SubId, sub: Sub): State {
    s.(subs := s.subs[id := sub])
  }

  predicate JoinLock(s: State, c: Client, id: SubId, s': State) {
    && c in s.clients && s.clients[c].stage == Start && s.mutex == None
    && var cs := s.clients[c];
    && s'.mutex == Some(c) && s'.clients == s.clients[c := cs.(stage := Joining(id))]
    && s'.made == s.made && s'.stopped == s.stopped
    && if exists i :: i in s.registered && i in s.subs && s.subs[i].request == cs.request then
         && id in s.registered && id in s.subs && s.subs[id].request == cs.request
         && s'.subs == s.subs && s'.registered == s.registered
       else
         && id !in s.subs && id !in s.registered
         && s'.subs == s.subs[id := NewSub(cs.request)] && s'.registered == s.registered + {id}
  }

  predicate JoinAdd(s: State, c: Client, s': State) {
    && c in s.clients && s.clients[c].stage.Joining?
    && var (cs, id) := (s.clients[c], s.clients[c].stage.id);
    && id in s.subs && s.subs[id].lock == None
    && s' == SetSub(SetClient(s, c, cs.(stage := Populating, sub := Some(id))), id, WithMember(s.subs[id], c))
             .(mutex := None)
  }

  predicate InSub(s: State, c: Client) {
    c in s.clients && s.clients[c].sub.Some? && s.clients[c].sub.value in s.subs
  }

  function SubOf(s: State, c: Client): Sub
    requires InSub(s, c)
  {
    s.subs[s.clients[c].sub.value]
  }

  /** Takes the lock of the super-subscription, to populate or to leave. */
  predicate SubLock(s: State, c: Client, s': State) {
    && InSub(s, c) && (s.clients[c].stage == Populating || s.clients[c].stage == LeavingSub) && SubOf(s, c).lock == None
    && var held := if s.clients[c].stage == Populating then PopHeld else LeaveHeld;
    s' == SetSub(SetClient(s, c, s.clients[c].(stage := held)), s.clients[c].sub.value,
                 SubOf(s, c).(lock := Some(c)))
  }

  predicate Populates(s: State, c: Client) {
    InSub(s, c) && s.clients[c].stage == PopHeld
  }

  /** The first to populate makes the tickers. */
  predicate PopMake(s: State, c: Client, ts: Tickers, s': State) {
    && Populates(s, c)
    && var (cs, sub) := (s.clients[c], SubOf(s, c));
    && sub.tickers == map[] && NewTickers(ts, cs.intervals, s.made)
    && s' == SetSub(SetClient(s, c, cs.(stage := Check, tickers := ts)), cs.sub.value,
                    sub.(tickers := ts, lock := None)).(made := s.made + ts.Values)
  }

  predicate PopReuse(s: State, c: Client, s': State) {
    && Populates(s, c)
    && var (cs, sub) := (s.clients[c], SubOf(s, c));
    && sub.tickers != map[] && Accepts(sub.tickers, cs.intervals)
    && s' == SetSub(SetClient(s, c, cs.(stage := Check, tickers := TickersFor(sub.tickers, cs.intervals))),
                    cs.sub.value, sub.(lock := None))
  }

  predicate PopRefuse(s: State, c: Client, s': State) {
    && Populates(s, c)
    && var (cs, sub) := (s.clients[c], SubOf(s, c));
    && !Accepts(sub.tickers, cs.intervals)
    && s' == SetSub(SetClient(s, c, cs.(stage := Leaving)), cs.sub.value, sub.(lock := None))
  }

  predicate CheckPrimary(s: State, c: Client, s': State) {
    && InSub(s, c) && s.clients[c].stage == Check && SubOf(s, c).lock == None
    && s' == SetClient(s, c, s.clients[c].(stage := if SubOf(s, c).primary == Some(c) then Sampling else Select))
  }

  predicate Wake(s: State, c: Client, s': State) {
    && c in s.clients && s.clients[c].stage == Select && s.clients[c].wake
    && s' == SetClient(s, c, s.clients[c].(stage := Check, wake := false))
  }

  predicate Close(s: State, c: Client, s': State) {
    && c in s.clients && (s.clients[c].stage == Select || s.clients[c].stage == Sampling)
    && s' == SetClient(s, c, s.clients[c].(stage := Leaving))
  }

  predicate LeaveLock(s: State, c: Client, s': State) {
    && c in s.clients && s.clients[c].stage == Leaving && s.mutex == None
    && s' == SetClient(s, c, s.clients[c].(stage := LeavingSub)).(mutex := Some(c))
  }

  predicate Leaves(s: State, c: Client) {
    InSub(s, c) && s.clients[c].stage == LeaveHeld
  }

  predicate LeaveLast(s: State, c: Client, s': State) {
    && Leaves(s, c)
    && var (cs, sub, id) := (s.clients[c], SubOf(s, c), s.clients[c].sub.value);
    && sub.members - {c} == {}
    && s' == SetSub(SetClient(s, c, cs.(stage := Done)), id, sub.(members := {}, lock := None))
             .(mutex := None, registered := s.registered - {id}, stopped := s.stopped + sub.tickers.Values)
  }

  predicate LeavePromote(s: State, c: Client, heir: Client, s': State) {
    && Leaves(s, c)
    && var (cs, sub) := (s.clients[c], SubOf(s, c));
    && sub.primary == Some(c) && heir in sub.members - {c}
    && s' == SetSub(SetClient(s, c, cs.(stage := Sending(heir))), cs.sub.value,
                    sub.(members := sub.members - {c}, primary := Some(heir)))
  }

  predicate LeaveSecondary(s: State, c: Client, s': State) {
    && Leaves(s, c)
    && var (cs, sub) := (s.clients[c], SubOf(s, c));
    && sub.primary != Some(c) && sub.members - {c} != {}
    && s' == SetSub(SetClient(s, c, cs.(stage := Done)), cs.sub.value,
                    sub.(members := sub.members - {c}, lock := None)).(mutex := None)
  }

  predicate Send(s: State, c: Client, s': State) {
    && InSub(s, c) && s.clients[c].stage.Sending?
    && var (cs, sub, id, heir) := (s.clients[c], SubOf(s, c), s.clients[c].sub.value, s.clients[c].stage.heir);
    && heir in s.clients && heir != c && !s.clients[heir].wake
    && s' == SetSub(SetClient(SetClient(s, heir, s.clients[heir].(wake := true)), c, cs.(stage := Done)), id,
                    sub.(lock := None)).(mutex := None)
  }

  ghost predicate Step(s: State, c: Client, s': State) {
    || (exists id :: JoinLock(s, c, id, s'))
    || JoinAdd(s, c, s')
    || SubLock(s, c, s')
    || (exists ts :: PopMake(s, c, ts, s'))
    || PopReuse(s, c, s')
    || PopRefuse(s, c, s')
    || CheckPrimary(s, c, s')
    || Wake(s, c, s')
    || Close(s, c, s')
    || LeaveLock(s, c, s')
    || LeaveLast(s, c, s')
    || (exists heir :: LeavePromote(s, c, heir, s'))
    || LeaveSecondary(s, c, s')
    || Send(s, c, s')
  }

  ghost predicate Initial(s: State) {
    && s.subs == map[] && s.registered == {} && s.mutex == None && s.made == {} && s.stopped == {}
    && forall c :: c in s.clients ==>
                     s.clients[c].stage == Start && s.clients[c].sub == None && !s.clients[c].wake
  }

  ghost predicate Run(run: seq<State>, movers: seq<Client>) {
    && |run| == |movers| + 1 && Initial(run[0])
    && forall i :: 0 <= i < |movers| ==> Step(run[i], movers[i], run[i + 1])
  }

  // ----- what every step keeps

  predicate Joined(t: Stage) {
    !t.Start? && !t.Joining? && !t.Sending? && !t.Done?
  }

  predicate HoldsMutex(t: Stage) {
    t.Joining? || t == LeavingSub || t == LeaveHeld || t.Sending?
  }

  predicate HoldsSub(t: Stage) {
    t == PopHeld || t == LeaveHeld || t.Sending?
  }

  predicate Populated(t: Stage) {
    t == Check || t == Select || t == Sampling
  }

  /** `c` is a member of the registered super-subscription for its request. */
  ghost predicate Belongs(s: State, c: Client) {
    && InSub(s, c) && s.clients[c].sub.value in s.registered
    && c in SubOf(s, c).members && SubOf(s, c).request == s.clients[c].request
  }

  ghost predicate WakeOnItsWay(s: State, c: Client) {
    s.mutex.Some? && s.mutex.value in s.clients && s.clients[s.mutex.value].stage == Sending(c)
  }

  ghost predicate Ready(s: State, c: Client)
    requires c in s.clients
  {
    s.clients[c].wake || WakeOnItsWay(s, c)
  }

  ghost predicate ClientOk(s: State, c: Client)
    requires c in s.clients
  {
    var cs := s.clients[c];
    && (s.mutex == Some(c) <==> HoldsMutex(cs.stage))
    && (cs.stage == Start || cs.stage.Joining? ==> cs.sub == None && !cs.wake)
    && (cs.stage.Joining? ==> cs.stage.id in s.registered && cs.stage.id in s.subs
                              && s.subs[cs.stage.id].request == cs.request)
    && (Joined(cs.stage) ==> Belongs(s, c))
    && (HoldsSub(cs.stage) ==> InSub(s, c) && SubOf(s, c).lock == Some(c))
    && (cs.wake && Joined(cs.stage) ==> InSub(s, c) && SubOf(s, c).primary == Some(c))
    && (cs.stage == Select && Belongs(s, c) && SubOf(s, c).primary == Some(c) ==> Ready(s, c))
    && (cs.stage == Sampling ==> Belongs(s, c) && SubOf(s, c).primary == Some(c))
    && (cs.stage.Sending? ==> HeirOk(s, c))
    && (Populated(cs.stage) ==> Belongs(s, c) && Shares(cs, SubOf(s, c)))
  }

  ghost predicate HeirOk(s: State, c: Client)
    requires c in s.clients && s.clients[c].stage.Sending?
  {
    var h := s.clients[c].stage.heir;
    && h in s.clients && h != c && !s.clients[h].wake && Joined(s.clients[h].stage)
    && InSub(s, c) && s.clients[h].sub == s.clients[c].sub && s.clients[c].sub.value in s.registered
    && SubOf(s, c).primary == Some(h)
  }

  /** A populated client has a ticker for each of its intervals, the ones of its super-subscription. */
  predicate Shares(cs: ClientState, sub: Sub) {
    cs.tickers.Keys == cs.intervals && (cs.tickers == map[] || cs.tickers == sub.tickers)
  }

  ghost predicate SubOk(s: State, id: SubId)
    requires id in s.subs
  {
    var sub := s.subs[id];
    && (forall c :: c in sub.members ==> c in s.clients && s.clients[c].sub == Some(id) && Joined(s.clients[c].stage))
    && (sub.lock.Some? ==> var d := sub.lock.value;
                           d in s.clients && s.clients[d].sub == Some(id) && HoldsSub(s.clients[d].stage))
    && (id !in s.registered ==> sub.members == {})
    && (id in s.registered && sub.members != {} ==> sub.primary.Some? && sub.primary.value in sub.members)
    && (id in s.registered && sub.members == {} ==>
          && sub.primary == None && sub.tickers == map[]
          && s.mutex.Some? && s.mutex.value in s.clients && s.clients[s.mutex.value].stage == Joining(id))
    && sub.tickers.Values <= s.made && OneEach(sub.tickers)
    && (id in s.registered ==> sub.tickers.Values !! s.stopped)
  }

  ghost predicate Distinct(s: State, i: SubId, j: SubId)
    requires i in s.subs && j in s.subs
  {
    && s.subs[i].tickers.Values !! s.subs[j].tickers.Values
    && (i in s.registered && j in s.registered ==> s.subs[i].request != s.subs[j].request)
  }

  ghost predicate Inv(s: State) {
    && s.registered <= s.subs.Keys && s.stopped <= s.made && (s.mutex.Some? ==> s.mutex.value in s.clients)
    && (forall c :: c in s.clients ==> ClientOk(s, c))
    && (forall id :: id in s.subs ==> SubOk(s, id))
    && (forall i, j :: i in s.subs && j in s.subs && i != j ==> Distinct(s, i, j))
  }

  lemma {:induction false} SameSize(a: Tickers, b: set<Interval>)
    requires Accepts(a, b) && a != map[]
    ensures b == a.Keys
  {
    assert a.Keys == b + (a.Keys - b);
    assert |a.Keys| == |b| + |a.Keys - b|;
  }

  /** A client is refused exactly when there are tickers and not for the same intervals. */
  lemma {:induction false} RefusedIff(s: State, c: Client)
    requires Populates(s, c)
    ensures (exists s' :: PopRefuse(s, c, s')) <==>
            SubOf(s, c).tickers != map[] && SubOf(s, c).tickers.Keys != s.clients[c].intervals
  {
    var cs, sub := s.clients[c], SubOf(s, c);
    if Accepts(sub.tickers, cs.intervals) && sub.tickers != map[] {
      SameSize(sub.tickers, cs.intervals);
    }
    if sub.tickers.Keys == cs.intervals {
      assert |sub.tickers| == |sub.tickers.Keys|;
    }
    if !Accepts(sub.tickers, cs.intervals) {
      assert PopRefuse(s, c, SetSub(SetClient(s, c, cs.(stage := Leaving)), cs.sub.value, sub.(lock := None)));
    }
  }

  lemma {:induction false} JoinLockClient(s: State, c: Client, id: SubId, s': State, d: Client)
    requires JoinLock(s, c, id, s') && d in s.clients && ClientOk(s, c) && ClientOk(s, d)
    ensures ClientOk(s', d)
  {
  }

  lemma {:induction false} JoinLockSub(s: State, c: Client, id: SubId, s': State, i: SubId)
    requires JoinLock(s, c, id, s') && ClientOk(s, c) && i in s'.subs && (i in s.subs ==> SubOk(s, i))
    ensures SubOk(s', i)
  {
  }

  lemma {:induction false} JoinLockKeeps(s: State, c: Client, id: SubId, s': State)
    requires Inv(s) && JoinLock(s, c, id, s')
    ensures Inv(s')
  {
    forall d | d in s'.clients ensures ClientOk(s', d) { JoinLockClient(s, c, id, s', d); }
    forall i | i in s'.subs ensures SubOk(s', i) { JoinLockSub(s, c, id, s', i); }
    forall i, j | i in s'.subs && j in s'.subs && i != j ensures Distinct(s', i, j) {
      assert i in s.subs && j in s.subs ==> Distinct(s, i, j);
    }
  }

  lemma {:induction false} JoinAddClient(s: State, c: Client, s': State, d: Client)
    requires JoinAdd(s, c, s') && d in s.clients && ClientOk(s, c) && ClientOk(s, d)
    ensures ClientOk(s', d)
  {
  }

  lemma {:induction false} JoinAddSub(s: State, c: Client, s': State, i: SubId)
    requires JoinAdd(s, c, s') && ClientOk(s, c) && i in s.subs && SubOk(s, i)
    ensures SubOk(s', i)
  {
  }

  lemma {:induction false} JoinAddKeeps(s: State, c: Client, s': State)
    requires Inv(s) && JoinAdd(s, c, s')
    ensures Inv(s')
  {
    forall d | d in s'.clients ensures ClientOk(s', d) { JoinAddClient(s, c, s', d); }
    forall i | i in s'.subs ensures SubOk(s', i) { JoinAddSub(s, c, s', i); }
    forall i, j | i in s'.subs && j in s'.subs && i != j ensures Distinct(s', i, j) {
      assert i in s.subs && j in s.subs ==> Distinct(s, i, j);
    }
  }

  lemma {:induction false} SubLockClient(s: State, c: Client, s': State, d: Client)
    requires SubLock(s, c, s') && d in s.clients && ClientOk(s, c) && ClientOk(s, d)
    ensures ClientOk(s', d)
  {
  }

  lemma {:induction false} SubLockSub(s: State, c: Client, s': State, i: SubId)
    requires SubLock(s, c, s') && ClientOk(s, c) && i in s.subs && SubOk(s, i)
    ensures SubOk(s', i)
  {
  }

  lemma {:induction false} SubLockKeeps(s: State, c: Client, s': State)
    requires Inv(s) && SubLock(s, c, s')
    ensures Inv(s')
  {
    forall d | d in s'.clients ensures ClientOk(s', d) { SubLockClient(s, c, s', d); }
    forall i | i in s'.subs ensures SubOk(s', i) { SubLockSub(s, c, s', i); }
    forall i, j | i in s'.subs && j in s'.subs && i != j ensures Distinct(s', i, j) {
      assert i in s.subs && j in s.subs ==> Distinct(s, i, j);
    }
  }

  lemma {:induction false} PopMakeClient(s: State, c: Client, ts: Tickers, s': State, d: Client)
    requires PopMake(s, c, ts, s') && d in s.clients && ClientOk(s, c) && ClientOk(s, d)
    ensures ClientOk(s', d)
  {
  }

  lemma {:induction false} PopMakeSub(s: State, c: Client, ts: Tickers, s': State, i: SubId)
    requires PopMake(s, c, ts, s') && ClientOk(s, c) && i in s.subs && SubOk(s, i)
    requires s.stopped <= s.made
    ensures SubOk(s', i)
  {
  }

  lemma {:induction false} PopMakeKeeps(s: State, c: Client, ts: Tickers, s': State)
    requires Inv(s) && PopMake(s, c, ts, s')
    ensures Inv(s')
  {
    forall d | d in s'.clients ensures ClientOk(s', d) { PopMakeClient(s, c, ts, s', d); }
    forall i | i in s'.subs ensures SubOk(s', i) { PopMakeSub(s, c, ts, s', i); }
    forall i, j | i in s'.subs && j in s'.subs && i != j ensures Distinct(s', i, j) {
      assert i in s.subs && j in s.subs ==> Distinct(s, i, j);
    }
  }

  lemma {:induction false} PopReuseClient(s: State, c: Client, s': State, d: Client)
    requires PopReuse(s, c, s') && d in s.clients && ClientOk(s, c) && ClientOk(s, d)
    ensures ClientOk(s', d)
  {
    SameSize(SubOf(s, c).tickers, s.clients[c].intervals);
  }

  lemma {:induction false} PopReuseSub(s: State, c: Client, s': State, i: SubId)
    requires PopReuse(s, c, s') && ClientOk(s, c) && i in s.subs && SubOk(s, i)
    ensures SubOk(s', i)
  {
  }

  lemma {:induction false} PopReuseKeeps(s: State, c: Client, s': State)
    requires Inv(s) && PopReuse(s, c, s')
    ensures Inv(s')
  {
    forall d | d in s'.clients ensures ClientOk(s', d) { PopReuseClient(s, c, s', d); }
    forall i | i in s'.subs ensures SubOk(s', i) { PopReuseSub(s, c, s', i); }
    forall i, j | i in s'.subs && j in s'.subs && i != j ensures Distinct(s', i, j) {
      assert i in s.subs && j in s.subs ==> Distinct(s, i, j);
    }
  }

  lemma {:induction false} PopRefuseClient(s: State, c: Client, s': State, d: Client)
    requires PopRefuse(s, c, s') && d in s.clients && ClientOk(s, c) && ClientOk(s, d)
    ensures ClientOk(s', d)
  {
  }

  lemma {:induction false} PopRefuseSub(s: State, c: Client, s': State, i: SubId)
    requires PopRefuse(s, c, s') && ClientOk(s, c) && i in s.subs && SubOk(s, i)
    ensures SubOk(s', i)
  {
  }

  lemma {:induction false} PopRefuseKeeps(s: State, c: Client, s': State)
    requires Inv(s) && PopRefuse(s, c, s')
    ensures Inv(s')
  {
    forall d | d in s'.clients ensures ClientOk(s', d) { PopRefuseClient(s, c, s', d); }
    forall i | i in s'.subs ensures SubOk(s', i) { PopRefuseSub(s, c, s', i); }
    forall i, j | i in s'.subs && j in s'.subs && i != j ensures Distinct(s', i, j) {
      assert i in s.subs && j in s.subs ==> Distinct(s, i, j);
    }
  }

  lemma {:induction false} CheckPrimaryClient(s: State, c: Client, s': State, d: Client)
    requires CheckPrimary(s, c, s') && d in s.clients && ClientOk(s, c) && ClientOk(s, d)
    ensures ClientOk(s', d)
  {
  }

  lemma {:induction false} CheckPrimarySub(s: State, c: Client, s': State, i: SubId)
    requires CheckPrimary(s, c, s') && ClientOk(s, c) && i in s.subs && SubOk(s, i)
    ensures SubOk(s', i)
  {
  }

  lemma {:induction false} CheckPrimaryKeeps(s: State, c: Client, s': State)
    requires Inv(s) && CheckPrimary(s, c, s')
    ensures Inv(s')
  {
    forall d | d in s'.clients ensures ClientOk(s', d) { CheckPrimaryClient(s, c, s', d); }
    forall i | i in s'.subs ensures SubOk(s', i) { CheckPrimarySub(s, c, s', i); }
    forall i, j | i in s'.subs && j in s'.subs && i != j ensures Distinct(s', i, j) {
      assert i in s.subs && j in s.subs ==> Distinct(s, i, j);
    }
  }

  lemma {:induction false} WakeClient(s: State, c: Client, s': State, d: Client)
    requires Wake(s, c, s') && d in s.clients && ClientOk(s, c) && ClientOk(s, d)
    ensures ClientOk(s', d)
  {
  }

  lemma {:induction false} WakeSub(s: State, c: Client, s': State, i: SubId)
    requires Wake(s, c, s') && ClientOk(s, c) && i in s.subs && SubOk(s, i)
    ensures SubOk(s', i)
  {
  }

  lemma {:induction false} WakeKeeps(s: State, c: Client, s': State)
    requires Inv(s) && Wake(s, c, s')
    ensures Inv(s')
  {
    forall d | d in s'.clients ensures ClientOk(s', d) { WakeClient(s, c, s', d); }
    forall i | i in s'.subs ensures SubOk(s', i) { WakeSub(s, c, s', i); }
    forall i, j | i in s'.subs && j in s'.subs && i != j ensures Distinct(s', i, j) {
      assert i in s.subs && j in s.subs ==> Distinct(s, i, j);
    }
  }

  lemma {:induction false} CloseClient(s: State, c: Client, s': State, d: Client)
    requires Close(s, c, s') && d in s.clients && ClientOk(s, c) && ClientOk(s, d)
    ensures ClientOk(s', d)
  {
  }

  lemma {:induction false} CloseSub(s: State, c: Client, s': State, i: SubId)
    requires Close(s, c, s') && ClientOk(s, c) && i in s.subs && SubOk(s, i)
    ensures SubOk(s', i)
  {
  }

  lemma {:induction false} CloseKeeps(s: State, c: Client, s': State)
    requires Inv(s) && Close(s, c, s')
    ensures Inv(s')
  {
    forall d | d in s'.clients ensures ClientOk(s', d) { CloseClient(s, c, s', d); }
    forall i | i in s'.subs ensures SubOk(s', i) { CloseSub(s, c, s', i); }
    forall i, j | i in s'.subs && j in s'.subs && i != j ensures Distinct(s', i, j) {
      assert i in s.subs && j in s.subs ==> Distinct(s, i, j);
    }
  }

  lemma {:induction false} LeaveLockClient(s: State, c: Client, s': State, d: Client)
    requires LeaveLock(s, c, s') && d in s.clients && ClientOk(s, c) && ClientOk(s, d)
    ensures ClientOk(s', d)
  {
  }

  lemma {:induction false} LeaveLockSub(s: State, c: Client, s': State, i: SubId)
    requires LeaveLock(s, c, s') && ClientOk(s, c) && i in s.subs && SubOk(s, i)
    ensures SubOk(s', i)
  {
  }

  lemma {:induction false} LeaveLockKeeps(s: State, c: Client, s': State)
    requires Inv(s) && LeaveLock(s, c, s')
    ensures Inv(s')
  {
    forall d | d in s'.clients ensures ClientOk(s', d) { LeaveLockClient(s, c, s', d); }
    forall i | i in s'.subs ensures SubOk(s', i) { LeaveLockSub(s, c, s', i); }
    forall i, j | i in s'.subs && j in s'.subs && i != j ensures Distinct(s', i, j) {
      assert i in s.subs && j in s.subs ==> Distinct(s, i, j);
    }
  }

  lemma {:induction false} LeaveLastClient(s: State, c: Client, s': State, d: Client)
    requires LeaveLast(s, c, s') && d in s.clients && ClientOk(s, c) && ClientOk(s, d)
    ensures ClientOk(s', d)
  {
    assert d !in SubOf(s, c).members - {c};
  }

  lemma {:induction false} LeaveLastSub(s: State, c: Client, s': State, i: SubId)
    requires LeaveLast(s, c, s') && ClientOk(s, c) && i in s.subs && SubOk(s, i)
    requires s.clients[c].sub.value != i ==> Distinct(s, i, s.clients[c].sub.value)
    ensures SubOk(s', i)
  {
  }

  lemma {:induction false} LeaveLastKeeps(s: State, c: Client, s': State)
    requires Inv(s) && LeaveLast(s, c, s')
    ensures Inv(s')
  {
    forall d | d in s'.clients ensures ClientOk(s', d) { LeaveLastClient(s, c, s', d); }
    forall i | i in s'.subs ensures SubOk(s', i) { LeaveLastSub(s, c, s', i); }
    forall i, j | i in s'.subs && j in s'.subs && i != j ensures Distinct(s', i, j) {
      assert i in s.subs && j in s.subs ==> Distinct(s, i, j);
    }
  }

  lemma {:induction false} LeavePromoteClient(s: State, c: Client, heir: Client, s': State, d: Client)
    requires LeavePromote(s, c, heir, s') && d in s.clients && ClientOk(s, c) && ClientOk(s, d)
    requires SubOk(s, s.clients[c].sub.value) && (heir in s.clients ==> ClientOk(s, heir))
    ensures ClientOk(s', d)
  {
  }

  lemma {:induction false} LeavePromoteSub(s: State, c: Client, heir: Client, s': State, i: SubId)
    requires LeavePromote(s, c, heir, s') && ClientOk(s, c) && i in s.subs && SubOk(s, i)
    ensures SubOk(s', i)
  {
  }

  lemma {:induction false} LeavePromoteKeeps(s: State, c: Client, heir: Client, s': State)
    requires Inv(s) && LeavePromote(s, c, heir, s')
    ensures Inv(s')
  {
    forall d | d in s'.clients ensures ClientOk(s', d) { LeavePromoteClient(s, c, heir, s', d); }
    forall i | i in s'.subs ensures SubOk(s', i) { LeavePromoteSub(s, c, heir, s', i); }
    forall i, j | i in s'.subs && j in s'.subs && i != j ensures Distinct(s', i, j) {
      assert i in s.subs && j in s.subs ==> Distinct(s, i, j);
    }
  }

  lemma {:induction false} LeaveSecondaryClient(s: State, c: Client, s': State, d: Client)
    requires LeaveSecondary(s, c, s') && d in s.clients && ClientOk(s, c) && ClientOk(s, d)
    ensures ClientOk(s', d)
  {
  }

  lemma {:induction false} LeaveSecondarySub(s: State, c: Client, s': State, i: SubId)
    requires LeaveSecondary(s, c, s') && ClientOk(s, c) && i in s.subs && SubOk(s, i)
    ensures SubOk(s', i)
  {
  }

  lemma {:induction false} LeaveSecondaryKeeps(s: State, c: Client, s': State)
    requires Inv(s) && LeaveSecondary(s, c, s')
    ensures Inv(s')
  {
    forall d | d in s'.clients ensures ClientOk(s', d) { LeaveSecondaryClient(s, c, s', d); }
    forall i | i in s'.subs ensures SubOk(s', i) { LeaveSecondarySub(s, c, s', i); }
    forall i, j | i in s'.subs && j in s'.subs && i != j ensures Distinct(s', i, j) {
      assert i in s.subs && j in s.subs ==> Distinct(s, i, j);
    }
  }

  lemma {:induction false} SendClient(s: State, c: Client, s': State, d: Client)
    requires Send(s, c, s') && d in s.clients && ClientOk(s, c) && ClientOk(s, d)
    ensures ClientOk(s', d)
  {
  }

  lemma {:induction false} SendSub(s: State, c: Client, s': State, i: SubId)
    requires Send(s, c, s') && ClientOk(s, c) && i in s.subs && SubOk(s, i)
    ensures SubOk(s', i)
  {
  }

  lemma {:induction false} SendKeeps(s: State, c: Client, s': State)
    requires Inv(s) && Send(s, c, s')
    ensures Inv(s')
  {
    forall d | d in s'.clients ensures ClientOk(s', d) { SendClient(s, c, s', d); }
    forall i | i in s'.subs ensures SubOk(s', i) { SendSub(s, c, s', i); }
    forall i, j | i in s'.subs && j in s'.subs && i != j ensures Distinct(s', i, j) {
      assert i in s.subs && j in s.subs ==> Distinct(s, i, j);
    }
  }

  lemma {:induction false} StepKeeps(s: State, c: Client, s': State)
    requires Inv(s) && Step(s, c, s')
    ensures Inv(s')
  {
    if id :| JoinLock(s, c, id, s') { JoinLockKeeps(s, c, id, s'); }
    else if JoinAdd(s, c, s') { JoinAddKeeps(s, c, s'); }
    else if SubLock(s, c, s') { SubLockKeeps(s, c, s'); }
    else if ts :| PopMake(s, c, ts, s') { PopMakeKeeps(s, c, ts, s'); }
    else if PopReuse(s, c, s') { PopReuseKeeps(s, c, s'); }
    else if PopRefuse(s, c, s') { PopRefuseKeeps(s, c, s'); }
    else if CheckPrimary(s, c, s') { CheckPrimaryKeeps(s, c, s'); }
    else if Wake(s, c, s') { WakeKeeps(s, c, s'); }
    else if Close(s, c, s') { CloseKeeps(s, c, s'); }
    else if LeaveLock(s, c, s') { LeaveLockKeeps(s, c, s'); }
    else if LeaveLast(s, c, s') { LeaveLastKeeps(s, c, s'); }
    else if heir :| LeavePromote(s, c, heir, s') { LeavePromoteKeeps(s, c, heir, s'); }
    else if LeaveSecondary(s, c, s') { LeaveSecondaryKeeps(s, c, s'); }
    else { SendKeeps(s, c, s'); }
  }

  lemma {:induction false} RunKeeps(run: seq<State>, movers: seq<Client>, i: nat)
    requires Run(run, movers) && i < |run|
    ensures Inv(run[i])
  {
    if i > 0 {
      RunKeeps(run, movers, i - 1);
      StepKeeps(run[i - 1], movers[i - 1], run[i]);
    }
  }

  lemma {:induction false} SameSub(s: State, c: Client, d: Client)
    requires Inv(s) && Belongs(s, c) && Belongs(s, d) && s.clients[c].request == s.clients[d].request
    ensures s.clients[c].sub == s.clients[d].sub
  {
    var i, j := s.clients[c].sub.value, s.clients[d].sub.value;
    assert i != j ==> Distinct(s, i, j);
  }

  // ----- the promises

  /** Of all clients with one request at most one listens to tickers. */
  lemma {:induction false} OneSampler(run: seq<State>, movers: seq<Client>, i: nat, c: Client, d: Client)
    requires Run(run, movers) && i < |run| && c in run[i].clients && d in run[i].clients
    requires run[i].clients[c].stage == Sampling && run[i].clients[d].stage == Sampling
    requires run[i].clients[c].request == run[i].clients[d].request
    ensures c == d
  {
    RunKeeps(run, movers, i);
    var s := run[i];
    assert ClientOk(s, c) && ClientOk(s, d);
    SameSub(s, c, d);
  }

  /** No lost wake-up: a primary client that waits has its wake-up in its channel, or the leaver that promoted it
      can send it at once. */
  lemma {:induction false} NoLostWakeUp(run: seq<State>, movers: seq<Client>, i: nat, c: Client)
    requires Run(run, movers) && i < |run| && InSub(run[i], c)
    requires run[i].clients[c].stage == Select && SubOf(run[i], c).primary == Some(c)
    ensures || (exists s' :: Wake(run[i], c, s'))
            || (exists d, s' :: Send(run[i], d, s') && s'.clients[c].wake)
  {
    RunKeeps(run, movers, i);
    var s := run[i];
    assert ClientOk(s, c);
    if s.clients[c].wake {
      assert Wake(s, c, SetClient(s, c, s.clients[c].(stage := Check, wake := false)));
    } else {
      var d := s.mutex.value;
      var s' := SendNeverBlocks(s, d);
      assert s'.clients[c].wake;
    }
  }

  /** The wake-up channel always has room. */
  lemma {:induction false} SendNeverBlocks(s: State, c: Client) returns (s': State)
    requires Inv(s) && c in s.clients && s.clients[c].stage.Sending?
    ensures Send(s, c, s')
  {
    assert ClientOk(s, c);
    var heir := s.clients[c].stage.heir;
    s' := SetSub(SetClient(SetClient(s, heir, s.clients[heir].(wake := true)), c, s.clients[c].(stage := Done)),
                 s.clients[c].sub.value, SubOf(s, c).(lock := None)).(mutex := None);
  }

  // ----- each client is promoted once at most

  /** The client was promoted: it is the primary client until it leaves. */
  predicate Promoted(s: State, h: Client) {
    && h in s.clients && s.clients[h].stage != Start && !s.clients[h].stage.Joining?
    && (Joined(s.clients[h].stage) ==> InSub(s, h) && SubOf(s, h).primary == Some(h))
  }

  /** A step of a client leaves the others where they are, and their super-subscriptions too, but for their primary
      client if that is the one who leaves. */
  ghost predicate Apart(s: State, c: Client, s': State, h: Client) {
    && h in s.clients && h in s'.clients && s'.clients[h].stage == s.clients[h].stage
    && s'.clients[h].sub == s.clients[h].sub && s.subs.Keys <= s'.subs.Keys
    && (InSub(s, h) && SubOf(s, h).primary.Some? && SubOf(s, h).primary != Some(c) ==>
          SubOf(s', h).primary == SubOf(s, h).primary)
  }

  lemma {:induction false} StepsApart(s: State, c: Client, s': State, h: Client)
    requires Step(s, c, s') && h in s.clients && h != c
    ensures Apart(s, c, s', h)
  {
    if id :| JoinLock(s, c, id, s') {
    } else if ts :| PopMake(s, c, ts, s') {
    } else if heir :| LeavePromote(s, c, heir, s') {
    }
  }

  /** A step of a client that is the primary one keeps it so, or makes it leave. */
  lemma {:induction false} OwnStep(s: State, c: Client, s': State)
    requires Step(s, c, s') && Promoted(s, c)
    ensures Promoted(s', c)
  {
    if id :| JoinLock(s, c, id, s') {
    } else if ts :| PopMake(s, c, ts, s') {
    } else if heir :| LeavePromote(s, c, heir, s') {
    }
  }

  lemma {:induction false} StaysPromoted(run: seq<State>, movers: seq<Client>, i: nat, j: nat, h: Client)
    requires Run(run, movers) && i <= j < |run| && Promoted(run[i], h)
    ensures Promoted(run[j], h)
    decreases j
  {
    if i < j {
      StaysPromoted(run, movers, i, j - 1, h);
      assert Step(run[j - 1], movers[j - 1], run[j]);
      if movers[j - 1] == h {
        OwnStep(run[j - 1], h, run[j]);
      } else {
        StepsApart(run[j - 1], movers[j - 1], run[j], h);
      }
    }
  }

  lemma {:induction false} Promotes(s: State, c: Client, heir: Client, s': State)
    requires Inv(s) && LeavePromote(s, c, heir, s')
    ensures Promoted(s', heir)
  {
    assert SubOk(s, s.clients[c].sub.value);
  }

  lemma {:induction false} NotAgain(s: State, c: Client, heir: Client, s': State)
    requires Inv(s) && Promoted(s, heir)
    ensures !LeavePromote(s, c, heir, s')
  {
    if Leaves(s, c) && heir in SubOf(s, c).members {
      assert SubOk(s, s.clients[c].sub.value);
    }
  }

  /** No client is promoted twice in a run, so its one-slot channel never holds an earlier wake-up when one is sent. */
  lemma {:induction false} PromotedOnce(run: seq<State>, movers: seq<Client>, i: nat, j: nat, heir: Client)
    requires Run(run, movers) && i < j < |movers| && LeavePromote(run[i], movers[i], heir, run[i + 1])
    ensures !LeavePromote(run[j], movers[j], heir, run[j + 1])
  {
    assert Promoted(run[i + 1], heir) by {
      RunKeeps(run, movers, i);
      Promotes(run[i], movers[i], heir, run[i + 1]);
    }
    StaysPromoted(run, movers, i + 1, j, heir);
    assert !LeavePromote(run[j], movers[j], heir, run[j + 1]) by {
      RunKeeps(run, movers, j);
      NotAgain(run[j], movers[j], heir, run[j + 1]);
    }
  }

  // ----- the registry

  /** The client is a member of the super-subscription. */
  predicate IsMember(s: State, id: SubId, c: Client) {
    id in s.subs && c in s.subs[id].members
  }

  /** The holder of the global lock is about to join the super-subscription. */
  predicate BeingJoined(s: State, id: SubId) {
    s.mutex.Some? && s.mutex.value in s.clients && s.clients[s.mutex.value].stage == Joining(id)
  }

  /** Every registered super-subscription has a primary client among its members, except while a client is just being
      added to it; there is one registered super-subscription per request, and each client is in at most one. */
  lemma {:induction false} RegistryExact(run: seq<State>, movers: seq<Client>, i: nat)
    requires Run(run, movers) && i < |run|
    ensures run[i].registered <= run[i].subs.Keys
    ensures forall id :: id in run[i].registered && !BeingJoined(run[i], id) ==>
                           run[i].subs[id].primary.Some? && run[i].subs[id].primary.value in run[i].subs[id].members
    ensures forall id, j :: id in run[i].registered && j in run[i].registered && id != j ==>
                              run[i].subs[id].request != run[i].subs[j].request
    ensures forall id :: id in run[i].subs && id !in run[i].registered ==> run[i].subs[id].members == {}
    ensures forall id, j, c :: IsMember(run[i], id, c) && IsMember(run[i], j, c) ==> id == j
  {
    RunKeeps(run, movers, i);
    var s := run[i];
    forall id | id in s.registered && !BeingJoined(s, id)
      ensures s.subs[id].primary.Some? && s.subs[id].primary.value in s.subs[id].members
    {
      assert SubOk(s, id);
    }
    forall id, j | id in s.registered && j in s.registered && id != j ensures s.subs[id].request != s.subs[j].request {
      assert Distinct(s, id, j);
    }
    forall id | id in s.subs && id !in s.registered ensures s.subs[id].members == {} {
      assert SubOk(s, id);
    }
    forall id, j, c | IsMember(s, id, c) && IsMember(s, j, c) ensures id == j {
      assert SubOk(s, id) && SubOk(s, j);
    }
  }

  /** Clients that got their tickers listen to the same running tickers as every other client with their request
      and any interval at all. */
  lemma {:induction false} TickersShared(run: seq<State>, movers: seq<Client>, i: nat, c: Client, d: Client)
    requires Run(run, movers) && i < |run| && c in run[i].clients && d in run[i].clients
    requires Populated(run[i].clients[c].stage) && Populated(run[i].clients[d].stage)
    requires run[i].clients[c].request == run[i].clients[d].request
    requires run[i].clients[c].intervals != {} && run[i].clients[d].intervals != {}
    ensures run[i].clients[c].tickers == run[i].clients[d].tickers
    ensures run[i].clients[c].tickers.Keys == run[i].clients[c].intervals == run[i].clients[d].intervals
    ensures run[i].clients[c].tickers.Values !! run[i].stopped && OneEach(run[i].clients[c].tickers)
  {
    RunKeeps(run, movers, i);
    var s := run[i];
    assert ClientOk(s, c) && ClientOk(s, d);
    SameSub(s, c, d);
    assert SubOk(s, s.clients[c].sub.value);
  }

  ghost predicate CanMove(s: State, c: Client) {
    exists s' :: Step(s, c, s')
  }

  /** No deadlock: whoever holds a lock of a super-subscription can move, and whoever holds the global lock can move
      or waits for such a holder. */
  lemma {:induction false} LockHoldersMove(run: seq<State>, movers: seq<Client>, i: nat)
    requires Run(run, movers) && i < |run|
    ensures forall id :: id in run[i].subs && run[i].subs[id].lock.Some? ==> CanMove(run[i], run[i].subs[id].lock.value)
    ensures run[i].mutex.Some? ==>
              || CanMove(run[i], run[i].mutex.value)
              || exists id :: id in run[i].subs && run[i].subs[id].lock.Some?
                              && CanMove(run[i], run[i].subs[id].lock.value)
  {
    RunKeeps(run, movers, i);
    var s := run[i];
    forall id | id in s.subs && s.subs[id].lock.Some? ensures CanMove(s, s.subs[id].lock.value) {
      assert SubOk(s, id);
      SubHolderMoves(s, s.subs[id].lock.value);
    }
    if s.mutex.Some? {
      MutexHolderMoves(s, s.mutex.value);
    }
  }

  lemma {:induction false} SubHolderMoves(s: State, c: Client)
    requires Inv(s) && c in s.clients && HoldsSub(s.clients[c].stage)
    ensures CanMove(s, c)
  {
    assert ClientOk(s, c);
    var cs, sub := s.clients[c], SubOf(s, c);
    if cs.stage == PopHeld {
      PopulatorMoves(s, c);
    } else if cs.stage == LeaveHeld {
      LeaverMoves(s, c);
    } else {
      var s' := SendNeverBlocks(s, c);
      assert Step(s, c, s');
    }
  }

  lemma {:induction false} FreshTickers(made: set<Ticker>, intervals: set<Interval>) returns (ts: Tickers)
    ensures NewTickers(ts, intervals, made)
  {
    var fresh' := Above(made);
    ts := map i | i in intervals :: fresh' + i;
  }

  lemma {:induction false} Above(made: set<Ticker>) returns (t: Ticker)
    ensures forall x :: x in made ==> x < t
  {
    if made == {} {
      t := 0;
    } else {
      var x :| x in made;
      var u := Above(made - {x});
      t := if u > x then u else x + 1;
      assert made == (made - {x}) + {x};
    }
  }

  lemma {:induction false} PopulatorMoves(s: State, c: Client)
    requires Populates(s, c)
    ensures CanMove(s, c)
  {
    var cs, sub := s.clients[c], SubOf(s, c);
    if sub.tickers == map[] {
      var ts := FreshTickers(s.made, cs.intervals);
      var s' := SetSub(SetClient(s, c, cs.(stage := Check, tickers := ts)), cs.sub.value,
                       sub.(tickers := ts, lock := None)).(made := s.made + ts.Values);
      assert PopMake(s, c, ts, s') && Step(s, c, s');
    } else if Accepts(sub.tickers, cs.intervals) {
      var s' := SetSub(SetClient(s, c, cs.(stage := Check, tickers := TickersFor(sub.tickers, cs.intervals))),
                       cs.sub.value, sub.(lock := None));
      assert PopReuse(s, c, s') && Step(s, c, s');
    } else {
      var s' := SetSub(SetClient(s, c, cs.(stage := Leaving)), cs.sub.value, sub.(lock := None));
      assert PopRefuse(s, c, s') && Step(s, c, s');
    }
  }

  lemma {:induction false} LeaverMoves(s: State, c: Client)
    requires Leaves(s, c)
    ensures CanMove(s, c)
  {
    var cs, sub, id := s.clients[c], SubOf(s, c), s.clients[c].sub.value;
    if sub.members - {c} == {} {
      var s' := SetSub(SetClient(s, c, cs.(stage := Done)), id, sub.(members := {}, lock := None))
      .(mutex := None, registered := s.registered - {id}, stopped := s.stopped + sub.tickers.Values);
      assert LeaveLast(s, c, s') && Step(s, c, s');
    } else if sub.primary == Some(c) {
      var heir :| heir in sub.members - {c};
      var s' := SetSub(SetClient(s, c, cs.(stage := Sending(heir))), id,
                       sub.(members := sub.members - {c}, primary := Some(heir)));
      assert LeavePromote(s, c, heir, s') && Step(s, c, s');
    } else {
      var s' := SetSub(SetClient(s, c, cs.(stage := Done)), id,
                       sub.(members := sub.members - {c}, lock := None)).(mutex := None);
      assert LeaveSecondary(s, c, s') && Step(s, c, s');
    }
  }

  lemma {:induction false} MutexHolderMoves(s: State, c: Client)
    requires Inv(s) && s.mutex == Some(c) && c in s.clients
    ensures CanMove(s, c) || exists id :: id in s.subs && s.subs[id].lock.Some?
  {
    assert ClientOk(s, c);
    var cs := s.clients[c];
    if HoldsSub(cs.stage) {
      SubHolderMoves(s, c);
    } else if cs.stage.Joining? {
      var id := cs.stage.id;
      if s.subs[id].lock == None {
        var s' := SetSub(SetClient(s, c, cs.(stage := Populating, sub := Some(id))), id, WithMember(s.subs[id], c))
        .(mutex := None);
        assert JoinAdd(s, c, s') && Step(s, c, s');
      }
    } else if SubOf(s, c).lock == None {
      var s' := SetSub(SetClient(s, c, cs.(stage := LeaveHeld)), cs.sub.value, SubOf(s, c).(lock := Some(c)));
      assert SubLock(s, c, s') && Step(s, c, s');
    }
  }

  /** Waits for something from outside: a tick, the end of its stream, or a wake-up it is not owed. */
  predicate Rests(s: State, c: Client)
    requires c in s.clients
  {
    var t := s.clients[c].stage;
    t == Sampling || t == Done || (t == Select && !s.clients[c].wake)
  }

  /** As long as some client does not rest, some client can move. */
  lemma {:induction false} Progress(run: seq<State>, movers: seq<Client>, i: nat, c: Client)
    requires Run(run, movers) && i < |run| && c in run[i].clients && !Rests(run[i], c)
    ensures exists d :: CanMove(run[i], d)
  {
    LockHoldersMove(run, movers, i);
    RunKeeps(run, movers, i);
    var s := run[i];
    if s.mutex == None && forall id :: id in s.subs ==> s.subs[id].lock == None {
      FreeToMove(s, c);
    } else if s.mutex == None {
      var id :| id in s.subs && s.subs[id].lock.Some?;
      assert CanMove(s, s.subs[id].lock.value);
    }
  }

  lemma {:induction false} FreeToMove(s: State, c: Client)
    requires c in s.clients && ClientOk(s, c) && !Rests(s, c) && s.mutex == None
    requires s.registered <= s.subs.Keys
    requires forall id :: id in s.subs ==> s.subs[id].lock == None
    ensures CanMove(s, c)
  {
    var cs := s.clients[c];
    if cs.stage == Start {
      JoinerMoves(s, c);
    } else if cs.stage == Populating {
      var s' := SetSub(SetClient(s, c, cs.(stage := PopHeld)), cs.sub.value, SubOf(s, c).(lock := Some(c)));
      assert SubLock(s, c, s') && Step(s, c, s');
    } else if cs.stage == Check {
      var s' := SetClient(s, c, cs.(stage := if SubOf(s, c).primary == Some(c) then Sampling else Select));
      assert CheckPrimary(s, c, s') && Step(s, c, s');
    } else if cs.stage == Select {
      var s' := SetClient(s, c, cs.(stage := Check, wake := false));
      assert Wake(s, c, s') && Step(s, c, s');
    } else {
      var s' := SetClient(s, c, cs.(stage := LeavingSub)).(mutex := Some(c));
      assert LeaveLock(s, c, s') && Step(s, c, s');
    }
  }

  lemma {:induction false} JoinerMoves(s: State, c: Client)
    requires s.registered <= s.subs.Keys && c in s.clients && s.clients[c].stage == Start && s.mutex == None
    ensures CanMove(s, c)
  {
    var cs := s.clients[c];
    if id :| id in s.registered && id in s.subs && s.subs[id].request == cs.request {
      var s' := SetClient(s, c, cs.(stage := Joining(id))).(mutex := Some(c));
      assert JoinLock(s, c, id, s') && Step(s, c, s');
    } else {
      var id := Above(s.subs.Keys);
      var s' := SetSub(SetClient(s, c, cs.(stage := Joining(id))), id, NewSub(cs.request))
      .(mutex := Some(c), registered := s.registered + {id});
      assert JoinLock(s, c, id, s') && Step(s, c, s');
    }
  }
}
