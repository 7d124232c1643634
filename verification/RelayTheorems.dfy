/** What holds of every schedule of the relay: answers reach only their own request, jobs are
    conserved, finished requests leave nothing behind, nothing deadlocks. */
module RelayTheorems {
  import opened Prelude
  import opened RelayLib
  import opened RelayTables
  import opened RelayMachine
  import opened RelayInvariants
  import opened RelaySteps

  /** s is reachable from a freshly loaded server by some schedule. */
  ghost predicate Reachable(e: Env, loaded: map<TenantId, Digest>, s: State) {
    exists schedule :: Exec(e, Init(loaded), schedule) == Some(s)
  }

  lemma ReachableInv(e: Env, loaded: map<TenantId, Digest>, s: State)
    requires Reachable(e, loaded, s)
    ensures Inv(s)
  {
    var schedule :| Exec(e, Init(loaded), schedule) == Some(s);
    InitInv(loaded);
    RunKeepsInv(e, Init(loaded), schedule);
  }

  /** The bearer is the secret whose hash the tenant has. */
  predicate HoldsSecret(s: State, id: TenantId, bearer: Option<string>) {
    bearer.Some? && id in s.tables.tenants && s.tables.tenants[id].secretHash == Sha256(bearer.value)
  }

  lemma AuthenticatedIff(s: State, id: TenantId, bearer: Option<string>)
    ensures Authenticated(s, id, bearer) <==> HoldsSecret(s, id, bearer)
  {
  }

  /** A result that reached an image handler was posted by a call that named the handler's request id,
      authenticated as the handler's tenant; no other call ever got hold of that request. */
  lemma DeliveredResultWasPosted(e: Env, loaded: map<TenantId, Digest>, s: State, t: HandlerId)
    requires Reachable(e, loaded, s) && t in s.handlers && s.handlers[t].Image? && s.handlers[t].got.Some?
    ensures var h, d := s.handlers[t], s.handlers[t].got.value;
            && d.sender in s.handlers && s.handlers[d.sender].Result? && s.handlers[d.sender].rpc.ResPosted?
            && h.rid == Some(s.handlers[d.sender].target)
            && s.handlers[d.sender].id == h.id && s.handlers[d.sender].result == d.result
            && HoldsSecret(s, h.id, s.handlers[d.sender].bearer)
            && (forall u :: u in s.handlers && Took(s.handlers[u]) && Some(s.handlers[u].target) == h.rid ==> u == d.sender)
  {
    ReachableInv(e, loaded, s);
    assert HandlerOk(s, t);
    var r := s.handlers[t].rid.value;
    forall u | u in s.handlers && Took(s.handlers[u]) && s.handlers[u].target == r
      ensures u == s.handlers[t].got.value.sender
    {
      assert HandlerOk(s, u);
    }
  }

  /** Two different calls never take the same request, whether or not its handler is still listening. */
  lemma AtMostOneTaker(e: Env, loaded: map<TenantId, Digest>, s: State, u: HandlerId, v: HandlerId)
    requires Reachable(e, loaded, s) && u in s.handlers && v in s.handlers
    requires Took(s.handlers[u]) && Took(s.handlers[v]) && s.handlers[u].target == s.handlers[v].target
    ensures u == v
  {
    ReachableInv(e, loaded, s);
    assert HandlerOk(s, u) && HandlerOk(s, v);
  }

  /** The request was registered as inflight and its entry is gone. */
  predicate Gone(s: State, r: RequestId) {
    Owned(s, r) && OwnerOf(s, r).inserted && r !in s.tables.inflight
  }

  /** Whoever has taken r in s' had taken it in s already. */
  ghost predicate NoNewTaker(s: State, s': State, r: RequestId) {
    forall u :: u in s'.handlers && Took(s'.handlers[u]) && s'.handlers[u].target == r ==>
      u in s.handlers && Took(s.handlers[u]) && s.handlers[u].target == r
  }

  lemma {:induction false} ExecJoins(e: Env, s: State, a: seq<Event>, b: seq<Event>)
    requires Exec(e, s, a).Some?
    ensures Exec(e, s, a + b) == Exec(e, Exec(e, s, a).value, b)
    decreases |a|
  {
    hide Next;
    if a == [] {
      assert a + b == b;
    } else {
      assert (a + b)[1..] == a[1..] + b;
      ExecJoins(e, Next(e, s, a[0]).value, a[1..], b);
    }
  }

  lemma ExecStep(e: Env, s: State, event: Event, rest: seq<Event>, s': State)
    requires Next(e, s, event) == Some(s')
    ensures Exec(e, s, [event] + rest) == Exec(e, s', rest)
  {
    hide Next;
    assert ([event] + rest)[1..] == rest;
  }

  lemma Overwrite<K, V>(m: map<K, V>, k: K, a: V, b: V)
    ensures m[k := a][k := b] == m[k := b]
  {
  }

  lemma GuaranteeKeepsGone(s: State, s': State, t: HandlerId, r: RequestId)
    requires Guarantee(s, s', t) && Gone(s, r) && DataOk(s, t)
    ensures Gone(s', r)
  {
  }

  lemma NoTakeOfGone(s: State, s': State, u: HandlerId, c: Choice, r: RequestId)
    requires u in s.handlers && s.handlers[u].Result? && NextResult(s, u, s.handlers[u], c) == Some(s')
    requires r !in s.tables.inflight && s.handlers[u].target == r
    ensures Took(s'.handlers[u]) ==> Took(s.handlers[u])
    ensures s.handlers[u].rpc.ResHasInflight? ==> s'.handlers[u].rpc.ResRefused?
  {
    hide Authenticated;
    hide ForgetInflight;
  }

  lemma StepTakesNoGone(e: Env, s: State, t: HandlerId, c: Choice, r: RequestId)
    requires Next(e, s, Run(t, c)).Some? && Guarantee(s, Next(e, s, Run(t, c)).value, t) && r !in s.tables.inflight
    ensures NoNewTaker(s, Next(e, s, Run(t, c)).value, r)
  {
    var s' := Next(e, s, Run(t, c)).value;
    if s.handlers[t].Result? && s.handlers[t].target == r {
      NoTakeOfGone(s, s', t, c, r);
    }
  }

  lemma GoneRun(e: Env, s: State, event: Event, r: RequestId)
    requires Inv(s) && event.Run? && Next(e, s, event).Some? && Gone(s, r)
    ensures Gone(Next(e, s, event).value, r) && NoNewTaker(s, Next(e, s, event).value, r)
  {
    StepKeepsInv(e, s, event);
    RunningHandlerOk(e, s, event);
    hide Next;
    hide Inv;
    GuaranteeKeepsGone(s, Next(e, s, event).value, event.runs, r);
    StepTakesNoGone(e, s, event.runs, event.choice, r);
  }

  lemma RunningHandlerOk(e: Env, s: State, event: Event)
    requires Inv(s) && event.Run? && Next(e, s, event).Some?
    ensures event.runs in s.handlers && HandlerOk(s, event.runs)
  {
  }

  lemma GoneStep(e: Env, s: State, event: Event, r: RequestId)
    requires Inv(s) && Next(e, s, event).Some? && Gone(s, r)
    ensures Gone(Next(e, s, event).value, r) && NoNewTaker(s, Next(e, s, event).value, r)
  {
    hide Inv;
    if event.Run? {
      GoneRun(e, s, event, r);
    }
  }

  /** Once the inflight entry of a request is gone, in every continuation it stays gone and nobody new takes
      the request. */
  lemma {:induction false} GoneForever(e: Env, s: State, schedule: seq<Event>, r: RequestId)
    requires Inv(s) && Exec(e, s, schedule).Some? && Gone(s, r)
    ensures Gone(Exec(e, s, schedule).value, r) && NoNewTaker(s, Exec(e, s, schedule).value, r)
    decreases |schedule|
  {
    hide Next;
    hide Inv;
    hide Gone;
    if schedule != [] {
      var s1 := Next(e, s, schedule[0]).value;
      StepKeepsInv(e, s, schedule[0]);
      GoneStep(e, s, schedule[0], r);
      GoneForever(e, s1, schedule[1..], r);
    }
  }

  /** An image handler that has removed its inflight entry, or one whose request was taken. */
  lemma WhenGone(s: State, t: HandlerId)
    requires Inv(s) && Past(s, t)
    ensures Gone(s, s.handlers[t].rid.value)
  {
    assert HandlerOk(s, t) && ChannelOk(s, s.handlers[t].rid.value);
  }

  /** The handler went past the removal of its inflight entry, or its request was taken by a post. */
  predicate Past(s: State, t: HandlerId) {
    && t in s.handlers && s.handlers[t].Image? && s.handlers[t].rid.Some?
    && (|| s.handlers[t].ipc.ImgWantQueueAgain? || s.handlers[t].ipc.ImgCleansQueue? || s.handlers[t].ipc.ImgFinished?
        || (s.handlers[t].rid.value in s.channels && s.channels[s.handlers[t].rid.value].taker.Some?))
  }

  /** A post that names the request of such a handler, however much later, is answered 404. */
  lemma LatePostsAreRefused(
    e: Env, loaded: map<TenantId, Digest>, s: State, schedule: seq<Event>, t: HandlerId, u: HandlerId, c: Choice)
    requires Reachable(e, loaded, s) && Past(s, t) && Exec(e, s, schedule).Some?
    requires var s2 := Exec(e, s, schedule).value;
             && u in s2.handlers && s2.handlers[u].Result? && s2.handlers[u].rpc.ResHasInflight?
             && Some(s2.handlers[u].target) == s.handlers[t].rid && Next(e, s2, Run(u, c)).Some?
    ensures var s3 := Next(e, Exec(e, s, schedule).value, Run(u, c)).value;
            u in s3.handlers && s3.handlers[u].Result? && s3.handlers[u].rpc.ResRefused?
  {
    var s2 := Exec(e, s, schedule).value;
    ReachableInv(e, loaded, s);
    WhenGone(s, t);
    hide Inv;
    GoneForever(e, s, schedule, s.handlers[t].rid.value);
    RunKeepsInv(e, s, schedule);
    StepKeepsInv(e, s2, Run(u, c));
    NoTakeOfGone(s2, Next(e, s2, Run(u, c)).value, u, c, s.handlers[t].rid.value);
  }

  /** No queue, of any tenant, holds a job of this request. */
  ghost predicate InNoQueue(s: State, r: RequestId) {
    forall id, j :: id in s.tables.tenants && j in s.tables.tenants[id].queue ==> j.requestId != r
  }

  lemma FinishedStays(e: Env, s: State, event: Event, t: HandlerId)
    requires Next(e, s, event).Some? && t in s.handlers && s.handlers[t].Image? && s.handlers[t].ipc.ImgFinished?
    requires event.Run? ==> Guarantee(s, Next(e, s, event).value, event.runs)
    ensures t in Next(e, s, event).value.handlers && Next(e, s, event).value.handlers[t] == s.handlers[t]
  {
    if event.Run? {
      hide Next;
    }
  }

  /** A handler that ran to its end leaves nothing: its id is in no queue and not inflight, in this state
      and in every continuation. */
  lemma {:induction false} FinishedLeavesNothing(e: Env, s: State, schedule: seq<Event>, t: HandlerId)
    requires Inv(s) && Exec(e, s, schedule).Some?
    requires t in s.handlers && s.handlers[t].Image? && s.handlers[t].ipc.ImgFinished?
    ensures var s2 := Exec(e, s, schedule).value;
            && t in s2.handlers && s2.handlers[t] == s.handlers[t]
            && s.handlers[t].rid.Some? && s.handlers[t].rid.value !in s2.tables.inflight
            && InNoQueue(s2, s.handlers[t].rid.value)
    decreases |schedule|
  {
    hide Next;
    hide Inv;
    if schedule == [] {
      NothingQueued(s, t);
    } else {
      StepKeepsInv(e, s, schedule[0]);
      FinishedStays(e, s, schedule[0], t);
      FinishedLeavesNothing(e, Next(e, s, schedule[0]).value, schedule[1..], t);
    }
  }

  lemma NothingQueued(s: State, t: HandlerId)
    requires Inv(s) && t in s.handlers && s.handlers[t].Image? && s.handlers[t].ipc.ImgFinished?
    ensures s.handlers[t].rid.Some? && s.handlers[t].rid.value !in s.tables.inflight && InNoQueue(s, s.handlers[t].rid.value)
  {
    assert HandlerOk(s, t);
    forall id, j | id in s.tables.tenants && j in s.tables.tenants[id].queue
      ensures j.requestId != s.handlers[t].rid.value
    {
      QueuedWasPushed(s, id, j);
    }
  }

  lemma QueuedWasPushed(s: State, id: TenantId, j: Job)
    requires Inv(s) && id in s.tables.tenants && (j in s.tables.tenants[id].queue || j in s.tables.tenants[id].handed)
    ensures j in s.tables.tenants[id].pushed && JobOwned(s, id, j)
  {
    assert TenantOk(s, id);
    var tenant := s.tables.tenants[id];
    var all := tenant.handed + tenant.queue;
    assert j in all;
    var i :| 0 <= i < |all| && all[i] == j;
    var m := SubsequenceMember(all, tenant.pushed, i);
  }

  /** Exactly which handlers an inflight entry can belong to: one still on its way to cleanup, or one whose
      client disconnected before it got there. */
  lemma InflightHasLiveOrDroppedOwner(e: Env, loaded: map<TenantId, Digest>, s: State, r: RequestId)
    requires Reachable(e, loaded, s) && r in s.tables.inflight
    ensures Owned(s, r) && OwnerOf(s, r).id == s.tables.inflight[r] && MayBeInflight(OwnerOf(s, r).ipc)
  {
    ReachableInv(e, loaded, s);
    assert InflightEntryOk(s, r);
  }

  // ---- A client that disconnects ----

  /** The image handler was dropped by a disconnect and its entry is inflight. */
  predicate Leaked(s: State, t: HandlerId) {
    && t in s.handlers && s.handlers[t].Image? && s.handlers[t].ipc.ImgDropped?
    && s.handlers[t].rid.Some? && s.handlers[t].rid.value in s.tables.inflight
  }

  /** Dropped, with its entry inflight, or taken by a post. */
  predicate LeakedOrTaken(s: State, t: HandlerId, r: RequestId, id: TenantId) {
    && t in s.handlers && s.handlers[t].Image? && s.handlers[t].ipc.ImgDropped? && s.handlers[t].rid == Some(r) && s.handlers[t].id == id
    && r in s.channels && (r in s.tables.inflight || s.channels[r].taker.Some?)
  }

  lemma ImageLeavesOthersEntry(s: State, s': State, u: HandlerId, c: Choice, r: RequestId)
    requires u in s.handlers && s.handlers[u].Image? && ImageTyped(s.handlers[u]) && NextImage(s, u, s.handlers[u], c) == Some(s')
    requires s.handlers[u].rid != Some(r) && r in s.tables.inflight
    ensures r in s'.tables.inflight
  {
    hide ImageRequestOk;
    hide ForgetJob;
    hide JobOf;
    InflightOfForgetJob(s.tables, s.handlers[u].id);
  }

  lemma InflightOfForgetJob(tables: Tables, id: TenantId)
    ensures forall r :: id in tables.tenants ==> ForgetJob(tables, id, r).inflight == tables.inflight
  {
  }

  lemma PostTakesEntry(s: State, s': State, u: HandlerId, c: Choice, r: RequestId)
    requires u in s.handlers && s.handlers[u].Result? && NextResult(s, u, s.handlers[u], c) == Some(s')
    requires r in s.tables.inflight && r in s.channels
    ensures r in s'.channels && (r in s'.tables.inflight || s'.channels[r].taker.Some?)
  {
    hide Authenticated;
  }

  lemma PollLeavesEntries(s: State, s': State, u: HandlerId, c: Choice)
    requires u in s.handlers && s.handlers[u].Poll? && NextPoll(s, u, s.handlers[u], c) == Some(s')
    ensures s'.tables.inflight == s.tables.inflight
  {
    hide Authenticated;
  }

  lemma RegisterLeavesEntries(e: Env, s: State, s': State, u: HandlerId, c: Choice)
    requires u in s.handlers && s.handlers[u].Register? && NextRegister(e, s, u, s.handlers[u], c) == Some(s')
    ensures s'.tables.inflight == s.tables.inflight
  {
    hide RegistrationOk;
    hide SecretHashMatches;
    match s.handlers[u].gpc
    case RegHasWrite =>
    case RegPersisting =>
    case _ =>
  }

  /** Only the owner's cleanup or a post removes an entry. */
  lemma EntryLeaves(e: Env, s: State, s': State, u: HandlerId, c: Choice, r: RequestId)
    requires u in s.handlers && Next(e, s, Run(u, c)) == Some(s')
    requires !IsRequestOf(s.handlers[u], r) && r in s.tables.inflight && r in s.channels
    ensures r in s'.tables.inflight || (r in s'.channels && s'.channels[r].taker.Some?)
  {
    match s.handlers[u]
    case Image(_, _, _, _, _, _, _, _) => hide NextImage; ImageLeavesOthersEntry(s, s', u, c, r);
    case Poll(_, _, _, _, _) => hide NextPoll; PollLeavesEntries(s, s', u, c);
    case Result(_, _, _, _, _) => hide NextResult; PostTakesEntry(s, s', u, c, r);
    case Register(_, _, _, _, _) => hide NextRegister; RegisterLeavesEntries(e, s, s', u, c);
  }

  lemma DroppedStays(e: Env, s: State, event: Event, t: HandlerId)
    requires Next(e, s, event).Some? && t in s.handlers && s.handlers[t].Image? && s.handlers[t].ipc.ImgDropped?
    ensures event.Run? ==> event.runs != t
    ensures event.Spawn? ==> Next(e, s, event).value == With(s, event.handler, event.request) && event.handler != t
  {
  }

  lemma DroppedOwns(s: State, t: HandlerId, r: RequestId, id: TenantId, u: HandlerId)
    requires Inv(s) && LeakedOrTaken(s, t, r, id) && u in s.handlers && u != t
    ensures !IsRequestOf(s.handlers[u], r)
  {
    assert HandlerOk(s, t) && HandlerOk(s, u);
  }

  lemma LeakKept(s: State, s': State, u: HandlerId, t: HandlerId, r: RequestId, id: TenantId)
    requires Guarantee(s, s', u) && u != t && LeakedOrTaken(s, t, r, id)
    requires r in s.tables.inflight ==> r in s'.tables.inflight || (r in s'.channels && s'.channels[r].taker.Some?)
    ensures LeakedOrTaken(s', t, r, id)
  {
  }

  lemma LeakStep(e: Env, s: State, event: Event, t: HandlerId, r: RequestId, id: TenantId)
    requires Inv(s) && Next(e, s, event).Some? && LeakedOrTaken(s, t, r, id)
    ensures Inv(Next(e, s, event).value) && LeakedOrTaken(Next(e, s, event).value, t, r, id)
  {
    hide NextImage;
    hide NextPoll;
    hide NextResult;
    hide NextRegister;
    StepKeepsInv(e, s, event);
    DroppedStays(e, s, event, t);
    if event.Run? {
      RunningHandlerOk(e, s, event);
      DroppedOwns(s, t, r, id, event.runs);
      hide Inv;
      hide HandlerOk;
      hide Guarantee;
      if r in s.tables.inflight {
        EntryLeaves(e, s, Next(e, s, event).value, event.runs, event.choice, r);
      }
      hide Next;
      LeakKept(s, Next(e, s, event).value, event.runs, t, r, id);
    } else {
      hide Inv;
    }
  }

  lemma {:induction false} LeakRuns(e: Env, s: State, schedule: seq<Event>, t: HandlerId, r: RequestId, id: TenantId)
    requires Inv(s) && Exec(e, s, schedule).Some? && LeakedOrTaken(s, t, r, id)
    ensures LeakedOrTaken(Exec(e, s, schedule).value, t, r, id)
    decreases |schedule|
  {
    hide Next;
    hide Inv;
    hide LeakedOrTaken;
    if schedule != [] {
      LeakStep(e, s, schedule[0], t, r, id);
      LeakRuns(e, Next(e, s, schedule[0]).value, schedule[1..], t, r, id);
    }
  }

  /** The call u took r, named it, and is authenticated as the tenant. */
  predicate TakenByPost(s: State, u: HandlerId, r: RequestId, id: TenantId) {
    && u in s.handlers && Took(s.handlers[u]) && s.handlers[u].target == r && s.handlers[u].id == id
    && Authenticated(s, id, s.handlers[u].bearer)
  }

  lemma TakerIsAuthentic(s: State, r: RequestId)
    requires Inv(s) && r in s.channels && s.channels[r].taker.Some?
    ensures Owned(s, r) && TakenByPost(s, s.channels[r].taker.value, r, OwnerOf(s, r).id)
  {
    assert ChannelOk(s, r);
    assert HandlerOk(s, s.channels[r].taker.value);
  }

  lemma LeakBegins(s: State, t: HandlerId)
    requires Leaked(s, t) && InflightEntryOk(s, s.handlers[t].rid.value)
    ensures LeakedOrTaken(s, t, s.handlers[t].rid.value, s.handlers[t].id)
  {
  }

  lemma LeakOutcome(s: State, t: HandlerId, r: RequestId, id: TenantId)
    requires Inv(s) && LeakedOrTaken(s, t, r, id)
    ensures r in s.tables.inflight <==> s.channels[r].taker.None?
    ensures r !in s.tables.inflight ==> TakenByPost(s, s.channels[r].taker.value, r, id)
  {
    assert HandlerOk(s, t) && ChannelOk(s, r);
    if s.channels[r].taker.Some? {
      TakerIsAuthentic(s, r);
    }
    hide Inv;
    hide TakenByPost;
  }

  /** Why run-to-completion is assumed: the entry of a dropped handler stays in every continuation, until some
      authenticated post for that very id takes it, if one ever does. */
  lemma DisconnectLeaks(e: Env, loaded: map<TenantId, Digest>, s: State, schedule: seq<Event>, t: HandlerId)
    requires Reachable(e, loaded, s) && Leaked(s, t) && Exec(e, s, schedule).Some?
    ensures var s2, r := Exec(e, s, schedule).value, s.handlers[t].rid.value;
            && r in s2.channels
            && (r in s2.tables.inflight <==> s2.channels[r].taker.None?)
            && (r !in s2.tables.inflight ==> TakenByPost(s2, s2.channels[r].taker.value, r, s.handlers[t].id))
  {
    ReachableInv(e, loaded, s);
    var r := s.handlers[t].rid.value;
    assert InflightEntryOk(s, r);
    hide Inv;
    hide Exec;
    hide Reachable;
    hide LeakedOrTaken;
    assert LeakedOrTaken(s, t, r, s.handlers[t].id) by {
      LeakBegins(s, t);
    }
    LeakRuns(e, s, schedule, t, r, s.handlers[t].id);
    RunKeepsInv(e, s, schedule);
    LeakOutcome(Exec(e, s, schedule).value, t, r, s.handlers[t].id);
  }

  /** The image handler alone, from its arrival to its disconnect while waiting. */
  function LeakSchedule(t: HandlerId, request: Handler, r: RequestId): seq<Event> {
    Arriving(t, request, r) + Locking(t) + Unlocking(t) + [Run(t, Disconnect)]
  }

  function Arriving(t: HandlerId, request: Handler, r: RequestId): seq<Event> {
    [Spawn(t, request), Run(t, Go), Run(t, Draw(r))]
  }

  function Locking(t: HandlerId): seq<Event> {
    [Run(t, Go), Run(t, Go), Run(t, Go), Run(t, Go)]
  }

  function Unlocking(t: HandlerId): seq<Event> {
    [Run(t, Go), Run(t, Go)]
  }

  /** And a leak is reachable: any well-formed request for any loaded tenant, dropped while it waits. */
  lemma LeakIsReachable(e: Env, loaded: map<TenantId, Digest>, request: Handler, t: HandlerId, r: RequestId)
    requires request.Image? && Fresh(request) && request.id in loaded
    requires ImageRequestOk(request.id, request.filename, request.expires, request.sig)
    ensures var end := Exec(e, Init(loaded), LeakSchedule(t, request, r));
            end.Some? && Leaked(end.value, t) && Reachable(e, loaded, end.value)
  {
    var s := Init(loaded);
    AcceptedIsComplete(request.id, request.filename, request.expires, request.sig);
    ArrivalRuns(e, s, t, request, r);
    var s3 := With(s.(channels := s.channels[r := Channel(t, None, Empty)]), t, request.(ipc := ImgWantInflight, rid := Some(r)));
    var s7 := LockingRuns(e, s3, t);
    var s9 := UnlockingRuns(e, s7, t);
    DropRuns(e, s9, t);
    hide Exec;
    ExecJoins(e, s, Arriving(t, request, r), Locking(t));
    ExecJoins(e, s, Arriving(t, request, r) + Locking(t), Unlocking(t));
    ExecJoins(e, s, Arriving(t, request, r) + Locking(t) + Unlocking(t), [Run(t, Disconnect)]);
  }

  lemma ArrivalRuns(e: Env, s: State, t: HandlerId, request: Handler, r: RequestId)
    requires t !in s.handlers && t !in s.readers && s.writer.None? && r !in s.channels
    requires request.Image? && Fresh(request) && request.id in s.tables.tenants
    requires ImageRequestOk(request.id, request.filename, request.expires, request.sig)
    ensures Exec(e, s, Arriving(t, request, r)) ==
              Some(With(s.(channels := s.channels[r := Channel(t, None, Empty)]), t, request.(ipc := ImgWantInflight, rid := Some(r))))
  {
    AcceptedIsComplete(request.id, request.filename, request.expires, request.sig);
    hide ImageRequestOk;
    var s1 := With(s, t, request);
    var s2 := With(s.(readers := s.readers + {t}), t, request.(ipc := ImgReading));
    var s3 := With(s.(channels := s.channels[r := Channel(t, None, Empty)]), t, request.(ipc := ImgWantInflight, rid := Some(r)));
    Overwrite(s.handlers, t, s1.handlers[t], s2.handlers[t]);
    Overwrite(s.handlers, t, s2.handlers[t], s3.handlers[t]);
    assert s.readers + {t} - {t} == s.readers;
    assert Next(e, s, Spawn(t, request)) == Some(s1);
    assert Next(e, s1, Run(t, Go)) == Some(s2);
    assert Next(e, s2, Run(t, Draw(r))) == Some(s3);
    ExecStep(e, s, Spawn(t, request), [Run(t, Go), Run(t, Draw(r))], s1);
    ExecStep(e, s1, Run(t, Go), [Run(t, Draw(r))], s2);
    ExecStep(e, s2, Run(t, Draw(r)), [], s3);
  }

  lemma LockingRuns(e: Env, s: State, t: HandlerId) returns (end: State)
    requires t in s.handlers && s.handlers[t].Image? && ImageTyped(s.handlers[t]) && s.handlers[t].ipc.ImgWantInflight?
    requires s.handlers[t].id in s.tables.tenants && s.tables.tenants[s.handlers[t].id].queue == []
    requires s.inflightLock.None? && s.queueLock == map[] && s.tables.inflight == map[]
    ensures Exec(e, s, Locking(t)) == Some(end)
    ensures end == With(s.(tables := Enqueue(s.tables, s.handlers[t].id, JobOf(s.handlers[t])), inflightLock := Some(t),
                           queueLock := map[s.handlers[t].id := t]), t, s.handlers[t].(ipc := ImgInserted, inserted := true))
  {
    var h, id := s.handlers[t], s.handlers[t].id;
    var locked := s.(inflightLock := Some(t));
    var both := locked.(queueLock := map[id := t]);
    var s1 := With(locked, t, h.(ipc := ImgHasInflight));
    var s2 := With(locked, t, h.(ipc := ImgWantQueue));
    var s3 := With(both, t, h.(ipc := ImgHasQueue));
    end := With(both.(tables := Enqueue(s.tables, id, JobOf(h))), t, h.(ipc := ImgInserted, inserted := true));
    Overwrite(s.handlers, t, s1.handlers[t], s2.handlers[t]);
    Overwrite(s.handlers, t, s2.handlers[t], s3.handlers[t]);
    Overwrite(s.handlers, t, s3.handlers[t], end.handlers[t]);
    hide Enqueue;
    assert Next(e, s, Run(t, Go)) == Some(s1);
    assert Next(e, s1, Run(t, Go)) == Some(s2);
    assert Next(e, s2, Run(t, Go)) == Some(s3);
    assert Next(e, s3, Run(t, Go)) == Some(end);
    ExecStep(e, s, Run(t, Go), [Run(t, Go), Run(t, Go), Run(t, Go)], s1);
    ExecStep(e, s1, Run(t, Go), [Run(t, Go), Run(t, Go)], s2);
    ExecStep(e, s2, Run(t, Go), [Run(t, Go)], s3);
    ExecStep(e, s3, Run(t, Go), [], end);
  }

  lemma UnlockingRuns(e: Env, s: State, t: HandlerId) returns (end: State)
    requires t in s.handlers && s.handlers[t].Image? && ImageTyped(s.handlers[t]) && s.handlers[t].ipc.ImgInserted?
    ensures Exec(e, s, Unlocking(t)) == Some(end)
    ensures end == With(s.(queueLock := s.queueLock - {s.handlers[t].id}, inflightLock := None), t, s.handlers[t].(ipc := ImgWaiting))
  {
    var h := s.handlers[t];
    var freed := s.(queueLock := s.queueLock - {h.id});
    var s1 := With(freed, t, h.(ipc := ImgHoldsInflight));
    end := With(freed.(inflightLock := None), t, h.(ipc := ImgWaiting));
    Overwrite(s.handlers, t, s1.handlers[t], end.handlers[t]);
    assert Next(e, s, Run(t, Go)) == Some(s1);
    assert Next(e, s1, Run(t, Go)) == Some(end);
    ExecStep(e, s, Run(t, Go), [Run(t, Go)], s1);
    ExecStep(e, s1, Run(t, Go), [], end);
  }

  lemma DropRuns(e: Env, s: State, t: HandlerId)
    requires t in s.handlers && s.handlers[t].Image? && ImageTyped(s.handlers[t]) && s.handlers[t].ipc.ImgWaiting?
    requires s.handlers[t].rid.value in s.channels && s.handlers[t].rid.value in s.tables.inflight
    ensures var end := Exec(e, s, [Run(t, Disconnect)]); end.Some? && Leaked(end.value, t)
  {
    ExecStep(e, s, Run(t, Disconnect), [], Next(e, s, Run(t, Disconnect)).value);
  }

  /** Conservation: a pushed job is queued exactly once, or was handed out exactly once, or its own handler
      finished; it is never in two of the first two places, and no other tenant has it. */
  lemma JobsAreConserved(e: Env, loaded: map<TenantId, Digest>, s: State, id: TenantId, i: nat)
    requires Reachable(e, loaded, s) && id in s.tables.tenants && i < |s.tables.tenants[id].pushed|
    ensures var tenant := s.tables.tenants[id];
            var j := tenant.pushed[i];
            && multiset(tenant.pushed)[j] == 1
            && multiset(tenant.queue)[j] + multiset(tenant.handed)[j] <= 1
            && (j !in tenant.queue && j !in tenant.handed ==> FinishedId(s, j.requestId))
            && (FinishedId(s, j.requestId) ==> j !in tenant.queue)
            && (forall other, k :: other in s.tables.tenants && k in s.tables.tenants[other].pushed && k.requestId == j.requestId ==>
                  other == id && k == j)
  {
    ReachableInv(e, loaded, s);
    assert TenantOk(s, id);
    var tenant := s.tables.tenants[id];
    var j := tenant.pushed[i];
    DistinctCount(tenant.pushed, j);
    SubsequenceDistinct(tenant.handed + tenant.queue, tenant.pushed);
    DistinctCount(tenant.handed + tenant.queue, j);
    assert multiset(tenant.handed + tenant.queue) == multiset(tenant.handed) + multiset(tenant.queue);
    if FinishedId(s, j.requestId) {
      assert JobOwned(s, id, j);
      NothingQueued(s, s.channels[j.requestId].owner);
    }
    forall other, k | other in s.tables.tenants && k in s.tables.tenants[other].pushed && k.requestId == j.requestId
      ensures other == id && k == j
    {
      assert TenantOk(s, other) && JobOwned(s, other, k) && JobOwned(s, id, j);
    }
  }

  lemma {:induction false} DistinctCount(jobs: seq<Job>, j: Job)
    requires DistinctIds(jobs)
    ensures multiset(jobs)[j] == if j in jobs then 1 else 0
  {
    if jobs != [] {
      var n := |jobs| - 1;
      DistinctCount(jobs[..n], j);
      assert jobs == jobs[..n] + [jobs[n]];
    }
  }

  lemma PollIsKnown(s: State, p: HandlerId)
    requires Inv(s) && p in s.handlers && s.handlers[p].Poll? && s.handlers[p].ppc.PollGiven?
    ensures PollOk(s, p, s.handlers[p]) && Authenticated(s, s.handlers[p].id, s.handlers[p].bearer)
  {
    assert HandlerOk(s, p);
  }

  /** Jobs are handed out in the order they were pushed, each to exactly one poll of its tenant. */
  lemma HandedInOrder(e: Env, loaded: map<TenantId, Digest>, s: State, id: TenantId)
    requires Reachable(e, loaded, s) && id in s.tables.tenants
    ensures Subsequence(s.tables.tenants[id].handed, s.tables.tenants[id].pushed)
    ensures forall j <- s.tables.tenants[id].handed :: GivenTo(s, id, j) && HoldsSecret(s, id, s.handlers[s.handedTo[j.requestId]].bearer)
    ensures forall p :: p in s.handlers && s.handlers[p].Poll? && s.handlers[p].ppc.PollGiven? && s.handlers[p].id == id ==>
              && s.handlers[p].job.Some? && s.handlers[p].job.value in s.tables.tenants[id].handed
              && s.handlers[p].job.value.requestId in s.handedTo && s.handedTo[s.handlers[p].job.value.requestId] == p
  {
    ReachableInv(e, loaded, s);
    assert TenantOk(s, id);
    hide Inv;
    var tenant := s.tables.tenants[id];
    HandedPrefix(tenant.handed, tenant.queue, tenant.pushed);
    forall j | j in tenant.handed
      ensures GivenTo(s, id, j) && HoldsSecret(s, id, s.handlers[s.handedTo[j.requestId]].bearer)
    {
      assert GivenTo(s, id, j);
      AuthenticatedIff(s, id, s.handlers[s.handedTo[j.requestId]].bearer);
      PollIsKnown(s, s.handedTo[j.requestId]);
    }
    forall p | p in s.handlers && s.handlers[p].Poll? && s.handlers[p].ppc.PollGiven? && s.handlers[p].id == id
      ensures s.handlers[p].job.Some? && s.handlers[p].job.value in tenant.handed
      ensures s.handlers[p].job.value.requestId in s.handedTo && s.handedTo[s.handlers[p].job.value.requestId] == p
    {
      PollIsKnown(s, p);
    }
  }

  lemma {:induction false} HandedPrefix(a: seq<Job>, b: seq<Job>, all: seq<Job>)
    requires Subsequence(a + b, all)
    ensures Subsequence(a, all)
    decreases |b|
  {
    if b == [] {
      assert a + b == a;
    } else {
      SubsequenceInit(a + b, all);
      assert (a + b)[..|a + b| - 1] == a + b[..|b| - 1];
      HandedPrefix(a, b[..|b| - 1], all);
    }
  }

  /** The table limits hold in every reachable state. */
  lemma LimitsHold(e: Env, loaded: map<TenantId, Digest>, s: State)
    requires Reachable(e, loaded, s)
    ensures |s.tables.inflight| <= 1024
    ensures forall id :: id in s.tables.tenants ==> |s.tables.tenants[id].queue| <= 16
    ensures |loaded| <= 10000 ==> |s.tables.tenants| <= 10000
  {
    ReachableInv(e, loaded, s);
    var schedule :| Exec(e, Init(loaded), schedule) == Some(s);
    forall id | id in s.tables.tenants ensures |s.tables.tenants[id].queue| <= MAX_QUEUED_PER_TENANT {
      assert TenantOk(s, id);
    }
    if |loaded| <= MAX_TENANTS {
      assert Init(loaded).tables.tenants.Keys == loaded.Keys;
      InitInv(loaded);
      TenantLimit(e, Init(loaded), schedule);
    }
  }

  lemma SmallerMap<K, V>(a: map<K, V>, b: map<K, V>)
    ensures b.Keys <= a.Keys ==> |b| <= |a|
    ensures forall k :: b.Keys == a.Keys + {k} ==> |b| <= |a| + 1
  {
    if b.Keys <= a.Keys {
      assert a.Keys == b.Keys + (a.Keys - b.Keys);
    }
    forall k | b.Keys == a.Keys + {k} ensures |b| <= |a| + 1 {
      assert |a.Keys + {k}| <= |a.Keys| + 1;
    }
  }

  lemma TenantStep(e: Env, s: State, event: Event)
    requires Next(e, s, event).Some? && |s.tables.tenants| <= MAX_TENANTS
    requires event.Run? ==> Guarantee(s, Next(e, s, event).value, event.runs)
    ensures |Next(e, s, event).value.tables.tenants| <= MAX_TENANTS
  {
    SmallerMap(s.tables.tenants, Next(e, s, event).value.tables.tenants);
    if event.Run? {
      hide Next;
    }
  }

  lemma {:induction false} TenantLimit(e: Env, s: State, schedule: seq<Event>)
    requires Inv(s) && |s.tables.tenants| <= MAX_TENANTS && Exec(e, s, schedule).Some?
    ensures |Exec(e, s, schedule).value.tables.tenants| <= MAX_TENANTS
    decreases |schedule|
  {
    hide Next;
    hide Inv;
    if schedule != [] {
      StepKeepsInv(e, s, schedule[0]);
      TenantStep(e, s, schedule[0]);
      TenantLimit(e, Next(e, s, schedule[0]).value, schedule[1..]);
    }
  }
}
