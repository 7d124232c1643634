/** Blind tunnels as an interleaved machine: tunnel tasks, connection tasks and registrations share the slot
    table under one lock; receivers give up at any time, also in the middle of a hand-off loop. */
module BlindMachine {
  import opened Prelude
  import opened BlindSlots

  datatype TunnelPc =
    | TunWant | TunHas | TunRefusing | TunWaiting | TunWantAgain | TunHasAgain | TunBridging | TunClosed

  datatype RoutePc = RtArrived | RtWant | RtLooping | RtDelivered | RtFailed | RtPanicked

  datatype Handler =
    | Tunnel(tenant: TenantId, tpc: TunnelPc, slot: Option<SlotId>)
    | Route(serverName: string, named: Option<TenantId>, rpc: RoutePc, pending: bool, given: Option<SlotId>)

  datatype Slot = Slot(tenant: TenantId, owner: HandlerId, cell: Cell)

  datatype State = State(
    tenants: set<TenantId>, slots: map<TenantId, seq<SlotId>>, lock: Option<HandlerId>,
    made: map<SlotId, Slot>, next: SlotId, handlers: map<HandlerId, Handler>)

  datatype Event = Register(tenant: TenantId) | Spawn(handler: HandlerId, task: Handler) | Run(runs: HandlerId, timesOut: bool)

  function With(s: State, t: HandlerId, h: Handler): State {
    s.(handlers := s.handlers[t := h])
  }

  predicate IsClosed(s: State, k: SlotId) {
    k in s.made && s.made[k].cell.GaveUp?
  }

  /** The deque without the senders whose receiver is gone. */
  function Open(s: State, deque: seq<SlotId>): (r: seq<SlotId>)
    ensures forall k <- r :: k in deque && !IsClosed(s, k)
    ensures forall k <- deque :: !IsClosed(s, k) ==> k in r
    ensures |r| <= |deque|
  {
    if deque == [] then []
    else
      var rest := Open(s, deque[..|deque| - 1]);
      if IsClosed(s, deque[|deque| - 1]) then rest else rest + [deque[|deque| - 1]]
  }

  function NextTunnel(s: State, t: HandlerId, h: Handler, timesOut: bool): Option<State>
    requires h.Tunnel?
  {
    match h.tpc
    case TunWant => if s.lock.Some? then None else Some(With(s.(lock := Some(t)), t, h.(tpc := TunHas)))
    case TunHas =>
      var deque := if h.tenant in s.slots then s.slots[h.tenant] else [];
      if |deque| >= MAX_BLIND_SLOTS_PER_TENANT then Some(With(s, t, h.(tpc := TunRefusing)))
      else
        Some(With(s.(slots := s.slots[h.tenant := deque + [s.next]], made := s.made[s.next := Slot(h.tenant, t, Live)],
                     next := s.next + 1, lock := None), t, h.(tpc := TunWaiting, slot := Some(s.next))))
    case TunRefusing => Some(With(s.(lock := None), t, h.(tpc := TunClosed)))
    case TunWaiting =>
      if h.slot.None? || h.slot.value !in s.made then None
      else
        var made := s.made[h.slot.value];
        if timesOut then
          var cell := if made.cell.Live? then GaveUp else made.cell;
          Some(With(s.(made := s.made[h.slot.value := made.(cell := cell)]), t, h.(tpc := TunWantAgain)))
        else if made.cell.Fired? then Some(With(s, t, h.(tpc := TunBridging)))
        else None
    case TunWantAgain => if s.lock.Some? then None else Some(With(s.(lock := Some(t)), t, h.(tpc := TunHasAgain)))
    case TunHasAgain =>
      var slots :=
        if h.tenant !in s.slots then s.slots
        else
          var open := Open(s, s.slots[h.tenant]);
          if open == [] then s.slots - {h.tenant} else s.slots[h.tenant := open];
      Some(With(s.(slots := slots, lock := None), t, h.(tpc := TunClosed)))
    case _ => None
  }

  function NextRoute(suffix: string, s: State, t: HandlerId, h: Handler): Option<State>
    requires h.Route?
  {
    match h.rpc
    case RtArrived =>
      var named := TenantFromServerName(h.serverName, suffix);
      if named.None? || named.value !in s.tenants then Some(With(s, t, h.(rpc := RtFailed)))
      else Some(With(s, t, h.(rpc := RtWant, named := named, pending := true)))
    case RtWant =>
      if s.lock.Some? || h.named.None? then None
      else if h.named.value !in s.slots then Some(With(s, t, h.(rpc := RtFailed)))
      else Some(With(s.(lock := Some(t)), t, h.(rpc := RtLooping)))
    case RtLooping =>
      if h.named.None? || h.named.value !in s.slots then None
      else
        var id, deque := h.named.value, s.slots[h.named.value];
        if deque == [] then Some(With(s.(slots := s.slots - {id}, lock := None), t, h.(rpc := RtFailed)))
        else if !h.pending then Some(With(s, t, h.(rpc := RtPanicked)))
        else
          var k, rest := deque[0], deque[1..];
          if k in s.made && s.made[k].cell.Live? then
            Some(With(s.(slots := if rest == [] then s.slots - {id} else s.slots[id := rest], lock := None,
                         made := s.made[k := s.made[k].(cell := Fired(t))]), t,
                      h.(rpc := RtDelivered, pending := false, given := Some(k))))
          else Some(With(s.(slots := s.slots[id := rest]), t, h.(pending := true)))
    case _ => None
  }

  /** A tunnel task starts after authentication, so its tenant is registered. */
  predicate Fresh(s: State, h: Handler) {
    match h
    case Tunnel(tenant, pc, slot) => pc.TunWant? && slot.None? && tenant in s.tenants
    case Route(_, named, pc, pending, given) => pc.RtArrived? && named.None? && !pending && given.None?
  }

  function Next(suffix: string, s: State, ev: Event): Option<State> {
    match ev
    case Register(tenant) => Some(s.(tenants := s.tenants + {tenant}))
    case Spawn(t, h) => if t !in s.handlers && Fresh(s, h) then Some(With(s, t, h)) else None
    case Run(t, timesOut) =>
      if t !in s.handlers then None
      else if s.handlers[t].Tunnel? then NextTunnel(s, t, s.handlers[t], timesOut)
      else NextRoute(suffix, s, t, s.handlers[t])
  }

  function Exec(suffix: string, s: State, schedule: seq<Event>): Option<State>
    decreases |schedule|
  {
    if schedule == [] then Some(s)
    else
      match Next(suffix, s, schedule[0])
      case None => None
      case Some(s1) => Exec(suffix, s1, schedule[1..])
  }

  predicate HoldsLock(h: Handler) {
    match h
    case Tunnel(_, pc, _) => pc.TunHas? || pc.TunRefusing? || pc.TunHasAgain?
    case Route(_, _, pc, _, _) => pc.RtLooping?
  }

  predicate HandlerOk(suffix: string, s: State, t: HandlerId)
    requires t in s.handlers
  {
    var h := s.handlers[t];
    && (HoldsLock(h) ==> s.lock == Some(t))
    && match h
       case Tunnel(tenant, pc, slot) =>
         && tenant in s.tenants
         && (slot.Some? <==> pc.TunWaiting? || pc.TunWantAgain? || pc.TunHasAgain? || pc.TunBridging? || (pc.TunClosed? && slot.Some?))
         && (slot.Some? ==> slot.value in s.made && s.made[slot.value].owner == t && s.made[slot.value].tenant == tenant)
         && (slot.Some? && !pc.TunWaiting? ==> !s.made[slot.value].cell.Live?)
         && (pc.TunBridging? ==> s.made[slot.value].cell.Fired?)
         && (pc.TunRefusing? ==> tenant in s.slots && s.slots[tenant] != [])
       case Route(serverName, named, pc, pending, given) =>
         && !pc.RtPanicked?
         && (pc.RtWant? || pc.RtLooping? || pc.RtDelivered? ==>
               named.Some? && Names(serverName, suffix, named.value) && named.value in s.tenants)
         && (pc.RtWant? || pc.RtLooping? ==> pending)
         && (pc.RtLooping? ==> named.value in s.slots)
         && (given.Some? <==> pc.RtDelivered?)
         && (pc.RtDelivered? ==> given.value in s.made && s.made[given.value].cell == Fired(t)
                                 && s.made[given.value].tenant == named.value)
  }

  predicate SlotOk(s: State, k: SlotId)
    requires k in s.made
  {
    var slot := s.made[k];
    && k < s.next && slot.owner in s.handlers && s.handlers[slot.owner].Tunnel? && s.handlers[slot.owner].slot == Some(k)
    && (slot.cell.Live? ==> slot.tenant in s.slots && k in s.slots[slot.tenant])
    && (slot.cell.Fired? ==>
          && slot.cell.connection in s.handlers && s.handlers[slot.cell.connection].Route?
          && s.handlers[slot.cell.connection].rpc.RtDelivered? && s.handlers[slot.cell.connection].given == Some(k))
  }

  predicate InLoopFor(s: State, id: TenantId) {
    s.lock.Some? && s.lock.value in s.handlers && s.handlers[s.lock.value].Route?
    && s.handlers[s.lock.value].rpc.RtLooping? && s.handlers[s.lock.value].named == Some(id)
  }

  predicate Increasing(deque: seq<SlotId>) {
    forall i, j :: 0 <= i < j < |deque| ==> deque[i] < deque[j]
  }

  predicate DequeOk(s: State, id: TenantId)
    requires id in s.slots
  {
    var deque := s.slots[id];
    && |deque| <= MAX_BLIND_SLOTS_PER_TENANT && Increasing(deque)
    && (forall k <- deque :: k in s.made && s.made[k].tenant == id && !s.made[k].cell.Fired?)
    && (deque == [] ==> InLoopFor(s, id))
  }

  ghost predicate HandlersOk(suffix: string, s: State) {
    && (s.lock.Some? ==> s.lock.value in s.handlers && HoldsLock(s.handlers[s.lock.value]))
    && (forall t :: t in s.handlers ==> HandlerOk(suffix, s, t))
  }

  ghost predicate SlotsOk(s: State) {
    forall k :: k in s.made ==> SlotOk(s, k)
  }

  ghost predicate DequesOk(s: State) {
    forall id :: id in s.slots ==> DequeOk(s, id)
  }

  ghost predicate Inv(suffix: string, s: State) {
    HandlersOk(suffix, s) && SlotsOk(s) && DequesOk(s)
  }

  lemma {:induction false} OpenIncreasing(s: State, deque: seq<SlotId>)
    requires Increasing(deque)
    ensures Increasing(Open(s, deque))
  {
    if deque != [] {
      var init := deque[..|deque| - 1];
      OpenIncreasing(s, init);
      var rest := Open(s, init);
      forall i | 0 <= i < |rest| ensures rest[i] < deque[|deque| - 1] {
        assert rest[i] in init;
      }
    }
  }

  lemma IncreasingSnoc(deque: seq<SlotId>, k: SlotId)
    requires Increasing(deque) && forall i <- deque :: i < k
    ensures Increasing(deque + [k])
  {
    forall i | 0 <= i < |deque| ensures deque[i] < k {
      assert deque[i] in deque;
    }
  }

  /** The tunnel puts a new slot at the end of its tenant's deque. */
  predicate Opens(s: State, s': State, t: HandlerId) {
    && t in s.handlers && s.handlers[t].Tunnel? && s.handlers[t].tpc.TunHas?
    && var h := s.handlers[t];
    && var deque := if h.tenant in s.slots then s.slots[h.tenant] else [];
    && |deque| < MAX_BLIND_SLOTS_PER_TENANT
    && s' == With(s.(slots := s.slots[h.tenant := deque + [s.next]], made := s.made[s.next := Slot(h.tenant, t, Live)],
                     next := s.next + 1, lock := None), t, h.(tpc := TunWaiting, slot := Some(s.next)))
  }

  lemma OpensHandlers(suffix: string, s: State, s': State, t: HandlerId)
    requires Inv(suffix, s) && Opens(s, s', t)
    ensures HandlersOk(suffix, s')
  {
    hide DequesOk;
    forall u | u in s'.handlers ensures HandlerOk(suffix, s', u) {
      assert u in s.handlers ==> HandlerOk(suffix, s, u);
    }
  }

  lemma OpensSlots(suffix: string, s: State, s': State, t: HandlerId)
    requires Inv(suffix, s) && Opens(s, s', t)
    ensures SlotsOk(s')
  {
    assert HandlerOk(suffix, s, t);
    hide DequesOk;
    forall k | k in s'.made ensures SlotOk(s', k) {
      if k != s.next {
        assert SlotOk(s, k);
      }
    }
  }

  lemma OpensDeques(suffix: string, s: State, s': State, t: HandlerId)
    requires Inv(suffix, s) && Opens(s, s', t)
    ensures DequesOk(s')
  {
    var id := s.handlers[t].tenant;
    var deque := if id in s.slots then s.slots[id] else [];
    assert HandlerOk(suffix, s, t) && (id in s.slots ==> DequeOk(s, id));
    forall k <- deque ensures k < s.next {
      assert SlotOk(s, k);
    }
    IncreasingSnoc(deque, s.next);
    hide HandlersOk;
    forall other | other in s'.slots ensures DequeOk(s', other) {
      if other != id {
        assert DequeOk(s, other);
      }
    }
  }

  lemma TunnelOpens(suffix: string, s: State, s': State, t: HandlerId)
    requires Inv(suffix, s) && Opens(s, s', t)
    ensures Inv(suffix, s')
  {
    OpensHandlers(suffix, s, s', t);
    OpensSlots(suffix, s, s', t);
    OpensDeques(suffix, s, s', t);
  }

  lemma TunnelIsRefused(suffix: string, s: State, s': State, t: HandlerId)
    requires Inv(suffix, s) && t in s.handlers && s.handlers[t].Tunnel? && s.handlers[t].tpc.TunHas?
    requires s.handlers[t].tenant in s.slots && |s.slots[s.handlers[t].tenant]| >= MAX_BLIND_SLOTS_PER_TENANT
    requires s' == With(s, t, s.handlers[t].(tpc := TunRefusing))
    ensures Inv(suffix, s')
  {
  }

  lemma TunnelBridges(suffix: string, s: State, s': State, t: HandlerId, k: SlotId)
    requires Inv(suffix, s) && t in s.handlers && s.handlers[t].Tunnel? && s.handlers[t].tpc.TunWaiting? && s.handlers[t].slot == Some(k)
    requires k in s.made && s.made[k].cell.Fired? && s' == With(s, t, s.handlers[t].(tpc := TunBridging))
    ensures Inv(suffix, s')
  {
  }

  /** The tunnel's wait ends by time-out; a slot that was not taken is given up. */
  predicate GivesUpSlot(s: State, s': State, t: HandlerId, k: SlotId) {
    && t in s.handlers && s.handlers[t].Tunnel? && s.handlers[t].tpc.TunWaiting? && s.handlers[t].slot == Some(k) && k in s.made
    && s' == With(s.(made := s.made[k := s.made[k].(cell := if s.made[k].cell.Live? then GaveUp else s.made[k].cell)]), t,
                  s.handlers[t].(tpc := TunWantAgain))
  }

  lemma GivesUpSlotHandlers(suffix: string, s: State, s': State, t: HandlerId, k: SlotId)
    requires Inv(suffix, s) && GivesUpSlot(s, s', t, k)
    ensures HandlersOk(suffix, s')
  {
    assert SlotOk(s, k);
    hide DequesOk;
    hide SlotsOk;
    forall u | u in s'.handlers ensures HandlerOk(suffix, s', u) {
      assert HandlerOk(suffix, s, u);
    }
  }

  lemma GivesUpSlotSlots(suffix: string, s: State, s': State, t: HandlerId, k: SlotId)
    requires Inv(suffix, s) && GivesUpSlot(s, s', t, k)
    ensures SlotsOk(s')
  {
    hide DequesOk;
    hide HandlersOk;
    forall j | j in s'.made ensures SlotOk(s', j) {
      assert SlotOk(s, j);
    }
  }

  lemma GivesUpSlotDeques(suffix: string, s: State, s': State, t: HandlerId, k: SlotId)
    requires Inv(suffix, s) && GivesUpSlot(s, s', t, k)
    ensures DequesOk(s')
  {
    hide HandlersOk;
    hide SlotsOk;
    forall id | id in s'.slots ensures DequeOk(s', id) {
      assert DequeOk(s, id);
    }
  }

  lemma TunnelGivesUp(suffix: string, s: State, s': State, t: HandlerId, k: SlotId)
    requires Inv(suffix, s) && GivesUpSlot(s, s', t, k)
    ensures Inv(suffix, s')
  {
    GivesUpSlotHandlers(suffix, s, s', t, k);
    GivesUpSlotSlots(suffix, s, s', t, k);
    GivesUpSlotDeques(suffix, s, s', t, k);
  }

  /** The tunnel drops the closed slots of its tenant. */
  predicate DropsClosed(s: State, s': State, t: HandlerId) {
    && t in s.handlers && s.handlers[t].Tunnel? && s.handlers[t].tpc.TunHasAgain?
    && var id := s.handlers[t].tenant;
    && var slots := if id !in s.slots then s.slots
                    else if Open(s, s.slots[id]) == [] then s.slots - {id} else s.slots[id := Open(s, s.slots[id])];
    s' == With(s.(slots := slots, lock := None), t, s.handlers[t].(tpc := TunClosed))
  }

  lemma DropsClosedHandlers(suffix: string, s: State, s': State, t: HandlerId)
    requires Inv(suffix, s) && DropsClosed(s, s', t)
    ensures HandlersOk(suffix, s')
  {
    hide DequesOk;
    hide SlotsOk;
    forall u | u in s'.handlers ensures HandlerOk(suffix, s', u) {
      assert HandlerOk(suffix, s, u);
    }
  }

  lemma DropsClosedSlots(suffix: string, s: State, s': State, t: HandlerId)
    requires Inv(suffix, s) && DropsClosed(s, s', t)
    ensures SlotsOk(s')
  {
    assert HandlerOk(suffix, s, t);
    forall k | k in s'.made ensures SlotOk(s', k) {
      assert SlotOk(s, k);
    }
  }

  lemma DropsClosedDeques(suffix: string, s: State, s': State, t: HandlerId)
    requires Inv(suffix, s) && DropsClosed(s, s', t)
    ensures DequesOk(s')
  {
    assert HandlerOk(suffix, s, t);
    if s.handlers[t].tenant in s.slots {
      OpenIncreasing(s, s.slots[s.handlers[t].tenant]);
    }
    hide HandlersOk;
    hide SlotsOk;
    forall id | id in s'.slots ensures DequeOk(s', id) {
      assert DequeOk(s, id);
    }
  }

  lemma TunnelCleans(suffix: string, s: State, s': State, t: HandlerId)
    requires Inv(suffix, s) && DropsClosed(s, s', t)
    ensures Inv(suffix, s')
  {
    DropsClosedHandlers(suffix, s, s', t);
    DropsClosedSlots(suffix, s, s', t);
    DropsClosedDeques(suffix, s, s', t);
  }

  lemma TunnelLocks(suffix: string, s: State, s': State, t: HandlerId)
    requires Inv(suffix, s) && t in s.handlers && s.handlers[t].Tunnel?
    requires s.handlers[t].tpc.TunWant? || s.handlers[t].tpc.TunRefusing? || s.handlers[t].tpc.TunWantAgain?
    requires NextTunnel(s, t, s.handlers[t], false) == Some(s')
    ensures Inv(suffix, s')
  {
  }

  lemma RouteEnters(suffix: string, s: State, s': State, t: HandlerId, named: Option<TenantId>)
    requires Inv(suffix, s) && t in s.handlers && s.handlers[t].Route? && s.handlers[t].rpc.RtArrived?
    requires || s' == With(s, t, s.handlers[t].(rpc := RtFailed))
             || (&& named.Some? && Names(s.handlers[t].serverName, suffix, named.value) && named.value in s.tenants
                 && s' == With(s, t, s.handlers[t].(rpc := RtWant, named := named, pending := true)))
    ensures Inv(suffix, s')
  {
  }

  lemma RouteLocks(suffix: string, s: State, s': State, t: HandlerId)
    requires Inv(suffix, s) && t in s.handlers && s.handlers[t].Route? && s.handlers[t].rpc.RtWant?
    requires NextRoute(suffix, s, t, s.handlers[t]) == Some(s')
    ensures Inv(suffix, s')
  {
  }

  /** The deque ran out. */
  lemma RouteExhausts(suffix: string, s: State, s': State, t: HandlerId, id: TenantId)
    requires Inv(suffix, s) && t in s.handlers && s.handlers[t].Route? && s.handlers[t].rpc.RtLooping?
    requires s.handlers[t].named == Some(id) && id in s.slots && s.slots[id] == []
    requires s' == With(s.(slots := s.slots - {id}, lock := None), t, s.handlers[t].(rpc := RtFailed))
    ensures Inv(suffix, s')
  {
  }

  /** The front slot's receiver is gone. */
  lemma RouteSkips(suffix: string, s: State, s': State, t: HandlerId, id: TenantId)
    requires Inv(suffix, s) && t in s.handlers && s.handlers[t].Route? && s.handlers[t].rpc.RtLooping?
    requires s.handlers[t].named == Some(id) && id in s.slots && s.slots[id] != []
    requires s.slots[id][0] in s.made ==> !s.made[s.slots[id][0]].cell.Live?
    requires s' == With(s.(slots := s.slots[id := s.slots[id][1..]]), t, s.handlers[t].(pending := true))
    ensures Inv(suffix, s')
  {
  }

  /** The front slot takes the connection. */
  predicate Delivers(s: State, s': State, t: HandlerId, id: TenantId, k: SlotId) {
    && t in s.handlers && s.handlers[t].Route? && s.handlers[t].rpc.RtLooping?
    && s.handlers[t].named == Some(id) && id in s.slots && s.slots[id] != [] && s.slots[id][0] == k
    && k in s.made && s.made[k].cell.Live?
    && s' == With(s.(slots := if s.slots[id][1..] == [] then s.slots - {id} else s.slots[id := s.slots[id][1..]],
                     lock := None, made := s.made[k := s.made[k].(cell := Fired(t))]), t,
                  s.handlers[t].(rpc := RtDelivered, pending := false, given := Some(k)))
  }

  lemma DeliversHandlers(suffix: string, s: State, s': State, t: HandlerId, id: TenantId, k: SlotId)
    requires Inv(suffix, s) && Delivers(s, s', t, id, k)
    ensures HandlersOk(suffix, s')
  {
    assert DequeOk(s, id) && SlotOk(s, k) && HandlerOk(suffix, s, t);
    hide DequesOk;
    hide SlotsOk;
    forall u | u in s'.handlers ensures HandlerOk(suffix, s', u) {
      assert HandlerOk(suffix, s, u);
    }
  }

  lemma DeliversSlots(suffix: string, s: State, s': State, t: HandlerId, id: TenantId, k: SlotId)
    requires Inv(suffix, s) && Delivers(s, s', t, id, k)
    ensures SlotsOk(s')
  {
    assert DequeOk(s, id) && HandlerOk(suffix, s, t);
    hide DequesOk;
    hide HandlersOk;
    forall j | j in s'.made ensures SlotOk(s', j) {
      assert SlotOk(s, j);
    }
  }

  lemma DeliversDeques(suffix: string, s: State, s': State, t: HandlerId, id: TenantId, k: SlotId)
    requires Inv(suffix, s) && Delivers(s, s', t, id, k)
    ensures DequesOk(s')
  {
    assert DequeOk(s, id) && HandlerOk(suffix, s, t);
    hide HandlersOk;
    hide SlotsOk;
    forall other | other in s'.slots ensures DequeOk(s', other) {
      assert DequeOk(s, other);
    }
  }

  lemma RouteDelivers(suffix: string, s: State, s': State, t: HandlerId, id: TenantId, k: SlotId)
    requires Inv(suffix, s) && Delivers(s, s', t, id, k)
    ensures Inv(suffix, s')
  {
    DeliversHandlers(suffix, s, s', t, id, k);
    DeliversSlots(suffix, s, s', t, id, k);
    DeliversDeques(suffix, s, s', t, id, k);
  }

  lemma SpawnKeepsInv(suffix: string, s: State, t: HandlerId, h: Handler)
    requires Inv(suffix, s) && t !in s.handlers && Fresh(s, h)
    ensures Inv(suffix, With(s, t, h))
  {
  }

  lemma RegisterKeepsInv(suffix: string, s: State, id: TenantId)
    requires Inv(suffix, s)
    ensures Inv(suffix, s.(tenants := s.tenants + {id}))
  {
  }

  /** Every step keeps the invariant. */
  lemma StepKeepsInv(suffix: string, s: State, ev: Event)
    requires Inv(suffix, s) && Next(suffix, s, ev).Some?
    ensures Inv(suffix, Next(suffix, s, ev).value)
  {
    var s' := Next(suffix, s, ev).value;
    match ev
    case Register(id) => RegisterKeepsInv(suffix, s, id);
    case Spawn(t, h) => SpawnKeepsInv(suffix, s, t, h);
    case Run(t, timesOut) =>
      var h := s.handlers[t];
      match h
      case Tunnel(_, pc, _) =>
        match pc {
          case TunHas =>
            if h.tenant in s.slots && |s.slots[h.tenant]| >= MAX_BLIND_SLOTS_PER_TENANT {
              TunnelIsRefused(suffix, s, s', t);
            } else {
              TunnelOpens(suffix, s, s', t);
            }
          case TunWaiting =>
            if timesOut {
              TunnelGivesUp(suffix, s, s', t, h.slot.value);
            } else {
              TunnelBridges(suffix, s, s', t, h.slot.value);
            }
          case TunHasAgain => TunnelCleans(suffix, s, s', t);
          case _ => TunnelLocks(suffix, s, s', t);
        }
      case Route(_, named, pc, pending, _) =>
        assert HandlerOk(suffix, s, t);
        if pc.RtArrived? {
          RouteEnters(suffix, s, s', t, TenantFromServerName(h.serverName, suffix));
        } else if pc.RtWant? {
          RouteLocks(suffix, s, s', t);
        } else if s.slots[named.value] == [] {
          RouteExhausts(suffix, s, s', t, named.value);
        } else if s.slots[named.value][0] in s.made && s.made[s.slots[named.value][0]].cell.Live? {
          RouteDelivers(suffix, s, s', t, named.value, s.slots[named.value][0]);
        } else {
          RouteSkips(suffix, s, s', t, named.value);
        }
  }

  lemma {:induction false} RunKeepsInv(suffix: string, s: State, schedule: seq<Event>)
    requires Inv(suffix, s) && Exec(suffix, s, schedule).Some?
    ensures Inv(suffix, Exec(suffix, s, schedule).value)
    decreases |schedule|
  {
    if schedule != [] {
      StepKeepsInv(suffix, s, schedule[0]);
      RunKeepsInv(suffix, Next(suffix, s, schedule[0]).value, schedule[1..]);
    }
  }

  ghost predicate Reachable(suffix: string, tenants: set<TenantId>, s: State) {
    exists schedule :: Exec(suffix, State(tenants, map[], None, map[], 0, map[]), schedule) == Some(s)
  }

  lemma ReachableInv(suffix: string, tenants: set<TenantId>, s: State)
    requires Reachable(suffix, tenants, s)
    ensures Inv(suffix, s)
  {
    var schedule :| Exec(suffix, State(tenants, map[], None, map[], 0, map[]), schedule) == Some(s);
    RunKeepsInv(suffix, State(tenants, map[], None, map[], 0, map[]), schedule);
  }

  /** In every run: a delivered connection went to exactly one slot, of the registered tenant its server name
      names, and that slot took no other connection. */
  lemma EachSlotFiresOnce(suffix: string, tenants: set<TenantId>, s: State, c: HandlerId, d: HandlerId)
    requires Reachable(suffix, tenants, s)
    requires c in s.handlers && s.handlers[c].Route? && s.handlers[c].rpc.RtDelivered?
    requires d in s.handlers && s.handlers[d].Route? && s.handlers[d].rpc.RtDelivered?
    ensures var k := s.handlers[c].given;
            && k.Some? && k.value in s.made
            && Names(s.handlers[c].serverName, suffix, s.made[k.value].tenant) && s.made[k.value].tenant in s.tenants
            && (forall j :: j in s.made && s.made[j].cell == Fired(c) ==> j == k.value)
            && (s.handlers[d].given == k ==> d == c)
  {
    ReachableInv(suffix, tenants, s);
    assert HandlerOk(suffix, s, c) && HandlerOk(suffix, s, d);
    forall j | j in s.made && s.made[j].cell == Fired(c) ensures Some(j) == s.handlers[c].given {
      assert SlotOk(s, j);
    }
  }

  /** The hand-off picks the oldest slot of the tenant that is still waiting. */
  lemma DeliversToOldestLive(suffix: string, tenants: set<TenantId>, s: State, s': State, c: HandlerId, j: SlotId)
    requires Reachable(suffix, tenants, s) && Next(suffix, s, Run(c, false)) == Some(s') && c in s.handlers
    requires s.handlers[c].Route? && s.handlers[c].rpc.RtLooping? && s'.handlers[c].rpc.RtDelivered?
    requires j in s.made && s.made[j].cell.Live? && Names(s.handlers[c].serverName, suffix, s.made[j].tenant)
    ensures s'.handlers[c].given.Some? && s'.handlers[c].given.value <= j
    ensures s.made[s'.handlers[c].given.value].cell.Live?
  {
    ReachableInv(suffix, tenants, s);
    assert HandlerOk(suffix, s, c) && SlotOk(s, j);
    NamedTenant(s.handlers[c].serverName, suffix, s.made[j].tenant);
    NamedTenant(s.handlers[c].serverName, suffix, s.handlers[c].named.value);
    var deque := s.slots[s.made[j].tenant];
    assert DequeOk(s, s.made[j].tenant);
    var i :| 0 <= i < |deque| && deque[i] == j;
  }

  /** At most eight slots are queued per tenant; outside the lock no deque is empty; the loop never finds its
      connection missing. */
  lemma SlotTableLimits(suffix: string, tenants: set<TenantId>, s: State)
    requires Reachable(suffix, tenants, s)
    ensures forall id :: id in s.slots ==> |s.slots[id]| <= 8
    ensures s.lock.None? ==> forall id :: id in s.slots ==> s.slots[id] != []
    ensures forall t :: t in s.handlers && s.handlers[t].Route? ==> !s.handlers[t].rpc.RtPanicked?
  {
    ReachableInv(suffix, tenants, s);
    forall id | id in s.slots
      ensures |s.slots[id]| <= MAX_BLIND_SLOTS_PER_TENANT && (s.lock.None? ==> s.slots[id] != [])
    {
      assert DequeOk(s, id);
    }
    forall t | t in s.handlers && s.handlers[t].Route? ensures !s.handlers[t].rpc.RtPanicked? {
      assert HandlerOk(suffix, s, t);
    }
  }

  // ---- The loop and the method ----

  function CellsOf(s: State): map<SlotId, Cell> {
    map k | k in s.made :: s.made[k].cell
  }

  /** Connection t goes through the deque of tenant id. */
  predicate Looping(s: State, t: HandlerId, id: TenantId) {
    && t in s.handlers && s.handlers[t].Route? && s.handlers[t].rpc.RtLooping? && s.handlers[t].named == Some(id)
    && s.handlers[t].pending && id in s.slots
  }

  /** What `SlotTable.HandOff` promises, of the machine's table. */
  predicate HandedOff(s: State, end: State, t: HandlerId, id: TenantId)
    requires Looping(s, t, id)
  {
    && t in end.handlers && end.handlers[t].Route? && end.slots - {id} == s.slots - {id}
    && match FirstLive(s.slots[id], CellsOf(s))
       case Some(i) =>
         var k := s.slots[id][i];
         && end.handlers[t].rpc.RtDelivered? && end.handlers[t].given == Some(k) && CellsOf(end) == CellsOf(s)[k := Fired(t)]
         && (if i + 1 < |s.slots[id]| then id in end.slots && end.slots[id] == s.slots[id][i + 1..] else id !in end.slots)
       case None => end.handlers[t].rpc.RtFailed? && CellsOf(end) == CellsOf(s) && id !in end.slots
  }

  function Turns(t: HandlerId, n: nat): seq<Event> {
    if n == 0 then [] else [Run(t, false)] + Turns(t, n - 1)
  }

  lemma SkipTurn(suffix: string, s: State, t: HandlerId, id: TenantId) returns (s': State)
    requires Looping(s, t, id) && s.slots[id] != [] && !(s.slots[id][0] in CellsOf(s) && CellsOf(s)[s.slots[id][0]].Live?)
    ensures Next(suffix, s, Run(t, false)) == Some(s')
    ensures s' == With(s.(slots := s.slots[id := s.slots[id][1..]]), t, s.handlers[t]) && Looping(s', t, id) && CellsOf(s') == CellsOf(s)
  {
    s' := Next(suffix, s, Run(t, false)).value;
    assert s.handlers[t].(pending := true) == s.handlers[t];
  }

  lemma LastTurn(suffix: string, s: State, t: HandlerId, id: TenantId) returns (end: State)
    requires Looping(s, t, id) && (s.slots[id] == [] || (s.slots[id][0] in CellsOf(s) && CellsOf(s)[s.slots[id][0]].Live?))
    ensures Next(suffix, s, Run(t, false)) == Some(end) && HandedOff(s, end, t, id)
  {
    end := Next(suffix, s, Run(t, false)).value;
  }

  /** With nobody in between, the turns of the loop do what `SlotTable.HandOff` promises. */
  lemma {:induction false} LoopIsHandOff(suffix: string, s: State, t: HandlerId, id: TenantId) returns (n: nat, end: State)
    requires Looping(s, t, id)
    ensures Exec(suffix, s, Turns(t, n)) == Some(end) && HandedOff(s, end, t, id)
    decreases |s.slots[id]|
  {
    hide Next;
    if s.slots[id] == [] || (s.slots[id][0] in CellsOf(s) && CellsOf(s)[s.slots[id][0]].Live?) {
      end := LastTurn(suffix, s, t, id);
      n := 1;
      assert Turns(t, 1) == [Run(t, false)] && Turns(t, 1)[1..] == [];
    } else {
      var s' := SkipTurn(suffix, s, t, id);
      var rest: nat;
      rest, end := LoopIsHandOff(suffix, s', t, id);
      n := rest + 1;
      assert Turns(t, n)[1..] == Turns(t, rest);
      assert s'.slots - {id} == s.slots - {id};
    }
  }

  // ---- What each task decides ----

  /** The deque of a tenant, empty when it has none. */
  function DequeOf(s: State, id: TenantId): seq<SlotId> {
    if id in s.slots then s.slots[id] else []
  }

  ghost predicate OthersKept(s: State, s': State, id: TenantId) {
    forall other :: other != id ==> DequeOf(s', other) == DequeOf(s, other)
  }

  /** A tunnel is refused exactly at eight slots; otherwise its new slot goes behind the others of its tenant. */
  lemma TunnelOpensOrRefuses(suffix: string, s: State, s': State, t: HandlerId, timesOut: bool)
    requires t in s.handlers && s.handlers[t].Tunnel? && s.handlers[t].tpc.TunHas? && Next(suffix, s, Run(t, timesOut)) == Some(s')
    ensures t in s'.handlers && s'.handlers[t].Tunnel? && OthersKept(s, s', s.handlers[t].tenant)
    ensures var id := s.handlers[t].tenant;
            if |DequeOf(s, id)| >= 8 then s'.handlers[t].tpc.TunRefusing? && s'.slots == s.slots && s'.made == s.made
            else
              && s'.handlers[t].tpc.TunWaiting? && s'.handlers[t].slot == Some(s.next) && DequeOf(s', id) == DequeOf(s, id) + [s.next]
              && s'.made == s.made[s.next := Slot(id, t, Live)] && s'.next == s.next + 1
  {
  }

  /** A waiting tunnel is bridged when its slot was fired; when its time is up it gives up a slot that is still live. */
  lemma TunnelWaits(suffix: string, s: State, s': State, t: HandlerId, timesOut: bool)
    requires t in s.handlers && s.handlers[t].Tunnel? && s.handlers[t].tpc.TunWaiting? && Next(suffix, s, Run(t, timesOut)) == Some(s')
    ensures t in s'.handlers && s'.handlers[t].Tunnel? && s'.slots == s.slots
    ensures s.handlers[t].slot.Some? && s.handlers[t].slot.value in s.made
    ensures var k := s.handlers[t].slot.value;
            if timesOut then
              s'.handlers[t].tpc.TunWantAgain? && k in s'.made && s'.made.Keys == s.made.Keys
              && s'.made[k] == s.made[k].(cell := if s.made[k].cell.Live? then GaveUp else s.made[k].cell)
              && forall j :: j in s.made && j != k ==> s'.made[j] == s.made[j]
            else s.made[k].cell.Fired? && s'.handlers[t].tpc.TunBridging? && s'.made == s.made
  {
  }

  lemma {:induction false} OpenIsSubsequence(s: State, deque: seq<SlotId>)
    ensures Subsequence(Open(s, deque), deque)
  {
    if deque != [] {
      var init, last := deque[..|deque| - 1], deque[|deque| - 1];
      OpenIsSubsequence(s, init);
      assert init + [last] == deque;
      if IsClosed(s, last) {
        SubsequenceGrow(Open(s, init), init, last);
      } else {
        SubsequenceSnoc(Open(s, init), init, last);
      }
    }
  }

  /** Cleaning up takes the slots whose tunnel gave up out of its tenant's deque, keeps the others in order, and leaves no
      empty deque and every other tenant's as it was. */
  lemma TunnelCleansUp(suffix: string, s: State, s': State, t: HandlerId, timesOut: bool)
    requires t in s.handlers && s.handlers[t].Tunnel? && s.handlers[t].tpc.TunHasAgain? && Next(suffix, s, Run(t, timesOut)) == Some(s')
    ensures s'.lock.None? && s'.made == s.made && OthersKept(s, s', s.handlers[t].tenant)
    ensures var (before, after) := (DequeOf(s, s.handlers[t].tenant), DequeOf(s', s.handlers[t].tenant));
            && Subsequence(after, before) && (after == [] ==> s.handlers[t].tenant !in s'.slots)
            && forall k: SlotId :: k in after <==> k in before && !(k in s.made && s.made[k].cell.GaveUp?)
  {
    OpenIsSubsequence(s, DequeOf(s, s.handlers[t].tenant));
    hide Subsequence;
    assert Open(s, []) == [];
  }

  /** A connection fails exactly when its name is no registered tenant's, no slot table entry is there, or its deque runs out. */
  lemma RouteFailsIff(suffix: string, s: State, s': State, t: HandlerId, timesOut: bool)
    requires t in s.handlers && s.handlers[t].Route? && Next(suffix, s, Run(t, timesOut)) == Some(s')
    ensures t in s'.handlers && s'.handlers[t].Route?
    ensures s'.handlers[t].rpc.RtFailed? <==>
              var h := s.handlers[t];
              || (h.rpc.RtArrived? && forall id: TenantId :: Names(h.serverName, suffix, id) ==> id !in s.tenants)
              || (h.rpc.RtWant? && DequeOf(s, h.named.value) == [] && h.named.value !in s.slots)
              || (h.rpc.RtLooping? && DequeOf(s, h.named.value) == [])
  {
    var h := s.handlers[t];
    forall id: TenantId ensures TenantFromServerName(h.serverName, suffix) == Some(id) <==> Names(h.serverName, suffix, id) {
      NamedTenant(h.serverName, suffix, id);
    }
    hide TenantFromServerName;
    hide Names;
  }
}
