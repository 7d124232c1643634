/** Each kind of step meets its guarantee, hence every run keeps the invariant. */
module RelaySteps {
  import opened Prelude
  import opened RelayLib
  import opened RelayTables
  import opened RelayMachine
  import opened RelayInvariants

  /** Who holds the tenant map, to read or about to insert, sees no unpersisted tenant. */
  predicate NoRollbackAhead(s: State, t: HandlerId)
    requires t in s.handlers
  {
    HoldsRead(s.handlers[t]) || (HoldsWrite(s.handlers[t]) && !Persisting(s.handlers[t])) ==> s.pending.None?
  }

  lemma RollbackExcluded(s: State, t: HandlerId)
    requires LocksOk(s) && t in s.handlers && LockFactsOk(s, t)
    ensures NoRollbackAhead(s, t)
  {
  }

  /** What a step lemma may use: its own facts and the bound. */
  ghost predicate Before(s: State, t: HandlerId) {
    t in s.handlers && HandlerOk(s, t) && NoRollbackAhead(s, t) && |s.tables.inflight| <= MAX_INFLIGHT
  }

  /** What is known before a step of t: its own facts, and those of what it may touch. */
  lemma KnownBefore(s: State, t: HandlerId)
    requires Inv(s) && t in s.handlers
    ensures Before(s, t)
    ensures s.handlers[t].Image? ==> ImageTyped(s.handlers[t])
    ensures forall r :: r in s.channels ==> ChannelOk(s, r)
    ensures forall r :: r in s.tables.inflight ==> InflightEntryOk(s, r)
    ensures forall id :: id in s.tables.tenants ==> TenantOk(s, id)
  {
    assert HandlerOk(s, t);
    RollbackExcluded(s, t);
  }

  // ---- Steps that touch no table ----

  /** The locks as h' holds them: t takes what h' holds and gives back what it no longer holds. */
  function Relocked(s: State, t: HandlerId, h': Handler): State
    requires t in s.handlers
  {
    var h := s.handlers[t];
    s.(inflightLock := if HoldsInflightLock(h') then Some(t) else if HoldsInflightLock(h) then None else s.inflightLock,
       queueLock := if HoldsQueueLock(h) == HoldsQueueLock(h') then s.queueLock
                    else if HoldsQueueLock(h') then s.queueLock[h.id := t] else s.queueLock - {h.id},
       readers := if HoldsRead(h) == HoldsRead(h') then s.readers else if HoldsRead(h') then s.readers + {t} else s.readers - {t})
  }

  predicate ImageMove(s: State, h: Handler, pc: ImagePc)
    requires h.Image?
  {
    match h.ipc
    case ImgArrived => pc.ImgRefused? || pc.ImgDropped? || (pc.ImgReading? && h.expires.Some? && h.sig.Some? && s.writer.None?)
    case ImgReading => pc.ImgRefused?
    case ImgWantInflight => pc.ImgDropped? || (pc.ImgHasInflight? && s.inflightLock.None?)
    case ImgHasInflight => pc.ImgRefused? || (pc.ImgWantQueue? && |s.tables.inflight| < MAX_INFLIGHT)
    case ImgWantQueue => pc.ImgDropped? || (pc.ImgHasQueue? && h.id !in s.queueLock)
    case ImgHasQueue => pc.ImgRefused?
    case ImgInserted => pc.ImgHoldsInflight?
    case ImgHoldsInflight => pc.ImgWaiting?
    case ImgWantInflightAgain => pc.ImgDropped? || (pc.ImgCleansInflight? && s.inflightLock.None?)
    case ImgWantQueueAgain => pc.ImgDropped? || (pc.ImgCleansQueue? && h.id !in s.queueLock)
    case _ => false
  }

  predicate PollMove(s: State, h: Handler, pc: PollPc)
    requires h.Poll?
  {
    match h.ppc
    case PollArrived => pc.PollRefused? || pc.PollDropped? || (pc.PollReading? && s.writer.None?)
    case PollReading => pc.PollRefused? || (pc.PollWantQueue? && Authenticated(s, h.id, h.bearer))
    case PollWantQueue => pc.PollDropped? || (pc.PollHasQueue? && h.id !in s.queueLock)
    case PollHasQueue => pc.PollSleeping?
    case PollSleeping => pc.PollDropped? || pc.PollWantQueue? || pc.PollNothing?
    case _ => false
  }

  predicate ResultMove(s: State, h: Handler, pc: ResultPc)
    requires h.Result?
  {
    match h.rpc
    case ResArrived => pc.ResRefused? || pc.ResDropped? || (pc.ResReading? && s.writer.None?)
    case ResReading => pc.ResRefused? || (pc.ResWantInflight? && Authenticated(s, h.id, h.bearer))
    case ResWantInflight => pc.ResDropped? || (pc.ResHasInflight? && s.inflightLock.None?)
    case ResHasInflight => pc.ResRefused?
    case ResTook => pc.ResSending?
    case _ => false
  }

  /** Only the program counter of t and its locks change. */
  predicate Moves(s: State, s': State, t: HandlerId, h': Handler) {
    && t in s.handlers && s' == With(Relocked(s, t, h'), t, h')
    && match s.handlers[t]
       case Image(_, _, _, _, _, _, _, _) => h'.Image? && h' == s.handlers[t].(ipc := h'.ipc) && ImageMove(s, s.handlers[t], h'.ipc)
       case Poll(_, _, _, _, _) => h'.Poll? && h' == s.handlers[t].(ppc := h'.ppc, tries := h'.tries) && PollMove(s, s.handlers[t], h'.ppc)
       case Result(_, _, _, _, _) => h'.Result? && h' == s.handlers[t].(rpc := h'.rpc) && ResultMove(s, s.handlers[t], h'.rpc)
       case Register(_, _, _, _, _) => false
  }

  lemma MoveIsQuiet(s: State, s': State, t: HandlerId, h': Handler)
    requires Moves(s, s', t, h')
    ensures Quiet(s, s', t)
  {
  }

  lemma MoveMovesLocks(s: State, s': State, t: HandlerId, h': Handler)
    requires Moves(s, s', t, h')
    ensures LockMoves(s, s', t)
  {
  }

  lemma ImageMoveKeepsData(s: State, s': State, t: HandlerId, h': Handler)
    requires Moves(s, s', t, h') && h'.Image? && DataOk(s, t)
    ensures DataOk(s', t)
  {
  }

  lemma PollMoveKeepsData(s: State, s': State, t: HandlerId, h': Handler)
    requires Moves(s, s', t, h') && h'.Poll? && DataOk(s, t) && NoRollbackAhead(s, t)
    ensures DataOk(s', t)
  {
  }

  lemma ResultMoveKeepsData(s: State, s': State, t: HandlerId, h': Handler)
    requires Moves(s, s', t, h') && h'.Result? && DataOk(s, t) && NoRollbackAhead(s, t)
    ensures DataOk(s', t)
  {
  }

  lemma QuietStep(s: State, s': State, t: HandlerId)
    requires Inv(s) && Quiet(s, s', t) && LockMoves(s, s', t) && DataOk(s', t)
    ensures Inv(s') && Guarantee(s, s', t)
  {
    QuietIsLocal(s, s', t);
    Assemble(s, s', t);
  }

  lemma MoveKeepsInv(s: State, s': State, t: HandlerId, h': Handler)
    requires Inv(s) && Moves(s, s', t, h')
    ensures Inv(s') && Guarantee(s, s', t)
  {
    KnownBefore(s, t);
    MoveIsQuiet(s, s', t, h');
    MoveMovesLocks(s, s', t, h');
    hide Inv;
    hide Quiet;
    hide LockMoves;
    hide DataOk;
    hide Guarantee;
    match h'
    case Image(_, _, _, _, _, _, _, _) => ImageMoveKeepsData(s, s', t, h'); QuietStep(s, s', t);
    case Poll(_, _, _, _, _) => PollMoveKeepsData(s, s', t, h'); QuietStep(s, s', t);
    case Result(_, _, _, _, _) => ResultMoveKeepsData(s, s', t, h'); QuietStep(s, s', t);
    case Register(_, _, _, _, _) =>
  }

  // ---- Parts of a guarantee ----

  lemma SameChannels(s: State, s': State)
    requires s'.channels == s.channels
    ensures ChannelsEvolve(s, s')
  {
  }

  lemma OneChannel(s: State, s': State, r: RequestId, ch: Channel)
    requires s'.channels == s.channels[r := ch] && (r in s.channels ==> ChannelEvolves(s.channels[r], ch))
    ensures ChannelsEvolve(s, s')
  {
  }

  lemma SameTenants(s: State, s': State, h: Handler)
    requires s'.tables.tenants == s.tables.tenants && s'.pending == s.pending
    ensures TenantsEvolve(s, s', h)
  {
  }

  lemma OneTenant(s: State, s': State, h: Handler, id: TenantId, b: Tenant)
    requires id in s.tables.tenants && s'.tables.tenants == s.tables.tenants[id := b] && s'.pending == s.pending
    requires TenantEvolves(s.tables.tenants[id], b, h)
    ensures TenantsEvolve(s, s', h)
  {
    hide TenantEvolves;
    forall other | Committed(s, other)
      ensures Committed(s', other) && TenantEvolves(s.tables.tenants[other], s'.tables.tenants[other], h)
    {
      SameTenantEvolves(s.tables.tenants[other], h);
    }
  }

  lemma SameTenantEvolves(a: Tenant, h: Handler)
    ensures TenantEvolves(a, a, h)
  {
  }

  lemma SameTenantsLocal(s: State, s': State, t: HandlerId)
    requires s'.tables.tenants == s.tables.tenants
    ensures LocalTenantsOk(s, s', t)
  {
  }

  lemma OneTenantLocal(s: State, s': State, t: HandlerId, id: TenantId, b: Tenant)
    requires s'.tables.tenants == s.tables.tenants[id := b] && s.pending != Some(id) && TenantOk(s', id)
    ensures LocalTenantsOk(s, s', t)
  {
    hide TenantOk;
  }

  /** A step with all its parts keeps the invariant. */
  lemma PartsKeepInv(s: State, s': State, t: HandlerId)
    requires Inv(s) && Guarantee(s, s', t) && LockMoves(s, s', t)
    requires t in s.handlers && t in s'.handlers && LocalRequestsOk(s, s', t) && LocalTenantsOk(s, s', t)
    ensures Inv(s') && Guarantee(s, s', t)
  {
    Assemble(s, s', t);
  }

  // ---- Steps that touch the tables ----

  /** The image handler draws its request id. */
  predicate Draws(s: State, s': State, t: HandlerId, r: RequestId)
    requires t in s.handlers
  {
    var h := s.handlers[t];
    && h.Image? && h.ipc.ImgReading? && ImageTyped(h) && h.id in s.tables.tenants && r !in s.channels
    && s' == With(s.(readers := s.readers - {t}, channels := s.channels[r := Channel(t, None, Empty)]), t,
                  h.(ipc := ImgWantInflight, rid := Some(r)))
  }

  lemma DrawsGuarantees(s: State, s': State, t: HandlerId, r: RequestId)
    requires Before(s, t) && Draws(s, s', t, r)
    ensures Guarantee(s, s', t)
  {
    OneChannel(s, s', r, s'.channels[r]);
    SameTenants(s, s', s.handlers[t]);
    hide ChannelsEvolve;
    hide TenantsEvolve;
  }

  lemma DrawsMovesLocks(s: State, s': State, t: HandlerId, r: RequestId)
    requires Before(s, t) && Draws(s, s', t, r)
    ensures LockMoves(s, s', t)
  {
    hide DataOk;
    hide TenantOk;
  }

  lemma DrawsRequests(s: State, s': State, t: HandlerId, r: RequestId)
    requires Before(s, t) && Draws(s, s', t, r)
    ensures LocalRequestsOk(s, s', t)
  {
  }

  lemma DrawsKeepsInv(s: State, s': State, t: HandlerId, r: RequestId)
    requires Inv(s) && t in s.handlers && Draws(s, s', t, r)
    ensures Inv(s') && Guarantee(s, s', t)
  {
    KnownBefore(s, t);
    DrawsGuarantees(s, s', t, r);
    DrawsMovesLocks(s, s', t, r);
    DrawsRequests(s, s', t, r);
    SameTenantsLocal(s, s', t);
    hide Inv;
    hide Guarantee;
    hide LockMoves;
    hide LocalRequestsOk;
    hide LocalTenantsOk;
    PartsKeepInv(s, s', t);
  }

  /** The image handler stops waiting: dropped, timed out, or with the delivery in its channel. */
  predicate Wakes(s: State, s': State, t: HandlerId, h': Handler)
    requires t in s.handlers
  {
    var h := s.handlers[t];
    && h.Image? && h.ipc.ImgWaiting? && ImageTyped(h) && h.rid.value in s.channels
    && var ch := s.channels[h.rid.value];
    && (|| h' == h.(ipc := ImgDropped) || h' == h.(ipc := ImgWantInflightAgain)
        || (ch.cell.Filled? && h' == h.(ipc := ImgWantInflightAgain, got := Some(ch.cell.delivery))))
    && s' == With(s.(channels := s.channels[h.rid.value := ch.(cell := Closed)]), t, h')
  }

  lemma WakesGuarantees(s: State, s': State, t: HandlerId, h': Handler)
    requires Before(s, t) && Wakes(s, s', t, h')
    ensures Guarantee(s, s', t)
  {
    OneChannel(s, s', s.handlers[t].rid.value, s'.channels[s.handlers[t].rid.value]);
    SameTenants(s, s', s.handlers[t]);
    hide ChannelsEvolve;
    hide TenantsEvolve;
  }

  lemma WakesMovesLocks(s: State, s': State, t: HandlerId, h': Handler)
    requires Before(s, t) && Wakes(s, s', t, h')
    ensures LockMoves(s, s', t)
  {
    hide DataOk;
    hide TenantOk;
  }

  lemma WakesData(s: State, s': State, t: HandlerId, h': Handler)
    requires Before(s, t) && Wakes(s, s', t, h') && ChannelOk(s, s.handlers[t].rid.value)
    ensures DataOk(s', t)
  {
    hide LockFactsOk;
  }

  lemma WakesRequests(s: State, s': State, t: HandlerId, h': Handler)
    requires Before(s, t) && Wakes(s, s', t, h') && ChannelOk(s, s.handlers[t].rid.value)
    ensures LocalRequestsOk(s, s', t)
  {
    WakesData(s, s', t, h');
    hide DataOk;
    hide LockFactsOk;
  }

  lemma WakesKeepsInv(s: State, s': State, t: HandlerId, h': Handler)
    requires Inv(s) && t in s.handlers && Wakes(s, s', t, h')
    ensures Inv(s') && Guarantee(s, s', t)
  {
    KnownBefore(s, t);
    WakesGuarantees(s, s', t, h');
    WakesMovesLocks(s, s', t, h');
    WakesRequests(s, s', t, h');
    SameTenantsLocal(s, s', t);
    hide Inv;
    hide Guarantee;
    hide LockMoves;
    hide LocalRequestsOk;
    hide LocalTenantsOk;
    PartsKeepInv(s, s', t);
  }

  /** The image handler removes its inflight entry. */
  predicate Forgets(s: State, s': State, t: HandlerId)
    requires t in s.handlers
  {
    var h := s.handlers[t];
    && h.Image? && h.ipc.ImgCleansInflight? && ImageTyped(h)
    && s' == With(s.(tables := ForgetInflight(s.tables, h.rid.value), inflightLock := None), t, h.(ipc := ImgWantQueueAgain))
  }

  lemma ForgetsGuarantees(s: State, s': State, t: HandlerId)
    requires Before(s, t) && Forgets(s, s', t)
    ensures Guarantee(s, s', t)
  {
    SameChannels(s, s');
    SameTenants(s, s', s.handlers[t]);
    hide ChannelsEvolve;
    hide TenantsEvolve;
  }

  lemma ForgetsMovesLocks(s: State, s': State, t: HandlerId)
    requires Before(s, t) && Forgets(s, s', t)
    ensures LockMoves(s, s', t)
  {
    hide DataOk;
    hide TenantOk;
  }

  lemma ForgetsRequests(s: State, s': State, t: HandlerId)
    requires Before(s, t) && Forgets(s, s', t)
    ensures LocalRequestsOk(s, s', t)
  {
  }

  lemma ForgetsKeepsInv(s: State, s': State, t: HandlerId)
    requires Inv(s) && t in s.handlers && Forgets(s, s', t)
    ensures Inv(s') && Guarantee(s, s', t)
  {
    KnownBefore(s, t);
    ForgetsGuarantees(s, s', t);
    ForgetsMovesLocks(s, s', t);
    ForgetsRequests(s, s', t);
    SameTenantsLocal(s, s', t);
    hide Inv;
    hide Guarantee;
    hide LockMoves;
    hide LocalRequestsOk;
    hide LocalTenantsOk;
    PartsKeepInv(s, s', t);
  }

  /** The post takes the entry of its request. */
  predicate Takes(s: State, s': State, t: HandlerId)
    requires t in s.handlers
  {
    var h := s.handlers[t];
    && h.Result? && h.rpc.ResHasInflight? && MayTake(s.tables, h.id, h.target) && h.target in s.channels
    && s' == With(s.(tables := ForgetInflight(s.tables, h.target),
                     channels := s.channels[h.target := s.channels[h.target].(taker := Some(t))]), t, h.(rpc := ResTook))
  }

  lemma TakesGuarantees(s: State, s': State, t: HandlerId)
    requires Before(s, t) && Takes(s, s', t) && ChannelOk(s, s.handlers[t].target)
    ensures Guarantee(s, s', t)
  {
    OneChannel(s, s', s.handlers[t].target, s'.channels[s.handlers[t].target]);
    SameTenants(s, s', s.handlers[t]);
    hide ChannelsEvolve;
    hide TenantsEvolve;
  }

  lemma TakesMovesLocks(s: State, s': State, t: HandlerId)
    requires Before(s, t) && Takes(s, s', t)
    ensures LockMoves(s, s', t)
  {
    hide DataOk;
    hide TenantOk;
  }

  lemma TakesRequests(s: State, s': State, t: HandlerId)
    requires Before(s, t) && Takes(s, s', t) && ChannelOk(s, s.handlers[t].target) && InflightEntryOk(s, s.handlers[t].target)
    ensures LocalRequestsOk(s, s', t)
  {
  }

  lemma TakesKeepsInv(s: State, s': State, t: HandlerId)
    requires Inv(s) && t in s.handlers && Takes(s, s', t)
    ensures Inv(s') && Guarantee(s, s', t)
  {
    KnownBefore(s, t);
    TakesGuarantees(s, s', t);
    TakesMovesLocks(s, s', t);
    TakesRequests(s, s', t);
    SameTenantsLocal(s, s', t);
    hide Inv;
    hide Guarantee;
    hide LockMoves;
    hide LocalRequestsOk;
    hide LocalTenantsOk;
    PartsKeepInv(s, s', t);
  }

  /** The post sends its result, unless the receiver is gone. */
  predicate Sends(s: State, s': State, t: HandlerId)
    requires t in s.handlers
  {
    var h := s.handlers[t];
    && h.Result? && h.rpc.ResSending? && h.target in s.channels
    && var ch := s.channels[h.target];
    s' == With(s.(channels := s.channels[h.target := ch.(cell := if ch.cell.Empty? then Filled(Delivery(h.result, t)) else ch.cell)]), t,
               h.(rpc := ResPosted))
  }

  lemma SendsGuarantees(s: State, s': State, t: HandlerId)
    requires Before(s, t) && Sends(s, s', t)
    ensures Guarantee(s, s', t)
  {
    OneChannel(s, s', s.handlers[t].target, s'.channels[s.handlers[t].target]);
    SameTenants(s, s', s.handlers[t]);
    hide ChannelsEvolve;
    hide TenantsEvolve;
  }

  lemma SendsMovesLocks(s: State, s': State, t: HandlerId)
    requires Before(s, t) && Sends(s, s', t)
    ensures LockMoves(s, s', t)
  {
    hide DataOk;
    hide TenantOk;
  }

  lemma SendsRequests(s: State, s': State, t: HandlerId)
    requires Before(s, t) && Sends(s, s', t) && ChannelOk(s, s.handlers[t].target)
    ensures LocalRequestsOk(s, s', t)
  {
  }

  lemma SendsKeepsInv(s: State, s': State, t: HandlerId)
    requires Inv(s) && t in s.handlers && Sends(s, s', t)
    ensures Inv(s') && Guarantee(s, s', t)
  {
    KnownBefore(s, t);
    SendsGuarantees(s, s', t);
    SendsMovesLocks(s, s', t);
    SendsRequests(s, s', t);
    SameTenantsLocal(s, s', t);
    hide Inv;
    hide Guarantee;
    hide LockMoves;
    hide LocalRequestsOk;
    hide LocalTenantsOk;
    PartsKeepInv(s, s', t);
  }

  /** The registration inserts its tenant. */
  predicate Inserts(s: State, s': State, t: HandlerId)
    requires t in s.handlers
  {
    var h := s.handlers[t];
    && h.Register? && h.gpc.RegHasWrite? && h.id !in s.tables.tenants && |s.tables.tenants| < MAX_TENANTS
    && s' == With(s.(tables := InsertTenant(s.tables, h.id, Sha256(h.secret)), pending := Some(h.id)), t, h.(gpc := RegPersisting))
  }

  lemma InsertsGuarantees(s: State, s': State, t: HandlerId)
    requires Before(s, t) && Inserts(s, s', t)
    ensures Guarantee(s, s', t)
  {
    assert s'.tables.tenants.Keys == s.tables.tenants.Keys + {s.handlers[t].id};
    SameChannels(s, s');
    hide TenantEvolves;
    forall id | Committed(s, id)
      ensures Committed(s', id) && TenantEvolves(s.tables.tenants[id], s'.tables.tenants[id], s.handlers[t])
    {
      SameTenantEvolves(s.tables.tenants[id], s.handlers[t]);
    }
    assert TenantsEvolve(s, s', s.handlers[t]);
    hide ChannelsEvolve;
    hide TenantsEvolve;
  }

  lemma InsertsMovesLocks(s: State, s': State, t: HandlerId)
    requires Before(s, t) && Inserts(s, s', t)
    ensures LockMoves(s, s', t)
  {
    hide DataOk;
    hide TenantOk;
  }

  lemma InsertsRequests(s: State, s': State, t: HandlerId)
    requires Before(s, t) && Inserts(s, s', t)
    ensures LocalRequestsOk(s, s', t)
  {
  }

  lemma InsertsTenants(s: State, s': State, t: HandlerId)
    requires Before(s, t) && Inserts(s, s', t)
    ensures LocalTenantsOk(s, s', t)
  {
  }

  lemma InsertsKeepsInv(s: State, s': State, t: HandlerId)
    requires Inv(s) && t in s.handlers && Inserts(s, s', t)
    ensures Inv(s') && Guarantee(s, s', t)
  {
    KnownBefore(s, t);
    InsertsGuarantees(s, s', t);
    InsertsMovesLocks(s, s', t);
    InsertsRequests(s, s', t);
    InsertsTenants(s, s', t);
    hide Inv;
    hide Guarantee;
    hide LockMoves;
    hide LocalRequestsOk;
    hide LocalTenantsOk;
    PartsKeepInv(s, s', t);
  }

  /** The registration is persisted, given up by its client, or rolled back. */
  predicate Settles(s: State, s': State, t: HandlerId, h': Handler)
    requires t in s.handlers
  {
    var h := s.handlers[t];
    && h.Register? && h.gpc.RegPersisting? && h'.Register? && h' == h.(gpc := h'.gpc, status := h'.status)
    && (h'.gpc.RegAnswered? || h'.gpc.RegDropped?)
    && (|| s' == With(s.(writer := None, pending := None), t, h')
        || s' == With(s.(tables := RemoveTenant(s.tables, h.id), writer := None, pending := None), t, h'))
  }

  lemma SettlesGuarantees(s: State, s': State, t: HandlerId, h': Handler)
    requires Before(s, t) && Settles(s, s', t, h')
    ensures Guarantee(s, s', t)
  {
    SameChannels(s, s');
    hide TenantEvolves;
    forall id | Committed(s, id)
      ensures Committed(s', id) && TenantEvolves(s.tables.tenants[id], s'.tables.tenants[id], s.handlers[t])
    {
      SameTenantEvolves(s.tables.tenants[id], s.handlers[t]);
    }
    assert TenantsEvolve(s, s', s.handlers[t]);
    hide ChannelsEvolve;
    hide TenantsEvolve;
  }

  lemma SettlesMovesLocks(s: State, s': State, t: HandlerId, h': Handler)
    requires Before(s, t) && Settles(s, s', t, h')
    ensures LockMoves(s, s', t)
  {
    hide DataOk;
    hide TenantOk;
  }

  lemma SettlesRequests(s: State, s': State, t: HandlerId, h': Handler)
    requires Before(s, t) && Settles(s, s', t, h')
    ensures LocalRequestsOk(s, s', t)
  {
  }

  lemma SettlesTenants(s: State, s': State, t: HandlerId, h': Handler)
    requires Before(s, t) && Settles(s, s', t, h')
    ensures LocalTenantsOk(s, s', t)
  {
  }

  lemma SettlesKeepsInv(s: State, s': State, t: HandlerId, h': Handler)
    requires Inv(s) && t in s.handlers && Settles(s, s', t, h')
    ensures Inv(s') && Guarantee(s, s', t)
  {
    KnownBefore(s, t);
    SettlesGuarantees(s, s', t, h');
    SettlesMovesLocks(s, s', t, h');
    SettlesRequests(s, s', t, h');
    SettlesTenants(s, s', t, h');
    hide Inv;
    hide Guarantee;
    hide LockMoves;
    hide LocalRequestsOk;
    hide LocalTenantsOk;
    PartsKeepInv(s, s', t);
  }

  /** The image handler puts its entry and its job in place. */
  ghost predicate Enqueues(s: State, s': State, t: HandlerId)
    requires t in s.handlers
  {
    var h := s.handlers[t];
    && h.Image? && h.ipc.ImgHasQueue? && ImageTyped(h) && h.id in s.tables.tenants && TenantOk(s, h.id)
    && h.rid.value in s.channels && s.channels[h.rid.value].taker.None?
    && (h.rid.value in s.tables.inflight ==> InflightEntryOk(s, h.rid.value))
    && |s.tables.inflight| < MAX_INFLIGHT && |s.tables.tenants[h.id].queue| < MAX_QUEUED_PER_TENANT
    && s' == With(s.(tables := Enqueue(s.tables, h.id, JobOf(h))), t, h.(ipc := ImgInserted, inserted := true))
  }

  lemma EnqueuesGuarantees(s: State, s': State, t: HandlerId)
    requires Before(s, t) && Enqueues(s, s', t)
    ensures Guarantee(s, s', t)
  {
    SameChannels(s, s');
    OneTenant(s, s', s.handlers[t], s.handlers[t].id, s'.tables.tenants[s.handlers[t].id]);
    hide TenantOk;
    hide ChannelsEvolve;
    hide TenantsEvolve;
  }

  lemma EnqueuesMovesLocks(s: State, s': State, t: HandlerId)
    requires Before(s, t) && Enqueues(s, s', t)
    ensures LockMoves(s, s', t)
  {
    hide DataOk;
    hide TenantOk;
  }

  /** What is known of a tenant's jobs stays known. */
  lemma JobsStay(s: State, s': State, t: HandlerId, id: TenantId)
    requires Guarantee(s, s', t) && id in s.tables.tenants && TenantOk(s, id)
    ensures forall j <- s.tables.tenants[id].pushed :: JobOwned(s', id, j)
    ensures forall j <- s.tables.tenants[id].handed :: GivenTo(s', id, j)
    ensures forall j <- s.tables.tenants[id].pushed :: FinishedId(s, j.requestId) ==> FinishedId(s', j.requestId)
  {
    forall j | j in s.tables.tenants[id].pushed || j in s.tables.tenants[id].handed
      ensures j in s.tables.tenants[id].pushed ==> JobOwned(s', id, j)
      ensures j in s.tables.tenants[id].handed ==> GivenTo(s', id, j)
      ensures FinishedId(s, j.requestId) ==> FinishedId(s', j.requestId)
    {
      StableJob(s, s', t, id, j);
    }
  }

  lemma EnqueuedTenant(s: State, s': State, t: HandlerId, j: Job)
    requires t in s.handlers && DataOk(s, t) && s.handlers[t].Image? && s.handlers[t].id in s.tables.tenants
    requires TenantOk(s, s.handlers[t].id) && Guarantee(s, s', t)
    requires !s.handlers[t].inserted && IsRequestOf(s.handlers[t], j.requestId)
    requires s.tables.tenants[s.handlers[t].id].queue + [j] == Enqueue(s.tables, s.handlers[t].id, j).tenants[s.handlers[t].id].queue
    requires |s.tables.tenants[s.handlers[t].id].queue| < MAX_QUEUED_PER_TENANT
    requires s'.tables.tenants == Enqueue(s.tables, s.handlers[t].id, j).tenants
    requires JobOwned(s', s.handlers[t].id, j)
    ensures TenantOk(s', s.handlers[t].id)
  {
    var id := s.handlers[t].id;
    var a := s.tables.tenants[id];
    JobsStay(s, s', t, id);
    forall k | k in a.pushed ensures k.requestId != j.requestId {
      assert JobOwned(s, id, k);
    }
    SubsequenceSnoc(a.handed + a.queue, a.pushed, j);
    assert a.handed + (a.queue + [j]) == a.handed + a.queue + [j];
    hide Guarantee;
    hide JobOwned;
    hide GivenTo;
    hide FinishedId;
    hide DataOk;
  }

  lemma EnqueuesData(s: State, s': State, t: HandlerId)
    requires Before(s, t) && Enqueues(s, s', t)
    ensures DataOk(s', t)
  {
  }

  lemma EnqueuesRequests(s: State, s': State, t: HandlerId)
    requires Before(s, t) && Enqueues(s, s', t)
    ensures LocalRequestsOk(s, s', t)
  {
    EnqueuesData(s, s', t);
  }

  lemma EnqueuesTenants(s: State, s': State, t: HandlerId)
    requires Before(s, t) && Enqueues(s, s', t) && Guarantee(s, s', t)
    ensures LocalTenantsOk(s, s', t)
  {
    EnqueuesOwns(s, s', t);
    EnqueuedTenant(s, s', t, JobOf(s.handlers[t]));
    hide TenantOk;
    hide JobOwned;
    hide Guarantee;
    OneTenantLocal(s, s', t, s.handlers[t].id, s'.tables.tenants[s.handlers[t].id]);
  }

  lemma EnqueuesOwns(s: State, s': State, t: HandlerId)
    requires Before(s, t) && Enqueues(s, s', t)
    ensures JobOwned(s', s.handlers[t].id, JobOf(s.handlers[t]))
  {
    hide TenantOk;
  }

  lemma EnqueuesKeepsInv(s: State, s': State, t: HandlerId)
    requires Inv(s) && t in s.handlers && Enqueues(s, s', t)
    ensures Inv(s') && Guarantee(s, s', t)
  {
    KnownBefore(s, t);
    hide Inv;
    hide Guarantee;
    hide LockMoves;
    hide LocalRequestsOk;
    hide LocalTenantsOk;
    hide TenantOk;
    EnqueuesGuarantees(s, s', t);
    EnqueuesMovesLocks(s, s', t);
    EnqueuesRequests(s, s', t);
    EnqueuesTenants(s, s', t);
    PartsKeepInv(s, s', t);
  }

  /** The image handler takes its job out of the queue. */
  ghost predicate Cleans(s: State, s': State, t: HandlerId)
    requires t in s.handlers
  {
    var h := s.handlers[t];
    && h.Image? && h.ipc.ImgCleansQueue? && ImageTyped(h) && h.id in s.tables.tenants && TenantOk(s, h.id)
    && s' == With(s.(tables := ForgetJob(s.tables, h.id, h.rid.value), queueLock := s.queueLock - {h.id}), t, h.(ipc := ImgFinished))
  }

  lemma CleansGuarantees(s: State, s': State, t: HandlerId)
    requires Before(s, t) && Cleans(s, s', t)
    ensures Guarantee(s, s', t)
  {
    SameChannels(s, s');
    OneTenant(s, s', s.handlers[t], s.handlers[t].id, s'.tables.tenants[s.handlers[t].id]);
    hide TenantOk;
    hide ChannelsEvolve;
    hide TenantsEvolve;
  }

  lemma CleansMovesLocks(s: State, s': State, t: HandlerId)
    requires Before(s, t) && Cleans(s, s', t)
    ensures LockMoves(s, s', t)
  {
    hide DataOk;
    hide TenantOk;
  }

  lemma CleanedTenant(s: State, s': State, t: HandlerId)
    requires t in s.handlers && DataOk(s, t) && s.handlers[t].Image? && s.handlers[t].id in s.tables.tenants
    requires s.handlers[t].ipc.ImgCleansQueue?
    requires TenantOk(s, s.handlers[t].id) && Guarantee(s, s', t) && s'.handlers[t].ipc.ImgFinished?
    requires s'.tables.tenants == ForgetJob(s.tables, s.handlers[t].id, s.handlers[t].rid.value).tenants
    ensures TenantOk(s', s.handlers[t].id)
  {
    var id, rid := s.handlers[t].id, s.handlers[t].rid.value;
    var a := s.tables.tenants[id];
    JobsStay(s, s', t, id);
    assert FinishedId(s', rid);
    WithoutIsSubsequence(a.queue, rid);
    SubsequencePrefix(a.handed, Without(a.queue, rid), a.queue);
    SubsequenceTransitive(a.handed + Without(a.queue, rid), a.handed + a.queue, a.pushed);
  }

  lemma CleansData(s: State, s': State, t: HandlerId)
    requires Before(s, t) && Cleans(s, s', t)
    ensures DataOk(s', t)
  {
    hide LockFactsOk;
    hide TenantOk;
  }

  lemma CleansRequests(s: State, s': State, t: HandlerId)
    requires Before(s, t) && Cleans(s, s', t)
    ensures LocalRequestsOk(s, s', t)
  {
    CleansData(s, s', t);
    hide DataOk;
    hide LockFactsOk;
    hide TenantOk;
  }

  lemma CleansKeepsInv(s: State, s': State, t: HandlerId)
    requires Inv(s) && t in s.handlers && Cleans(s, s', t)
    ensures Inv(s') && Guarantee(s, s', t)
  {
    KnownBefore(s, t);
    CleansGuarantees(s, s', t);
    CleansMovesLocks(s, s', t);
    CleansRequests(s, s', t);
    CleanedTenant(s, s', t);
    hide TenantOk;
    OneTenantLocal(s, s', t, s.handlers[t].id, s'.tables.tenants[s.handlers[t].id]);
    hide Inv;
    hide Guarantee;
    hide LockMoves;
    hide LocalRequestsOk;
    hide LocalTenantsOk;
    PartsKeepInv(s, s', t);
  }

  /** The poll gets the front job. */
  ghost predicate Pops(s: State, s': State, t: HandlerId)
    requires t in s.handlers
  {
    var h := s.handlers[t];
    && h.Poll? && h.ppc.PollHasQueue? && h.id in s.tables.tenants && TenantOk(s, h.id)
    && s.tables.tenants[h.id].queue != []
    && var j := s.tables.tenants[h.id].queue[0];
    && j.requestId !in s.handedTo
    && s' == With(s.(queueLock := s.queueLock - {h.id}, tables := PopJob(s.tables, h.id), handedTo := s.handedTo[j.requestId := t]), t,
                  h.(ppc := PollGiven, job := Some(j)))
  }

  lemma PopsGuarantees(s: State, s': State, t: HandlerId)
    requires Before(s, t) && Pops(s, s', t)
    ensures Guarantee(s, s', t)
  {
    SameChannels(s, s');
    OneTenant(s, s', s.handlers[t], s.handlers[t].id, s'.tables.tenants[s.handlers[t].id]);
    hide TenantOk;
    hide ChannelsEvolve;
    hide TenantsEvolve;
  }

  lemma PopsMovesLocks(s: State, s': State, t: HandlerId)
    requires Before(s, t) && Pops(s, s', t)
    ensures LockMoves(s, s', t)
  {
    hide DataOk;
    hide TenantOk;
  }

  lemma PoppedTenant(s: State, s': State, t: HandlerId)
    requires t in s.handlers && s.handlers[t].id in s.tables.tenants && s.tables.tenants[s.handlers[t].id].queue != []
    requires TenantOk(s, s.handlers[t].id) && Guarantee(s, s', t)
    requires s'.tables.tenants == PopJob(s.tables, s.handlers[t].id).tenants
    requires GivenTo(s', s.handlers[t].id, s.tables.tenants[s.handlers[t].id].queue[0])
    ensures TenantOk(s', s.handlers[t].id)
  {
    var id := s.handlers[t].id;
    var a, b := s.tables.tenants[id], s'.tables.tenants[id];
    JobsStay(s, s', t, id);
    hide Guarantee;
    hide JobOwned;
    hide GivenTo;
    hide FinishedId;
    assert b.handed + b.queue == a.handed + a.queue;
    assert a.queue == [a.queue[0]] + a.queue[1..];
  }

  lemma PopsRequests(s: State, s': State, t: HandlerId)
    requires Before(s, t) && Pops(s, s', t)
    ensures LocalRequestsOk(s, s', t)
  {
  }

  lemma PopsTenants(s: State, s': State, t: HandlerId)
    requires Before(s, t) && Pops(s, s', t) && Guarantee(s, s', t)
    ensures LocalTenantsOk(s, s', t)
  {
    PoppedTenant(s, s', t);
    hide TenantOk;
    hide Guarantee;
    OneTenantLocal(s, s', t, s.handlers[t].id, s'.tables.tenants[s.handlers[t].id]);
  }

  lemma PopsKeepsInv(s: State, s': State, t: HandlerId)
    requires Inv(s) && t in s.handlers && Pops(s, s', t)
    ensures Inv(s') && Guarantee(s, s', t)
  {
    KnownBefore(s, t);
    hide Inv;
    hide Guarantee;
    hide LockMoves;
    hide LocalRequestsOk;
    hide LocalTenantsOk;
    hide TenantOk;
    PopsGuarantees(s, s', t);
    PopsMovesLocks(s, s', t);
    PopsRequests(s, s', t);
    PopsTenants(s, s', t);
    PartsKeepInv(s, s', t);
  }

  predicate DistinctIds(jobs: seq<Job>) {
    forall i, k :: 0 <= i < k < |jobs| ==> jobs[i].requestId != jobs[k].requestId
  }

  lemma {:induction false} SubsequenceDistinct(xs: seq<Job>, ys: seq<Job>)
    requires Subsequence(xs, ys) && DistinctIds(ys)
    ensures DistinctIds(xs)
    decreases |ys|
  {
    if xs != [] {
      var n := |xs| - 1;
      if xs[n] == ys[|ys| - 1] {
        SubsequenceDistinct(xs[..n], ys[..|ys| - 1]);
        forall i | 0 <= i < n ensures xs[i].requestId != xs[n].requestId {
          var j := SubsequenceMember(xs[..n], ys[..|ys| - 1], i);
        }
      } else {
        SubsequenceDistinct(xs, ys[..|ys| - 1]);
      }
    }
  }

  /** A job queued or handed out was pushed, and belongs to its tenant. */
  lemma ListedIsOwned(s: State, id: TenantId, i: nat)
    requires id in s.tables.tenants && TenantOk(s, id)
    requires i < |s.tables.tenants[id].handed + s.tables.tenants[id].queue|
    ensures JobOwned(s, id, (s.tables.tenants[id].handed + s.tables.tenants[id].queue)[i])
  {
    var tenant := s.tables.tenants[id];
    var m := SubsequenceMember(tenant.handed + tenant.queue, tenant.pushed, i);
    assert tenant.pushed[m] in tenant.pushed;
  }

  /** A poll that was given a job knows where it stands among those handed out, and owns it. */
  lemma HandedIsListed(s: State, r: RequestId) returns (id: TenantId, n: nat)
    requires Inv(s) && r in s.handedTo
    ensures id in s.tables.tenants && n < |s.tables.tenants[id].handed| && s.tables.tenants[id].handed[n].requestId == r
    ensures JobOwned(s, id, s.tables.tenants[id].handed[n])
  {
    var p := s.handedTo[r];
    assert HandedEntryOk(s, r) && HandlerOk(s, p);
    id := s.handlers[p].id;
    assert TenantOk(s, id);
    hide Inv;
    var tenant := s.tables.tenants[id];
    n :| 0 <= n < |tenant.handed| && tenant.handed[n] == s.handlers[p].job.value;
    assert (tenant.handed + tenant.queue)[n] == tenant.handed[n];
    ListedIsOwned(s, id, n);
  }

  /** Two jobs of one request belong to one tenant, and what is queued was not handed out to it. */
  lemma QueuedOrHanded(s: State, id: TenantId, i: nat, other: TenantId, n: nat)
    requires id in s.tables.tenants && TenantOk(s, id) && i < |s.tables.tenants[id].queue|
    requires other in s.tables.tenants && n < |s.tables.tenants[other].handed| && JobOwned(s, other, s.tables.tenants[other].handed[n])
    ensures s.tables.tenants[id].queue[i].requestId != s.tables.tenants[other].handed[n].requestId
  {
    var tenant, j := s.tables.tenants[id], s.tables.tenants[id].queue[i];
    var all := tenant.handed + tenant.queue;
    assert all[|tenant.handed| + i] == j;
    ListedIsOwned(s, id, |tenant.handed| + i);
    if other == id {
      assert all[n] == tenant.handed[n];
      SubsequenceDistinct(all, tenant.pushed);
    }
  }

  /** A queued job was never handed out. */
  lemma QueuedIsNotHanded(s: State, id: TenantId, i: nat)
    requires Inv(s) && id in s.tables.tenants && i < |s.tables.tenants[id].queue|
    ensures s.tables.tenants[id].queue[i].requestId !in s.handedTo
  {
    assert TenantOk(s, id);
    var r := s.tables.tenants[id].queue[i].requestId;
    if r in s.handedTo {
      var other, n := HandedIsListed(s, r);
      hide Inv;
      QueuedOrHanded(s, id, i, other, n);
      assert false;
    }
  }

  // ---- Every step is one of these ----

  lemma ImageEntryKeepsInv(s: State, s': State, t: HandlerId, c: Choice)
    requires Inv(s) && t in s.handlers && s.handlers[t].Image? && ImageTyped(s.handlers[t])
    requires BeforeInsertion(s.handlers[t].ipc) && NextImage(s, t, s.handlers[t], c) == Some(s')
    ensures Inv(s') && Guarantee(s, s', t)
  {
    var h := s.handlers[t];
    KnownBefore(s, t);
    hide Inv;
    hide Guarantee;
    if h.ipc.ImgReading? && h.id in s.tables.tenants {
      ImageDraws(s, s', t, c);
      DrawsKeepsInv(s, s', t, c.rid);
    } else if h.ipc.ImgHasQueue? && h.id in s.tables.tenants && |s.tables.tenants[h.id].queue| < MAX_QUEUED_PER_TENANT {
      EntryIsFree(s, t);
      ImageEnqueues(s, s', t, c);
      EnqueuesKeepsInv(s, s', t);
    } else {
      ImageEntryMoves(s, s', t, c);
      hide NextImage;
      MoveKeepsInv(s, s', t, s'.handlers[t]);
    }
  }

  lemma ImageDraws(s: State, s': State, t: HandlerId, c: Choice)
    requires t in s.handlers && s.handlers[t].Image? && ImageTyped(s.handlers[t])
    requires s.handlers[t].ipc.ImgReading? && s.handlers[t].id in s.tables.tenants && NextImage(s, t, s.handlers[t], c) == Some(s')
    ensures c.Draw? && Draws(s, s', t, c.rid)
  {
  }

  lemma ImageEnqueues(s: State, s': State, t: HandlerId, c: Choice)
    requires t in s.handlers && s.handlers[t].Image? && ImageTyped(s.handlers[t]) && s.handlers[t].ipc.ImgHasQueue?
    requires s.handlers[t].id in s.tables.tenants && TenantOk(s, s.handlers[t].id)
    requires |s.tables.tenants[s.handlers[t].id].queue| < MAX_QUEUED_PER_TENANT && |s.tables.inflight| < MAX_INFLIGHT
    requires s.handlers[t].rid.value in s.channels && s.channels[s.handlers[t].rid.value].taker.None?
    requires s.handlers[t].rid.value in s.tables.inflight ==> InflightEntryOk(s, s.handlers[t].rid.value)
    requires NextImage(s, t, s.handlers[t], c) == Some(s')
    ensures Enqueues(s, s', t)
  {
    hide TenantOk;
    hide InflightEntryOk;
    hide Enqueue;
    hide JobOf;
  }

  lemma AcceptedIsComplete(id: TenantId, filename: string, expires: Option<string>, sig: Option<string>)
    requires ImageRequestOk(id, filename, expires, sig)
    ensures expires.Some? && sig.Some?
  {
  }

  lemma ImageArrivalMoves(s: State, s': State, t: HandlerId, c: Choice)
    requires t in s.handlers && s.handlers[t].Image? && ImageTyped(s.handlers[t])
    requires s.handlers[t].ipc.ImgArrived?
    requires NextImage(s, t, s.handlers[t], c) == Some(s')
    ensures t in s'.handlers && Moves(s, s', t, s'.handlers[t])
  {
    var h := s.handlers[t];
    if ImageRequestOk(h.id, h.filename, h.expires, h.sig) {
      AcceptedIsComplete(h.id, h.filename, h.expires, h.sig);
    }
    hide ImageRequestOk;
    hide JobOf;
  }

  lemma ImageFindsNoTenant(s: State, s': State, t: HandlerId, c: Choice)
    requires t in s.handlers && s.handlers[t].Image? && ImageTyped(s.handlers[t])
    requires s.handlers[t].ipc.ImgReading? && s.handlers[t].id !in s.tables.tenants
    requires NextImage(s, t, s.handlers[t], c) == Some(s')
    ensures t in s'.handlers && Moves(s, s', t, s'.handlers[t])
  {
    hide JobOf;
  }

  lemma ImageSeeksQueue(s: State, s': State, t: HandlerId, c: Choice)
    requires t in s.handlers && s.handlers[t].Image? && ImageTyped(s.handlers[t]) && LockFactsOk(s, t)
    requires s.handlers[t].ipc.ImgWantQueue? && NextImage(s, t, s.handlers[t], c) == Some(s')
    ensures t in s'.handlers && Moves(s, s', t, s'.handlers[t])
  {
    hide JobOf;
  }

  lemma ImageFindsQueueFull(s: State, s': State, t: HandlerId, c: Choice)
    requires t in s.handlers && s.handlers[t].Image? && ImageTyped(s.handlers[t]) && s.handlers[t].ipc.ImgHasQueue?
    requires s.handlers[t].id in s.tables.tenants ==> |s.tables.tenants[s.handlers[t].id].queue| >= MAX_QUEUED_PER_TENANT
    requires NextImage(s, t, s.handlers[t], c) == Some(s')
    ensures t in s'.handlers && Moves(s, s', t, s'.handlers[t])
  {
    hide Enqueue;
    hide JobOf;
  }

  lemma ImageSeeksInflight(s: State, s': State, t: HandlerId, c: Choice)
    requires t in s.handlers && s.handlers[t].Image? && ImageTyped(s.handlers[t])
    requires s.handlers[t].ipc.ImgWantInflight? && NextImage(s, t, s.handlers[t], c) == Some(s')
    ensures t in s'.handlers && Moves(s, s', t, s'.handlers[t])
  {
    hide JobOf;
  }

  lemma ImageCountsInflight(s: State, s': State, t: HandlerId, c: Choice)
    requires t in s.handlers && s.handlers[t].Image? && ImageTyped(s.handlers[t]) && LockFactsOk(s, t)
    requires s.handlers[t].ipc.ImgHasInflight? && NextImage(s, t, s.handlers[t], c) == Some(s')
    ensures t in s'.handlers && Moves(s, s', t, s'.handlers[t])
  {
    hide JobOf;
  }

  lemma ImageEntryMoves(s: State, s': State, t: HandlerId, c: Choice)
    requires t in s.handlers && s.handlers[t].Image? && ImageTyped(s.handlers[t]) && LockFactsOk(s, t)
    requires BeforeInsertion(s.handlers[t].ipc) && NextImage(s, t, s.handlers[t], c) == Some(s')
    requires s.handlers[t].ipc.ImgReading? ==> s.handlers[t].id !in s.tables.tenants
    requires s.handlers[t].ipc.ImgHasQueue? && s.handlers[t].id in s.tables.tenants ==>
               |s.tables.tenants[s.handlers[t].id].queue| >= MAX_QUEUED_PER_TENANT
    ensures t in s'.handlers && Moves(s, s', t, s'.handlers[t])
  {
    hide Moves;
    if s.handlers[t].ipc.ImgArrived? {
      ImageArrivalMoves(s, s', t, c);
    } else if s.handlers[t].ipc.ImgReading? {
      ImageFindsNoTenant(s, s', t, c);
    } else if s.handlers[t].ipc.ImgWantInflight? {
      ImageSeeksInflight(s, s', t, c);
    } else if s.handlers[t].ipc.ImgHasInflight? {
      ImageCountsInflight(s, s', t, c);
    } else if s.handlers[t].ipc.ImgWantQueue? {
      ImageSeeksQueue(s, s', t, c);
    } else if s.handlers[t].ipc.ImgHasQueue? {
      ImageFindsQueueFull(s, s', t, c);
    }
  }

  /** Nobody has taken a request that is not yet in place. */
  lemma EntryIsFree(s: State, t: HandlerId)
    requires Before(s, t) && s.handlers[t].Image? && ImageTyped(s.handlers[t]) && s.handlers[t].ipc.ImgHasQueue?
    requires forall r :: r in s.channels ==> ChannelOk(s, r)
    ensures s.handlers[t].rid.value in s.channels && s.channels[s.handlers[t].rid.value].taker.None?
    ensures |s.tables.inflight| < MAX_INFLIGHT
  {
    assert OwnedBy(s, s.handlers[t].rid.value, t);
    assert ChannelOk(s, s.handlers[t].rid.value);
  }

  lemma ImageExitKeepsInv(s: State, s': State, t: HandlerId, c: Choice)
    requires Inv(s) && t in s.handlers && s.handlers[t].Image? && ImageTyped(s.handlers[t])
    requires !BeforeInsertion(s.handlers[t].ipc) && NextImage(s, t, s.handlers[t], c) == Some(s')
    ensures Inv(s') && Guarantee(s, s', t)
  {
    var h := s.handlers[t];
    KnownBefore(s, t);
    hide Inv;
    hide Guarantee;
    if h.ipc.ImgWaiting? || h.ipc.ImgCleansInflight? || h.ipc.ImgCleansQueue? {
      hide NextImage;
      match h.ipc
      case ImgWaiting => ImageWakes(s, s', t, c); WakesKeepsInv(s, s', t, s'.handlers[t]);
      case ImgCleansInflight => ImageForgets(s, s', t, c); ForgetsKeepsInv(s, s', t);
      case ImgCleansQueue => ImageCleans(s, s', t, c); CleansKeepsInv(s, s', t);
    } else {
      ImageExitMoves(s, s', t, c);
      hide NextImage;
      MoveKeepsInv(s, s', t, s'.handlers[t]);
    }
  }

  lemma ImageWakes(s: State, s': State, t: HandlerId, c: Choice)
    requires t in s.handlers && s.handlers[t].Image? && ImageTyped(s.handlers[t]) && s.handlers[t].ipc.ImgWaiting?
    requires NextImage(s, t, s.handlers[t], c) == Some(s')
    ensures t in s'.handlers && Wakes(s, s', t, s'.handlers[t])
  {
    hide TenantOk;
    hide ForgetInflight;
    hide ForgetJob;
    hide JobOf;
  }

  lemma ImageForgets(s: State, s': State, t: HandlerId, c: Choice)
    requires t in s.handlers && s.handlers[t].Image? && ImageTyped(s.handlers[t]) && s.handlers[t].ipc.ImgCleansInflight?
    requires NextImage(s, t, s.handlers[t], c) == Some(s')
    ensures t in s'.handlers && Forgets(s, s', t)
  {
    hide TenantOk;
    hide ForgetInflight;
    hide ForgetJob;
    hide JobOf;
  }

  lemma ImageCleans(s: State, s': State, t: HandlerId, c: Choice)
    requires t in s.handlers && s.handlers[t].Image? && ImageTyped(s.handlers[t]) && s.handlers[t].ipc.ImgCleansQueue?
    requires NextImage(s, t, s.handlers[t], c) == Some(s')
    requires s.handlers[t].id in s.tables.tenants ==> TenantOk(s, s.handlers[t].id)
    ensures t in s'.handlers && Cleans(s, s', t)
  {
    hide TenantOk;
    hide ForgetInflight;
    hide ForgetJob;
    hide JobOf;
  }

  lemma ImageUnlocks(s: State, s': State, t: HandlerId, c: Choice)
    requires t in s.handlers && s.handlers[t].Image? && ImageTyped(s.handlers[t]) && LockFactsOk(s, t)
    requires s.handlers[t].ipc.ImgInserted? || s.handlers[t].ipc.ImgHoldsInflight?
    requires NextImage(s, t, s.handlers[t], c) == Some(s')
    ensures t in s'.handlers && Moves(s, s', t, s'.handlers[t])
  {
    hide JobOf;
  }

  lemma ImageLocksAgain(s: State, s': State, t: HandlerId, c: Choice)
    requires t in s.handlers && s.handlers[t].Image? && ImageTyped(s.handlers[t]) && LockFactsOk(s, t)
    requires s.handlers[t].ipc.ImgWantInflightAgain? || s.handlers[t].ipc.ImgWantQueueAgain?
    requires NextImage(s, t, s.handlers[t], c) == Some(s')
    ensures t in s'.handlers && Moves(s, s', t, s'.handlers[t])
  {
    hide JobOf;
  }

  lemma ImageExitMoves(s: State, s': State, t: HandlerId, c: Choice)
    requires t in s.handlers && s.handlers[t].Image? && ImageTyped(s.handlers[t]) && LockFactsOk(s, t)
    requires !BeforeInsertion(s.handlers[t].ipc) && NextImage(s, t, s.handlers[t], c) == Some(s')
    requires !s.handlers[t].ipc.ImgWaiting? && !s.handlers[t].ipc.ImgCleansInflight? && !s.handlers[t].ipc.ImgCleansQueue?
    ensures t in s'.handlers && Moves(s, s', t, s'.handlers[t])
  {
    hide Moves;
    if s.handlers[t].ipc.ImgInserted? || s.handlers[t].ipc.ImgHoldsInflight? {
      ImageUnlocks(s, s', t, c);
    } else if s.handlers[t].ipc.ImgWantInflightAgain? || s.handlers[t].ipc.ImgWantQueueAgain? {
      ImageLocksAgain(s, s', t, c);
    }
  }

  lemma PollKeepsInv(s: State, s': State, t: HandlerId, c: Choice)
    requires Inv(s) && t in s.handlers && s.handlers[t].Poll?
    requires NextPoll(s, t, s.handlers[t], c) == Some(s')
    ensures Inv(s') && Guarantee(s, s', t)
  {
    var h := s.handlers[t];
    KnownBefore(s, t);
    if h.ppc.PollHasQueue? && h.id in s.tables.tenants && s.tables.tenants[h.id].queue != [] {
      QueuedIsNotHanded(s, h.id, 0);
      hide Inv;
      hide Guarantee;
      PollPops(s, s', t, c);
      PopsKeepsInv(s, s', t);
    } else {
      hide Inv;
      hide Guarantee;
      if h.ppc.PollArrived? || h.ppc.PollReading? {
        PollEntryMoves(s, s', t, c);
      } else {
        PollQueueMoves(s, s', t, c);
      }
      hide NextPoll;
      MoveKeepsInv(s, s', t, s'.handlers[t]);
    }
  }

  lemma PollPops(s: State, s': State, t: HandlerId, c: Choice)
    requires t in s.handlers && s.handlers[t].Poll? && s.handlers[t].ppc.PollHasQueue?
    requires s.handlers[t].id in s.tables.tenants && TenantOk(s, s.handlers[t].id) && s.tables.tenants[s.handlers[t].id].queue != []
    requires s.tables.tenants[s.handlers[t].id].queue[0].requestId !in s.handedTo
    requires NextPoll(s, t, s.handlers[t], c) == Some(s')
    ensures Pops(s, s', t)
  {
    hide TenantOk;
    hide PopJob;
  }

  lemma PollEntryMoves(s: State, s': State, t: HandlerId, c: Choice)
    requires t in s.handlers && s.handlers[t].Poll?
    requires s.handlers[t].ppc.PollArrived? || s.handlers[t].ppc.PollReading?
    requires NextPoll(s, t, s.handlers[t], c) == Some(s')
    ensures t in s'.handlers && Moves(s, s', t, s'.handlers[t])
  {
    hide Authenticated;
  }

  lemma PollQueueMoves(s: State, s': State, t: HandlerId, c: Choice)
    requires t in s.handlers && s.handlers[t].Poll?
    requires s.handlers[t].ppc.PollWantQueue? || s.handlers[t].ppc.PollHasQueue? || s.handlers[t].ppc.PollSleeping?
    requires s.handlers[t].ppc.PollHasQueue? && s.handlers[t].id in s.tables.tenants ==> s.tables.tenants[s.handlers[t].id].queue == []
    requires NextPoll(s, t, s.handlers[t], c) == Some(s')
    ensures t in s'.handlers && Moves(s, s', t, s'.handlers[t])
  {
    hide PopJob;
    hide Authenticated;
  }

  lemma ResultKeepsInv(s: State, s': State, t: HandlerId, c: Choice)
    requires Inv(s) && t in s.handlers && s.handlers[t].Result?
    requires NextResult(s, t, s.handlers[t], c) == Some(s')
    ensures Inv(s') && Guarantee(s, s', t)
  {
    var h := s.handlers[t];
    KnownBefore(s, t);
    hide Inv;
    hide Guarantee;
    if h.rpc.ResHasInflight? && MayTake(s.tables, h.id, h.target) && h.target in s.channels {
      ResultEffect(s, s', t, c);
      hide NextResult;
      TakesKeepsInv(s, s', t);
    } else if h.rpc.ResSending? {
      ResultEffect(s, s', t, c);
      hide NextResult;
      SendsKeepsInv(s, s', t);
    } else {
      if h.rpc.ResArrived? || h.rpc.ResReading? {
        ResultEntryMoves(s, s', t, c);
      } else {
        ResultLockMoves(s, s', t, c);
      }
      hide NextResult;
      MoveKeepsInv(s, s', t, s'.handlers[t]);
    }
  }

  lemma ResultEffect(s: State, s': State, t: HandlerId, c: Choice)
    requires t in s.handlers && s.handlers[t].Result? && NextResult(s, t, s.handlers[t], c) == Some(s')
    ensures s.handlers[t].rpc.ResSending? ==> Sends(s, s', t)
    ensures s.handlers[t].rpc.ResHasInflight? && MayTake(s.tables, s.handlers[t].id, s.handlers[t].target) && s.handlers[t].target in s.channels ==>
              Takes(s, s', t)
  {
    hide ForgetInflight;
    hide Authenticated;
  }

  lemma ResultEntryMoves(s: State, s': State, t: HandlerId, c: Choice)
    requires t in s.handlers && s.handlers[t].Result? && NextResult(s, t, s.handlers[t], c) == Some(s')
    requires s.handlers[t].rpc.ResArrived? || s.handlers[t].rpc.ResReading?
    ensures t in s'.handlers && Moves(s, s', t, s'.handlers[t])
  {
    hide Authenticated;
  }

  lemma ResultLockMoves(s: State, s': State, t: HandlerId, c: Choice)
    requires t in s.handlers && s.handlers[t].Result? && NextResult(s, t, s.handlers[t], c) == Some(s')
    requires s.handlers[t].rpc.ResWantInflight? || s.handlers[t].rpc.ResHasInflight? || s.handlers[t].rpc.ResTook?
    requires s.handlers[t].rpc.ResHasInflight? ==> !MayTake(s.tables, s.handlers[t].id, s.handlers[t].target) || s.handlers[t].target !in s.channels
    ensures t in s'.handlers && Moves(s, s', t, s'.handlers[t])
  {
    hide MayTake;
  }

  lemma RegisterMovesOn(e: Env, s: State, s': State, t: HandlerId, c: Choice)
    requires t in s.handlers && HandlerOk(s, t) && s.handlers[t].Register?
    requires s.handlers[t].gpc.RegArrived? || s.handlers[t].gpc.RegWantWrite?
    requires NextRegister(e, s, t, s.handlers[t], c) == Some(s')
    ensures Quiet(s, s', t) && LockMoves(s, s', t) && DataOk(s', t)
  {
  }

  lemma RegisterAnswers(e: Env, s: State, s': State, t: HandlerId, c: Choice)
    requires Before(s, t) && s.handlers[t].Register? && s.handlers[t].gpc.RegHasWrite?
    requires s.handlers[t].id in s.tables.tenants || |s.tables.tenants| >= MAX_TENANTS
    requires NextRegister(e, s, t, s.handlers[t], c) == Some(s')
    ensures Quiet(s, s', t) && LockMoves(s, s', t) && DataOk(s', t)
  {
  }

  lemma RegisterEffect(e: Env, s: State, s': State, t: HandlerId, c: Choice)
    requires t in s.handlers && s.handlers[t].Register? && NextRegister(e, s, t, s.handlers[t], c) == Some(s')
    ensures s.handlers[t].gpc.RegPersisting? ==> t in s'.handlers && Settles(s, s', t, s'.handlers[t])
    ensures s.handlers[t].gpc.RegHasWrite? && s.handlers[t].id !in s.tables.tenants && |s.tables.tenants| < MAX_TENANTS ==> Inserts(s, s', t)
  {
    hide RegistrationOk;
    hide InsertTenant;
    hide RemoveTenant;
  }

  lemma RegisterKeepsInv(e: Env, s: State, s': State, t: HandlerId, c: Choice)
    requires Inv(s) && t in s.handlers && s.handlers[t].Register?
    requires NextRegister(e, s, t, s.handlers[t], c) == Some(s')
    ensures Inv(s') && Guarantee(s, s', t)
  {
    var h := s.handlers[t];
    KnownBefore(s, t);
    hide Inv;
    hide Guarantee;
    if h.gpc.RegPersisting? || (h.gpc.RegHasWrite? && h.id !in s.tables.tenants && |s.tables.tenants| < MAX_TENANTS) {
      RegisterEffect(e, s, s', t, c);
      hide NextRegister;
      hide Before;
      if h.gpc.RegPersisting? {
        SettlesKeepsInv(s, s', t, s'.handlers[t]);
      } else {
        InsertsKeepsInv(s, s', t);
      }
    } else {
      if h.gpc.RegHasWrite? {
        RegisterAnswers(e, s, s', t, c);
      } else {
        RegisterMovesOn(e, s, s', t, c);
      }
      hide NextRegister;
      hide Before;
      hide Quiet;
      hide LockMoves;
      hide DataOk;
      QuietStep(s, s', t);
    }
  }

  /** A new handler is in nobody's facts. */
  lemma SpawnedHandler(s: State, t: HandlerId, h: Handler, u: HandlerId)
    requires t !in s.handlers && Fresh(h) && (u != t ==> u in s.handlers && HandlerOk(s, u))
    ensures HandlerOk(With(s, t, h), u)
  {
  }

  lemma SpawnedTenant(s: State, t: HandlerId, h: Handler, id: TenantId)
    requires t !in s.handlers && id in s.tables.tenants && TenantOk(s, id)
    ensures TenantOk(With(s, t, h), id)
  {
    var s' := With(s, t, h);
    forall j | j in s.tables.tenants[id].pushed || j in s.tables.tenants[id].handed
      ensures JobOwned(s, id, j) ==> JobOwned(s', id, j)
      ensures GivenTo(s, id, j) ==> GivenTo(s', id, j)
      ensures FinishedId(s, j.requestId) ==> FinishedId(s', j.requestId)
    {
    }
  }

  lemma SpawnedRequest(s: State, t: HandlerId, h: Handler, r: RequestId)
    requires t !in s.handlers
    ensures r in s.channels && ChannelOk(s, r) ==> ChannelOk(With(s, t, h), r)
    ensures r in s.tables.inflight && InflightEntryOk(s, r) ==> InflightEntryOk(With(s, t, h), r)
    ensures r in s.handedTo && HandedEntryOk(s, r) ==> HandedEntryOk(With(s, t, h), r)
  {
  }

  lemma SpawnKeepsLocks(s: State, t: HandlerId, h: Handler)
    requires LocksOk(s) && t !in s.handlers
    ensures LocksOk(With(s, t, h))
  {
  }

  lemma SpawnKeepsInv(s: State, t: HandlerId, h: Handler)
    requires Inv(s) && t !in s.handlers && Fresh(h)
    ensures Inv(With(s, t, h))
  {
    var s' := With(s, t, h);
    SpawnKeepsLocks(s, t, h);
    forall u | u in s'.handlers ensures HandlerOk(s', u) {
      SpawnedHandler(s, t, h, u);
    }
    forall id | id in s'.tables.tenants ensures TenantOk(s', id) {
      SpawnedTenant(s, t, h, id);
    }
    forall r ensures r in s'.channels ==> ChannelOk(s', r) {
      SpawnedRequest(s, t, h, r);
    }
    forall r ensures r in s'.tables.inflight ==> InflightEntryOk(s', r) {
      SpawnedRequest(s, t, h, r);
    }
    forall r ensures r in s'.handedTo ==> HandedEntryOk(s', r) {
      SpawnedRequest(s, t, h, r);
    }
  }

  /** Every step keeps the invariant and meets the guarantee of the handler that makes it. */
  lemma StepKeepsInv(e: Env, s: State, ev: Event)
    requires Inv(s) && Next(e, s, ev).Some?
    ensures Inv(Next(e, s, ev).value)
    ensures ev.Run? ==> Guarantee(s, Next(e, s, ev).value, ev.runs)
  {
    hide Inv;
    hide Guarantee;
    hide NextImage;
    hide NextPoll;
    hide NextResult;
    hide NextRegister;
    match ev
    case Spawn(t, h) => SpawnKeepsInv(s, t, h);
    case Run(t, c) =>
      var s' := Next(e, s, ev).value;
      match s.handlers[t]
      case Image(_, _, _, _, pc, _, _, _) =>
        if BeforeInsertion(pc) {
          ImageEntryKeepsInv(s, s', t, c);
        } else {
          ImageExitKeepsInv(s, s', t, c);
        }
      case Poll(_, _, _, _, _) => PollKeepsInv(s, s', t, c);
      case Result(_, _, _, _, _) => ResultKeepsInv(s, s', t, c);
      case Register(_, _, _, _, _) => RegisterKeepsInv(e, s, s', t, c);
  }

  lemma InitInv(loaded: map<TenantId, Digest>)
    ensures Inv(Init(loaded))
  {
  }

  /** Whole runs: any schedule of events from a freshly loaded server. */
  lemma {:induction false} RunKeepsInv(e: Env, s: State, schedule: seq<Event>)
    requires Inv(s) && Exec(e, s, schedule).Some?
    ensures Inv(Exec(e, s, schedule).value)
    decreases |schedule|
  {
    if schedule != [] {
      StepKeepsInv(e, s, schedule[0]);
      RunKeepsInv(e, Next(e, s, schedule[0]).value, schedule[1..]);
    }
  }
}
