/** What every reachable state of the relay satisfies, as facts about single handlers, channels and
    tenants, and the guarantee of one step under which the facts about all others survive. */
module RelayInvariants {
  import opened Prelude
  import opened RelayLib
  import opened RelayTables
  import opened RelayMachine

  predicate HoldsInflightLock(h: Handler) {
    match h
    case Image(_, _, _, _, pc, _, _, _) =>
      pc.ImgHasInflight? || pc.ImgWantQueue? || pc.ImgHasQueue? || pc.ImgInserted? || pc.ImgHoldsInflight? || pc.ImgCleansInflight?
    case Result(_, _, _, _, pc) => pc.ResHasInflight? || pc.ResTook?
    case _ => false
  }

  predicate HoldsQueueLock(h: Handler) {
    match h
    case Image(_, _, _, _, pc, _, _, _) => pc.ImgHasQueue? || pc.ImgInserted? || pc.ImgCleansQueue?
    case Poll(_, _, pc, _, _) => pc.PollHasQueue?
    case _ => false
  }

  predicate HoldsRead(h: Handler) {
    match h
    case Image(_, _, _, _, pc, _, _, _) => pc.ImgReading?
    case Poll(_, _, pc, _, _) => pc.PollReading?
    case Result(_, _, _, _, pc) => pc.ResReading?
    case _ => false
  }

  predicate HoldsWrite(h: Handler) {
    h.Register? && (h.gpc.RegHasWrite? || h.gpc.RegPersisting?)
  }

  /** The handler passed the tenant lookup. */
  predicate Knows(h: Handler) {
    match h
    case Image(_, _, _, _, pc, _, inserted, _) =>
      inserted || !(pc.ImgArrived? || pc.ImgReading? || pc.ImgRefused? || pc.ImgDropped?)
    case Poll(_, _, pc, _, _) => !(pc.PollArrived? || pc.PollReading? || pc.PollRefused? || pc.PollDropped?)
    case Result(_, _, _, _, pc) => !(pc.ResArrived? || pc.ResReading? || pc.ResRefused? || pc.ResDropped?)
    case Register(_, _, _, _, _) => false
  }

  /** The handler has taken an inflight entry. */
  predicate Took(h: Handler) {
    h.Result? && (h.rpc.ResTook? || h.rpc.ResSending? || h.rpc.ResPosted?)
  }

  predicate Persisting(h: Handler) {
    h.Register? && h.gpc.RegPersisting?
  }

  /** Before the handler has put its job in the queue. */
  predicate BeforeInsertion(pc: ImagePc) {
    pc.ImgArrived? || pc.ImgReading? || pc.ImgWantInflight? || pc.ImgHasInflight? || pc.ImgWantQueue? || pc.ImgHasQueue?
    || pc.ImgRefused?
  }

  /** The handler's inflight entry may be present. */
  predicate MayBeInflight(pc: ImagePc) {
    pc.ImgInserted? || pc.ImgHoldsInflight? || pc.ImgWaiting? || pc.ImgWantInflightAgain? || pc.ImgCleansInflight?
    || pc.ImgDropped?
  }

  /** Registered, and not an insertion that may still be rolled back. */
  predicate Committed(s: State, id: TenantId) {
    id in s.tables.tenants && s.pending != Some(id)
  }

  predicate OwnedBy(s: State, r: RequestId, t: HandlerId) {
    && r in s.channels && s.channels[r].owner == t
    && t in s.handlers && s.handlers[t].Image? && s.handlers[t].rid == Some(r)
  }

  predicate Owned(s: State, r: RequestId) {
    r in s.channels && OwnedBy(s, r, s.channels[r].owner)
  }

  function OwnerOf(s: State, r: RequestId): Handler
    requires Owned(s, r)
  {
    s.handlers[s.channels[r].owner]
  }

  /** The delivery was posted by a finished `result` call that named r and was authenticated as r's tenant. */
  predicate PostedFor(s: State, r: RequestId, d: Delivery) {
    && Owned(s, r) && s.channels[r].taker == Some(d.sender) && d.sender in s.handlers
    && var h := s.handlers[d.sender];
    h.Result? && h.rpc.ResPosted? && h.target == r && h.result == d.result && h.id == OwnerOf(s, r).id
    && Committed(s, h.id) && Authenticated(s, h.id, h.bearer)
  }

  predicate JobQueued(s: State, id: TenantId, r: RequestId) {
    id in s.tables.tenants && exists j <- s.tables.tenants[id].queue :: j.requestId == r
  }

  predicate ImageOk(s: State, t: HandlerId, h: Handler)
    requires h.Image?
  {
    && ImageTyped(h)
    && (BeforeInsertion(h.ipc) ==> !h.inserted)
    && (BeforeInsertion(h.ipc) || h.ipc.ImgInserted? || h.ipc.ImgHoldsInflight? || h.ipc.ImgWaiting? ==> h.got.None?)
    && (h.ipc.ImgArrived? || h.ipc.ImgReading? ==> h.rid.None?)
    && (!BeforeInsertion(h.ipc) && !h.ipc.ImgDropped? ==> h.inserted)
    && (h.rid.Some? ==> OwnedBy(s, h.rid.value, t))
    && (h.inserted ==> Committed(s, h.id) && JobOf(h) in s.tables.tenants[h.id].pushed)
    && (h.got.Some? ==> h.rid.Some? && PostedFor(s, h.rid.value, h.got.value) && s.channels[h.rid.value].cell.Closed?)
    && (h.ipc.ImgWantQueueAgain? || h.ipc.ImgCleansQueue? || h.ipc.ImgFinished? ==> h.rid.value !in s.tables.inflight)
    && (h.ipc.ImgFinished? ==> !JobQueued(s, h.id, h.rid.value))
    && (h.ipc.ImgWantQueue? || h.ipc.ImgHasQueue? ==> |s.tables.inflight| < MAX_INFLIGHT)
  }

  predicate PollOk(s: State, t: HandlerId, h: Handler)
    requires h.Poll?
  {
    && (Knows(h) ==> Authenticated(s, h.id, h.bearer))
    && (h.ppc.PollGiven? ==>
          && h.job.Some? && h.id in s.tables.tenants && h.job.value in s.tables.tenants[h.id].handed
          && h.job.value.requestId in s.handedTo && s.handedTo[h.job.value.requestId] == t)
  }

  predicate ResultOk(s: State, t: HandlerId, h: Handler)
    requires h.Result?
  {
    && (Knows(h) ==> Authenticated(s, h.id, h.bearer))
    && (Took(h) ==> h.target in s.channels && s.channels[h.target].taker == Some(t))
  }

  predicate LockFactsOk(s: State, t: HandlerId)
    requires t in s.handlers
  {
    var h := s.handlers[t];
    && (HoldsInflightLock(h) ==> s.inflightLock == Some(t))
    && (HoldsQueueLock(h) ==> h.id in s.queueLock && s.queueLock[h.id] == t)
    && (HoldsRead(h) ==> t in s.readers)
    && (HoldsWrite(h) ==> s.writer == Some(t))
    && (Persisting(h) ==> s.pending == Some(h.id))
  }

  predicate DataOk(s: State, t: HandlerId)
    requires t in s.handlers
  {
    var h := s.handlers[t];
    && (Knows(h) ==> Committed(s, h.id))
    && (h.Image? ==> ImageOk(s, t, h))
    && (h.Poll? ==> PollOk(s, t, h))
    && (h.Result? ==> ResultOk(s, t, h))
    && (Persisting(h) ==> h.id in s.tables.tenants && s.tables.tenants[h.id] == NewTenant(Sha256(h.secret)))
  }

  predicate HandlerOk(s: State, t: HandlerId)
    requires t in s.handlers
  {
    LockFactsOk(s, t) && DataOk(s, t)
  }

  ghost predicate LocksOk(s: State) {
    && (s.inflightLock.Some? ==> s.inflightLock.value in s.handlers && HoldsInflightLock(s.handlers[s.inflightLock.value]))
    && (forall id :: id in s.queueLock ==>
          s.queueLock[id] in s.handlers && HoldsQueueLock(s.handlers[s.queueLock[id]]) && s.handlers[s.queueLock[id]].id == id)
    && (forall t :: t in s.readers ==> t in s.handlers && HoldsRead(s.handlers[t]))
    && (s.writer.Some? ==> s.readers == {} && s.writer.value in s.handlers && HoldsWrite(s.handlers[s.writer.value]))
    && (s.pending.Some? ==> s.writer.Some? && s.writer.value in s.handlers && Persisting(s.handlers[s.writer.value]))
  }

  predicate ChannelOk(s: State, r: RequestId)
    requires r in s.channels
  {
    && Owned(s, r)
    && (s.channels[r].taker.Some? ==>
          && r !in s.tables.inflight && OwnerOf(s, r).inserted
          && s.channels[r].taker.value in s.handlers
          && var h := s.handlers[s.channels[r].taker.value]; Took(h) && h.target == r && h.id == OwnerOf(s, r).id)
    && (s.channels[r].cell.Filled? ==> PostedFor(s, r, s.channels[r].cell.delivery))
  }

  predicate InflightEntryOk(s: State, r: RequestId)
    requires r in s.tables.inflight
  {
    Owned(s, r) && OwnerOf(s, r).inserted && MayBeInflight(OwnerOf(s, r).ipc) && OwnerOf(s, r).id == s.tables.inflight[r]
  }

  predicate JobOwned(s: State, id: TenantId, j: Job) {
    && Owned(s, j.requestId)
    && var h := OwnerOf(s, j.requestId);
    h.inserted && h.id == id && ImageTyped(h) && JobOf(h) == j
  }

  predicate FinishedId(s: State, r: RequestId) {
    Owned(s, r) && OwnerOf(s, r).ipc.ImgFinished?
  }

  predicate GivenTo(s: State, id: TenantId, j: Job) {
    && j.requestId in s.handedTo && s.handedTo[j.requestId] in s.handlers
    && var h := s.handlers[s.handedTo[j.requestId]];
    h.Poll? && h.ppc.PollGiven? && h.id == id && h.job == Some(j)
  }

  predicate HandedEntryOk(s: State, r: RequestId)
    requires r in s.handedTo
  {
    && s.handedTo[r] in s.handlers
    && var h := s.handlers[s.handedTo[r]];
    h.Poll? && h.ppc.PollGiven? && h.job.Some? && h.job.value.requestId == r
  }

  ghost predicate TenantOk(s: State, id: TenantId)
    requires id in s.tables.tenants
  {
    var tenant := s.tables.tenants[id];
    && (forall j <- tenant.pushed :: JobOwned(s, id, j))
    && (forall i, k :: 0 <= i < k < |tenant.pushed| ==> tenant.pushed[i].requestId != tenant.pushed[k].requestId)
    && Subsequence(tenant.handed + tenant.queue, tenant.pushed)
    && (forall j <- tenant.pushed :: j in tenant.queue || j in tenant.handed || FinishedId(s, j.requestId))
    && (forall j <- tenant.handed :: GivenTo(s, id, j))
    && |tenant.queue| <= MAX_QUEUED_PER_TENANT
  }

  ghost predicate Inv(s: State) {
    && LocksOk(s)
    && (forall t :: t in s.handlers ==> HandlerOk(s, t))
    && (forall r :: r in s.channels ==> ChannelOk(s, r))
    && (forall r :: r in s.tables.inflight ==> InflightEntryOk(s, r))
    && (forall r :: r in s.handedTo ==> HandedEntryOk(s, r))
    && (forall id :: id in s.tables.tenants ==> TenantOk(s, id))
    && |s.tables.inflight| <= MAX_INFLIGHT
  }

  /** How a handler may change in one step of its own. */
  predicate Evolves(h: Handler, h': Handler) {
    match h
    case Image(id, filename, expires, sig, pc, rid, inserted, got) =>
      && h'.Image? && h'.id == id && h'.filename == filename && h'.expires == expires && h'.sig == sig
      && (rid.Some? ==> h'.rid == rid) && (inserted ==> h'.inserted) && (got.Some? ==> h'.got == got)
      && !pc.ImgFinished?
    case Poll(id, bearer, pc, _, _) => h'.Poll? && h'.id == id && h'.bearer == bearer && !pc.PollGiven?
    case Result(id, target, bearer, result, pc) =>
      && h'.Result? && h'.id == id && h'.target == target && h'.bearer == bearer && h'.result == result
      && !pc.ResPosted? && (Took(h) ==> Took(h'))
    case Register(id, secret, _, _, _) => h'.Register? && h'.id == id && h'.secret == secret
  }

  predicate ChannelEvolves(ch: Channel, ch': Channel) {
    && ch'.owner == ch.owner && (ch.taker.Some? ==> ch'.taker == ch.taker)
    && (ch.cell.Closed? ==> ch'.cell.Closed?)
  }

  predicate IsRequestOf(h: Handler, r: RequestId) {
    h.Image? && h.rid == Some(r)
  }

  /** The locks change hands exactly as the program counter of t says. */
  predicate LockMoves(s: State, s': State, t: HandlerId)
    requires t in s.handlers && t in s'.handlers
  {
    var h, h' := s.handlers[t], s'.handlers[t];
    && h'.id == h.id
    && s'.inflightLock == (if HoldsInflightLock(h') then Some(t) else if HoldsInflightLock(h) then None else s.inflightLock)
    && (HoldsInflightLock(h') && !HoldsInflightLock(h) ==> s.inflightLock.None?)
    && s'.queueLock == (if HoldsQueueLock(h) == HoldsQueueLock(h') then s.queueLock
                        else if HoldsQueueLock(h') then s.queueLock[h.id := t] else s.queueLock - {h.id})
    && (HoldsQueueLock(h') && !HoldsQueueLock(h) ==> h.id !in s.queueLock)
    && s'.readers == (if HoldsRead(h) == HoldsRead(h') then s.readers
                      else if HoldsRead(h') then s.readers + {t} else s.readers - {t})
    && (HoldsRead(h') && !HoldsRead(h) ==> s.writer.None?)
    && s'.writer == (if HoldsWrite(h') then Some(t) else if HoldsWrite(h) then None else s.writer)
    && (HoldsWrite(h') && !HoldsWrite(h) ==> s.writer.None? && s.readers == {})
    && s'.pending == (if Persisting(h') then Some(h.id) else if Persisting(h) then None else s.pending)
    && (Persisting(h') ==> HoldsWrite(h))
  }

  ghost predicate TenantEvolves(a: Tenant, b: Tenant, h: Handler) {
    && b.secretHash == a.secretHash
    && (forall j <- a.pushed :: j in b.pushed)
    && (forall j <- a.handed :: j in b.handed)
    && (forall j <- b.queue :: j in a.queue || IsRequestOf(h, j.requestId))
  }

  ghost predicate ChannelsEvolve(s: State, s': State) {
    forall r :: r in s.channels ==> r in s'.channels && ChannelEvolves(s.channels[r], s'.channels[r])
  }

  ghost predicate TenantsEvolve(s: State, s': State, h: Handler) {
    forall id :: Committed(s, id) ==> Committed(s', id) && TenantEvolves(s.tables.tenants[id], s'.tables.tenants[id], h)
  }

  /** What one step of handler t guarantees to everybody else about the shared tables. */
  ghost predicate Guarantee(s: State, s': State, t: HandlerId) {
    && t in s.handlers && t in s'.handlers
    && s'.handlers == s.handlers[t := s'.handlers[t]]
    && Evolves(s.handlers[t], s'.handlers[t])
    && ChannelsEvolve(s, s')
    && (forall r :: r in s.handedTo ==> r in s'.handedTo && s'.handedTo[r] == s.handedTo[r])
    && (forall r :: r in s'.tables.inflight && r !in s.tables.inflight ==>
          IsRequestOf(s.handlers[t], r) && !s.handlers[t].inserted)
    && (|s'.tables.inflight| <= |s.tables.inflight| || HoldsInflightLock(s.handlers[t]))
    && (|| s'.tables.tenants.Keys <= s.tables.tenants.Keys
        || (|s.tables.tenants| < MAX_TENANTS && s'.tables.tenants.Keys == s.tables.tenants.Keys + {s.handlers[t].id}))
    && TenantsEvolve(s, s', s.handlers[t])
  }

  lemma LocksKept(s: State, s': State, t: HandlerId)
    requires LocksOk(s) && t in s.handlers && LockFactsOk(s, t)
    requires t in s'.handlers && s'.handlers == s.handlers[t := s'.handlers[t]] && LockMoves(s, s', t)
    ensures LocksOk(s') && LockFactsOk(s', t)
  {
  }

  lemma LocksOfOthers(s: State, s': State, t: HandlerId, u: HandlerId)
    requires LocksOk(s) && t in s.handlers && LockFactsOk(s, t) && u in s.handlers && u != t && LockFactsOk(s, u)
    requires t in s'.handlers && s'.handlers == s.handlers[t := s'.handlers[t]] && LockMoves(s, s', t)
    ensures LockFactsOk(s', u)
  {
  }

  lemma StableData(s: State, s': State, t: HandlerId, u: HandlerId)
    requires Guarantee(s, s', t) && u in s.handlers && u != t && DataOk(s, u) && DataOk(s, t)
    requires !HoldsInflightLock(s.handlers[t]) || !HoldsInflightLock(s.handlers[u])
    requires Persisting(s.handlers[u]) ==>
               (s.handlers[u].id in s'.tables.tenants && s'.tables.tenants[s.handlers[u].id] == s.tables.tenants[s.handlers[u].id])
    ensures DataOk(s', u)
  {
  }

  lemma StablePosting(s: State, s': State, t: HandlerId, r: RequestId, d: Delivery)
    requires Guarantee(s, s', t) && PostedFor(s, r, d)
    ensures PostedFor(s', r, d)
  {
  }

  lemma StableChannel(s: State, s': State, t: HandlerId, r: RequestId)
    requires Guarantee(s, s', t) && r in s.channels && ChannelOk(s, r) && DataOk(s, t)
    requires s'.channels[r] == s.channels[r]
    ensures ChannelOk(s', r)
  {
    if s.channels[r].cell.Filled? {
      StablePosting(s, s', t, r, s.channels[r].cell.delivery);
    }
  }

  lemma StableInflight(s: State, s': State, t: HandlerId, r: RequestId)
    requires Guarantee(s, s', t) && r in s.tables.inflight && InflightEntryOk(s, r) && r in s'.tables.inflight
    requires s'.tables.inflight[r] == s.tables.inflight[r]
    requires IsRequestOf(s.handlers[t], r) && MayBeInflight(s.handlers[t].ipc) ==> MayBeInflight(s'.handlers[t].ipc)
    ensures InflightEntryOk(s', r)
  {
  }

  lemma StableJob(s: State, s': State, t: HandlerId, id: TenantId, j: Job)
    requires Guarantee(s, s', t)
    ensures JobOwned(s, id, j) ==> JobOwned(s', id, j)
    ensures GivenTo(s, id, j) ==> GivenTo(s', id, j)
    ensures FinishedId(s, j.requestId) ==> FinishedId(s', j.requestId)
  {
  }

  lemma StableTenant(s: State, s': State, t: HandlerId, id: TenantId)
    requires Guarantee(s, s', t) && id in s.tables.tenants && TenantOk(s, id)
    requires id in s'.tables.tenants && s'.tables.tenants[id] == s.tables.tenants[id]
    ensures TenantOk(s', id)
  {
    forall j | j in s.tables.tenants[id].pushed || j in s.tables.tenants[id].handed
      ensures JobOwned(s, id, j) ==> JobOwned(s', id, j)
      ensures GivenTo(s, id, j) ==> GivenTo(s', id, j)
      ensures FinishedId(s, j.requestId) ==> FinishedId(s', j.requestId)
    {
      StableJob(s, s', t, id, j);
    }
  }

  /** What remains to be shown of one step besides its guarantee: its own facts and what it touched. */
  ghost predicate LocalRequestsOk(s: State, s': State, t: HandlerId)
    requires t in s.handlers && t in s'.handlers
  {
    && DataOk(s', t)
    && (forall r :: r in s'.channels && (r in s.channels ==> s'.channels[r] != s.channels[r]) ==> ChannelOk(s', r))
    && (forall r :: r in s'.tables.inflight && r !in s.tables.inflight ==> InflightEntryOk(s', r))
    && (forall r :: r in s'.tables.inflight && r in s.tables.inflight ==> s'.tables.inflight[r] == s.tables.inflight[r])
    && (forall r :: r in s'.tables.inflight && IsRequestOf(s.handlers[t], r) && MayBeInflight(s.handlers[t].ipc) ==>
          s'.handlers[t].Image? && MayBeInflight(s'.handlers[t].ipc))
    && (forall r :: r in s'.handedTo && r !in s.handedTo ==> HandedEntryOk(s', r))
    && |s'.tables.inflight| <= MAX_INFLIGHT
  }

  ghost predicate LocalTenantsOk(s: State, s': State, t: HandlerId) {
    && (forall id :: id in s'.tables.tenants && (id in s.tables.tenants ==> s'.tables.tenants[id] != s.tables.tenants[id]) ==>
          TenantOk(s', id))
    && (s.pending.Some? && s.writer != Some(t) && s.pending.value in s.tables.tenants ==>
          s.pending.value in s'.tables.tenants && s'.tables.tenants[s.pending.value] == s.tables.tenants[s.pending.value])
  }

  ghost predicate LocalOk(s: State, s': State, t: HandlerId)
    requires t in s.handlers && t in s'.handlers
  {
    LocalRequestsOk(s, s', t) && LocalTenantsOk(s, s', t)
  }

  lemma StableHandler(s: State, s': State, t: HandlerId, u: HandlerId)
    requires LocksOk(s) && Guarantee(s, s', t) && LockMoves(s, s', t) && LocalOk(s, s', t)
    requires u in s.handlers && u != t && HandlerOk(s, u) && HandlerOk(s, t)
    ensures HandlerOk(s', u)
  {
    LocksOfOthers(s, s', t, u);
    StableData(s, s', t, u);
  }

  lemma StableRequests(s: State, s': State, t: HandlerId)
    requires Inv(s) && Guarantee(s, s', t) && LocalOk(s, s', t)
    ensures forall r :: r in s'.channels ==> ChannelOk(s', r)
    ensures forall r :: r in s'.tables.inflight ==> InflightEntryOk(s', r)
    ensures forall r :: r in s'.handedTo ==> HandedEntryOk(s', r)
  {
    assert HandlerOk(s, t);
    forall r | r in s'.channels ensures ChannelOk(s', r) {
      if r in s.channels && s'.channels[r] == s.channels[r] {
        StableChannel(s, s', t, r);
      }
    }
    forall r | r in s'.tables.inflight ensures InflightEntryOk(s', r) {
      if r in s.tables.inflight {
        StableInflight(s, s', t, r);
      }
    }
    forall r | r in s'.handedTo ensures HandedEntryOk(s', r) {
      if r in s.handedTo {
        assert HandedEntryOk(s, r);
      }
    }
  }

  lemma StableTenants(s: State, s': State, t: HandlerId)
    requires Inv(s) && Guarantee(s, s', t) && LocalOk(s, s', t)
    ensures forall id :: id in s'.tables.tenants ==> TenantOk(s', id)
  {
    forall id | id in s'.tables.tenants ensures TenantOk(s', id) {
      if id in s.tables.tenants && s'.tables.tenants[id] == s.tables.tenants[id] {
        StableTenant(s, s', t, id);
      }
    }
  }

  /** A step that meets its guarantee and is locally right keeps the whole invariant. */
  lemma Assemble(s: State, s': State, t: HandlerId)
    requires Inv(s) && Guarantee(s, s', t) && LockMoves(s, s', t) && LocalOk(s, s', t)
    ensures Inv(s')
  {
    assert HandlerOk(s, t);
    LocksKept(s, s', t);
    forall u | u in s'.handlers ensures HandlerOk(s', u) {
      if u != t {
        assert HandlerOk(s, u);
        StableHandler(s, s', t, u);
      }
    }
    StableRequests(s, s', t);
    StableTenants(s, s', t);
  }

  /** Only the handler itself and perhaps a lock changed. */
  predicate Quiet(s: State, s': State, t: HandlerId) {
    && t in s.handlers && t in s'.handlers && s'.handlers == s.handlers[t := s'.handlers[t]]
    && s'.tables == s.tables && s'.channels == s.channels && s'.handedTo == s.handedTo && s'.pending == s.pending
    && Evolves(s.handlers[t], s'.handlers[t])
    && (s.handlers[t].Image? && MayBeInflight(s.handlers[t].ipc) ==> MayBeInflight(s'.handlers[t].ipc))
  }

  lemma QuietIsLocal(s: State, s': State, t: HandlerId)
    requires Quiet(s, s', t) && DataOk(s', t) && |s.tables.inflight| <= MAX_INFLIGHT
    ensures Guarantee(s, s', t) && LocalOk(s, s', t)
  {
  }
}
