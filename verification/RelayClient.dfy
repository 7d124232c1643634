/** The honest peer of the relay: a client that polls a job, asks its local gateway, and answers under
    the job's request id; and what its answers mean for the image handlers, in every schedule. */
module RelayClient {
  import opened Prelude
  import opened RelayLib
  import opened RelayTables
  import opened RelayMachine
  import opened RelayInvariants
  import opened RelaySteps
  import opened RelayTheorems
  import SignedUrl
  import Text

  /** The local gateway's response to the request made for each job (None when the request fails), and base64. */
  datatype Local = Local(get: Job -> Option<SignedUrl.Response>, encode: seq<Byte> -> string, decode: string -> Option<seq<Byte>>)

  /** Base64 writes four characters for every three bytes begun, and is decoded to what was encoded. */
  ghost predicate Standard(local: Local) {
    && (forall b: seq<Byte> :: |local.encode(b)| == (|b| + 2) / 3 * 4)
    && (forall b: seq<Byte> :: local.decode(local.encode(b)) == Some(b))
  }

  datatype Reply = Reply(status: nat, job: Option<Job>)

  /** What the server answers a poll, once it is done. */
  function PollReply(h: Handler): Option<Reply>
    requires h.Poll?
  {
    match h.ppc
    case PollGiven => Some(Reply(200, h.job))
    case PollNothing => Some(Reply(204, None))
    case PollRefused => Some(Reply(404, None))
    case _ => None
  }

  datatype ClientStep = Idle | Unregistered | Failed | Answer(target: RequestId, result: RelayResult)

  function Fetch(local: Local, job: Job): Option<RelayResult> {
    match local.get(job)
    case None => None
    case Some(response) =>
      match SignedUrl.ClientResult(response)
      case None => None
      case Some(r) => Some(RelayResult(r.status, r.contentType, local.encode(r.body)))
  }

  /** One round of the client's loop, up to the post of its answer. */
  function PollOnce(reply: Reply, local: Local): ClientStep {
    if reply.status == 204 then Idle
    else if reply.status == 404 then Unregistered
    else if !(200 <= reply.status < 300) || reply.job.None? then Failed
    else
      match Fetch(local, reply.job.value)
      case None => Failed
      case Some(result) => Answer(reply.job.value.requestId, result)
  }

  /** Call u is the client's answer to its poll p. */
  predicate Answers(s: State, u: HandlerId, p: HandlerId, local: Local) {
    && u in s.handlers && s.handlers[u].Result? && p in s.handlers && s.handlers[p].Poll?
    && s.handlers[u].id == s.handlers[p].id && s.handlers[u].bearer == s.handlers[p].bearer
    && PollReply(s.handlers[p]).Some?
    && PollOnce(PollReply(s.handlers[p]).value, local) == Answer(s.handlers[u].target, s.handlers[u].result)
  }

  /** Every call that took a request of this tenant is such an answer. */
  ghost predicate ServedBy(s: State, id: TenantId, local: Local) {
    forall u :: u in s.handlers && Took(s.handlers[u]) && s.handlers[u].id == id ==> exists p :: Answers(s, u, p, local)
  }

  /** The response an image handler ends with, given what its channel delivered; None is the uniform not-found. */
  function ImageReply(h: Handler, local: Local): Option<(string, seq<Byte>)>
    requires h.Image?
  {
    if h.got.None? then None
    else
      var result := h.got.value.result;
      match local.decode(result.bodyBase64)
      case None => None
      case Some(body) => SignedUrl.RelayAnswer(SignedUrl.Response(result.status, result.contentType, body, false))
  }

  /** A job given to a poll is the one its image handler pushed: the client asks for that handler's own path. */
  lemma GivenJobIsOwned(s: State, p: HandlerId)
    requires Inv(s) && p in s.handlers && s.handlers[p].Poll? && s.handlers[p].ppc.PollGiven?
    ensures s.handlers[p].job.Some? && JobOwned(s, s.handlers[p].id, s.handlers[p].job.value)
  {
    assert HandlerOk(s, p);
    QueuedWasPushed(s, s.handlers[p].id, s.handlers[p].job.value);
  }

  lemma RequestIsOwned(s: State, t: HandlerId)
    requires Inv(s) && t in s.handlers && s.handlers[t].Image? && s.handlers[t].rid.Some?
    ensures OwnedBy(s, s.handlers[t].rid.value, t) && ImageTyped(s.handlers[t])
    ensures Open(s, s.handlers[t].rid.value) && s.handlers[t].rid.value in s.tables.inflight ==>
              s.channels[s.handlers[t].rid.value].cell.Empty?
  {
    assert HandlerOk(s, t);
    assert ChannelOk(s, s.handlers[t].rid.value);
  }

  /** An answer carries the gateway's response to the path of the job, whole. */
  lemma AnswerIsFetched(s: State, u: HandlerId, p: HandlerId, local: Local)
    requires Answers(s, u, p, local) && Standard(local)
    ensures s.handlers[p].ppc.PollGiven? && s.handlers[p].job.Some? && s.handlers[u].target == s.handlers[p].job.value.requestId
    ensures var result, response := s.handlers[u].result, local.get(s.handlers[p].job.value);
            && Fetch(local, s.handlers[p].job.value) == Some(result)
            && response.Some? && result.status == response.value.status && result.contentType == response.value.contentType
            && local.decode(result.bodyBase64) == Some(response.value.body)
            && |result.bodyBase64| <= MAX_IMAGE_BYTES * 2
  {
    AnswerFits(PollReply(s.handlers[p]).value, local);
  }

  /** In every interleaving, a handler of a tenant served by an honest client gets the gateway's response
      to the handler's own path, never that of another request. */
  lemma ReaderGetsOwnImage(e: Env, loaded: map<TenantId, Digest>, s: State, t: HandlerId, local: Local)
    requires Reachable(e, loaded, s) && Standard(local)
    requires t in s.handlers && s.handlers[t].Image? && s.handlers[t].got.Some? && ServedBy(s, s.handlers[t].id, local)
    ensures ImageTyped(s.handlers[t]) && s.handlers[t].inserted
    ensures var response := local.get(JobOf(s.handlers[t]));
            && response.Some?
            && Fetch(local, JobOf(s.handlers[t])) == Some(s.handlers[t].got.value.result)
            && ImageReply(s.handlers[t], local) == SignedUrl.RelayAnswer(response.value)
  {
    hide Inv;
    hide DataOk;
    ReachableInv(e, loaded, s);
    DeliveredResultWasPosted(e, loaded, s, t);
    RequestIsOwned(s, t);
    var u := s.handlers[t].got.value.sender;
    assert Took(s.handlers[u]);
    var p :| Answers(s, u, p, local);
    GivenJobIsOwned(s, p);
    AnswerIsFetched(s, u, p, local);
  }

  /** The whole way: a published image whose job reaches the gateway before its expiry, from a tenant whose client
      is honest and whose gateway holds the key, is what the reader gets whenever it gets a delivery. */
  lemma ReaderGetsPublishedBytes(
    e: Env, loaded: map<TenantId, Digest>, s: State, t: HandlerId, local: Local,
    crypto: SignedUrl.Crypto, key: seq<Byte>, files: map<string, seq<Byte>>, bytes: seq<Byte>, extension: string,
    expires: nat, clock: RequestId -> nat, headers: string)
    requires Reachable(e, loaded, s) && Standard(local)
    requires t in s.handlers && s.handlers[t].Image? && s.handlers[t].got.Some? && ServedBy(s, s.handlers[t].id, local)
    requires forall job :: local.get(job) ==
               SignedUrl.Handle(crypto, key, files, clock(job.requestId), SignedUrl.GetRequest("GET", job.pathAndQuery, headers))
    requires SignedUrl.Sound(crypto) && ImageExtension(extension) && expires <= SignedUrl.U64_MAX
    requires SignedUrl.FileName(crypto, bytes, extension) in files && files[SignedUrl.FileName(crypto, bytes, extension)] == bytes
    requires |bytes| <= MAX_IMAGE_BYTES && ValidTenantId(s.handlers[t].id)
    requires s.handlers[t].filename == SignedUrl.FileName(crypto, bytes, extension)
    requires s.handlers[t].rid.Some? ==> clock(s.handlers[t].rid.value) <= expires
    requires s.handlers[t].expires == Some(Text.Decimal(expires))
    requires s.handlers[t].sig == Some(SignedUrl.Signature(crypto, key, s.handlers[t].filename, expires))
    ensures ImageReply(s.handlers[t], local) == Some((SignedUrl.ContentType(s.handlers[t].filename), bytes))
  {
    hide Inv;
    hide SignedUrl.Handle;
    ReaderGetsOwnImage(e, loaded, s, t, local);
    SignedUrl.PublishedImageArrives(crypto, key, files, bytes, extension, expires, clock(s.handlers[t].rid.value), s.handlers[t].id, headers);
  }

  /** The client's size check makes its answers fit the server's limit on encoded bodies. */
  lemma AnswerFits(reply: Reply, local: Local)
    requires Standard(local) && PollOnce(reply, local).Answer?
    ensures |PollOnce(reply, local).result.bodyBase64| <= MAX_IMAGE_BYTES * 2
  {
    var n := |local.get(reply.job.value).value.body|;
    assert n <= MAX_IMAGE_BYTES;
  }

  /** While a given job is inflight its entry names the poll's tenant, and the poll stays authenticated. */
  lemma GivenJobEntry(s: State, p: HandlerId)
    requires Inv(s) && p in s.handlers && s.handlers[p].Poll? && s.handlers[p].ppc.PollGiven?
    ensures Authenticated(s, s.handlers[p].id, s.handlers[p].bearer)
    ensures s.handlers[p].job.Some? && JobOwned(s, s.handlers[p].id, s.handlers[p].job.value)
    ensures var r := s.handlers[p].job.value.requestId; r in s.tables.inflight ==> s.tables.inflight[r] == s.handlers[p].id
  {
    GivenJobIsOwned(s, p);
    PollIsKnown(s, p);
    if s.handlers[p].job.value.requestId in s.tables.inflight {
      assert InflightEntryOk(s, s.handlers[p].job.value.requestId);
    }
    hide Inv;
    hide Authenticated;
  }

  /** The post of an honest answer passes authentication and the size check, and is taken exactly when its
      request is still inflight. */
  lemma HonestAnswerIsTaken(e: Env, s: State, u: HandlerId, p: HandlerId, local: Local)
    requires Inv(s) && Standard(local) && Answers(s, u, p, local)
    requires s.handlers[u].rpc.ResReading? || s.handlers[u].rpc.ResHasInflight?
    ensures Next(e, s, Run(u, Go)).Some?
    ensures var s', h := Next(e, s, Run(u, Go)).value, s.handlers[u];
            && u in s'.handlers && s'.handlers[u].Result?
            && (h.rpc.ResReading? ==> s'.handlers[u].rpc.ResWantInflight?)
            && (h.rpc.ResHasInflight? ==>
                  s'.handlers[u].rpc == if h.target in s.tables.inflight then ResTook else ResRefused)
  {
    hide Inv;
    GivenJobEntry(s, p);
    AnswerIsFetched(s, u, p, local);
  }

  // ---- The receiver listens until it leaves ----

  predicate Listening(h: Handler) {
    && h.Image? && h.rid.Some?
    && (|| h.ipc.ImgWantInflight? || h.ipc.ImgHasInflight? || h.ipc.ImgWantQueue? || h.ipc.ImgHasQueue?
        || h.ipc.ImgInserted? || h.ipc.ImgHoldsInflight? || h.ipc.ImgWaiting?)
  }

  predicate Open(s: State, r: RequestId) {
    r in s.channels && !s.channels[r].cell.Closed?
  }

  /** Who still listens has an open channel. */
  ghost predicate ListenersOpen(s: State) {
    forall t :: t in s.handlers && Listening(s.handlers[t]) ==> Open(s, s.handlers[t].rid.value)
  }

  /** The step closed at most the channel its own image handler was waiting on. */
  ghost predicate ClosesOwn(s: State, s': State, t: HandlerId) {
    && t in s.handlers && t in s'.handlers && s'.handlers == s.handlers[t := s'.handlers[t]]
    && (forall r :: Open(s, r) ==> Open(s', r) || (IsRequestOf(s.handlers[t], r) && !Listening(s'.handlers[t])))
    && (Listening(s'.handlers[t]) ==>
          || (Listening(s.handlers[t]) && s'.handlers[t].rid == s.handlers[t].rid)
          || Open(s', s'.handlers[t].rid.value))
  }

  lemma MoveClosesNone(s: State, s': State, t: HandlerId, h': Handler)
    requires Moves(s, s', t, h')
    ensures ClosesOwn(s, s', t)
  {
  }

  lemma ImageEntryClosesNone(s: State, s': State, t: HandlerId, c: Choice)
    requires t in s.handlers && LockFactsOk(s, t) && s.handlers[t].Image? && ImageTyped(s.handlers[t])
    requires BeforeInsertion(s.handlers[t].ipc) && NextImage(s, t, s.handlers[t], c) == Some(s')
    ensures ClosesOwn(s, s', t)
  {
    var h := s.handlers[t];
    if h.ipc.ImgReading? && h.id in s.tables.tenants {
      ImageDraws(s, s', t, c);
      hide NextImage;
    } else if h.ipc.ImgHasQueue? && h.id in s.tables.tenants && |s.tables.tenants[h.id].queue| < MAX_QUEUED_PER_TENANT {
      assert s' == With(s.(tables := Enqueue(s.tables, h.id, JobOf(h))), t, h.(ipc := ImgInserted, inserted := true));
      hide NextImage;
    } else {
      ImageEntryMoves(s, s', t, c);
      hide NextImage;
      MoveClosesNone(s, s', t, s'.handlers[t]);
    }
  }

  lemma WakingCloses(s: State, s': State, t: HandlerId, h': Handler)
    requires t in s.handlers && Wakes(s, s', t, h')
    ensures ClosesOwn(s, s', t)
  {
  }

  lemma CleaningClosesNone(s: State, s': State, t: HandlerId)
    requires t in s.handlers && (Forgets(s, s', t) || Cleans(s, s', t))
    ensures ClosesOwn(s, s', t)
  {
    hide TenantOk;
    hide ForgetInflight;
    hide ForgetJob;
  }

  lemma ImageExitClosesOwn(s: State, s': State, t: HandlerId, c: Choice)
    requires t in s.handlers && LockFactsOk(s, t) && s.handlers[t].Image? && ImageTyped(s.handlers[t])
    requires s.handlers[t].id in s.tables.tenants ==> TenantOk(s, s.handlers[t].id)
    requires !BeforeInsertion(s.handlers[t].ipc) && NextImage(s, t, s.handlers[t], c) == Some(s')
    ensures ClosesOwn(s, s', t)
  {
    hide NextImage;
    hide TenantOk;
    hide Wakes;
    hide Forgets;
    hide Cleans;
    hide Moves;
    hide ClosesOwn;
    if s.handlers[t].ipc.ImgWaiting? {
      ImageWakes(s, s', t, c);
      WakingCloses(s, s', t, s'.handlers[t]);
    } else if s.handlers[t].ipc.ImgCleansInflight? {
      ImageForgets(s, s', t, c);
      CleaningClosesNone(s, s', t);
    } else if s.handlers[t].ipc.ImgCleansQueue? {
      ImageCleans(s, s', t, c);
      CleaningClosesNone(s, s', t);
    } else {
      ImageExitMoves(s, s', t, c);
      MoveClosesNone(s, s', t, s'.handlers[t]);
    }
  }

  lemma PostClosesNone(s: State, s': State, t: HandlerId, c: Choice)
    requires t in s.handlers && LockFactsOk(s, t) && s.handlers[t].Result? && NextResult(s, t, s.handlers[t], c) == Some(s')
    ensures ClosesOwn(s, s', t)
  {
    var h := s.handlers[t];
    if h.rpc.ResSending? || (h.rpc.ResHasInflight? && MayTake(s.tables, h.id, h.target) && h.target in s.channels) {
      ResultEffect(s, s', t, c);
      hide NextResult;
    } else {
      if h.rpc.ResArrived? || h.rpc.ResReading? {
        ResultEntryMoves(s, s', t, c);
      } else {
        ResultLockMoves(s, s', t, c);
      }
      hide NextResult;
      MoveClosesNone(s, s', t, s'.handlers[t]);
    }
  }

  lemma PollClosesNone(s: State, s': State, t: HandlerId, c: Choice)
    requires t in s.handlers && s.handlers[t].Poll? && NextPoll(s, t, s.handlers[t], c) == Some(s')
    ensures ClosesOwn(s, s', t)
  {
    var h := s.handlers[t];
    if h.ppc.PollHasQueue? && h.id in s.tables.tenants && s.tables.tenants[h.id].queue != [] {
      hide PopJob;
      assert s'.channels == s.channels && s'.handlers == s.handlers[t := s'.handlers[t]] && s'.handlers[t].Poll?;
      hide NextPoll;
      AsideClosesNone(s, s', t);
    } else {
      if h.ppc.PollArrived? || h.ppc.PollReading? {
        PollEntryMoves(s, s', t, c);
      } else {
        PollQueueMoves(s, s', t, c);
      }
      hide NextPoll;
      MoveClosesNone(s, s', t, s'.handlers[t]);
    }
  }

  lemma RegisterLeavesChannels(e: Env, s: State, s': State, t: HandlerId, c: Choice)
    requires t in s.handlers && s.handlers[t].Register? && NextRegister(e, s, t, s.handlers[t], c) == Some(s')
    ensures t in s'.handlers && s'.channels == s.channels
    ensures s'.handlers[t].Register? && s'.handlers == s.handlers[t := s'.handlers[t]]
  {
    hide RegistrationOk;
    hide InsertTenant;
    hide RemoveTenant;
    hide SecretHashMatches;
    match s.handlers[t].gpc
    case RegHasWrite =>
    case RegPersisting =>
    case _ =>
  }

  lemma AsideClosesNone(s: State, s': State, t: HandlerId)
    requires t in s.handlers && t in s'.handlers && !s'.handlers[t].Image?
    requires s'.channels == s.channels && s'.handlers == s.handlers[t := s'.handlers[t]]
    ensures ClosesOwn(s, s', t)
  {
  }

  lemma StepClosesOwn(e: Env, s: State, s': State, t: HandlerId, c: Choice)
    requires Next(e, s, Run(t, c)) == Some(s') && LockFactsOk(s, t)
    requires s.handlers[t].id in s.tables.tenants ==> TenantOk(s, s.handlers[t].id)
    ensures ClosesOwn(s, s', t)
  {
    hide TenantOk;
    hide NextImage;
    hide NextPoll;
    hide NextResult;
    hide NextRegister;
    hide ClosesOwn;
    match s.handlers[t]
    case Image(_, _, _, _, pc, _, _, _) =>
      if BeforeInsertion(pc) {
        ImageEntryClosesNone(s, s', t, c);
      } else {
        ImageExitClosesOwn(s, s', t, c);
      }
    case Poll(_, _, _, _, _) => PollClosesNone(s, s', t, c);
    case Result(_, _, _, _, _) => PostClosesNone(s, s', t, c);
    case Register(_, _, _, _, _) =>
      RegisterLeavesChannels(e, s, s', t, c);
      AsideClosesNone(s, s', t);
  }

  lemma ListenerStaysOpen(s: State, s': State, t: HandlerId, u: HandlerId)
    requires Inv(s) && ListenersOpen(s) && ClosesOwn(s, s', t) && u in s'.handlers && Listening(s'.handlers[u])
    ensures Open(s', s'.handlers[u].rid.value)
  {
    if u != t {
      RequestIsOwned(s, u);
      if s.handlers[t].Image? && s.handlers[t].rid.Some? {
        RequestIsOwned(s, t);
      }
    }
    hide Inv;
  }

  lemma StepOfListener(e: Env, s: State, s': State, t: HandlerId, c: Choice)
    requires Inv(s) && Next(e, s, Run(t, c)) == Some(s')
    ensures ClosesOwn(s, s', t)
  {
    KnownBefore(s, t);
    hide Inv;
    assert t in s.handlers;
    hide Next;
    hide DataOk;
    hide TenantOk;
    hide ClosesOwn;
    StepClosesOwn(e, s, s', t, c);
  }

  lemma StepKeepsListeners(e: Env, s: State, event: Event)
    requires Inv(s) && ListenersOpen(s) && Next(e, s, event).Some?
    ensures ListenersOpen(Next(e, s, event).value)
  {
    var s' := Next(e, s, event).value;
    if event.Run? {
      StepOfListener(e, s, s', event.runs, event.choice);
      hide Inv;
      hide Next;
      forall u | u in s'.handlers && Listening(s'.handlers[u]) ensures Open(s', s'.handlers[u].rid.value) {
        ListenerStaysOpen(s, s', event.runs, u);
      }
    } else {
      hide Inv;
    }
  }

  lemma {:induction false} RunKeepsListeners(e: Env, s: State, schedule: seq<Event>)
    requires Inv(s) && ListenersOpen(s) && Exec(e, s, schedule).Some?
    ensures ListenersOpen(Exec(e, s, schedule).value)
    decreases |schedule|
  {
    hide Next;
    hide Inv;
    if schedule != [] {
      StepKeepsInv(e, s, schedule[0]);
      StepKeepsListeners(e, s, schedule[0]);
      RunKeepsListeners(e, Next(e, s, schedule[0]).value, schedule[1..]);
    }
  }

  /** While a request is inflight and its reader waits, its channel is empty: nothing sent, nothing lost. */
  lemma InflightIsEmpty(e: Env, loaded: map<TenantId, Digest>, s: State, t: HandlerId)
    requires Reachable(e, loaded, s) && t in s.handlers && s.handlers[t].Image? && s.handlers[t].ipc.ImgWaiting?
    ensures s.handlers[t].rid.Some? && OwnedBy(s, s.handlers[t].rid.value, t)
    ensures s.handlers[t].rid.value in s.tables.inflight ==> s.channels[s.handlers[t].rid.value].cell.Empty?
  {
    ReachableInv(e, loaded, s);
    ReachableListens(e, loaded, s);
    hide Inv;
    TypedRequest(s, t);
    RequestIsOwned(s, t);
  }

  lemma TypedRequest(s: State, t: HandlerId)
    requires Inv(s) && t in s.handlers && s.handlers[t].Image? && s.handlers[t].ipc.ImgWaiting?
    ensures s.handlers[t].rid.Some?
  {
    assert HandlerOk(s, t);
  }

  // ---- A finished post has arrived ----

  predicate Full(s: State, r: RequestId) {
    r in s.channels && !s.channels[r].cell.Empty?
  }

  predicate Posted(h: Handler) {
    h.Result? && h.rpc.ResPosted?
  }

  /** Whoever finished posting has filled the channel, or found it closed. */
  ghost predicate PostsArrived(s: State) {
    forall u :: u in s.handlers && Posted(s.handlers[u]) ==> Full(s, s.handlers[u].target)
  }

  /** The step empties no channel, and if it finishes a post, that post has arrived. */
  ghost predicate KeepsFull(s: State, s': State, t: HandlerId) {
    && t in s.handlers && t in s'.handlers && s'.handlers == s.handlers[t := s'.handlers[t]]
    && (forall r :: Full(s, r) ==> Full(s', r))
    && (Posted(s'.handlers[t]) && !Posted(s.handlers[t]) ==> Full(s', s'.handlers[t].target))
    && (Posted(s.handlers[t]) ==> s'.handlers[t] == s.handlers[t])
  }

  lemma MoveKeepsFull(s: State, s': State, t: HandlerId, h': Handler)
    requires Moves(s, s', t, h')
    ensures KeepsFull(s, s', t)
  {
  }

  lemma AsideKeepsFull(s: State, s': State, t: HandlerId)
    requires t in s.handlers && t in s'.handlers && !s.handlers[t].Result? && !s'.handlers[t].Result?
    requires s'.handlers == s.handlers[t := s'.handlers[t]]
    requires forall r :: r in s.channels ==> r in s'.channels && (s'.channels[r] == s.channels[r] || s'.channels[r].cell.Closed?)
    ensures KeepsFull(s, s', t)
  {
  }

  lemma PostKeepsFull(s: State, s': State, t: HandlerId, c: Choice)
    requires t in s.handlers && LockFactsOk(s, t) && s.handlers[t].Result? && NextResult(s, t, s.handlers[t], c) == Some(s')
    ensures KeepsFull(s, s', t)
  {
    var h := s.handlers[t];
    if h.rpc.ResSending? || (h.rpc.ResHasInflight? && MayTake(s.tables, h.id, h.target) && h.target in s.channels) {
      ResultEffect(s, s', t, c);
      hide NextResult;
    } else {
      if h.rpc.ResArrived? || h.rpc.ResReading? {
        ResultEntryMoves(s, s', t, c);
      } else {
        ResultLockMoves(s, s', t, c);
      }
      hide NextResult;
      MoveKeepsFull(s, s', t, s'.handlers[t]);
    }
  }

  lemma PollKeepsFull(s: State, s': State, t: HandlerId, c: Choice)
    requires t in s.handlers && s.handlers[t].Poll? && NextPoll(s, t, s.handlers[t], c) == Some(s')
    ensures KeepsFull(s, s', t)
  {
    var h := s.handlers[t];
    if h.ppc.PollHasQueue? && h.id in s.tables.tenants && s.tables.tenants[h.id].queue != [] {
      hide PopJob;
      assert s'.channels == s.channels && s'.handlers == s.handlers[t := s'.handlers[t]] && s'.handlers[t].Poll?;
      hide NextPoll;
      AsideKeepsFull(s, s', t);
    } else {
      if h.ppc.PollArrived? || h.ppc.PollReading? {
        PollEntryMoves(s, s', t, c);
      } else {
        PollQueueMoves(s, s', t, c);
      }
      hide NextPoll;
      MoveKeepsFull(s, s', t, s'.handlers[t]);
    }
  }

  lemma ImageEntryKeepsFull(s: State, s': State, t: HandlerId, c: Choice)
    requires t in s.handlers && LockFactsOk(s, t) && s.handlers[t].Image? && ImageTyped(s.handlers[t])
    requires BeforeInsertion(s.handlers[t].ipc) && NextImage(s, t, s.handlers[t], c) == Some(s')
    ensures KeepsFull(s, s', t)
  {
    var h := s.handlers[t];
    if h.ipc.ImgReading? && h.id in s.tables.tenants {
      ImageDraws(s, s', t, c);
      hide NextImage;
      AsideKeepsFull(s, s', t);
    } else if h.ipc.ImgHasQueue? && h.id in s.tables.tenants && |s.tables.tenants[h.id].queue| < MAX_QUEUED_PER_TENANT {
      assert s' == With(s.(tables := Enqueue(s.tables, h.id, JobOf(h))), t, h.(ipc := ImgInserted, inserted := true));
      hide NextImage;
      AsideKeepsFull(s, s', t);
    } else {
      ImageEntryMoves(s, s', t, c);
      hide NextImage;
      MoveKeepsFull(s, s', t, s'.handlers[t]);
    }
  }

  lemma WakingKeepsFull(s: State, s': State, t: HandlerId, h': Handler)
    requires t in s.handlers && Wakes(s, s', t, h')
    ensures KeepsFull(s, s', t)
  {
    AsideKeepsFull(s, s', t);
  }

  lemma CleaningKeepsFull(s: State, s': State, t: HandlerId)
    requires t in s.handlers && (Forgets(s, s', t) || Cleans(s, s', t))
    ensures KeepsFull(s, s', t)
  {
    hide TenantOk;
    AsideKeepsFull(s, s', t);
  }

  lemma ImageExitKeepsFull(s: State, s': State, t: HandlerId, c: Choice)
    requires t in s.handlers && LockFactsOk(s, t) && s.handlers[t].Image? && ImageTyped(s.handlers[t])
    requires s.handlers[t].id in s.tables.tenants ==> TenantOk(s, s.handlers[t].id)
    requires !BeforeInsertion(s.handlers[t].ipc) && NextImage(s, t, s.handlers[t], c) == Some(s')
    ensures KeepsFull(s, s', t)
  {
    hide NextImage;
    hide TenantOk;
    hide Wakes;
    hide Forgets;
    hide Cleans;
    hide Moves;
    hide KeepsFull;
    if s.handlers[t].ipc.ImgWaiting? {
      ImageWakes(s, s', t, c);
      WakingKeepsFull(s, s', t, s'.handlers[t]);
    } else if s.handlers[t].ipc.ImgCleansInflight? {
      ImageForgets(s, s', t, c);
      CleaningKeepsFull(s, s', t);
    } else if s.handlers[t].ipc.ImgCleansQueue? {
      ImageCleans(s, s', t, c);
      CleaningKeepsFull(s, s', t);
    } else {
      ImageExitMoves(s, s', t, c);
      MoveKeepsFull(s, s', t, s'.handlers[t]);
    }
  }

  lemma StepKeepsFull(e: Env, s: State, s': State, t: HandlerId, c: Choice)
    requires Inv(s) && Next(e, s, Run(t, c)) == Some(s')
    ensures KeepsFull(s, s', t)
  {
    KnownBefore(s, t);
    assert t in s.handlers;
    hide Inv;
    hide NextImage;
    hide NextPoll;
    hide NextResult;
    hide NextRegister;
    hide KeepsFull;
    hide DataOk;
    hide TenantOk;
    match s.handlers[t]
    case Image(_, _, _, _, pc, _, _, _) =>
      if BeforeInsertion(pc) {
        ImageEntryKeepsFull(s, s', t, c);
      } else {
        ImageExitKeepsFull(s, s', t, c);
      }
    case Poll(_, _, _, _, _) => PollKeepsFull(s, s', t, c);
    case Result(_, _, _, _, _) => PostKeepsFull(s, s', t, c);
    case Register(_, _, _, _, _) =>
      RegisterLeavesChannels(e, s, s', t, c);
      AsideKeepsFull(s, s', t);
  }

  lemma StepKeepsPosts(e: Env, s: State, event: Event)
    requires Inv(s) && PostsArrived(s) && Next(e, s, event).Some?
    ensures PostsArrived(Next(e, s, event).value)
  {
    hide Inv;
    hide NextImage;
    hide NextPoll;
    hide NextResult;
    hide NextRegister;
    if event.Run? {
      StepKeepsFull(e, s, Next(e, s, event).value, event.runs, event.choice);
      hide Next;
    }
  }

  lemma {:induction false} RunKeepsPosts(e: Env, s: State, schedule: seq<Event>)
    requires Inv(s) && PostsArrived(s) && Exec(e, s, schedule).Some?
    ensures PostsArrived(Exec(e, s, schedule).value)
    decreases |schedule|
  {
    hide Next;
    hide Inv;
    hide PostsArrived;
    if schedule != [] {
      StepKeepsInv(e, s, schedule[0]);
      StepKeepsPosts(e, s, schedule[0]);
      RunKeepsPosts(e, Next(e, s, schedule[0]).value, schedule[1..]);
    }
  }

  lemma ReachableListens(e: Env, loaded: map<TenantId, Digest>, s: State)
    requires Reachable(e, loaded, s)
    ensures ListenersOpen(s) && PostsArrived(s)
  {
    var schedule :| Exec(e, Init(loaded), schedule) == Some(s);
    InitInv(loaded);
    hide Inv;
    RunKeepsListeners(e, Init(loaded), schedule);
    RunKeepsPosts(e, Init(loaded), schedule);
  }

  lemma GoTakes(e: Env, s: State, t: HandlerId)
    requires t in s.handlers && s.handlers[t].Image? && ImageTyped(s.handlers[t]) && s.handlers[t].ipc.ImgWaiting?
    requires s.handlers[t].rid.value in s.channels && s.channels[s.handlers[t].rid.value].cell.Filled?
    ensures var next := Next(e, s, Run(t, Go));
            && next.Some? && t in next.value.handlers && next.value.handlers[t].Image? && next.value.tables == s.tables
            && next.value.handlers == s.handlers[t := next.value.handlers[t]]
            && next.value.handlers[t] == s.handlers[t].(ipc := ImgWantInflightAgain, got := next.value.handlers[t].got)
            && next.value.handlers[t].got == Some(s.channels[s.handlers[t].rid.value].cell.delivery)
  {
  }

  /** In every schedule: once the post that took a request is finished, a reader that still waits has that very result
      in its channel, and its next step that is no time-out and no disconnect gets it. */
  lemma FinishedPostIsReceived(e: Env, loaded: map<TenantId, Digest>, s: State, u: HandlerId, t: HandlerId)
    requires Reachable(e, loaded, s) && u in s.handlers && Posted(s.handlers[u])
    requires t in s.handlers && s.handlers[t].Image? && s.handlers[t].ipc.ImgWaiting? && s.handlers[t].rid == Some(s.handlers[u].target)
    ensures var next := Next(e, s, Run(t, Go));
            && next.Some? && t in next.value.handlers && next.value.handlers[t].Image?
            && next.value.handlers[t].got == Some(Delivery(s.handlers[u].result, u))
  {
    ReachableInv(e, loaded, s);
    ReachableListens(e, loaded, s);
    assert Open(s, s.handlers[u].target) && Full(s, s.handlers[u].target);
    DeliveryIsOf(s, u, t);
    hide Inv;
    hide Exec;
    hide Reachable;
    GoTakes(e, s, t);
  }

  lemma DeliveryIsOf(s: State, u: HandlerId, t: HandlerId)
    requires Inv(s) && u in s.handlers && Posted(s.handlers[u]) && Open(s, s.handlers[u].target) && Full(s, s.handlers[u].target)
    requires t in s.handlers && s.handlers[t].Image? && s.handlers[t].rid == Some(s.handlers[u].target)
    ensures s.channels[s.handlers[u].target].cell == Filled(Delivery(s.handlers[u].result, u)) && ImageTyped(s.handlers[t])
  {
    assert HandlerOk(s, u) && HandlerOk(s, t);
    assert ChannelOk(s, s.handlers[u].target);
  }

  /** The client's post with nobody in between, and then the waiting reader's step. */
  function AnswerSchedule(u: HandlerId, post: Handler, t: HandlerId): seq<Event> {
    Asking(u, post) + Posting(u) + [Run(t, Go)]
  }

  function Asking(u: HandlerId, post: Handler): seq<Event> {
    [Spawn(u, post), Run(u, Go), Run(u, Go), Run(u, Go)]
  }

  function Posting(u: HandlerId): seq<Event> {
    [Run(u, Go), Run(u, Go), Run(u, Go)]
  }

  lemma AskingRuns(e: Env, s: State, u: HandlerId, post: Handler)
    requires u !in s.handlers && u !in s.readers && s.writer.None? && s.inflightLock.None?
    requires post.Result? && post.rpc.ResArrived? && Authenticated(s, post.id, post.bearer)
    requires |post.result.bodyBase64| <= MAX_IMAGE_BYTES * 2
    ensures Exec(e, s, Asking(u, post)) == Some(With(s.(inflightLock := Some(u)), u, post.(rpc := ResHasInflight)))
  {
    var s1 := With(s, u, post);
    var s2 := With(s.(readers := s.readers + {u}), u, post.(rpc := ResReading));
    var s3 := With(s, u, post.(rpc := ResWantInflight));
    var s4 := With(s.(inflightLock := Some(u)), u, post.(rpc := ResHasInflight));
    assert Next(e, s, Spawn(u, post)) == Some(s1);
    Overwrite(s.handlers, u, s1.handlers[u], s2.handlers[u]);
    Overwrite(s.handlers, u, s2.handlers[u], s3.handlers[u]);
    Overwrite(s.handlers, u, s3.handlers[u], s4.handlers[u]);
    assert Next(e, s1, Run(u, Go)) == Some(s2);
    assert Next(e, s2, Run(u, Go)) == Some(s3) by {
      assert s.readers + {u} - {u} == s.readers;
    }
    assert Next(e, s3, Run(u, Go)) == Some(s4);
    ExecStep(e, s, Spawn(u, post), [Run(u, Go), Run(u, Go), Run(u, Go)], s1);
    ExecStep(e, s1, Run(u, Go), [Run(u, Go), Run(u, Go)], s2);
    ExecStep(e, s2, Run(u, Go), [Run(u, Go)], s3);
    ExecStep(e, s3, Run(u, Go), [], s4);
  }

  function Delivered(s: State, r: RequestId, u: HandlerId, result: RelayResult): State
    requires r in s.channels
  {
    s.(tables := ForgetInflight(s.tables, r), inflightLock := None,
       channels := s.channels[r := Channel(s.channels[r].owner, Some(u), Filled(Delivery(result, u)))])
  }

  lemma PostingRuns(e: Env, s: State, u: HandlerId)
    requires u in s.handlers && s.handlers[u].Result? && s.handlers[u].rpc.ResHasInflight?
    requires MayTake(s.tables, s.handlers[u].id, s.handlers[u].target)
    requires s.handlers[u].target in s.channels && s.channels[s.handlers[u].target].cell.Empty?
    ensures var h := s.handlers[u];
            Exec(e, s, Posting(u)) == Some(With(Delivered(s, h.target, u, h.result), u, h.(rpc := ResPosted)))
  {
    var h, r := s.handlers[u], s.handlers[u].target;
    var taken := s.channels[r].(taker := Some(u));
    var s1 := With(s.(tables := ForgetInflight(s.tables, r), channels := s.channels[r := taken]), u, h.(rpc := ResTook));
    var s2 := With(s1.(inflightLock := None), u, h.(rpc := ResSending));
    var s3 := With(Delivered(s, r, u, h.result), u, h.(rpc := ResPosted));
    Overwrite(s.handlers, u, s1.handlers[u], s2.handlers[u]);
    Overwrite(s.handlers, u, s2.handlers[u], s3.handlers[u]);
    Overwrite(s.channels, r, taken, s3.channels[r]);
    assert Next(e, s, Run(u, Go)) == Some(s1);
    assert Next(e, s1, Run(u, Go)) == Some(s2);
    assert Next(e, s2, Run(u, Go)) == Some(s3);
    ExecStep(e, s, Run(u, Go), [Run(u, Go), Run(u, Go)], s1);
    ExecStep(e, s1, Run(u, Go), [Run(u, Go)], s2);
    ExecStep(e, s2, Run(u, Go), [], s3);
  }

  lemma ReaderTakes(e: Env, s: State, t: HandlerId, d: Delivery)
    requires t in s.handlers && s.handlers[t].Image? && ImageTyped(s.handlers[t]) && s.handlers[t].ipc.ImgWaiting?
    requires s.handlers[t].rid.value in s.channels && s.channels[s.handlers[t].rid.value].cell == Filled(d)
    ensures var end := Exec(e, s, [Run(t, Go)]);
            && end.Some? && t in end.value.handlers && end.value.handlers[t].Image? && end.value.tables == s.tables
            && end.value.handlers == s.handlers[t := end.value.handlers[t]]
            && end.value.handlers[t] == s.handlers[t].(ipc := ImgWantInflightAgain, got := Some(d))
            && end.value.handlers[t].got == Some(d)
  {
    GoTakes(e, s, t);
    ExecStep(e, s, Run(t, Go), [], Next(e, s, Run(t, Go)).value);
  }

  /** From every reachable state in which a poll was given the job of a waiting reader that is still inflight,
      the honest answer gets through: the reader holds it after these steps and the entry is gone. */
  lemma HonestAnswerArrives(e: Env, loaded: map<TenantId, Digest>, s: State, p: HandlerId, u: HandlerId, local: Local)
    requires Reachable(e, loaded, s) && Standard(local)
    requires p in s.handlers && s.handlers[p].Poll? && s.handlers[p].ppc.PollGiven? && s.handlers[p].job.Some?
    requires var r := s.handlers[p].job.value.requestId;
             r in s.tables.inflight && (Owned(s, r) ==> OwnerOf(s, r).ipc.ImgWaiting?)
    requires Fetch(local, s.handlers[p].job.value).Some?
    requires u !in s.handlers && s.writer.None? && s.inflightLock.None?
    ensures Owned(s, s.handlers[p].job.value.requestId)
    ensures var r, h := s.handlers[p].job.value.requestId, s.handlers[p];
            var result, t := Fetch(local, h.job.value).value, s.channels[r].owner;
            var end := Exec(e, s, AnswerSchedule(u, Result(h.id, r, h.bearer, result, ResArrived), t));
            && end.Some? && t in end.value.handlers && end.value.handlers[t].Image?
            && end.value.handlers[t].got == Some(Delivery(result, u)) && r !in end.value.tables.inflight
  {
    hide Inv;
    hide Next;
    hide Exec;
    var h, r := s.handlers[p], s.handlers[p].job.value.requestId;
    ReachableInv(e, loaded, s);
    GivenJobEntry(s, p);
    var t := s.channels[r].owner;
    InflightIsEmpty(e, loaded, s, t);
    RequestIsOwned(s, t);
    NoStrangeReader(s, u);
    AnswerFits(Reply(200, h.job), local);
    var post := Result(h.id, r, h.bearer, Fetch(local, h.job.value).value, ResArrived);
    AskingRuns(e, s, u, post);
    var s4 := With(s.(inflightLock := Some(u)), u, post.(rpc := ResHasInflight));
    PostingRuns(e, s4, u);
    var s7 := With(Delivered(s4, r, u, post.result), u, post.(rpc := ResPosted));
    ReaderTakes(e, s7, t, Delivery(post.result, u));
    ExecJoins(e, s, Asking(u, post), Posting(u));
    ExecJoins(e, s, Asking(u, post) + Posting(u), [Run(t, Go)]);
  }

  lemma NoStrangeReader(s: State, u: HandlerId)
    requires Inv(s) && u !in s.handlers
    ensures u !in s.readers
  {
  }
}
