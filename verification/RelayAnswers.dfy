/** What the relay answers and why: every decision of a handler with its exact condition, and what is queued in any run. */
module RelayAnswers {
  import opened Prelude
  import opened Text
  import opened TextFacts
  import opened RelayLib
  import opened GatewayRequests
  import opened RelayTables
  import opened RelayMachine
  import opened RelayInvariants
  import opened RelaySteps
  import opened RelayRefusals
  import opened RelayTheorems
  import opened RelayClient
  import SignedUrl

  // ---- Image requests ----

  /** A tenant id of 32 hexadecimal digits, at most twenty digits of expiry, 64 hexadecimal digits of signature, and
      together with the name the path of an image. */
  ghost predicate WellFormed(h: Handler)
    requires h.Image?
  {
    && HexText(h.id, 32) && h.expires.Some? && h.sig.Some? && HexText(h.sig.value, 64)
    && |h.expires.value| <= 20 && AllDigits(h.expires.value)
    && exists image, rest :: NamesImage(image) && PathTo("/image/" + h.filename + "?expires=" + h.expires.value + "&sig=" + h.sig.value, image, rest)
  }

  /** The state in which the handler answers not-found without having queued anything. */
  predicate IsRefused(s: State, t: HandlerId) {
    t in s.handlers && s.handlers[t].Image? && s.handlers[t].ipc.ImgRefused?
  }

  lemma ArrivalDecides(s: State, s': State, t: HandlerId, c: Choice)
    requires t in s.handlers && s.handlers[t].Image? && ImageTyped(s.handlers[t]) && NextImage(s, t, s.handlers[t], c) == Some(s')
    requires s.handlers[t].ipc.ImgArrived? || s.handlers[t].ipc.ImgReading?
    ensures IsRefused(s', t) <==>
              if s.handlers[t].ipc.ImgArrived? then !WellFormed(s.handlers[t]) else s.handlers[t].id !in s.tables.tenants
  {
    var h := s.handlers[t];
    ImageRequestIff(h.id, h.filename, h.expires, h.sig);
    assert WellFormed(h) <==> ImageRequestOk(h.id, h.filename, h.expires, h.sig);
    hide WellFormed;
    hide ImageRequestOk;
    hide NamesImage;
    hide PathTo;
  }

  lemma LimitDecides(s: State, s': State, t: HandlerId, c: Choice)
    requires t in s.handlers && s.handlers[t].Image? && ImageTyped(s.handlers[t]) && NextImage(s, t, s.handlers[t], c) == Some(s')
    requires s.handlers[t].ipc.ImgHasInflight? || s.handlers[t].ipc.ImgHasQueue?
    ensures s.handlers[t].ipc.ImgHasQueue? ==> s.handlers[t].id in s.tables.tenants
    ensures IsRefused(s', t) <==>
              if s.handlers[t].ipc.ImgHasInflight? then |s.tables.inflight| >= 1024
              else |s.tables.tenants[s.handlers[t].id].queue| >= 16
  {
    hide Enqueue;
    hide JobOf;
  }

  lemma WantsDecideNothing(s: State, s': State, t: HandlerId, c: Choice)
    requires t in s.handlers && s.handlers[t].Image? && ImageTyped(s.handlers[t]) && NextImage(s, t, s.handlers[t], c) == Some(s')
    requires var pc := s.handlers[t].ipc; pc.ImgWantInflight? || pc.ImgWantQueue? || pc.ImgInserted? || pc.ImgHoldsInflight? || pc.ImgWaiting?
    ensures !IsRefused(s', t)
  {
  }

  lemma CleanupDecidesNothing(s: State, s': State, t: HandlerId, c: Choice)
    requires t in s.handlers && s.handlers[t].Image? && ImageTyped(s.handlers[t]) && NextImage(s, t, s.handlers[t], c) == Some(s')
    requires var pc := s.handlers[t].ipc; pc.ImgWantInflightAgain? || pc.ImgCleansInflight? || pc.ImgWantQueueAgain? || pc.ImgCleansQueue?
    ensures !IsRefused(s', t)
  {
    hide ForgetJob;
    hide ForgetInflight;
  }

  lemma NoStepAfterEnd(s: State, t: HandlerId, c: Choice)
    requires t in s.handlers && s.handlers[t].Image? && ImageTyped(s.handlers[t])
    requires var pc := s.handlers[t].ipc; pc.ImgFinished? || pc.ImgRefused? || pc.ImgDropped?
    ensures NextImage(s, t, s.handlers[t], c) == None
  {
  }

  /** An image request is refused for its form, for an unknown tenant, at 1024 requests inflight or 16 jobs queued, and
      for nothing else. */
  lemma ImageDecides(e: Env, s: State, s': State, t: HandlerId, c: Choice)
    requires t in s.handlers && s.handlers[t].Image? && Next(e, s, Run(t, c)) == Some(s')
    ensures s.handlers[t].ipc.ImgHasQueue? ==> s.handlers[t].id in s.tables.tenants
    ensures IsRefused(s', t) <==>
              var h := s.handlers[t];
              || (h.ipc.ImgArrived? && !WellFormed(h))
              || (h.ipc.ImgReading? && h.id !in s.tables.tenants)
              || (h.ipc.ImgHasInflight? && |s.tables.inflight| >= 1024)
              || (h.ipc.ImgHasQueue? && |s.tables.tenants[h.id].queue| >= 16)
  {
    hide WellFormed;
    hide NextImage;
    hide IsRefused;
    match s.handlers[t].ipc
    case ImgArrived => ArrivalDecides(s, s', t, c);
    case ImgReading => ArrivalDecides(s, s', t, c);
    case ImgHasInflight => LimitDecides(s, s', t, c);
    case ImgHasQueue => LimitDecides(s, s', t, c);
    case ImgWantInflightAgain => CleanupDecidesNothing(s, s', t, c);
    case ImgCleansInflight => CleanupDecidesNothing(s, s', t, c);
    case ImgWantQueueAgain => CleanupDecidesNothing(s, s', t, c);
    case ImgCleansQueue => CleanupDecidesNothing(s, s', t, c);
    case ImgFinished => NoStepAfterEnd(s, t, c);
    case ImgRefused => NoStepAfterEnd(s, t, c);
    case ImgDropped => NoStepAfterEnd(s, t, c);
    case _ => WantsDecideNothing(s, s', t, c);
  }

  // ---- Polls ----

  lemma PollEntryDecides(s: State, s': State, t: HandlerId, c: Choice)
    requires t in s.handlers && s.handlers[t].Poll? && NextPoll(s, t, s.handlers[t], c) == Some(s')
    requires s.handlers[t].ppc.PollArrived? || s.handlers[t].ppc.PollReading? || s.handlers[t].ppc.PollWantQueue?
    ensures t in s'.handlers && s'.handlers[t].Poll? && s'.handlers[t].tries == s.handlers[t].tries
    ensures !s'.handlers[t].ppc.PollGiven? && !s'.handlers[t].ppc.PollNothing?
    ensures var h := s.handlers[t];
            s'.handlers[t].ppc.PollRefused? <==>
              (h.ppc.PollArrived? && h.bearer.None?) || (h.ppc.PollReading? && !HoldsSecret(s, h.id, h.bearer))
  {
    AuthenticatedIff(s, s.handlers[t].id, s.handlers[t].bearer);
    hide Authenticated;
    hide HoldsSecret;
  }

  lemma PollQueueDecides(s: State, s': State, t: HandlerId, c: Choice)
    requires t in s.handlers && s.handlers[t].Poll? && NextPoll(s, t, s.handlers[t], c) == Some(s')
    requires s.handlers[t].ppc.PollHasQueue?
    ensures t in s'.handlers && s'.handlers[t].Poll? && s'.handlers[t].tries == s.handlers[t].tries && s.handlers[t].id in s.tables.tenants
    ensures var queue := s.tables.tenants[s.handlers[t].id].queue;
            if queue == [] then s'.handlers[t].ppc.PollSleeping?
            else s'.handlers[t].ppc.PollGiven? && s'.handlers[t].job == Some(queue[0])
  {
    hide PopJob;
  }

  lemma PollSleepDecides(s: State, s': State, t: HandlerId, c: Choice)
    requires t in s.handlers && s.handlers[t].Poll? && NextPoll(s, t, s.handlers[t], c) == Some(s')
    requires s.handlers[t].ppc.PollSleeping?
    ensures t in s'.handlers && s'.handlers[t].Poll?
    ensures if c.Disconnect? then s'.handlers[t].ppc.PollDropped? && s'.handlers[t].tries == s.handlers[t].tries
            else s'.handlers[t].tries == s.handlers[t].tries + 1
                 && s'.handlers[t].ppc == if s'.handlers[t].tries >= 2 then PollNothing else PollWantQueue
  {
  }

  /** A poll is refused without the tenant's secret, is given the front of the queue as soon as it finds one, and ends
      with nothing when it has slept twice. */
  lemma PollDecides(e: Env, s: State, s': State, t: HandlerId, c: Choice)
    requires t in s.handlers && s.handlers[t].Poll? && Next(e, s, Run(t, c)) == Some(s')
    ensures t in s'.handlers && s'.handlers[t].Poll?
    ensures s.handlers[t].ppc.PollHasQueue? ==> s.handlers[t].id in s.tables.tenants
    ensures var (h, h') := (s.handlers[t], s'.handlers[t]);
            && (h'.ppc.PollRefused? <==>
                  (h.ppc.PollArrived? && h.bearer.None?) || (h.ppc.PollReading? && !HoldsSecret(s, h.id, h.bearer)))
            && (h'.ppc.PollGiven? <==> h.ppc.PollHasQueue? && s.tables.tenants[h.id].queue != [])
            && (h'.ppc.PollGiven? ==> h'.job == Some(s.tables.tenants[h.id].queue[0]))
            && (h'.ppc.PollNothing? <==> h.ppc.PollSleeping? && !c.Disconnect? && h'.tries >= 2)
            && h'.tries == h.tries + if h.ppc.PollSleeping? && !c.Disconnect? then 1 else 0
  {
    hide HoldsSecret;
    match s.handlers[t].ppc
    case PollHasQueue => PollQueueDecides(s, s', t, c); hide NextPoll;
    case PollSleeping => PollSleepDecides(s, s', t, c); hide NextPoll;
    case PollArrived => PollEntryDecides(s, s', t, c); hide NextPoll;
    case PollReading => PollEntryDecides(s, s', t, c); hide NextPoll;
    case PollWantQueue => PollEntryDecides(s, s', t, c); hide NextPoll;
    case _ =>
  }

  // ---- Results ----

  predicate PostRefused(s: State, t: HandlerId) {
    t in s.handlers && s.handlers[t].Result? && s.handlers[t].rpc.ResRefused?
  }

  lemma PostEntryDecides(s: State, s': State, t: HandlerId, c: Choice)
    requires t in s.handlers && s.handlers[t].Result? && NextResult(s, t, s.handlers[t], c) == Some(s')
    requires s.handlers[t].rpc.ResArrived? || s.handlers[t].rpc.ResReading?
    ensures var h := s.handlers[t];
            PostRefused(s', t) <==>
              if h.rpc.ResArrived? then h.bearer.None? else !HoldsSecret(s, h.id, h.bearer) || |h.result.bodyBase64| > 41943040
  {
    AuthenticatedIff(s, s.handlers[t].id, s.handlers[t].bearer);
    hide Authenticated;
    hide HoldsSecret;
  }

  lemma PostTakeDecides(s: State, s': State, t: HandlerId, c: Choice)
    requires t in s.handlers && s.handlers[t].Result? && NextResult(s, t, s.handlers[t], c) == Some(s')
    requires s.handlers[t].rpc.ResHasInflight? && (s.handlers[t].target in s.tables.inflight ==> s.handlers[t].target in s.channels)
    ensures var h := s.handlers[t];
            PostRefused(s', t) <==> !(h.target in s.tables.inflight && s.tables.inflight[h.target] == h.id)
  {
    hide ForgetInflight;
  }

  lemma PostRestDecidesNothing(s: State, s': State, t: HandlerId, c: Choice)
    requires t in s.handlers && s.handlers[t].Result? && NextResult(s, t, s.handlers[t], c) == Some(s')
    requires !s.handlers[t].rpc.ResArrived? && !s.handlers[t].rpc.ResReading? && !s.handlers[t].rpc.ResHasInflight?
    ensures !PostRefused(s', t)
  {
    hide Authenticated;
    hide ForgetInflight;
  }

  /** A post is refused without the tenant's secret, above 40 mebibytes of text, or for a request that is not inflight
      for this tenant. */
  lemma ResultDecides(e: Env, s: State, s': State, t: HandlerId, c: Choice)
    requires Inv(s) && t in s.handlers && s.handlers[t].Result? && Next(e, s, Run(t, c)) == Some(s')
    ensures var h := s.handlers[t];
            PostRefused(s', t) <==>
              || (h.rpc.ResArrived? && h.bearer.None?)
              || (h.rpc.ResReading? && (!HoldsSecret(s, h.id, h.bearer) || |h.result.bodyBase64| > 41943040))
              || (h.rpc.ResHasInflight? && !(h.target in s.tables.inflight && s.tables.inflight[h.target] == h.id))
  {
    var h := s.handlers[t];
    if h.target in s.tables.inflight {
      assert InflightEntryOk(s, h.target);
    }
    assert h.target in s.tables.inflight ==> h.target in s.channels;
    hide Inv;
    hide NextResult;
    hide HoldsSecret;
    hide PostRefused;
    match h.rpc
    case ResArrived => PostEntryDecides(s, s', t, c);
    case ResReading => PostEntryDecides(s, s', t, c);
    case ResHasInflight => PostTakeDecides(s, s', t, c);
    case _ => PostRestDecidesNothing(s, s', t, c);
  }

  // ---- Registrations ----

  /** A tenant that is there answers 204 or 409 by its secret; a new one is refused with 503 at 10000 tenants, and is
      inserted otherwise; then only the write to the store decides between 201 and 500. */
  lemma RegisterDecides(e: Env, s: State, s': State, t: HandlerId, c: Choice)
    requires t in s.handlers && s.handlers[t].Register? && Next(e, s, Run(t, c)) == Some(s')
    ensures t in s'.handlers && s'.handlers[t].Register?
    ensures var (h, h') := (s.handlers[t], s'.handlers[t]);
            && (h.gpc.RegHasWrite? ==>
                  if h.id in s.tables.tenants then
                    h'.gpc.RegAnswered? && h'.status == if s.tables.tenants[h.id].secretHash == Sha256(h.secret) then 204 else 409
                  else if |s.tables.tenants| >= 10000 then h'.gpc.RegAnswered? && h'.status == 503
                  else h'.gpc.RegPersisting?)
            && (h.gpc.RegPersisting? ==>
                  if c.Disconnect? then h'.gpc.RegDropped?
                  else h'.gpc.RegAnswered? && h'.status == if c.PersistFails? then 500 else 201)
  {
    hide RegistrationOk;
    hide InsertTenant;
    hide RemoveTenant;
    match s.handlers[t].gpc
    case RegHasWrite =>
    case RegPersisting => hide SecretHashMatches;
    case _ => hide SecretHashMatches;
  }

  // ---- Replies ----

  lemma PollReplyIs(h: Handler)
    requires h.Poll?
    ensures h.ppc.PollGiven? ==> PollReply(h) == Some(Reply(200, h.job))
    ensures h.ppc.PollNothing? ==> PollReply(h) == Some(Reply(204, None))
    ensures h.ppc.PollRefused? ==> PollReply(h) == Some(Reply(404, None))
    ensures PollReply(h).Some? ==> h.ppc.PollGiven? || h.ppc.PollNothing? || h.ppc.PollRefused?
  {
  }

  /** The client answers exactly a job it was given and fetched, under its own id, with the gateway's whole response,
      when that is no larger than twenty mebibytes. */
  lemma ClientAnswersIff(reply: Reply, local: Local, target: RequestId, result: RelayResult)
    ensures PollOnce(reply, local) == Answer(target, result) <==>
              && 200 <= reply.status < 300 && reply.status != 204 && reply.job.Some? && reply.job.value.requestId == target
              && local.get(reply.job.value).Some?
              && var response := local.get(reply.job.value).value;
              && |response.body| <= 20971520 && result == RelayResult(response.status, response.contentType, local.encode(response.body))
    ensures PollOnce(reply, local) == Idle <==> reply.status == 204
    ensures PollOnce(reply, local) == Unregistered <==> reply.status == 404
  {
    if reply.job.Some? && local.get(reply.job.value).Some? {
      OnlyImagesAreShown(local.get(reply.job.value).value, "", []);
    }
  }

  /** The reader gets exactly a delivered image: status 200, an image type, and a body of at most twenty mebibytes. */
  lemma ImageReplyIff(h: Handler, local: Local, contentType: string, body: seq<Byte>)
    requires h.Image?
    ensures ImageReply(h, local) == Some((contentType, body)) <==>
              && h.got.Some?
              && var result := h.got.value.result;
              && result.status == 200 && result.contentType == contentType && "image/" <= contentType
              && local.decode(result.bodyBase64) == Some(body) && |body| <= 20971520
  {
    if h.got.Some? && local.decode(h.got.value.result.bodyBase64).Some? {
      var result := h.got.value.result;
      OnlyImagesAreShown(SignedUrl.Response(result.status, result.contentType, local.decode(result.bodyBase64).value, false), contentType, body);
    }
  }

  // ---- What is ever queued ----

  /** Whoever got past the checks is well-formed. */
  ghost predicate Formed(h: Handler) {
    h.Image? ==> (h.ipc.ImgArrived? ==> h.rid.None?) && (h.ipc.ImgReading? || h.rid.Some? ==> WellFormed(h))
  }

  ghost predicate AllFormed(s: State) {
    forall t :: t in s.handlers ==> Formed(s.handlers[t])
  }

  /** What the request asks for never changes, and an id is drawn only when reading. */
  predicate SameRequest(h: Handler, h': Handler)
    requires h.Image?
  {
    && h'.Image? && h'.id == h.id && h'.filename == h.filename && h'.expires == h.expires && h'.sig == h.sig
    && !h'.ipc.ImgArrived? && (h'.ipc.ImgReading? ==> h.ipc.ImgArrived?) && (h'.rid.Some? ==> h.rid.Some? || h.ipc.ImgReading?)
  }

  lemma EntryStays(s: State, s': State, t: HandlerId, c: Choice)
    requires t in s.handlers && s.handlers[t].Image? && ImageTyped(s.handlers[t]) && NextImage(s, t, s.handlers[t], c) == Some(s')
    requires s.handlers[t].ipc.ImgArrived? || s.handlers[t].ipc.ImgReading?
    ensures t in s'.handlers && SameRequest(s.handlers[t], s'.handlers[t])
  {
    hide ImageRequestOk;
  }

  lemma LockingStays(s: State, s': State, t: HandlerId, c: Choice)
    requires t in s.handlers && s.handlers[t].Image? && ImageTyped(s.handlers[t]) && NextImage(s, t, s.handlers[t], c) == Some(s')
    requires var pc := s.handlers[t].ipc; pc.ImgWantInflight? || pc.ImgHasInflight? || pc.ImgWantQueue?
    ensures t in s'.handlers && SameRequest(s.handlers[t], s'.handlers[t])
  {
  }

  lemma QueueStays(s: State, s': State, t: HandlerId, c: Choice)
    requires t in s.handlers && s.handlers[t].Image? && ImageTyped(s.handlers[t]) && NextImage(s, t, s.handlers[t], c) == Some(s')
    requires s.handlers[t].ipc.ImgHasQueue?
    ensures t in s'.handlers && SameRequest(s.handlers[t], s'.handlers[t])
  {
    hide Enqueue;
    hide JobOf;
  }

  lemma WaitingStays(s: State, s': State, t: HandlerId, c: Choice)
    requires t in s.handlers && s.handlers[t].Image? && ImageTyped(s.handlers[t]) && NextImage(s, t, s.handlers[t], c) == Some(s')
    requires var pc := s.handlers[t].ipc; pc.ImgInserted? || pc.ImgHoldsInflight? || pc.ImgWaiting?
    ensures t in s'.handlers && SameRequest(s.handlers[t], s'.handlers[t])
  {
  }

  lemma CleanupStays(s: State, s': State, t: HandlerId, c: Choice)
    requires t in s.handlers && s.handlers[t].Image? && ImageTyped(s.handlers[t]) && NextImage(s, t, s.handlers[t], c) == Some(s')
    requires var pc := s.handlers[t].ipc; pc.ImgWantInflightAgain? || pc.ImgCleansInflight? || pc.ImgWantQueueAgain? || pc.ImgCleansQueue?
    ensures t in s'.handlers && SameRequest(s.handlers[t], s'.handlers[t])
  {
    hide ForgetJob;
    hide ForgetInflight;
  }

  lemma RequestStays(s: State, s': State, t: HandlerId, c: Choice)
    requires t in s.handlers && s.handlers[t].Image? && ImageTyped(s.handlers[t]) && NextImage(s, t, s.handlers[t], c) == Some(s')
    ensures t in s'.handlers && SameRequest(s.handlers[t], s'.handlers[t])
  {
    hide SameRequest;
    hide NextImage;
    match s.handlers[t].ipc
    case ImgArrived => EntryStays(s, s', t, c);
    case ImgReading => EntryStays(s, s', t, c);
    case ImgHasQueue => QueueStays(s, s', t, c);
    case ImgInserted => WaitingStays(s, s', t, c);
    case ImgHoldsInflight => WaitingStays(s, s', t, c);
    case ImgWaiting => WaitingStays(s, s', t, c);
    case ImgWantInflightAgain => CleanupStays(s, s', t, c);
    case ImgCleansInflight => CleanupStays(s, s', t, c);
    case ImgWantQueueAgain => CleanupStays(s, s', t, c);
    case ImgCleansQueue => CleanupStays(s, s', t, c);
    case ImgFinished => NoStepAfterEnd(s, t, c);
    case ImgRefused => NoStepAfterEnd(s, t, c);
    case ImgDropped => NoStepAfterEnd(s, t, c);
    case _ => LockingStays(s, s', t, c);
  }

  lemma ImageStaysFormed(s: State, s': State, t: HandlerId, c: Choice)
    requires t in s.handlers && s.handlers[t].Image? && ImageTyped(s.handlers[t]) && NextImage(s, t, s.handlers[t], c) == Some(s')
    requires Formed(s.handlers[t])
    ensures t in s'.handlers && Formed(s'.handlers[t])
  {
    RequestStays(s, s', t, c);
    if s.handlers[t].ipc.ImgArrived? {
      ArrivalDecides(s, s', t, c);
    }
    hide NextImage;
    hide HexText;
    hide AllDigits;
    hide NamesImage;
    hide PathTo;
  }

  lemma StepKeepsFormed(e: Env, s: State, event: Event)
    requires Inv(s) && AllFormed(s) && Next(e, s, event).Some?
    ensures Inv(Next(e, s, event).value) && AllFormed(Next(e, s, event).value)
  {
    var s' := Next(e, s, event).value;
    StepKeepsInv(e, s, event);
    hide Inv;
    hide WellFormed;
    if event.Run? && event.runs in s.handlers {
      var t := event.runs;
      if s.handlers[t].Image? {
        ImageStaysFormed(s, s', t, event.choice);
      }
      hide Next;
      forall u | u in s'.handlers ensures Formed(s'.handlers[u]) {
        if u != t {
          OthersStay(s, s', t, u);
        }
      }
    }
  }

  lemma {:induction false} RunKeepsFormed(e: Env, s: State, schedule: seq<Event>)
    requires Inv(s) && AllFormed(s) && Exec(e, s, schedule).Some?
    ensures AllFormed(Exec(e, s, schedule).value)
    decreases |schedule|
  {
    hide Next;
    hide Inv;
    hide AllFormed;
    if schedule != [] {
      StepKeepsFormed(e, s, schedule[0]);
      RunKeepsFormed(e, Next(e, s, schedule[0]).value, schedule[1..]);
    }
  }

  /** In every run, whatever is queued for a tenant or handed to its polls is an image path with digits for its expiry and
      64 hexadecimal digits for its signature, for a tenant whose id has 32 hexadecimal digits. */
  lemma OnlyImagePathsAreQueued(e: Env, loaded: map<TenantId, Digest>, s: State, id: TenantId, j: Job)
    requires Reachable(e, loaded, s) && id in s.tables.tenants && j in s.tables.tenants[id].pushed
    ensures HexText(id, 32)
    ensures exists image, rest :: NamesImage(image) && PathTo(j.pathAndQuery, image, rest)
    ensures exists name, expires, sig ::
              && j.pathAndQuery == "/image/" + name + "?expires=" + expires + "&sig=" + sig
              && |expires| <= 20 && AllDigits(expires) && HexText(sig, 64)
  {
    var schedule :| Exec(e, Init(loaded), schedule) == Some(s);
    InitInv(loaded);
    RunKeepsFormed(e, Init(loaded), schedule);
    ReachableInv(e, loaded, s);
    assert TenantOk(s, id) && JobOwned(s, id, j);
    hide Inv;
    var h := OwnerOf(s, j.requestId);
    assert WellFormed(h) && j == JobOf(h);
  }
}
