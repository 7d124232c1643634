/** One whole journey, from a freshly loaded server: a reader asks for a published image, the client polls, asks the
    gateway and posts, and the reader gets the published bytes. What is proved of all schedules is thereby known to speak
    of some. */
module RelayJourney {
  import opened Prelude
  import opened RelayLib
  import opened RelayTables
  import opened RelayMachine
  import opened RelayInvariants
  import opened RelaySteps
  import opened RelayTheorems
  import opened RelayClient
  import SignedUrl
  import Text

  // ---- An encoding as base64 is assumed to be ----

  const PAD: char := '\U{100}'

  function PadEncode(b: seq<Byte>): (s: string)
    ensures |s| == (|b| + 2) / 3 * 4 && |b| <= |s|
    ensures forall i :: 0 <= i < |s| ==> s[i] == if i < |b| then b[i] as char else PAD
  {
    seq((|b| + 2) / 3 * 4, i requires 0 <= i => if i < |b| then b[i] as char else PAD)
  }

  function PadDecode(s: string): Option<seq<Byte>> {
    var end := Text.FindWhere(s, c => c >= PAD);
    var n: nat := if end.Some? then end.value else |s|;
    Some(seq(n, i requires 0 <= i < n => s[i] as int))
  }

  lemma PadRoundTrip(b: seq<Byte>)
    ensures PadDecode(PadEncode(b)) == Some(b)
  {
    var s := PadEncode(b);
    var end := Text.FindWhere(s, c => c >= PAD);
    assert forall i :: 0 <= i < |b| ==> s[i] < PAD;
    assert |s| > |b| ==> s[|b|] == PAD;
    assert (if end.Some? then end.value else |s|) == |b|;
    assert PadDecode(s).value == b;
  }

  /** The gateway that holds the key and the files, behind a client with that encoding. */
  function GatewayOf(crypto: SignedUrl.Crypto, key: seq<Byte>, files: map<string, seq<Byte>>, clock: RequestId -> nat, headers: string): Local {
    Local((job: Job) => SignedUrl.Handle(crypto, key, files, clock(job.requestId), SignedUrl.GetRequest("GET", job.pathAndQuery, headers)),
          PadEncode, PadDecode)
  }

  lemma GatewayIsStandard(crypto: SignedUrl.Crypto, key: seq<Byte>, files: map<string, seq<Byte>>, clock: RequestId -> nat, headers: string)
    ensures Standard(GatewayOf(crypto, key, files, clock, headers))
  {
    var local := GatewayOf(crypto, key, files, clock, headers);
    forall b: seq<Byte> ensures local.decode(local.encode(b)) == Some(b) && |local.encode(b)| == (|b| + 2) / 3 * 4 {
      PadRoundTrip(b);
    }
  }

  // ---- The client polls ----

  function Polling(p: HandlerId, poll: Handler): seq<Event> {
    [Spawn(p, poll), Run(p, Go), Run(p, Go), Run(p, Go), Run(p, Go)]
  }

  lemma PollingRuns(e: Env, s: State, p: HandlerId, poll: Handler)
    requires p !in s.handlers && p !in s.readers && s.writer.None? && poll.id !in s.queueLock
    requires poll.Poll? && Fresh(poll) && Authenticated(s, poll.id, poll.bearer) && s.tables.tenants[poll.id].queue != []
    ensures var job := s.tables.tenants[poll.id].queue[0];
            Exec(e, s, Polling(p, poll)) ==
              Some(With(s.(tables := PopJob(s.tables, poll.id), handedTo := s.handedTo[job.requestId := p]), p,
                        poll.(ppc := PollGiven, job := Some(job))))
  {
    var id, job := poll.id, s.tables.tenants[poll.id].queue[0];
    var s1 := With(s, p, poll);
    var s2 := With(s.(readers := s.readers + {p}), p, poll.(ppc := PollReading));
    var s3 := With(s, p, poll.(ppc := PollWantQueue));
    var s4 := With(s.(queueLock := s.queueLock[id := p]), p, poll.(ppc := PollHasQueue));
    var s5 := With(s.(tables := PopJob(s.tables, id), handedTo := s.handedTo[job.requestId := p]), p, poll.(ppc := PollGiven, job := Some(job)));
    hide PopJob;
    Overwrite(s.handlers, p, s1.handlers[p], s2.handlers[p]);
    Overwrite(s.handlers, p, s2.handlers[p], s3.handlers[p]);
    Overwrite(s.handlers, p, s3.handlers[p], s4.handlers[p]);
    Overwrite(s.handlers, p, s4.handlers[p], s5.handlers[p]);
    assert s.readers + {p} - {p} == s.readers;
    assert s.queueLock[id := p] - {id} == s.queueLock;
    assert Next(e, s, Spawn(p, poll)) == Some(s1);
    assert Next(e, s1, Run(p, Go)) == Some(s2);
    assert Next(e, s2, Run(p, Go)) == Some(s3);
    assert Next(e, s3, Run(p, Go)) == Some(s4);
    assert Next(e, s4, Run(p, Go)) == Some(s5);
    ExecStep(e, s, Spawn(p, poll), [Run(p, Go), Run(p, Go), Run(p, Go), Run(p, Go)], s1);
    ExecStep(e, s1, Run(p, Go), [Run(p, Go), Run(p, Go), Run(p, Go)], s2);
    ExecStep(e, s2, Run(p, Go), [Run(p, Go), Run(p, Go)], s3);
    ExecStep(e, s3, Run(p, Go), [Run(p, Go)], s4);
    ExecStep(e, s4, Run(p, Go), [], s5);
  }

  // ---- The reader asks ----

  const READER: HandlerId := 0
  const POLL: HandlerId := 1
  const POST: HandlerId := 2
  const REQUEST: RequestId := 0

  /** The reader waits: its job is queued, its entry inflight, its channel empty, and no lock is held. */
  function Waiting(loaded: map<TenantId, Digest>, request: Handler): State
    requires request.Image? && request.expires.Some? && request.sig.Some? && request.id in loaded
  {
    var reader := request.(ipc := ImgWaiting, rid := Some(REQUEST), inserted := true);
    var s := Init(loaded);
    State(Enqueue(s.tables, request.id, JobOf(reader)), {}, None, None, map[], map[REQUEST := Channel(READER, None, Empty)], map[], None,
          map[READER := reader])
  }

  lemma ReaderWaits(e: Env, loaded: map<TenantId, Digest>, request: Handler)
    requires request.Image? && Fresh(request) && request.id in loaded
    requires ImageRequestOk(request.id, request.filename, request.expires, request.sig)
    ensures request.expires.Some? && request.sig.Some?
    ensures Exec(e, Init(loaded), Arriving(READER, request, REQUEST) + Locking(READER) + Unlocking(READER)) == Some(Waiting(loaded, request))
  {
    var s := Init(loaded);
    AcceptedIsComplete(request.id, request.filename, request.expires, request.sig);
    ArrivalRuns(e, s, READER, request, REQUEST);
    hide ImageRequestOk;
    var s3 := With(s.(channels := s.channels[REQUEST := Channel(READER, None, Empty)]), READER, request.(ipc := ImgWantInflight, rid := Some(REQUEST)));
    var s7 := LockingRuns(e, s3, READER);
    var s9 := UnlockingRuns(e, s7, READER);
    hide Exec;
    hide Enqueue;
    ExecJoins(e, s, Arriving(READER, request, REQUEST), Locking(READER));
    ExecJoins(e, s, Arriving(READER, request, REQUEST) + Locking(READER), Unlocking(READER));
    assert map[request.id := READER] - {request.id} == map[];
    assert s9.handlers == Waiting(loaded, request).handlers;
  }

  function PollOf(id: TenantId, secret: string): Handler {
    Poll(id, Some(secret), PollArrived, 0, None)
  }

  /** The waiting reader's job was given to the poll. */
  lemma PollIsGiven(e: Env, loaded: map<TenantId, Digest>, request: Handler, secret: string) returns (s: State)
    requires request.Image? && request.expires.Some? && request.sig.Some? && request.id in loaded
    requires SecretHashMatches(loaded[request.id], secret)
    ensures Exec(e, Waiting(loaded, request), Polling(POLL, PollOf(request.id, secret))) == Some(s)
    ensures var before := Waiting(loaded, request);
            s == With(before.(tables := PopJob(before.tables, request.id), handedTo := map[REQUEST := POLL]), POLL,
                      PollOf(request.id, secret).(ppc := PollGiven, job := Some(JobOf(before.handlers[READER]))))
  {
    var before := Waiting(loaded, request);
    assert before.tables.tenants[request.id].queue == [JobOf(before.handlers[READER])];
    PollingRuns(e, before, POLL, PollOf(request.id, secret));
    s := Exec(e, before, Polling(POLL, PollOf(request.id, secret))).value;
  }

  /** The job that the reader's request becomes. */
  function JobFor(request: Handler): Job
    requires request.Image? && request.expires.Some? && request.sig.Some?
  {
    Job(REQUEST, ImagePath(request.filename, request.expires.value, request.sig.value))
  }

  /** And the whole way to the delivery. */
  function Journey(request: Handler, secret: string, result: RelayResult): seq<Event> {
    Arriving(READER, request, REQUEST) + Locking(READER) + Unlocking(READER) + Polling(POLL, PollOf(request.id, secret))
    + AnswerSchedule(POST, Result(request.id, REQUEST, Some(secret), result, ResArrived), READER)
  }

  lemma AnswerRuns(e: Env, s: State, p: HandlerId, u: HandlerId, t: HandlerId, r: RequestId, result: RelayResult) returns (end: State)
    requires p in s.handlers && s.handlers[p].Poll? && Authenticated(s, s.handlers[p].id, s.handlers[p].bearer)
    requires u !in s.handlers && u !in s.readers && s.writer.None? && s.inflightLock.None? && MayTake(s.tables, s.handlers[p].id, r)
    requires r in s.channels && s.channels[r].cell.Empty? && |result.bodyBase64| <= MAX_IMAGE_BYTES * 2
    requires t in s.handlers && s.handlers[t].Image? && ImageTyped(s.handlers[t]) && s.handlers[t].ipc.ImgWaiting? && s.handlers[t].rid == Some(r)
    ensures Exec(e, s, AnswerSchedule(u, Result(s.handlers[p].id, r, s.handlers[p].bearer, result, ResArrived), t)) == Some(end)
    ensures end.handlers == s.handlers[u := Result(s.handlers[p].id, r, s.handlers[p].bearer, result, ResPosted)]
                                      [t := s.handlers[t].(ipc := ImgWantInflightAgain, got := Some(Delivery(result, u)))]
  {
    var post := Result(s.handlers[p].id, r, s.handlers[p].bearer, result, ResArrived);
    AskingRuns(e, s, u, post);
    var s4 := With(s.(inflightLock := Some(u)), u, post.(rpc := ResHasInflight));
    PostingRuns(e, s4, u);
    var s7 := With(Delivered(s4, r, u, result), u, post.(rpc := ResPosted));
    hide Exec;
    hide Next;
    ReaderTakes(e, s7, t, Delivery(result, u));
    ExecJoins(e, s, Asking(u, post), Posting(u));
    ExecJoins(e, s, Asking(u, post) + Posting(u), [Run(t, Go)]);
    end := Exec(e, s7, [Run(t, Go)]).value;
    Overwrite(s.handlers, u, s4.handlers[u], s7.handlers[u]);
  }

  function ReaderAfter(request: Handler, result: RelayResult): Handler
    requires request.Image?
  {
    request.(ipc := ImgWantInflightAgain, rid := Some(REQUEST), inserted := true, got := Some(Delivery(result, POST)))
  }

  lemma JourneyRuns(e: Env, loaded: map<TenantId, Digest>, request: Handler, secret: string, local: Local) returns (end: State)
    requires request.Image? && Fresh(request) && request.id in loaded && SecretHashMatches(loaded[request.id], secret)
    requires ImageRequestOk(request.id, request.filename, request.expires, request.sig)
    requires request.expires.Some? && request.sig.Some? && Standard(local)
    requires Fetch(local, JobFor(request)).Some?
    ensures var result := Fetch(local, JobFor(request)).value;
            && Exec(e, Init(loaded), Journey(request, secret, result)) == Some(end)
            && end.handlers == map[
                 READER := ReaderAfter(request, result),
                 POLL := PollOf(request.id, secret).(ppc := PollGiven, job := Some(JobFor(request))),
                 POST := Result(request.id, REQUEST, Some(secret), result, ResPosted)]
  {
    hide Next;
    var job := JobFor(request);
    var result := Fetch(local, job).value;
    ReaderWaits(e, loaded, request);
    hide ImageRequestOk;
    hide Asking;
    hide Posting;
    var s := PollIsGiven(e, loaded, request, secret);
    AnswerFits(Reply(200, Some(job)), local);
    hide Fetch;
    hide Standard;
    end := AnswerRuns(e, s, POLL, POST, READER, REQUEST, result);
    hide Exec;
    var asked := Arriving(READER, request, REQUEST) + Locking(READER) + Unlocking(READER);
    ExecJoins(e, Init(loaded), asked, Polling(POLL, PollOf(request.id, secret)));
    ExecJoins(e, Init(loaded), asked + Polling(POLL, PollOf(request.id, secret)),
      AnswerSchedule(POST, Result(request.id, REQUEST, Some(secret), result, ResArrived), READER));
  }

  lemma JourneyIsServed(end: State, request: Handler, secret: string, local: Local)
    requires request.Image? && request.expires.Some? && request.sig.Some?
    requires var job := JobFor(request);
             && Fetch(local, job).Some?
             && end.handlers.Keys == {READER, POLL, POST} && end.handlers[READER].Image?
             && end.handlers[POLL] == PollOf(request.id, secret).(ppc := PollGiven, job := Some(job))
             && end.handlers[POST] == Result(request.id, REQUEST, Some(secret), Fetch(local, job).value, ResPosted)
    ensures ServedBy(end, request.id, local)
  {
    assert Answers(end, POST, POLL, local);
    forall u | u in end.handlers && Took(end.handlers[u]) && end.handlers[u].id == request.id ensures exists p :: Answers(end, u, p, local) {
      assert u in {READER, POLL, POST};
    }
  }

  lemma JourneyEnds(e: Env, loaded: map<TenantId, Digest>, request: Handler, secret: string, local: Local) returns (end: State)
    requires request.Image? && Fresh(request) && request.id in loaded && SecretHashMatches(loaded[request.id], secret)
    requires ImageRequestOk(request.id, request.filename, request.expires, request.sig)
    requires request.expires.Some? && request.sig.Some? && Standard(local) && Fetch(local, JobFor(request)).Some?
    ensures var result := Fetch(local, JobFor(request)).value;
            && Exec(e, Init(loaded), Journey(request, secret, result)) == Some(end) && Reachable(e, loaded, end)
            && ServedBy(end, request.id, local) && READER in end.handlers && end.handlers[READER] == ReaderAfter(request, result)
  {
    hide Exec;
    hide ImageRequestOk;
    hide Standard;
    hide Fetch;
    end := JourneyRuns(e, loaded, request, secret, local);
    JourneyIsServed(end, request, secret, local);
    RunIsReachable(e, loaded, Journey(request, secret, Fetch(local, JobFor(request)).value), end);
  }

  /** The reader's request for a published image, under its printed URL. */
  function RequestFor(id: TenantId, crypto: SignedUrl.Crypto, key: seq<Byte>, bytes: seq<Byte>, extension: string, expires: nat): (h: Handler)
    ensures h.Image? && Fresh(h)
  {
    var filename := SignedUrl.FileName(crypto, bytes, extension);
    Image(id, filename, Some(Text.Decimal(expires)), Some(SignedUrl.Signature(crypto, key, filename, expires)), ImgArrived, None, false, None)
  }

  lemma PublishedIsFetched(
    id: TenantId, crypto: SignedUrl.Crypto, key: seq<Byte>, files: map<string, seq<Byte>>, bytes: seq<Byte>, extension: string,
    expires: nat, clock: RequestId -> nat, headers: string)
    requires ValidTenantId(id) && SignedUrl.Sound(crypto) && ImageExtension(extension) && clock(REQUEST) <= expires <= SignedUrl.U64_MAX
    requires SignedUrl.FileName(crypto, bytes, extension) in files && files[SignedUrl.FileName(crypto, bytes, extension)] == bytes
    requires |bytes| <= MAX_IMAGE_BYTES
    ensures var request := RequestFor(id, crypto, key, bytes, extension, expires);
            && ImageRequestOk(id, request.filename, request.expires, request.sig)
            && Fetch(GatewayOf(crypto, key, files, clock, headers), JobFor(request)).Some?
  {
    hide SignedUrl.Handle;
    hide SignedUrl.Sound;
    hide ImageRequestOk;
    SignedUrl.PublishedImageArrives(crypto, key, files, bytes, extension, expires, clock(REQUEST), id, headers);
  }

  /** For every image published and not expired when its job is served, every loaded tenant whose client knows its secret, and
      every gateway with the key: there is a run from the loaded server at whose end a reader holds a delivery, every answer
      of the tenant is an honest one, and the reader gets the published bytes. */
  lemma PublishedImageIsRead(
    e: Env, loaded: map<TenantId, Digest>, id: TenantId, secret: string,
    crypto: SignedUrl.Crypto, key: seq<Byte>, files: map<string, seq<Byte>>, bytes: seq<Byte>, extension: string,
    expires: nat, clock: RequestId -> nat, headers: string) returns (schedule: seq<Event>)
    requires id in loaded && SecretHashMatches(loaded[id], secret) && ValidTenantId(id)
    requires SignedUrl.Sound(crypto) && ImageExtension(extension) && clock(REQUEST) <= expires <= SignedUrl.U64_MAX
    requires SignedUrl.FileName(crypto, bytes, extension) in files && files[SignedUrl.FileName(crypto, bytes, extension)] == bytes
    requires |bytes| <= MAX_IMAGE_BYTES
    ensures var local := GatewayOf(crypto, key, files, clock, headers);
            var end := Exec(e, Init(loaded), schedule);
            && end.Some? && ServedBy(end.value, id, local)
            && READER in end.value.handlers && end.value.handlers[READER].Image? && end.value.handlers[READER].got.Some?
            && ImageReply(end.value.handlers[READER], local) ==
                 Some((SignedUrl.ContentType(SignedUrl.FileName(crypto, bytes, extension)), bytes))
  {
    var local := GatewayOf(crypto, key, files, clock, headers);
    var request := RequestFor(id, crypto, key, bytes, extension, expires);
    assert request.id == id && request.expires.Some? && request.sig.Some?;
    PublishedIsFetched(id, crypto, key, files, bytes, extension, expires, clock, headers);
    GatewayIsStandard(crypto, key, files, clock, headers);
    hide GatewayOf;
    hide RequestFor;
    hide Fetch;
    hide Exec;
    hide Reachable;
    hide Standard;
    hide ServedBy;
    hide ImageReply;
    hide ImageRequestOk;
    hide SignedUrl.Handle;
    hide SignedUrl.Sound;
    var end := JourneyEnds(e, loaded, request, secret, local);
    schedule := Journey(request, secret, Fetch(local, JobFor(request)).value);
    JourneyDelivers(e, loaded, end, id, crypto, key, files, bytes, extension, expires, clock, headers);
  }

  lemma JourneyDelivers(
    e: Env, loaded: map<TenantId, Digest>, end: State, id: TenantId, crypto: SignedUrl.Crypto, key: seq<Byte>,
    files: map<string, seq<Byte>>, bytes: seq<Byte>, extension: string, expires: nat, clock: RequestId -> nat, headers: string)
    requires Reachable(e, loaded, end) && ServedBy(end, id, GatewayOf(crypto, key, files, clock, headers)) && ValidTenantId(id)
    requires SignedUrl.Sound(crypto) && ImageExtension(extension) && clock(REQUEST) <= expires <= SignedUrl.U64_MAX
    requires SignedUrl.FileName(crypto, bytes, extension) in files && files[SignedUrl.FileName(crypto, bytes, extension)] == bytes
    requires |bytes| <= MAX_IMAGE_BYTES && READER in end.handlers && end.handlers[READER].Image? && end.handlers[READER].got.Some?
    requires exists result :: end.handlers[READER] == ReaderAfter(RequestFor(id, crypto, key, bytes, extension, expires), result)
    ensures ImageReply(end.handlers[READER], GatewayOf(crypto, key, files, clock, headers)) ==
              Some((SignedUrl.ContentType(SignedUrl.FileName(crypto, bytes, extension)), bytes))
  {
    var local := GatewayOf(crypto, key, files, clock, headers);
    GatewayIsStandard(crypto, key, files, clock, headers);
    GatewayAnswers(crypto, key, files, clock, headers);
    hide GatewayOf;
    hide Inv;
    hide Exec;
    hide Reachable;
    hide Standard;
    hide ServedBy;
    hide ImageReply;
    hide SignedUrl.Handle;
    hide SignedUrl.Sound;
    ReaderGetsPublishedBytes(e, loaded, end, READER, local, crypto, key, files, bytes, extension, expires, clock, headers);
  }

  lemma GatewayAnswers(crypto: SignedUrl.Crypto, key: seq<Byte>, files: map<string, seq<Byte>>, clock: RequestId -> nat, headers: string)
    ensures forall job :: GatewayOf(crypto, key, files, clock, headers).get(job) ==
              SignedUrl.Handle(crypto, key, files, clock(job.requestId), SignedUrl.GetRequest("GET", job.pathAndQuery, headers))
  {
    hide SignedUrl.Handle;
  }

  lemma RunIsReachable(e: Env, loaded: map<TenantId, Digest>, schedule: seq<Event>, end: State)
    requires Exec(e, Init(loaded), schedule) == Some(end)
    ensures Reachable(e, loaded, end)
  {
    hide Exec;
  }
}
