/** The relay's request handlers as one interleaved machine. A step is one lock acquisition, one
    release, one lock-protected section, one timeout, one channel send or receive, or one client
    disconnect at an await point. */
module RelayMachine {
  import opened Prelude
  import opened RelayLib
  import opened RelayTables

  const MAX_IMAGE_BYTES: nat := 20 * 1024 * 1024

  type HandlerId = nat

  datatype RelayResult = RelayResult(status: nat, contentType: string, bodyBase64: string)

  datatype Delivery = Delivery(result: RelayResult, sender: HandlerId)

  datatype Cell = Empty | Filled(delivery: Delivery) | Closed

  /** The oneshot channel of one request id. `owner` and `taker` are history. */
  datatype Channel = Channel(owner: HandlerId, taker: Option<HandlerId>, cell: Cell)

  datatype ImagePc =
    | ImgArrived | ImgReading | ImgWantInflight | ImgHasInflight | ImgWantQueue | ImgHasQueue | ImgInserted
    | ImgHoldsInflight | ImgWaiting | ImgWantInflightAgain | ImgCleansInflight | ImgWantQueueAgain
    | ImgCleansQueue | ImgFinished | ImgRefused | ImgDropped

  datatype PollPc =
    | PollArrived | PollReading | PollWantQueue | PollHasQueue | PollSleeping | PollGiven | PollNothing
    | PollRefused | PollDropped

  datatype ResultPc =
    | ResArrived | ResReading | ResWantInflight | ResHasInflight | ResTook | ResSending | ResPosted
    | ResRefused | ResDropped

  datatype RegisterPc = RegArrived | RegWantWrite | RegHasWrite | RegPersisting | RegAnswered | RegDropped

  datatype Handler =
    | Image(id: TenantId, filename: string, expires: Option<string>, sig: Option<string>,
            ipc: ImagePc, rid: Option<RequestId>, inserted: bool, got: Option<Delivery>)
    | Poll(id: TenantId, bearer: Option<string>, ppc: PollPc, tries: nat, job: Option<Job>)
    | Result(id: TenantId, target: RequestId, bearer: Option<string>, result: RelayResult, rpc: ResultPc)
    | Register(id: TenantId, secret: string, nonce: nat, gpc: RegisterPc, status: nat)

  /** `handedTo` (the poll that was given a job) and `pending` (the tenant inserted but not yet persisted) are history. */
  datatype State = State(
    tables: Tables,
    readers: set<HandlerId>, writer: Option<HandlerId>,
    inflightLock: Option<HandlerId>, queueLock: map<TenantId, HandlerId>,
    channels: map<RequestId, Channel>,
    handedTo: map<RequestId, HandlerId>,
    pending: Option<TenantId>,
    handlers: map<HandlerId, Handler>)

  /** How an await ends, and the random id a handler draws. */
  datatype Choice = Go | TimesOut | Disconnect | Draw(rid: RequestId) | PersistFails

  datatype Event = Spawn(handler: HandlerId, request: Handler) | Run(runs: HandlerId, choice: Choice)

  /** Key derivation and the registration proof check. */
  datatype Env = Env(tenantIdFor: string -> string, proof: (string, string, nat) -> bool)

  predicate Fresh(h: Handler) {
    match h
    case Image(_, _, _, _, pc, rid, inserted, got) => pc.ImgArrived? && rid.None? && !inserted && got.None?
    case Poll(_, _, pc, tries, job) => pc.PollArrived? && tries == 0 && job.None?
    case Result(_, _, _, _, pc) => pc.ResArrived?
    case Register(_, _, _, pc, status) => pc.RegArrived? && status == 0
  }

  function Init(loaded: map<TenantId, Digest>): State {
    State(Tables(map id | id in loaded :: NewTenant(loaded[id]), map[]),
          {}, None, None, map[], map[], map[], None, map[])
  }

  function With(s: State, t: HandlerId, h: Handler): State {
    s.(handlers := s.handlers[t := h])
  }

  predicate Authenticated(s: State, id: TenantId, bearer: Option<string>) {
    bearer.Some? && id in s.tables.tenants && SecretHashMatches(s.tables.tenants[id].secretHash, bearer.value)
  }

  function JobOf(h: Handler): Job
    requires h.Image? && h.rid.Some? && h.expires.Some? && h.sig.Some?
  {
    Job(h.rid.value, ImagePath(h.filename, h.expires.value, h.sig.value))
  }

  predicate ImageTyped(h: Handler) {
    h.Image? && ((!h.ipc.ImgArrived? && !h.ipc.ImgReading? && !h.ipc.ImgRefused? && !h.ipc.ImgDropped?) ==> h.rid.Some? && h.expires.Some? && h.sig.Some?)
    && (h.inserted ==> h.rid.Some? && h.expires.Some? && h.sig.Some?)
    && (h.ipc.ImgReading? ==> h.expires.Some? && h.sig.Some?)
  }

  function NextImage(s: State, t: HandlerId, h: Handler, c: Choice): Option<State>
    requires h.Image? && ImageTyped(h)
  {
    match h.ipc
    case ImgArrived =>
      if !ImageRequestOk(h.id, h.filename, h.expires, h.sig) then Some(With(s, t, h.(ipc := ImgRefused)))
      else if c.Disconnect? then Some(With(s, t, h.(ipc := ImgDropped)))
      else if s.writer.Some? then None
      else Some(With(s.(readers := s.readers + {t}), t, h.(ipc := ImgReading)))
    case ImgReading =>
      var s1 := s.(readers := s.readers - {t});
      if h.id !in s.tables.tenants then Some(With(s1, t, h.(ipc := ImgRefused)))
      else if c.Draw? && c.rid !in s.channels then
        Some(With(s1.(channels := s.channels[c.rid := Channel(t, None, Empty)]), t,
                  h.(ipc := ImgWantInflight, rid := Some(c.rid))))
      else None
    case ImgWantInflight =>
      if c.Disconnect? then Some(With(s, t, h.(ipc := ImgDropped)))
      else if s.inflightLock.Some? then None
      else Some(With(s.(inflightLock := Some(t)), t, h.(ipc := ImgHasInflight)))
    case ImgHasInflight =>
      if |s.tables.inflight| >= MAX_INFLIGHT then
        Some(With(s.(inflightLock := None), t, h.(ipc := ImgRefused)))
      else Some(With(s, t, h.(ipc := ImgWantQueue)))
    case ImgWantQueue =>
      if c.Disconnect? then Some(With(s.(inflightLock := None), t, h.(ipc := ImgDropped)))
      else if h.id in s.queueLock then None
      else Some(With(s.(queueLock := s.queueLock[h.id := t]), t, h.(ipc := ImgHasQueue)))
    case ImgHasQueue =>
      if h.id !in s.tables.tenants then None
      else if |s.tables.tenants[h.id].queue| >= MAX_QUEUED_PER_TENANT then
        Some(With(s.(queueLock := s.queueLock - {h.id}, inflightLock := None), t, h.(ipc := ImgRefused)))
      else Some(With(s.(tables := Enqueue(s.tables, h.id, JobOf(h))), t, h.(ipc := ImgInserted, inserted := true)))
    case ImgInserted =>
      Some(With(s.(queueLock := s.queueLock - {h.id}), t, h.(ipc := ImgHoldsInflight)))
    case ImgHoldsInflight =>
      Some(With(s.(inflightLock := None), t, h.(ipc := ImgWaiting)))
    case ImgWaiting =>
      if h.rid.value !in s.channels then None
      else
        var ch := s.channels[h.rid.value];
        var closed := s.(channels := s.channels[h.rid.value := ch.(cell := Closed)]);
        if c.Disconnect? then Some(With(closed, t, h.(ipc := ImgDropped)))
        else if c.TimesOut? then Some(With(closed, t, h.(ipc := ImgWantInflightAgain)))
        else if ch.cell.Filled? then
          Some(With(closed, t, h.(ipc := ImgWantInflightAgain, got := Some(ch.cell.delivery))))
        else None
    case ImgWantInflightAgain =>
      if c.Disconnect? then Some(With(s, t, h.(ipc := ImgDropped)))
      else if s.inflightLock.Some? then None
      else Some(With(s.(inflightLock := Some(t)), t, h.(ipc := ImgCleansInflight)))
    case ImgCleansInflight =>
      Some(With(s.(tables := ForgetInflight(s.tables, h.rid.value), inflightLock := None), t,
                h.(ipc := ImgWantQueueAgain)))
    case ImgWantQueueAgain =>
      if c.Disconnect? then Some(With(s, t, h.(ipc := ImgDropped)))
      else if h.id in s.queueLock then None
      else Some(With(s.(queueLock := s.queueLock[h.id := t]), t, h.(ipc := ImgCleansQueue)))
    case ImgCleansQueue =>
      if h.id !in s.tables.tenants then None
      else Some(With(s.(tables := ForgetJob(s.tables, h.id, h.rid.value), queueLock := s.queueLock - {h.id}), t,
                     h.(ipc := ImgFinished)))
    case _ => None
  }

  function NextPoll(s: State, t: HandlerId, h: Handler, c: Choice): Option<State>
    requires h.Poll?
  {
    match h.ppc
    case PollArrived =>
      if h.bearer.None? then Some(With(s, t, h.(ppc := PollRefused)))
      else if c.Disconnect? then Some(With(s, t, h.(ppc := PollDropped)))
      else if s.writer.Some? then None
      else Some(With(s.(readers := s.readers + {t}), t, h.(ppc := PollReading)))
    case PollReading =>
      Some(With(s.(readers := s.readers - {t}), t,
                h.(ppc := if Authenticated(s, h.id, h.bearer) then PollWantQueue else PollRefused)))
    case PollWantQueue =>
      if c.Disconnect? then Some(With(s, t, h.(ppc := PollDropped)))
      else if h.id in s.queueLock then None
      else Some(With(s.(queueLock := s.queueLock[h.id := t]), t, h.(ppc := PollHasQueue)))
    case PollHasQueue =>
      if h.id !in s.tables.tenants then None
      else
        var queue := s.tables.tenants[h.id].queue;
        var s1 := s.(queueLock := s.queueLock - {h.id});
        if queue == [] then Some(With(s1, t, h.(ppc := PollSleeping)))
        else Some(With(s1.(tables := PopJob(s.tables, h.id), handedTo := s.handedTo[queue[0].requestId := t]), t,
                       h.(ppc := PollGiven, job := Some(queue[0]))))
    case PollSleeping =>
      if c.Disconnect? then Some(With(s, t, h.(ppc := PollDropped)))
      else Some(With(s, t, h.(ppc := if h.tries + 1 < 2 then PollWantQueue else PollNothing, tries := h.tries + 1)))
    case _ => None
  }

  function NextResult(s: State, t: HandlerId, h: Handler, c: Choice): Option<State>
    requires h.Result?
  {
    match h.rpc
    case ResArrived =>
      if h.bearer.None? then Some(With(s, t, h.(rpc := ResRefused)))
      else if c.Disconnect? then Some(With(s, t, h.(rpc := ResDropped)))
      else if s.writer.Some? then None
      else Some(With(s.(readers := s.readers + {t}), t, h.(rpc := ResReading)))
    case ResReading =>
      var ok := Authenticated(s, h.id, h.bearer) && |h.result.bodyBase64| <= MAX_IMAGE_BYTES * 2;
      Some(With(s.(readers := s.readers - {t}), t, h.(rpc := if ok then ResWantInflight else ResRefused)))
    case ResWantInflight =>
      if c.Disconnect? then Some(With(s, t, h.(rpc := ResDropped)))
      else if s.inflightLock.Some? then None
      else Some(With(s.(inflightLock := Some(t)), t, h.(rpc := ResHasInflight)))
    case ResHasInflight =>
      if !MayTake(s.tables, h.id, h.target) || h.target !in s.channels then
        Some(With(s.(inflightLock := None), t, h.(rpc := ResRefused)))
      else
        var ch := s.channels[h.target];
        Some(With(s.(tables := ForgetInflight(s.tables, h.target),
                     channels := s.channels[h.target := ch.(taker := Some(t))]), t, h.(rpc := ResTook)))
    case ResTook =>
      Some(With(s.(inflightLock := None), t, h.(rpc := ResSending)))
    case ResSending =>
      if h.target !in s.channels then None
      else
        var ch := s.channels[h.target];
        var cell := if ch.cell.Empty? then Filled(Delivery(h.result, t)) else ch.cell;
        Some(With(s.(channels := s.channels[h.target := ch.(cell := cell)]), t, h.(rpc := ResPosted)))
    case _ => None
  }

  predicate RegistrationOk(e: Env, h: Handler)
    requires h.Register?
  {
    && ValidTenantId(h.id) && ValidSecret(h.secret)
    && e.tenantIdFor(h.secret) == h.id
    && e.proof(h.id, h.secret, h.nonce)
  }

  function NextRegister(e: Env, s: State, t: HandlerId, h: Handler, c: Choice): Option<State>
    requires h.Register?
  {
    var unlocked := s.(writer := None, pending := None);
    match h.gpc
    case RegArrived =>
      Some(With(s, t, if RegistrationOk(e, h) then h.(gpc := RegWantWrite) else h.(gpc := RegAnswered, status := 400)))
    case RegWantWrite =>
      if c.Disconnect? then Some(With(s, t, h.(gpc := RegDropped)))
      else if s.writer.Some? || s.readers != {} then None
      else Some(With(s.(writer := Some(t)), t, h.(gpc := RegHasWrite)))
    case RegHasWrite =>
      if h.id in s.tables.tenants then
        var same := SecretHashMatches(s.tables.tenants[h.id].secretHash, h.secret);
        Some(With(unlocked, t, h.(gpc := RegAnswered, status := if same then 204 else 409)))
      else if |s.tables.tenants| >= MAX_TENANTS then
        Some(With(unlocked, t, h.(gpc := RegAnswered, status := 503)))
      else
        Some(With(s.(tables := InsertTenant(s.tables, h.id, Sha256(h.secret)), pending := Some(h.id)), t,
                  h.(gpc := RegPersisting)))
    case RegPersisting =>
      if c.Disconnect? then Some(With(unlocked, t, h.(gpc := RegDropped)))
      else if c.PersistFails? then
        Some(With(unlocked.(tables := RemoveTenant(s.tables, h.id)), t, h.(gpc := RegAnswered, status := 500)))
      else Some(With(unlocked, t, h.(gpc := RegAnswered, status := 201)))
    case _ => None
  }

  function Next(e: Env, s: State, ev: Event): Option<State> {
    match ev
    case Spawn(t, h) => if t !in s.handlers && Fresh(h) then Some(With(s, t, h)) else None
    case Run(t, c) =>
      if t !in s.handlers then None
      else
        var h := s.handlers[t];
        match h
        case Image(_, _, _, _, _, _, _, _) => if ImageTyped(h) then NextImage(s, t, h, c) else None
        case Poll(_, _, _, _, _) => NextPoll(s, t, h, c)
        case Result(_, _, _, _, _) => NextResult(s, t, h, c)
        case Register(_, _, _, _, _) => NextRegister(e, s, t, h, c)
  }

  /** Runs a schedule; None when some event was not enabled. */
  function Exec(e: Env, s: State, schedule: seq<Event>): Option<State>
    decreases |schedule|
  {
    if schedule == [] then Some(s)
    else
      match Next(e, s, schedule[0])
      case None => None
      case Some(s1) => Exec(e, s1, schedule[1..])
  }
}
