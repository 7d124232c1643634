/** Over whole runs: a request that is refused never touched the tables, and a registration that fails to
    be written is taken back without a trace. */
module RelayRefusals {
  import opened Prelude
  import opened RelayLib
  import opened RelayTables
  import opened RelayMachine
  import opened RelayInvariants
  import opened RelaySteps

  /** The handler has changed the tables, or may have. */
  predicate Marked(h: Handler) {
    match h
    case Image(_, _, _, _, _, _, inserted, _) => inserted
    case Poll(_, _, pc, _, _) => pc.PollGiven?
    case Result(_, _, _, _, _) => Took(h)
    case Register(_, _, _, pc, status) => pc.RegPersisting? || pc.RegDropped? || (pc.RegAnswered? && (status == 201 || status == 500))
  }

  /** The handler answered without doing what it was asked: 404, 204 for a poll, and for a registration any answer
      but 201 and 500. */
  predicate Refused(h: Handler) {
    match h
    case Image(_, _, _, _, pc, _, _, _) => pc.ImgRefused?
    case Poll(_, _, pc, _, _) => pc.PollRefused? || pc.PollNothing?
    case Result(_, _, _, _, pc) => pc.ResRefused?
    case Register(_, _, _, pc, status) => pc.RegAnswered? && status != 201 && status != 500
  }

  lemma RefusedIsUnmarked(s: State, t: HandlerId)
    requires t in s.handlers && HandlerOk(s, t) && Refused(s.handlers[t])
    ensures !Marked(s.handlers[t])
  {
  }

  /** No map changed; an image request may have opened its own channel. */
  predicate Untouched(s: State, s': State, t: HandlerId)
    requires t in s.handlers
  {
    && s'.tables == s.tables && s'.handedTo == s.handedTo
    && (!s.handlers[t].Image? ==> s'.channels == s.channels)
  }

  /** A step of t that changes the tables marks it, and a mark stays. */
  predicate Marks(s: State, s': State, t: HandlerId) {
    && t in s.handlers && t in s'.handlers
    && (Marked(s.handlers[t]) ==> Marked(s'.handlers[t]))
    && (!Marked(s'.handlers[t]) ==> Untouched(s, s', t))
  }

  lemma MoveMarks(s: State, s': State, t: HandlerId, h': Handler)
    requires Moves(s, s', t, h')
    ensures Marks(s, s', t)
  {
  }

  lemma ImageEntryMarks(s: State, s': State, t: HandlerId, c: Choice)
    requires t in s.handlers && HandlerOk(s, t) && s.handlers[t].Image? && ImageTyped(s.handlers[t])
    requires BeforeInsertion(s.handlers[t].ipc) && NextImage(s, t, s.handlers[t], c) == Some(s')
    ensures Marks(s, s', t)
  {
    var h := s.handlers[t];
    hide DataOk;
    if h.ipc.ImgReading? && h.id in s.tables.tenants {
      ImageDraws(s, s', t, c);
      hide NextImage;
    } else if h.ipc.ImgHasQueue? && h.id in s.tables.tenants && |s.tables.tenants[h.id].queue| < MAX_QUEUED_PER_TENANT {
      assert s'.handlers[t].inserted;
    } else {
      ImageEntryMoves(s, s', t, c);
      hide NextImage;
      MoveMarks(s, s', t, s'.handlers[t]);
    }
  }

  lemma ImageExitMarks(s: State, s': State, t: HandlerId, c: Choice)
    requires t in s.handlers && HandlerOk(s, t) && s.handlers[t].Image? && ImageTyped(s.handlers[t])
    requires !BeforeInsertion(s.handlers[t].ipc) && NextImage(s, t, s.handlers[t], c) == Some(s')
    requires Evolves(s.handlers[t], s'.handlers[t])
    ensures Marks(s, s', t)
  {
    assert !s.handlers[t].ipc.ImgDropped?;
    hide NextImage;
  }

  lemma PollMarks(s: State, s': State, t: HandlerId, c: Choice)
    requires t in s.handlers && s.handlers[t].Poll? && NextPoll(s, t, s.handlers[t], c) == Some(s')
    ensures Marks(s, s', t)
  {
    var h := s.handlers[t];
    if h.ppc.PollHasQueue? && h.id in s.tables.tenants && s.tables.tenants[h.id].queue != [] {
      assert s'.handlers[t].Poll? && s'.handlers[t].ppc.PollGiven?;
      hide NextPoll;
    } else {
      if h.ppc.PollArrived? || h.ppc.PollReading? {
        PollEntryMoves(s, s', t, c);
      } else {
        PollQueueMoves(s, s', t, c);
      }
      hide NextPoll;
      MoveMarks(s, s', t, s'.handlers[t]);
    }
  }

  lemma ResultMarks(s: State, s': State, t: HandlerId, c: Choice)
    requires t in s.handlers && LockFactsOk(s, t) && s.handlers[t].Result? && NextResult(s, t, s.handlers[t], c) == Some(s')
    ensures Marks(s, s', t)
  {
    var h := s.handlers[t];
    if h.rpc.ResSending? || (h.rpc.ResHasInflight? && MayTake(s.tables, h.id, h.target) && h.target in s.channels) {
      ResultEffect(s, s', t, c);
      hide NextResult;
    } else {
      if h.rpc.ResArrived? || h.rpc.ResReading? {
        ResultEntryMoves(s, s', t, c);
      } else {
        ResultLockMoves(s, s', t, c);
      }
      hide NextResult;
      MoveMarks(s, s', t, s'.handlers[t]);
    }
  }

  lemma RegisterMarks(e: Env, s: State, s': State, t: HandlerId, c: Choice)
    requires t in s.handlers && s.handlers[t].Register? && NextRegister(e, s, t, s.handlers[t], c) == Some(s')
    ensures Marks(s, s', t)
  {
    hide RegistrationOk;
    hide InsertTenant;
    hide RemoveTenant;
    hide SecretHashMatches;
    match s.handlers[t].gpc
    case RegHasWrite =>
    case RegPersisting =>
    case _ =>
  }

  lemma OwnStepMarks(e: Env, s: State, s': State, t: HandlerId, c: Choice)
    requires Inv(s) && Next(e, s, Run(t, c)) == Some(s') && Guarantee(s, s', t)
    ensures Marks(s, s', t)
  {
    KnownBefore(s, t);
    hide Inv;
    hide Marks;
    match s.handlers[t]
    case Image(_, _, _, _, pc, _, _, _) =>
      if BeforeInsertion(pc) {
        ImageEntryMarks(s, s', t, c);
      } else {
        ImageExitMarks(s, s', t, c);
      }
    case Poll(_, _, _, _, _) => PollMarks(s, s', t, c);
    case Result(_, _, _, _, _) => ResultMarks(s, s', t, c);
    case Register(_, _, _, _, _) => RegisterMarks(e, s, s', t, c);
  }

  /** No step that t made along the schedule changed a table. */
  ghost predicate OwnStepsTouchNothing(e: Env, s: State, schedule: seq<Event>, t: HandlerId)
    requires Exec(e, s, schedule).Some?
    decreases |schedule|
  {
    schedule == []
    || (var s1 := Next(e, s, schedule[0]).value;
        && (schedule[0].Run? && schedule[0].runs == t && t in s.handlers ==> Untouched(s, s1, t))
        && OwnStepsTouchNothing(e, s1, schedule[1..], t))
  }

  lemma StepKeepsMark(e: Env, s: State, event: Event, t: HandlerId)
    requires Inv(s) && Next(e, s, event).Some?
    ensures var s' := Next(e, s, event).value;
            && Inv(s')
            && (t in s.handlers && Marked(s.handlers[t]) ==> t in s'.handlers && Marked(s'.handlers[t]))
            && (event.Run? && event.runs == t ==> t in s.handlers && Marks(s, s', t))
  {
    StepKeepsInv(e, s, event);
    hide Inv;
    if event.Run? && event.runs == t {
      OwnStepMarks(e, s, Next(e, s, event).value, t, event.choice);
    }
    if event.Run? {
      hide Next;
    }
  }

  lemma {:induction false} UnmarkedTouchesNothing(e: Env, s: State, schedule: seq<Event>, t: HandlerId)
    requires Inv(s) && Exec(e, s, schedule).Some?
    requires var end := Exec(e, s, schedule).value; Inv(end) && t in end.handlers && !Marked(end.handlers[t])
    ensures t in s.handlers ==> !Marked(s.handlers[t])
    ensures OwnStepsTouchNothing(e, s, schedule, t)
    decreases |schedule|
  {
    hide Next;
    hide Inv;
    if schedule != [] {
      StepKeepsMark(e, s, schedule[0], t);
      hide Marked;
      UnmarkedTouchesNothing(e, Next(e, s, schedule[0]).value, schedule[1..], t);
    }
  }

  /** In every run that ends with handler t refused, be it an image request, a poll, a post or a registration,
      no step of t changed a table. */
  lemma RefusalChangesNothing(e: Env, loaded: map<TenantId, Digest>, schedule: seq<Event>, t: HandlerId)
    requires Exec(e, Init(loaded), schedule).Some?
    requires var end := Exec(e, Init(loaded), schedule).value; t in end.handlers && Refused(end.handlers[t])
    ensures OwnStepsTouchNothing(e, Init(loaded), schedule, t)
  {
    InitInv(loaded);
    RunKeepsInv(e, Init(loaded), schedule);
    var end := Exec(e, Init(loaded), schedule).value;
    assert HandlerOk(end, t);
    hide Inv;
    hide Exec;
    RefusedIsUnmarked(end, t);
    UnmarkedTouchesNothing(e, Init(loaded), schedule, t);
  }

  // ---- The register rollback ----

  /** The tenants and their secrets are the same, whatever happened to the queues. */
  predicate SameRegistry(a: Tables, b: Tables) {
    && a.tenants.Keys == b.tenants.Keys
    && forall id :: id in a.tenants && id in b.tenants ==> a.tenants[id].secretHash == b.tenants[id].secretHash
  }

  lemma RegistryStays(a: Tables, b: Tables, c: Tables)
    requires SameRegistry(a, b) && SameRegistry(b, c)
    ensures SameRegistry(a, c)
  {
  }

  lemma ImageEntryKeepsRegistry(s: State, s': State, t: HandlerId, c: Choice)
    requires t in s.handlers && LockFactsOk(s, t) && s.handlers[t].Image? && ImageTyped(s.handlers[t])
    requires BeforeInsertion(s.handlers[t].ipc) && NextImage(s, t, s.handlers[t], c) == Some(s')
    ensures SameRegistry(s.tables, s'.tables)
  {
    var h := s.handlers[t];
    if h.ipc.ImgReading? && h.id in s.tables.tenants {
      ImageDraws(s, s', t, c);
    } else if h.ipc.ImgHasQueue? && h.id in s.tables.tenants && |s.tables.tenants[h.id].queue| < MAX_QUEUED_PER_TENANT {
      assert s'.tables == Enqueue(s.tables, h.id, JobOf(h));
      OneQueueChanges(s.tables, h.id);
    } else {
      ImageEntryMoves(s, s', t, c);
    }
    hide NextImage;
  }

  lemma ImageExitKeepsRegistry(s: State, s': State, t: HandlerId, c: Choice)
    requires t in s.handlers && LockFactsOk(s, t) && s.handlers[t].Image? && ImageTyped(s.handlers[t])
    requires s.handlers[t].id in s.tables.tenants ==> TenantOk(s, s.handlers[t].id)
    requires !BeforeInsertion(s.handlers[t].ipc) && NextImage(s, t, s.handlers[t], c) == Some(s')
    ensures SameRegistry(s.tables, s'.tables)
  {
    hide NextImage;
    hide TenantOk;
    var h := s.handlers[t];
    match h.ipc
    case ImgWaiting => ImageWakes(s, s', t, c);
    case ImgCleansInflight => ImageForgets(s, s', t, c);
    case ImgCleansQueue =>
      ImageCleans(s, s', t, c);
      OneQueueChanges(s.tables, h.id);
    case _ =>
      ImageRestKeepsTables(s, s', t, c);
  }

  lemma ImageRestKeepsTables(s: State, s': State, t: HandlerId, c: Choice)
    requires t in s.handlers && LockFactsOk(s, t) && s.handlers[t].Image? && ImageTyped(s.handlers[t])
    requires !BeforeInsertion(s.handlers[t].ipc) && NextImage(s, t, s.handlers[t], c) == Some(s')
    requires !s.handlers[t].ipc.ImgWaiting? && !s.handlers[t].ipc.ImgCleansInflight? && !s.handlers[t].ipc.ImgCleansQueue?
    ensures s'.tables == s.tables
  {
    ImageExitMoves(s, s', t, c);
    hide NextImage;
  }

  /** The effects of image handlers and polls on the tables keep the registry. */
  lemma OneQueueChanges(tables: Tables, id: TenantId)
    requires id in tables.tenants
    ensures forall j :: SameRegistry(tables, Enqueue(tables, id, j))
    ensures forall r :: SameRegistry(tables, ForgetJob(tables, id, r))
    ensures tables.tenants[id].queue != [] ==> SameRegistry(tables, PopJob(tables, id))
  {
    forall j ensures SameRegistry(tables, Enqueue(tables, id, j)) {
      assert Enqueue(tables, id, j).tenants.Keys == tables.tenants.Keys;
    }
    forall r ensures SameRegistry(tables, ForgetJob(tables, id, r)) {
      assert ForgetJob(tables, id, r).tenants.Keys == tables.tenants.Keys;
    }
    if tables.tenants[id].queue != [] {
      assert PopJob(tables, id).tenants.Keys == tables.tenants.Keys;
    }
  }

  lemma PollKeepsRegistry(s: State, s': State, t: HandlerId, c: Choice)
    requires t in s.handlers && s.handlers[t].Poll? && NextPoll(s, t, s.handlers[t], c) == Some(s')
    ensures SameRegistry(s.tables, s'.tables)
  {
    hide Authenticated;
    assert SameRegistry(s.tables, s.tables);
    if s.handlers[t].id in s.tables.tenants {
      OneQueueChanges(s.tables, s.handlers[t].id);
    }
    hide SameRegistry;
    hide PopJob;
  }

  lemma ResultKeepsRegistry(s: State, s': State, t: HandlerId, c: Choice)
    requires t in s.handlers && s.handlers[t].Result? && NextResult(s, t, s.handlers[t], c) == Some(s')
    ensures SameRegistry(s.tables, s'.tables)
  {
    hide Authenticated;
  }

  /** Whoever does not hold the write lock leaves the registry alone. */
  lemma RegisterKeepsRegistry(e: Env, s: State, s': State, t: HandlerId, c: Choice)
    requires t in s.handlers && s.handlers[t].Register? && !HoldsWrite(s.handlers[t]) && NextRegister(e, s, t, s.handlers[t], c) == Some(s')
    ensures SameRegistry(s.tables, s'.tables)
  {
    hide RegistrationOk;
  }

  lemma OtherKeepsRegistry(e: Env, s: State, s': State, u: HandlerId, c: Choice)
    requires Before(s, u) && (s.handlers[u].id in s.tables.tenants ==> TenantOk(s, s.handlers[u].id))
    requires !HoldsWrite(s.handlers[u]) && Next(e, s, Run(u, c)) == Some(s')
    ensures SameRegistry(s.tables, s'.tables)
  {
    hide TenantOk;
    hide SameRegistry;
    hide DataOk;
    match s.handlers[u]
    case Image(_, _, _, _, pc, _, _, _) =>
      if BeforeInsertion(pc) {
        ImageEntryKeepsRegistry(s, s', u, c);
      } else {
        ImageExitKeepsRegistry(s, s', u, c);
      }
    case Poll(_, _, _, _, _) => PollKeepsRegistry(s, s', u, c);
    case Result(_, _, _, _, _) => ResultKeepsRegistry(s, s', u, c);
    case Register(_, _, _, _, _) => RegisterKeepsRegistry(e, s, s', u, c);
  }

  predicate Settled(h: Handler) {
    h.Register? && (h.gpc.RegAnswered? || h.gpc.RegDropped?)
  }

  lemma RegisterSettles(e: Env, s: State, s': State, t: HandlerId, c: Choice)
    requires t in s.handlers && Persisting(s.handlers[t]) && Next(e, s, Run(t, c)) == Some(s')
    ensures t in s'.handlers && Settled(s'.handlers[t])
  {
    hide RemoveTenant;
  }

  lemma OtherStepWhilePersisting(e: Env, s: State, s': State, t: HandlerId, u: HandlerId, c: Choice)
    requires Inv(s) && t in s.handlers && Persisting(s.handlers[t]) && u != t && Next(e, s, Run(u, c)) == Some(s')
    ensures SameRegistry(s.tables, s'.tables)
  {
    KnownBefore(s, t);
    assert u in s.handlers;
    KnownBefore(s, u);
    hide Inv;
    hide Next;
    hide DataOk;
    hide SameRegistry;
    hide TenantOk;
    assert !HoldsWrite(s.handlers[u]);
    OtherKeepsRegistry(e, s, s', u, c);
  }

  lemma OthersStay(s: State, s': State, u: HandlerId, t: HandlerId)
    requires Guarantee(s, s', u) && t in s.handlers && t != u
    ensures t in s'.handlers && s'.handlers[t] == s.handlers[t]
  {
  }

  /** While t persists its tenant, nobody else changes the registry; and t can only settle. */
  lemma PersistingStep(e: Env, s: State, event: Event, t: HandlerId)
    requires Inv(s) && t in s.handlers && Persisting(s.handlers[t]) && Next(e, s, event).Some?
    ensures var s' := Next(e, s, event).value;
            && Inv(s') && t in s'.handlers
            && (s'.handlers[t] == s.handlers[t] || Settled(s'.handlers[t]))
            && (s'.handlers[t] == s.handlers[t] ==> SameRegistry(s.tables, s'.tables))
  {
    StepKeepsInv(e, s, event);
    var s' := Next(e, s, event).value;
    hide Inv;
    hide SameRegistry;
    if event.Spawn? {
      assert SameRegistry(s.tables, s'.tables) by {
        RegistryIsItself(s.tables);
      }
    } else {
      hide Next;
      if event.runs != t {
        OthersStay(s, s', event.runs, t);
      }
      hide Guarantee;
      if event.runs == t {
        RegisterSettles(e, s, s', t, event.choice);
      } else {
        OtherStepWhilePersisting(e, s, s', t, event.runs, event.choice);
      }
    }
  }

  lemma RegistryIsItself(a: Tables)
    ensures SameRegistry(a, a)
  {
  }

  lemma SettledStep(e: Env, s: State, event: Event, t: HandlerId)
    requires Inv(s) && t in s.handlers && Settled(s.handlers[t]) && Next(e, s, event).Some?
    ensures var s' := Next(e, s, event).value; Inv(s') && t in s'.handlers && Settled(s'.handlers[t])
  {
    StepKeepsInv(e, s, event);
    hide Inv;
    if event.Run? && event.runs != t {
      hide Next;
    }
  }

  lemma {:induction false} SettledStays(e: Env, s: State, schedule: seq<Event>, t: HandlerId)
    requires Inv(s) && t in s.handlers && Settled(s.handlers[t]) && Exec(e, s, schedule).Some?
    ensures t in Exec(e, s, schedule).value.handlers && Settled(Exec(e, s, schedule).value.handlers[t])
    decreases |schedule|
  {
    hide Next;
    hide Inv;
    if schedule != [] {
      SettledStep(e, s, schedule[0], t);
      SettledStays(e, Next(e, s, schedule[0]).value, schedule[1..], t);
    }
  }

  lemma {:induction false} PersistingKeepsRegistry(e: Env, s: State, schedule: seq<Event>, t: HandlerId)
    requires Inv(s) && t in s.handlers && Persisting(s.handlers[t]) && Exec(e, s, schedule).Some?
    requires t in Exec(e, s, schedule).value.handlers && Persisting(Exec(e, s, schedule).value.handlers[t])
    ensures SameRegistry(s.tables, Exec(e, s, schedule).value.tables)
    ensures Exec(e, s, schedule).value.handlers[t] == s.handlers[t]
    decreases |schedule|
  {
    hide Next;
    hide Inv;
    if schedule != [] {
      var s1 := Next(e, s, schedule[0]).value;
      PersistingStep(e, s, schedule[0], t);
      if Settled(s1.handlers[t]) {
        SettledStays(e, s1, schedule[1..], t);
      } else {
        PersistingKeepsRegistry(e, s1, schedule[1..], t);
        RegistryStays(s.tables, s1.tables, Exec(e, s, schedule).value.tables);
      }
    }
  }

  lemma InsertionStep(e: Env, s: State, t: HandlerId, c: Choice)
    requires t in s.handlers && s.handlers[t].Register? && s.handlers[t].gpc.RegHasWrite?
    requires s.handlers[t].id !in s.tables.tenants && |s.tables.tenants| < MAX_TENANTS
    ensures Next(e, s, Run(t, c)).Some?
    ensures var s' := Next(e, s, Run(t, c)).value;
            && t in s'.handlers && Persisting(s'.handlers[t]) && s'.handlers[t].id == s.handlers[t].id
            && s'.tables == InsertTenant(s.tables, s.handlers[t].id, Sha256(s.handlers[t].secret))
  {
    hide InsertTenant;
  }

  lemma FailureStep(e: Env, s: State, t: HandlerId)
    requires t in s.handlers && Persisting(s.handlers[t])
    ensures Next(e, s, Run(t, PersistFails)).Some?
    ensures var s' := Next(e, s, Run(t, PersistFails)).value;
            && s'.tables == RemoveTenant(s.tables, s.handlers[t].id)
            && t in s'.handlers && s'.handlers[t] == s.handlers[t].(gpc := RegAnswered, status := 500)
  {
    hide RemoveTenant;
  }

  /** From the insertion, through any schedule of the others, to the failed write: the answer is 500 and the tenants
      and their secrets are exactly those from before the insertion. */
  lemma RollbackIsClean(e: Env, s: State, t: HandlerId, c: Choice, schedule: seq<Event>)
    requires Inv(s) && t in s.handlers && s.handlers[t].Register? && s.handlers[t].gpc.RegHasWrite?
    requires s.handlers[t].id !in s.tables.tenants && |s.tables.tenants| < MAX_TENANTS
    requires Next(e, s, Run(t, c)).Some? && Exec(e, Next(e, s, Run(t, c)).value, schedule).Some?
    requires var s2 := Exec(e, Next(e, s, Run(t, c)).value, schedule).value; t in s2.handlers && Persisting(s2.handlers[t])
    ensures var end := Next(e, Exec(e, Next(e, s, Run(t, c)).value, schedule).value, Run(t, PersistFails));
            && end.Some? && SameRegistry(s.tables, end.value.tables)
            && t in end.value.handlers && end.value.handlers[t].Register? && end.value.handlers[t].gpc.RegAnswered?
            && end.value.handlers[t].status == 500
  {
    InsertionStep(e, s, t, c);
    StepKeepsInv(e, s, Run(t, c));
    hide Next;
    hide Exec;
    hide Inv;
    var s1 := Next(e, s, Run(t, c)).value;
    var s2 := Exec(e, s1, schedule).value;
    PersistingKeepsRegistry(e, s1, schedule, t);
    FailureStep(e, s2, t);
    TakenBack(s.tables, s2.tables, s.handlers[t].id, Sha256(s.handlers[t].secret));
  }

  lemma TakenBack(before: Tables, after: Tables, id: TenantId, hash: Digest)
    requires id !in before.tenants && SameRegistry(InsertTenant(before, id, hash), after)
    ensures SameRegistry(before, RemoveTenant(after, id))
  {
  }

  // ---- The steps and the sections of AppState ----

  /** What the step of h makes of the tables, in the words of the sections of `AppState`. */
  predicate RunsSection(before: Tables, after: Tables, h: Handler, h': Handler) {
    match h
    case Image(_, _, _, _, pc, _, _, _) =>
      if !ImageTyped(h) then false
      else if pc.ImgHasQueue? then after == Enqueued(before, h.id, JobOf(h)) && (h'.Image? && h'.inserted <==> HasRoom(before, h.id))
      else if pc.ImgCleansInflight? then after == ForgetInflight(before, h.rid.value)
      else if pc.ImgCleansQueue? then h.id in before.tenants && after == ForgetJob(before, h.id, h.rid.value)
      else after == before
    case Poll(_, _, pc, _, _) =>
      if pc.PollHasQueue? then after == Popped(before, h.id) && (h'.Poll? && h'.ppc.PollGiven? <==> after != before)
      else after == before
    case Result(id, target, _, _, pc) =>
      if pc.ResHasInflight? then after == Taken(before, id, target) && (Took(h') <==> MayTake(before, id, target))
      else after == before
    case Register(id, secret, _, pc, _) =>
      if pc.RegHasWrite? then after == Registered(before, id, Sha256(secret)) && (Persisting(h') <==> HasPlace(before, id))
      else if pc.RegPersisting? then
        after == if h'.Register? && h'.gpc.RegAnswered? && h'.status == 500 then RemoveTenant(before, id) else before
      else after == before
  }

  lemma ImageEntryRuns(s: State, s': State, t: HandlerId, c: Choice)
    requires Before(s, t) && s.handlers[t].Image? && ImageTyped(s.handlers[t])
    requires BeforeInsertion(s.handlers[t].ipc) && NextImage(s, t, s.handlers[t], c) == Some(s')
    requires |s.tables.inflight| < MAX_INFLIGHT || !s.handlers[t].ipc.ImgHasQueue?
    ensures t in s'.handlers && RunsSection(s.tables, s'.tables, s.handlers[t], s'.handlers[t])
  {
    var h := s.handlers[t];
    hide JobOf;
    if h.ipc.ImgReading? && h.id in s.tables.tenants {
      ImageDraws(s, s', t, c);
      hide NextImage;
    } else if h.ipc.ImgHasQueue? && h.id in s.tables.tenants && |s.tables.tenants[h.id].queue| < MAX_QUEUED_PER_TENANT {
      assert s' == With(s.(tables := Enqueue(s.tables, h.id, JobOf(h))), t, h.(ipc := ImgInserted, inserted := true));
      hide NextImage;
    } else {
      ImageEntryMoves(s, s', t, c);
      assert !h.inserted;
      hide NextImage;
    }
  }

  lemma ImageExitRuns(s: State, s': State, t: HandlerId, c: Choice)
    requires t in s.handlers && LockFactsOk(s, t) && s.handlers[t].Image? && ImageTyped(s.handlers[t])
    requires s.handlers[t].id in s.tables.tenants ==> TenantOk(s, s.handlers[t].id)
    requires !BeforeInsertion(s.handlers[t].ipc) && NextImage(s, t, s.handlers[t], c) == Some(s')
    ensures t in s'.handlers && RunsSection(s.tables, s'.tables, s.handlers[t], s'.handlers[t])
  {
    hide TenantOk;
    hide JobOf;
    if s.handlers[t].ipc.ImgWaiting? {
      ImageWakes(s, s', t, c);
      hide NextImage;
    } else if s.handlers[t].ipc.ImgCleansInflight? {
      ImageForgets(s, s', t, c);
      hide NextImage;
    } else if s.handlers[t].ipc.ImgCleansQueue? {
      ImageCleans(s, s', t, c);
      hide NextImage;
    } else {
      ImageExitMoves(s, s', t, c);
      hide NextImage;
    }
  }

  lemma PollRuns(s: State, s': State, t: HandlerId, c: Choice)
    requires t in s.handlers && s.handlers[t].Poll? && NextPoll(s, t, s.handlers[t], c) == Some(s')
    ensures t in s'.handlers && RunsSection(s.tables, s'.tables, s.handlers[t], s'.handlers[t])
  {
    var h := s.handlers[t];
    if h.ppc.PollHasQueue? && h.id in s.tables.tenants && s.tables.tenants[h.id].queue != [] {
      assert s'.tables == PopJob(s.tables, h.id) && s'.handlers[t].Poll? && s'.handlers[t].ppc.PollGiven?;
      assert |s'.tables.tenants[h.id].queue| < |s.tables.tenants[h.id].queue|;
      hide NextPoll;
    } else {
      if h.ppc.PollArrived? || h.ppc.PollReading? {
        PollEntryMoves(s, s', t, c);
      } else {
        PollQueueMoves(s, s', t, c);
      }
      hide NextPoll;
    }
  }

  lemma ResultRuns(s: State, s': State, t: HandlerId, c: Choice)
    requires t in s.handlers && LockFactsOk(s, t) && s.handlers[t].Result? && NextResult(s, t, s.handlers[t], c) == Some(s')
    requires s.handlers[t].target in s.tables.inflight ==> s.handlers[t].target in s.channels
    ensures t in s'.handlers && RunsSection(s.tables, s'.tables, s.handlers[t], s'.handlers[t])
  {
    var h := s.handlers[t];
    if h.rpc.ResSending? || (h.rpc.ResHasInflight? && MayTake(s.tables, h.id, h.target)) {
      ResultEffect(s, s', t, c);
      hide NextResult;
    } else {
      if h.rpc.ResArrived? || h.rpc.ResReading? {
        ResultEntryMoves(s, s', t, c);
      } else {
        ResultLockMoves(s, s', t, c);
      }
      hide NextResult;
    }
  }

  lemma RegisterRuns(e: Env, s: State, s': State, t: HandlerId, c: Choice)
    requires t in s.handlers && s.handlers[t].Register? && NextRegister(e, s, t, s.handlers[t], c) == Some(s')
    ensures t in s'.handlers && RunsSection(s.tables, s'.tables, s.handlers[t], s'.handlers[t])
  {
    hide RegistrationOk;
    hide InsertTenant;
    hide RemoveTenant;
    hide SecretHashMatches;
    match s.handlers[t].gpc
    case RegHasWrite =>
    case RegPersisting =>
    case _ =>
  }

  /** In every reachable state, a step makes of the tables exactly what the section it runs is specified to make of
      them, and it goes the way the section answers. */
  lemma StepsRunSections(e: Env, s: State, s': State, t: HandlerId, c: Choice)
    requires Inv(s) && Next(e, s, Run(t, c)) == Some(s')
    ensures t in s.handlers && t in s'.handlers && RunsSection(s.tables, s'.tables, s.handlers[t], s'.handlers[t])
  {
    KnownBefore(s, t);
    QueueHolderHasRoom(s, t);
    hide Inv;
    hide RunsSection;
    hide TenantOk;
    match s.handlers[t]
    case Image(_, _, _, _, pc, _, _, _) =>
      if BeforeInsertion(pc) {
        ImageEntryRuns(s, s', t, c);
      } else {
        hide Before;
        ImageExitRuns(s, s', t, c);
      }
    case Poll(_, _, _, _, _) => PollRuns(s, s', t, c);
    case Result(_, _, _, _, _) => ResultRuns(s, s', t, c);
    case Register(_, _, _, _, _) => RegisterRuns(e, s, s', t, c);
  }

  lemma QueueHolderHasRoom(s: State, t: HandlerId)
    requires Before(s, t)
    ensures s.handlers[t].Image? && s.handlers[t].ipc.ImgHasQueue? ==> |s.tables.inflight| < MAX_INFLIGHT
  {
  }
}
