/** The relay's locks cannot deadlock, and a registration that is rolled back was seen by nobody. */
module RelayProgress {
  import opened Prelude
  import opened RelayLib
  import opened RelayTables
  import opened RelayMachine
  import opened RelayInvariants
  import opened RelaySteps
  import opened RelayTheorems

  predicate Done(h: Handler) {
    match h
    case Image(_, _, _, _, pc, _, _, _) => pc.ImgFinished? || pc.ImgRefused? || pc.ImgDropped?
    case Poll(_, _, pc, _, _) => pc.PollGiven? || pc.PollNothing? || pc.PollRefused? || pc.PollDropped?
    case Result(_, _, _, _, pc) => pc.ResPosted? || pc.ResRefused? || pc.ResDropped?
    case Register(_, _, _, pc, _) => pc.RegAnswered? || pc.RegDropped?
  }

  /** The handler can make a step without its client disconnecting. */
  predicate CanRun(e: Env, s: State, t: HandlerId, c: Choice) {
    !c.Disconnect? && Next(e, s, Run(t, c)).Some?
  }

  lemma {:induction false} UnusedId(used: set<RequestId>) returns (r: RequestId)
    ensures r !in used && forall u <- used :: u < r
    decreases |used|
  {
    if used == {} {
      r := 0;
    } else {
      var u :| u in used;
      var r0 := UnusedId(used - {u});
      r := if r0 > u then r0 else u + 1;
      assert used == (used - {u}) + {u};
    }
  }

  lemma ReaderCanRun(e: Env, s: State, t: HandlerId) returns (c: Choice)
    requires t in s.handlers && HandlerOk(s, t) && HoldsRead(s.handlers[t])
    ensures CanRun(e, s, t, c)
  {
    var r := UnusedId(s.channels.Keys);
    c := Draw(r);
  }

  lemma WriterCanRun(e: Env, s: State, t: HandlerId)
    requires t in s.handlers && HoldsWrite(s.handlers[t])
    ensures CanRun(e, s, t, Go)
  {
  }

  lemma QueueHolderCanRun(e: Env, s: State, t: HandlerId)
    requires t in s.handlers && HandlerOk(s, t) && HoldsQueueLock(s.handlers[t])
    ensures CanRun(e, s, t, Go)
  {
  }

  lemma InflightHolderCanRun(e: Env, s: State, t: HandlerId)
    requires t in s.handlers && HandlerOk(s, t) && HoldsInflightLock(s.handlers[t])
    requires s.handlers[t].Image? && s.handlers[t].ipc.ImgWantQueue? ==> s.handlers[t].id !in s.queueLock
    ensures CanRun(e, s, t, Go)
  {
  }

  /** What keeps a handler from running: at most one lock, held by somebody else. */
  datatype Blocker = Nobody(choice: Choice) | Writer | Readers | InflightLock | QueueLock

  function Blocks(s: State, h: Handler): Blocker {
    match h
    case Image(id, _, _, _, pc, _, _, _) =>
      if pc.ImgArrived? && s.writer.Some? then Writer
      else if (pc.ImgWantInflight? || pc.ImgWantInflightAgain?) && s.inflightLock.Some? then InflightLock
      else if (pc.ImgWantQueue? || pc.ImgWantQueueAgain?) && id in s.queueLock then QueueLock
      else Nobody(if pc.ImgWaiting? then TimesOut else Go)
    case Poll(id, _, pc, _, _) =>
      if pc.PollArrived? && s.writer.Some? then Writer
      else if pc.PollWantQueue? && id in s.queueLock then QueueLock
      else Nobody(TimesOut)
    case Result(id, _, _, _, pc) =>
      if pc.ResArrived? && s.writer.Some? then Writer
      else if pc.ResWantInflight? && s.inflightLock.Some? then InflightLock
      else Nobody(Go)
    case Register(_, _, _, pc, _) =>
      if pc.RegWantWrite? && s.writer.Some? then Writer
      else if pc.RegWantWrite? && s.readers != {} then Readers
      else Nobody(Go)
  }

  lemma UnblockedImageCanRun(e: Env, s: State, t: HandlerId)
    requires t in s.handlers && HandlerOk(s, t) && s.handlers[t].Image? && !Done(s.handlers[t])
    requires !HoldsRead(s.handlers[t]) && Blocks(s, s.handlers[t]).Nobody?
    requires s.handlers[t].rid.Some? ==> s.handlers[t].rid.value in s.channels
    ensures CanRun(e, s, t, Blocks(s, s.handlers[t]).choice)
  {
  }

  lemma UnblockedOtherCanRun(e: Env, s: State, t: HandlerId)
    requires t in s.handlers && HandlerOk(s, t) && !s.handlers[t].Image? && !Done(s.handlers[t])
    requires Blocks(s, s.handlers[t]).Nobody?
    ensures CanRun(e, s, t, Blocks(s, s.handlers[t]).choice)
  {
    match s.handlers[t]
    case Poll(_, _, _, _, _) =>
    case Result(_, _, _, _, _) =>
    case Register(_, _, _, _, _) =>
  }

  /** Whoever must move before the inflight lock is released. */
  lemma InflightReleaser(e: Env, s: State) returns (u: HandlerId)
    requires Inv(s) && s.inflightLock.Some?
    ensures CanRun(e, s, u, Go) && (Some(u) == s.inflightLock || u in s.queueLock.Values)
  {
    u := s.inflightLock.value;
    assert HandlerOk(s, u);
    if s.handlers[u].Image? && s.handlers[u].ipc.ImgWantQueue? && s.handlers[u].id in s.queueLock {
      u := s.queueLock[s.handlers[u].id];
      assert HandlerOk(s, u);
      QueueHolderCanRun(e, s, u);
    } else {
      InflightHolderCanRun(e, s, u);
    }
  }

  lemma SomeReader(e: Env, s: State) returns (u: HandlerId, c: Choice)
    requires Inv(s) && s.readers != {}
    ensures u in s.readers && CanRun(e, s, u, c)
  {
    u :| u in s.readers;
    assert HandlerOk(s, u);
    c := ReaderCanRun(e, s, u);
  }

  /** No reachable state is deadlocked: while some handler is not done, some handler can run without anybody
      disconnecting. The runner u is t itself, the holder of the lock t waits for, or, when that holder is an
      image handler waiting for a queue with the inflight lock in hand, the holder of that queue. */
  lemma NoDeadlock(e: Env, loaded: map<TenantId, Digest>, s: State, t: HandlerId) returns (u: HandlerId, c: Choice)
    requires Reachable(e, loaded, s) && t in s.handlers && !Done(s.handlers[t])
    ensures CanRun(e, s, u, c)
    ensures u == t || Some(u) == s.writer || u in s.readers || Some(u) == s.inflightLock || u in s.queueLock.Values
  {
    ReachableInv(e, loaded, s);
    var h := s.handlers[t];
    assert HandlerOk(s, t);
    match Blocks(s, h)
    case Nobody(choice) =>
      u := t;
      if HoldsRead(h) {
        c := ReaderCanRun(e, s, t);
      } else if h.Image? {
        UnblockedImageCanRun(e, s, t);
        c := choice;
      } else {
        UnblockedOtherCanRun(e, s, t);
        c := choice;
      }
    case Writer =>
      u, c := s.writer.value, Go;
      WriterCanRun(e, s, u);
    case Readers =>
      u, c := SomeReader(e, s);
    case InflightLock =>
      u := InflightReleaser(e, s);
      c := Go;
    case QueueLock =>
      u, c := s.queueLock[h.id], Go;
      assert HandlerOk(s, u);
      QueueHolderCanRun(e, s, u);
  }

  /** While a registration is being persisted its tenant has no job and no handler that looked it up. */
  lemma PersistingIsUnseen(e: Env, loaded: map<TenantId, Digest>, s: State, t: HandlerId)
    requires Reachable(e, loaded, s) && t in s.handlers && Persisting(s.handlers[t])
    ensures var id := s.handlers[t].id;
            && id in s.tables.tenants && s.tables.tenants[id] == NewTenant(Sha256(s.handlers[t].secret))
            && s.readers == {} && s.pending == Some(id)
            && (forall u :: u in s.handlers && Knows(s.handlers[u]) ==> s.handlers[u].id != id)
            && (forall r :: r in s.tables.inflight ==> s.tables.inflight[r] != id)
  {
    ReachableInv(e, loaded, s);
    assert HandlerOk(s, t);
    forall u | u in s.handlers && Knows(s.handlers[u]) ensures s.handlers[u].id != s.handlers[t].id {
      assert HandlerOk(s, u);
    }
    forall r | r in s.tables.inflight ensures s.tables.inflight[r] != s.handlers[t].id {
      assert InflightEntryOk(s, r);
      assert HandlerOk(s, s.channels[r].owner);
    }
  }
}
