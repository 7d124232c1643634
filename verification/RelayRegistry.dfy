/** Who can be registered, over whole runs: the four conditions of a registration, and where every tenant comes from. */
module RelayRegistry {
  import opened Prelude
  import opened Text
  import opened RelayLib
  import opened RelayTables
  import opened RelayMachine
  import opened RelayInvariants
  import opened RelaySteps
  import opened RelayTheorems
  import opened RelayRefusals

  /** A well-formed id and secret, the secret deriving the id, and a proof of work for both. */
  predicate Proper(e: Env, id: string, secret: string, nonce: nat) {
    HexText(id, 32) && HexText(secret, 64) && e.tenantIdFor(secret) == id && e.proof(id, secret, nonce)
  }

  lemma ProperIff(e: Env, h: Handler)
    requires h.Register?
    ensures RegistrationOk(e, h) <==> Proper(e, h.id, h.secret, h.nonce)
  {
    HexTextIff(h.id, 32);
    HexTextIff(h.secret, 64);
  }

  // ---- What registrations know ----

  /** Whoever got past the checks is proper; who was answered 400 is not. */
  predicate Screened(e: Env, h: Handler) {
    h.Register? && !h.gpc.RegArrived? ==>
      if h.gpc.RegAnswered? && h.status == 400 then !Proper(e, h.id, h.secret, h.nonce) else Proper(e, h.id, h.secret, h.nonce)
  }

  /** The tenant was loaded as it is, or a proper registration gave it its secret. */
  ghost predicate Origin(e: Env, loaded: map<TenantId, Digest>, id: TenantId, hash: Digest) {
    || (id in loaded && loaded[id] == hash)
    || exists secret: string, nonce: nat :: hash == Sha256(secret) && Proper(e, id, secret, nonce)
  }

  ghost predicate Traced(e: Env, loaded: map<TenantId, Digest>, s: State) {
    && (forall t :: t in s.handlers ==> Screened(e, s.handlers[t]))
    && (forall id :: id in s.tables.tenants ==> Origin(e, loaded, id, s.tables.tenants[id].secretHash))
  }

  lemma RegisterIsScreened(e: Env, s: State, s': State, t: HandlerId, c: Choice)
    requires t in s.handlers && s.handlers[t].Register? && Screened(e, s.handlers[t]) && NextRegister(e, s, t, s.handlers[t], c) == Some(s')
    ensures t in s'.handlers && Screened(e, s'.handlers[t])
  {
    ProperIff(e, s.handlers[t]);
    hide RegistrationOk;
    hide Proper;
    hide InsertTenant;
    hide RemoveTenant;
    hide SecretHashMatches;
    match s.handlers[t].gpc
    case RegHasWrite =>
    case RegPersisting =>
    case _ =>
  }

  lemma HandlersStayScreened(e: Env, s: State, s': State, t: HandlerId, c: Choice)
    requires Next(e, s, Run(t, c)) == Some(s') && Guarantee(s, s', t)
    requires forall u :: u in s.handlers ==> Screened(e, s.handlers[u])
    ensures forall u :: u in s'.handlers ==> Screened(e, s'.handlers[u])
  {
    hide NextImage;
    hide NextPoll;
    hide NextResult;
    hide NextRegister;
    if s.handlers[t].Register? {
      RegisterIsScreened(e, s, s', t, c);
    }
    hide Next;
    forall u | u in s'.handlers ensures Screened(e, s'.handlers[u]) {
      if u != t {
        assert s'.handlers[u] == s.handlers[u];
      }
    }
  }

  lemma SameOrigins(e: Env, loaded: map<TenantId, Digest>, a: Tables, b: Tables)
    requires SameRegistry(a, b) && forall id :: id in a.tenants ==> Origin(e, loaded, id, a.tenants[id].secretHash)
    ensures forall id :: id in b.tenants ==> Origin(e, loaded, id, b.tenants[id].secretHash)
  {
    hide Origin;
  }

  lemma InsertedOrigin(e: Env, loaded: map<TenantId, Digest>, a: Tables, id: TenantId, secret: string, nonce: nat)
    requires Proper(e, id, secret, nonce) && forall other :: other in a.tenants ==> Origin(e, loaded, other, a.tenants[other].secretHash)
    ensures var b := InsertTenant(a, id, Sha256(secret));
            forall other :: other in b.tenants ==> Origin(e, loaded, other, b.tenants[other].secretHash)
  {
    assert Origin(e, loaded, id, Sha256(secret));
    hide Origin;
  }

  lemma RemovedOrigin(e: Env, loaded: map<TenantId, Digest>, a: Tables, id: TenantId)
    requires forall other :: other in a.tenants ==> Origin(e, loaded, other, a.tenants[other].secretHash)
    ensures var b := RemoveTenant(a, id); forall other :: other in b.tenants ==> Origin(e, loaded, other, b.tenants[other].secretHash)
  {
    hide Origin;
  }

  /** The writer's own steps: it inserts a tenant with its own secret, takes it out, or leaves the tables alone. */
  lemma WriterKeepsOrigins(e: Env, loaded: map<TenantId, Digest>, s: State, s': State, t: HandlerId, c: Choice)
    requires t in s.handlers && HoldsWrite(s.handlers[t]) && Screened(e, s.handlers[t]) && NextRegister(e, s, t, s.handlers[t], c) == Some(s')
    requires forall id :: id in s.tables.tenants ==> Origin(e, loaded, id, s.tables.tenants[id].secretHash)
    ensures forall id :: id in s'.tables.tenants ==> Origin(e, loaded, id, s'.tables.tenants[id].secretHash)
  {
    var h := s.handlers[t];
    WriterTables(e, s, s', t, c);
    hide NextRegister;
    hide Origin;
    hide Proper;
    hide InsertTenant;
    hide RemoveTenant;
    InsertedOrigin(e, loaded, s.tables, h.id, h.secret, h.nonce);
    RemovedOrigin(e, loaded, s.tables, h.id);
  }

  lemma WriterTables(e: Env, s: State, s': State, t: HandlerId, c: Choice)
    requires t in s.handlers && HoldsWrite(s.handlers[t]) && NextRegister(e, s, t, s.handlers[t], c) == Some(s')
    ensures || s'.tables == s.tables
            || s'.tables == InsertTenant(s.tables, s.handlers[t].id, Sha256(s.handlers[t].secret))
            || s'.tables == RemoveTenant(s.tables, s.handlers[t].id)
  {
    hide InsertTenant;
    hide RemoveTenant;
    hide SecretHashMatches;
  }

  lemma StepKeepsOrigins(e: Env, loaded: map<TenantId, Digest>, s: State, s': State, t: HandlerId, c: Choice)
    requires Inv(s) && Traced(e, loaded, s) && Next(e, s, Run(t, c)) == Some(s')
    ensures forall id :: id in s'.tables.tenants ==> Origin(e, loaded, id, s'.tables.tenants[id].secretHash)
  {
    assert t in s.handlers;
    KnownBefore(s, t);
    hide Inv;
    hide Origin;
    hide Screened;
    hide DataOk;
    hide TenantOk;
    if HoldsWrite(s.handlers[t]) {
      WriterKeepsOrigins(e, loaded, s, s', t, c);
    } else {
      hide Next;
      OtherKeepsRegistry(e, s, s', t, c);
      SameOrigins(e, loaded, s.tables, s'.tables);
    }
  }

  lemma StepKeepsTraced(e: Env, loaded: map<TenantId, Digest>, s: State, event: Event)
    requires Inv(s) && Traced(e, loaded, s) && Next(e, s, event).Some?
    ensures Inv(Next(e, s, event).value) && Traced(e, loaded, Next(e, s, event).value)
  {
    var s' := Next(e, s, event).value;
    StepKeepsInv(e, s, event);
    hide Inv;
    hide Origin;
    hide Proper;
    if event.Run? {
      hide Next;
      HandlersStayScreened(e, s, s', event.runs, event.choice);
      StepKeepsOrigins(e, loaded, s, s', event.runs, event.choice);
    }
  }

  lemma {:induction false} RunKeepsTraced(e: Env, loaded: map<TenantId, Digest>, s: State, schedule: seq<Event>)
    requires Inv(s) && Traced(e, loaded, s) && Exec(e, s, schedule).Some?
    ensures Traced(e, loaded, Exec(e, s, schedule).value)
    decreases |schedule|
  {
    hide Next;
    hide Inv;
    hide Traced;
    if schedule != [] {
      StepKeepsTraced(e, loaded, s, schedule[0]);
      RunKeepsTraced(e, loaded, Next(e, s, schedule[0]).value, schedule[1..]);
    }
  }

  lemma ReachableTraced(e: Env, loaded: map<TenantId, Digest>, s: State)
    requires Reachable(e, loaded, s)
    ensures Traced(e, loaded, s)
  {
    var schedule :| Exec(e, Init(loaded), schedule) == Some(s);
    InitInv(loaded);
    assert Traced(e, loaded, Init(loaded)) by {
      forall id | id in loaded ensures Origin(e, loaded, id, loaded[id]) {
      }
    }
    hide Inv;
    RunKeepsTraced(e, loaded, Init(loaded), schedule);
  }

  /** In every run a registration is answered 400 if and only if its id or its secret is malformed, the secret does not derive
      the id, or the proof of work fails; and no such registration ever gets to the tenants. */
  lemma ImproperIsAnswered400(e: Env, loaded: map<TenantId, Digest>, s: State, t: HandlerId)
    requires Reachable(e, loaded, s) && t in s.handlers && s.handlers[t].Register? && !s.handlers[t].gpc.RegArrived?
    ensures var h := s.handlers[t];
            h.gpc.RegAnswered? && h.status == 400 <==>
              !HexText(h.id, 32) || !HexText(h.secret, 64) || e.tenantIdFor(h.secret) != h.id || !e.proof(h.id, h.secret, h.nonce)
  {
    ReachableTraced(e, loaded, s);
  }

  /** Every tenant of every reachable state was loaded with its hash, or has the hash of a secret that derives its id. */
  lemma TenantsAreDerived(e: Env, loaded: map<TenantId, Digest>, s: State, id: TenantId)
    requires Reachable(e, loaded, s) && id in s.tables.tenants
    ensures || (id in loaded && loaded[id] == s.tables.tenants[id].secretHash)
            || exists secret: string, nonce: nat ::
                 && s.tables.tenants[id].secretHash == Sha256(secret) && e.tenantIdFor(secret) == id && e.proof(id, secret, nonce)
                 && HexText(id, 32) && HexText(secret, 64)
  {
    ReachableTraced(e, loaded, s);
    if secret: string, nonce: nat :| s.tables.tenants[id].secretHash == Sha256(secret) && Proper(e, id, secret, nonce) {
      assert e.tenantIdFor(secret) == id && e.proof(id, secret, nonce);
    }
  }
}
