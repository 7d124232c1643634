/** The relay server's shared tables and its critical sections, one function per section;
    class AppState updates the tables in place as the handlers do. */
module RelayTables {
  import opened Prelude
  import opened RelayLib

  const MAX_TENANTS: nat := 10_000
  const MAX_QUEUED_PER_TENANT: nat := 16
  const MAX_INFLIGHT: nat := 1_024

  type TenantId = string
  /** A random 128-bit id; only its freshness matters. */
  type RequestId = nat

  datatype Job = Job(requestId: RequestId, pathAndQuery: string)

  /** `pushed` and `handed` are history: every job ever queued, every job ever popped. */
  datatype Tenant = Tenant(secretHash: Digest, queue: seq<Job>, pushed: seq<Job>, handed: seq<Job>)

  datatype Tables = Tables(tenants: map<TenantId, Tenant>, inflight: map<RequestId, TenantId>)

  function NewTenant(hash: Digest): Tenant {
    Tenant(hash, [], [], [])
  }

  function Enqueue(t: Tables, id: TenantId, job: Job): Tables
    requires id in t.tenants
  {
    var tenant := t.tenants[id];
    Tables(t.tenants[id := tenant.(queue := tenant.queue + [job], pushed := tenant.pushed + [job])],
           t.inflight[job.requestId := id])
  }

  function ForgetInflight(t: Tables, rid: RequestId): Tables {
    t.(inflight := t.inflight - {rid})
  }

  function Without(queue: seq<Job>, rid: RequestId): (r: seq<Job>)
    ensures forall j <- r :: j in queue && j.requestId != rid
    ensures forall j <- queue :: j.requestId != rid ==> j in r
    ensures |r| <= |queue|
  {
    if queue == [] then []
    else
      var rest := Without(queue[..|queue| - 1], rid);
      if queue[|queue| - 1].requestId == rid then rest else rest + [queue[|queue| - 1]]
  }

  function ForgetJob(t: Tables, id: TenantId, rid: RequestId): Tables
    requires id in t.tenants
  {
    t.(tenants := t.tenants[id := t.tenants[id].(queue := Without(t.tenants[id].queue, rid))])
  }

  function PopJob(t: Tables, id: TenantId): Tables
    requires id in t.tenants && t.tenants[id].queue != []
  {
    var tenant := t.tenants[id];
    t.(tenants := t.tenants[id := tenant.(queue := tenant.queue[1..], handed := tenant.handed + [tenant.queue[0]])])
  }

  predicate MayTake(t: Tables, id: TenantId, rid: RequestId) {
    rid in t.inflight && t.inflight[rid] == id
  }

  function InsertTenant(t: Tables, id: TenantId, hash: Digest): Tables {
    t.(tenants := t.tenants[id := NewTenant(hash)])
  }

  function RemoveTenant(t: Tables, id: TenantId): Tables {
    t.(tenants := t.tenants - {id})
  }

  // ---- What the locked sections make of the tables ----

  predicate HasRoom(t: Tables, id: TenantId) {
    |t.inflight| < MAX_INFLIGHT && id in t.tenants && |t.tenants[id].queue| < MAX_QUEUED_PER_TENANT
  }

  function Enqueued(t: Tables, id: TenantId, job: Job): Tables {
    if HasRoom(t, id) then Enqueue(t, id, job) else t
  }

  function Popped(t: Tables, id: TenantId): Tables {
    if id in t.tenants && t.tenants[id].queue != [] then PopJob(t, id) else t
  }

  function Taken(t: Tables, id: TenantId, rid: RequestId): Tables {
    if MayTake(t, id, rid) then ForgetInflight(t, rid) else t
  }

  predicate HasPlace(t: Tables, id: TenantId) {
    id !in t.tenants && |t.tenants| < MAX_TENANTS
  }

  function Registered(t: Tables, id: TenantId, hash: Digest): Tables {
    if HasPlace(t, id) then InsertTenant(t, id, hash) else t
  }

  lemma {:induction false} WithoutIsSubsequence(queue: seq<Job>, rid: RequestId)
    ensures Subsequence(Without(queue, rid), queue)
  {
    if queue != [] {
      var init, last := queue[..|queue| - 1], queue[|queue| - 1];
      var rest := Without(init, rid);
      WithoutIsSubsequence(init, rid);
      assert init + [last] == queue;
      if last.requestId == rid {
        SubsequenceSkip(rest, init, last);
      } else {
        SubsequenceSnoc(rest, init, last);
      }
    }
  }

  /** The tables as the handlers mutate them, one method per locked section. */
  class AppState {
    var tenants: map<TenantId, Tenant>
    var inflight: map<RequestId, TenantId>

    ghost function View(): Tables
      reads this
    {
      Tables(tenants, inflight)
    }

    constructor (loaded: map<TenantId, Digest>)
      ensures View() == Tables(map id | id in loaded :: NewTenant(loaded[id]), map[])
    {
      tenants := map id | id in loaded :: NewTenant(loaded[id]);
      inflight := map[];
    }

    /** The section of `image` under the inflight and queue locks. */
    method TryEnqueue(id: TenantId, job: Job) returns (accepted: bool)
      requires id in tenants
      modifies this
      ensures accepted <==> |old(inflight)| < 1024 && |old(tenants)[id].queue| < 16
      ensures View() == Enqueued(old(View()), id, job)
    {
      accepted := false;
      if |inflight| >= MAX_INFLIGHT {
        return;
      }
      var queue := tenants[id].queue;
      if |queue| >= MAX_QUEUED_PER_TENANT {
        return;
      }
      inflight := inflight[job.requestId := id];
      tenants := tenants[id := tenants[id].(queue := queue + [job], pushed := tenants[id].pushed + [job])];
      accepted := true;
    }

    /** The first cleanup statement of `image`, under the inflight lock. */
    method RemoveInflight(rid: RequestId)
      modifies this
      ensures View() == ForgetInflight(old(View()), rid) && rid !in inflight
    {
      inflight := inflight - {rid};
    }

    /** The second cleanup statement, under the queue lock: the tenant keeps its other jobs, in order. */
    method RetainOthers(id: TenantId, rid: RequestId)
      requires id in tenants
      modifies this
      ensures View() == ForgetJob(old(View()), id, rid)
      ensures forall j <- tenants[id].queue :: j.requestId != rid
    {
      tenants := tenants[id := tenants[id].(queue := Without(tenants[id].queue, rid))];
    }

    method TryPop(id: TenantId) returns (job: Option<Job>)
      requires id in tenants
      modifies this
      ensures job.None? <==> old(tenants)[id].queue == []
      ensures job.Some? ==> job.value == old(tenants)[id].queue[0]
      ensures View() == Popped(old(View()), id)
    {
      var tenant := tenants[id];
      if tenant.queue == [] {
        return None;
      }
      job := Some(tenant.queue[0]);
      tenants := tenants[id := tenant.(queue := tenant.queue[1..], handed := tenant.handed + [tenant.queue[0]])];
    }

    /** The section of `result` under the inflight lock; false is the 404 answer. */
    method TryTake(id: TenantId, rid: RequestId) returns (taken: bool)
      modifies this
      ensures taken <==> rid in old(inflight) && old(inflight)[rid] == id
      ensures View() == Taken(old(View()), id, rid)
    {
      if rid !in inflight {
        return false;
      }
      if inflight[rid] != id {
        return false;
      }
      inflight := inflight - {rid};
      taken := true;
    }

    /** The section of `register` under the write lock. Every answer but 201 leaves both maps as they were. */
    method Register(id: TenantId, secret: string, persisted: bool) returns (status: nat)
      modifies this
      ensures View() == if persisted then Registered(old(View()), id, Sha256(secret)) else old(View())
      ensures status == 201 <==> id !in old(tenants) && |old(tenants)| < 10000 && persisted
      ensures status == 204 <==> id in old(tenants) && old(tenants)[id].secretHash == Sha256(secret)
      ensures status == 409 <==> id in old(tenants) && old(tenants)[id].secretHash != Sha256(secret)
      ensures status == 503 <==> id !in old(tenants) && |old(tenants)| >= 10000
      ensures status == 500 <==> id !in old(tenants) && |old(tenants)| < 10000 && !persisted
    {
      if id in tenants {
        return if SecretHashMatches(tenants[id].secretHash, secret) then 204 else 409;
      }
      if |tenants| >= MAX_TENANTS {
        return 503;
      }
      tenants := tenants[id := NewTenant(Sha256(secret))];
      if !persisted {
        tenants := tenants - {id};
        return 500;
      }
      status := 201;
    }
  }
}
