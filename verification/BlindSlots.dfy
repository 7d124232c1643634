/** Blind tunnels: a deque of waiting slots per tenant, handed out oldest first to connections whose
    server name names the tenant. */
module BlindSlots {
  import opened Prelude
  import opened RelayLib

  const MAX_BLIND_SLOTS_PER_TENANT: nat := 8

  type TenantId = string
  /** Slots are numbered in the order they are opened. */
  type SlotId = nat
  type HandlerId = nat

  /** serverName is a tenant id of 32 hexadecimal digits, directly below the suffix. */
  predicate Names(serverName: string, suffix: string, id: TenantId) {
    serverName == id + "." + suffix && HexText(id, 32)
  }

  /** Strips the suffix and accepts what is left if it is a tenant id. */
  function TenantFromServerName(serverName: string, suffix: string): (r: Option<TenantId>)
    ensures r.Some? ==> Names(serverName, suffix, r.value)
  {
    var tail := "." + suffix;
    if |tail| <= |serverName| && serverName[|serverName| - |tail|..] == tail then
      var id := serverName[..|serverName| - |tail|];
      assert serverName == id + tail && id + tail == id + "." + suffix;
      HexTextIff(id, 32);
      if '.' !in id && ValidTenantId(id) then Some(id) else None
    else None
  }

  /** A server name has a tenant exactly when it is a tenant id directly below the suffix. */
  lemma NamedTenant(serverName: string, suffix: string, id: TenantId)
    ensures TenantFromServerName(serverName, suffix) == Some(id) <==> Names(serverName, suffix, id)
  {
    HexTextIff(id, 32);
    if Names(serverName, suffix, id) {
      var tail := "." + suffix;
      assert serverName == id + tail;
      assert serverName[..|serverName| - |tail|] == id && serverName[|serverName| - |tail|..] == tail;
    }
  }

  /** The slot's channel: its receiver waits, was given a connection, or gave up. */
  datatype Cell = Live | Fired(connection: HandlerId) | GaveUp

  /** The first slot of the deque whose receiver still waits. */
  function FirstLive(deque: seq<SlotId>, cells: map<SlotId, Cell>): (r: Option<nat>)
    ensures r.Some? ==> r.value < |deque| && deque[r.value] in cells && cells[deque[r.value]].Live?
                        && forall i :: 0 <= i < r.value ==> !(deque[i] in cells && cells[deque[i]].Live?)
    ensures r.None? ==> forall i :: 0 <= i < |deque| ==> !(deque[i] in cells && cells[deque[i]].Live?)
  {
    if deque == [] then None
    else if deque[0] in cells && cells[deque[0]].Live? then Some(0)
    else
      match FirstLive(deque[1..], cells)
      case None => None
      case Some(i) => Some(i + 1)
  }

  predicate IsLive(cells: map<SlotId, Cell>, k: SlotId) {
    k in cells && cells[k].Live?
  }

  lemma FirstLiveIs(deque: seq<SlotId>, cells: map<SlotId, Cell>, n: nat)
    requires n <= |deque| && forall i :: 0 <= i < n ==> !IsLive(cells, deque[i])
    requires n < |deque| ==> IsLive(cells, deque[n])
    ensures FirstLive(deque, cells) == if n < |deque| then Some(n) else None
  {
  }

  lemma NextOf(deque: seq<SlotId>, n: nat)
    requires n < |deque|
    ensures deque[n..] != [] && deque[n..][0] == deque[n] && deque[n..][1..] == deque[n + 1..]
    ensures deque[n + 1..] == [] <==> n + 1 == |deque|
  {
  }

  /** The slot table and the channels, updated in place; no receiver gives up while a method runs. */
  class SlotTable {
    var slots: map<TenantId, seq<SlotId>>
    var cells: map<SlotId, Cell>

    ghost predicate NoEmptyDeque()
      reads this
    {
      forall id :: id in slots ==> slots[id] != []
    }

    /** The hand-off loop of `route_blind_connection`. */
    method HandOff(tenant: TenantId, connection: HandlerId) returns (slot: Option<SlotId>)
      requires NoEmptyDeque()
      modifies this
      ensures NoEmptyDeque()
      ensures slot.Some? <==> tenant in old(slots) && FirstLive(old(slots)[tenant], old(cells)).Some?
      ensures forall id :: id != tenant ==> (id in slots <==> id in old(slots)) && (id in slots ==> slots[id] == old(slots)[id])
      ensures slot.Some? ==>
                var i := FirstLive(old(slots)[tenant], old(cells)).value;
                && slot.value == old(slots)[tenant][i]
                && cells == old(cells)[slot.value := Fired(connection)]
                && (if i + 1 < |old(slots)[tenant]| then tenant in slots && slots[tenant] == old(slots)[tenant][i + 1..]
                    else tenant !in slots)
      ensures slot.None? ==> cells == old(cells) && tenant !in slots
    {
      hide FirstLive;
      hide IsLive;
      slot := None;
      if tenant !in slots {
        return;
      }
      ghost var deque := slots[tenant];
      var pending := Some(connection);
      var n := 0;
      while slots[tenant] != []
        invariant tenant in slots && pending == Some(connection)
        invariant n <= |deque| && slots[tenant] == deque[n..]
        invariant cells == old(cells)
        invariant forall i :: 0 <= i < n ==> !IsLive(cells, deque[i])
        invariant forall id :: id != tenant ==> (id in slots <==> id in old(slots)) && (id in slots ==> slots[id] == old(slots)[id])
        decreases |slots[tenant]|
      {
        NextOf(deque, n);
        var sender := slots[tenant][0];
        slots := slots[tenant := slots[tenant][1..]];
        var handed := pending.value;
        pending := None;
        if IsLive(cells, sender) {
          FirstLiveIs(deque, cells, n);
          cells := cells[sender := Fired(handed)];
          if slots[tenant] == [] {
            slots := slots - {tenant};
          }
          return Some(sender);
        }
        pending := Some(handed);
        n := n + 1;
      }
      FirstLiveIs(deque, cells, n);
      slots := slots - {tenant};
    }
  }
}
