/**
  The client methods that share the registry, as the sequential code between two scheduling points:
  beginning a request, the core's callbacks, a cancellation, and Close with its loop over the pending IDs.
 */
module BaseClient {
  import opened Wrappers
  import opened ClaimMachine
  import R = Registry

  // A Go channel of capacity one. A send on a full channel would block.
  class Channel {
    var buffer: seq<Payload>

    constructor ()
      ensures buffer == []
    {
      buffer := [];
    }

    method Send(p: Payload)
      requires |buffer| < 1
      modifies this
      ensures buffer == [p]
    {
      buffer := buffer + [p];
    }
  }

  type Requests = R.RequestRegistry<Channel>

  ghost predicate Injective(m: map<nat, Channel>) {
    forall i, j | i in m && j in m && i != j :: m[i] != m[j]
  }

  ghost predicate AllEmpty(m: map<nat, Channel>)
    reads m.Values
  {
    forall i | i in m :: m[i].buffer == []
  }

  ghost function Channels(registry: Requests): set<Channel>
    reads registry.shards
  {
    if registry.ShardsOk() then registry.Flat().Values else {}
  }

  // Every registered channel is empty and registered under one ID only, so a claimer can send at once.
  ghost predicate Ready(registry: Requests)
    reads registry.shards, Channels(registry)
  {
    registry.ShardsOk() && Injective(registry.Flat()) && AllEmpty(registry.Flat())
  }

  lemma AddOne(m: map<nat, Channel>, id: nat, ch: Channel)
    requires Injective(m) && AllEmpty(m) && id !in m && ch !in m.Values && ch.buffer == []
    ensures Injective(m[id := ch]) && AllEmpty(m[id := ch])
  {
    assert forall i | i in m :: m[i] in m.Values;
  }

  // takeRequest, and on success the send that the claimer then owes.
  method ClaimAndSend(registry: Requests, id: nat, p: Payload) returns (claimed: bool)
    requires Ready(registry)
    modifies registry.shards, if id in registry.Flat() then {registry.Flat()[id]} else {}
    ensures Ready(registry)
    ensures registry.Flat() == old(registry.Flat()) - {id}
    ensures claimed <==> id in old(registry.Flat())
    ensures claimed ==> old(registry.Flat())[id].buffer == [p]
  {
    var found := registry.Take(id);
    claimed := found.Some?;
    if claimed {
      found.value.Send(p);
    }
  }

  // The channels of `before` whose IDs are in `done` have been failed, the others are still empty.
  ghost predicate Failed(before: map<nat, Channel>, done: set<nat>)
    reads before.Values
  {
    forall id | id in before :: before[id].buffer == if id in done then [ClosingError] else []
  }

  // One iteration of failPendingRequests.
  method FailOne(registry: Requests, id: nat, ghost before: map<nat, Channel>, ghost done: set<nat>)
    requires Ready(registry) && Injective(before) && id !in done
    requires registry.Flat() == before - done && Failed(before, done)
    modifies registry.shards, before.Values
    ensures Ready(registry) && registry.Flat() == before - (done + {id}) && Failed(before, done + {id})
  {
    assert id in before <==> id in registry.Flat();
    var claimed := ClaimAndSend(registry, id, ClosingError);
  }

  // The loop of failPendingRequests, over the IDs in an arbitrary order.
  method FailAll(registry: Requests, ids: set<nat>)
    requires Ready(registry)
    modifies registry.shards, Channels(registry)
    ensures Ready(registry)
    ensures registry.Flat() == old(registry.Flat()) - ids
    ensures Failed(old(registry.Flat()), ids)
  {
    ghost var before := registry.Flat();
    ghost var done: set<nat> := {};
    var todo := ids;
    while todo != {}
      invariant done + todo == ids && done !! todo
      invariant Ready(registry) && registry.Flat() == before - done && Failed(before, done)
      decreases |todo|
    {
      var id :| id in todo;
      FailOne(registry, id, before, done);
      todo := todo - {id};
      done := done + {id};
    }
  }

  class Client {
    const registry: Requests
    var pending: Option<set<nat>>      // None is the nil map a closed client has
    var coreClient: bool               // false is the nil pointer

    constructor (registry: Requests)
      ensures this.registry == registry && pending == Some({}) && coreClient
    {
      this.registry := registry;
      pending := Some({});
      coreClient := true;
    }

    // Called with client.mu held, on an open client.
    method BeginRequest(ch: Channel) returns (id: nat)
      requires registry.Valid() && Ready(registry) && pending.Some?
      requires |registry.Flat()| < R.WordSize(registry.wide) - 1
      requires ch.buffer == [] && ch !in Channels(registry)
      modifies this`pending, registry`nextRequestId, registry.shards
      ensures registry.Valid() && Ready(registry)
      ensures id != 0 && id !in old(registry.Flat())
      ensures registry.Flat() == old(registry.Flat())[id := ch]
      ensures pending == Some(old(pending.value) + {id})
    {
      ghost var before := registry.Flat();
      ghost var tries: nat;
      id, tries := registry.Register(ch);
      AddOne(before, id, ch);
      pending := Some(pending.value + {id});
    }

    // Deletes the ID, unless the client is closed and `pending` is nil.
    method RemovePendingRequest(id: nat)
      modifies this`pending
      ensures pending == if old(pending).Some? then Some(old(pending.value) - {id}) else None
    {
      if pending.Some? {
        pending := Some(pending.value - {id});
      }
    }

    // The ctx.Done branch of waitForResponse: untrack, then try to claim. A caller that loses the claim leaves
    // a goroutine behind to receive and free whatever the winner sends.
    method CancelWait(id: nat) returns (discard: bool)
      requires registry.ShardsOk() && Ready(registry)
      modifies this`pending, registry.shards
      ensures Ready(registry)
      ensures registry.Flat() == old(registry.Flat()) - {id}
      ensures discard <==> id !in old(registry.Flat())
      ensures pending == if old(pending).Some? then Some(old(pending.value) - {id}) else None
    {
      RemovePendingRequest(id);
      var found := registry.Take(id);
      discard := found.None?;
    }

    // Claims every pending request that is still registered and fails it; no send finds a full channel.
    method FailPendingRequests()
      requires Ready(registry)
      modifies this`pending, registry.shards, Channels(registry)
      ensures Ready(registry) && pending == None
      ensures registry.Flat() == old(registry.Flat()) - old(PendingIds())
      ensures Failed(old(registry.Flat()), old(PendingIds()))
    {
      FailAll(registry, if pending.Some? then pending.value else {});
      pending := None;
    }

    ghost function PendingIds(): set<nat>
      reads this`pending
    {
      if pending.Some? then pending.value else {}
    }

    method Close()
      requires Ready(registry)
      modifies this, registry.shards, Channels(registry)
      ensures Ready(registry) && !coreClient
      ensures registry.Flat()
           == if old(coreClient) then old(registry.Flat()) - old(PendingIds()) else old(registry.Flat())
      ensures old(coreClient) ==> pending == None
      ensures !old(coreClient) ==> pending == old(pending)
      ensures Failed(old(registry.Flat()), if old(coreClient) then old(PendingIds()) else {})
    {
      if !coreClient {
        return;
      }
      coreClient := false;
      FailPendingRequests();
    }
  }

  // A callback either delivers its payload into the claimed channel or, when the request was claimed already,
  // frees the response. `freed` says whether free_command_response was called.
  method Deliver(registry: Requests, id: nat, answer: Payload) returns (freed: bool)
    requires Ready(registry)
    modifies registry.shards, if id in registry.Flat() then {registry.Flat()[id]} else {}
    ensures Ready(registry)
    ensures registry.Flat() == old(registry.Flat()) - {id}
    ensures freed <==> id !in old(registry.Flat()) && answer.Response?
    ensures id in old(registry.Flat()) ==> old(registry.Flat())[id].buffer == [answer]
  {
    var claimed := ClaimAndSend(registry, id, answer);
    freed := !claimed && answer.Response?;
  }
}
