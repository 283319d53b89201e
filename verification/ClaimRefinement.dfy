/**
  The objects of `Registry` and `BaseClient` carry out steps of the claim protocol: when registry, channels and
  client show a reachable state of `ClaimMachine` before a call, they show the state after the corresponding
  steps when the call returns. `chans` says which channel object belongs to which request.
 */
module ClaimRefinement {
  import opened Wrappers
  import opened ClaimMachine
  import opened ClaimInvariant
  import opened ClaimTheorems
  import opened ClaimProgress
  import opened BaseClient
  import R = Registry

  type ChannelMap = map<RequestNo, Channel>

  ghost function Contents(chans: ChannelMap): map<RequestNo, seq<Payload>>
    reads chans.Values
  {
    map r | r in chans :: chans[r].buffer
  }

  // `flat` maps each ID to the channel of the request the machine's registry maps it to, and every channel
  // holds what the machine says.
  ghost predicate ShowsMaps(flat: map<nat, Channel>, contents: map<RequestNo, seq<Payload>>, s: State,
                            chans: ChannelMap) {
    && Injective(chans)
    && chans.Keys == s.requests.Keys && contents.Keys == s.requests.Keys
    && (forall r | r in s.requests :: contents[r] == s.requests[r].channel)
    && flat.Keys == s.registry.Keys
    && (forall id | id in s.registry :: s.registry[id] in chans && flat[id] == chans[s.registry[id]])
  }

  ghost predicate Shows(registry: Requests, s: State, chans: ChannelMap)
    reads registry.shards, chans.Values
  {
    registry.ShardsOk() && ShowsMaps(registry.Flat(), Contents(chans), s, chans)
  }

  ghost predicate ShowsClient(client: BaseClient.Client, s: State, c: ClientNo)
    reads client
  {
    && c in s.clients
    && client.coreClient == s.clients[c].open
    && client.PendingIds() == s.clients[c].pending
    && (client.coreClient ==> client.pending.Some?)
  }

  // A registered request has an empty channel, and no two IDs lead to one request.
  lemma RegisteredEmpty(s: State, id: RequestId)
    requires Reachable(s) && id in s.registry
    ensures s.registry[id] in s.requests && s.requests[s.registry[id]].id == id
    ensures s.requests[s.registry[id]].channel == []
  {
    ReachableOk(s);
    ViewHolds(s, s.registry[id]);
    assert Registered(s, s.registry[id]);
  }

  // Registered requests have empty channels.
  ghost predicate AllWaiting(s: State) {
    forall id | id in s.registry ::
      var x := s.registry[id]; x in s.requests && s.requests[x].id == id && s.requests[x].channel == []
  }

  lemma ReachableAllWaiting(s: State)
    requires Reachable(s)
    ensures AllWaiting(s)
  {
    forall id | id in s.registry
      ensures var x := s.registry[id]; x in s.requests && s.requests[x].id == id && s.requests[x].channel == []
    {
      RegisteredEmpty(s, id);
    }
  }

  lemma ShowsReady(registry: Requests, s: State, chans: ChannelMap)
    requires AllWaiting(s) && Shows(registry, s, chans)
    ensures Ready(registry)
  {
    var flat := registry.Flat();
    assert forall id | id in flat :: s.requests[s.registry[id]].id == id;
    assert Injective(flat);
  }

  // ---------------------------------------------------------------------------------------------
  // What the steps of one call do to registry and channels
  // ---------------------------------------------------------------------------------------------

  // From s to t the IDs in `taken` leave the registry and, with a payload, the requests registered under them
  // get it; nothing else changes in registry or channels.
  ghost predicate Effect(s: State, t: State, taken: set<RequestId>, p: Option<Payload>) {
    && t.registry == s.registry - taken
    && t.requests.Keys == s.requests.Keys
    && (forall x | x in s.requests :: t.requests[x].id == s.requests[x].id)
    && (forall x | x in s.requests ::
          t.requests[x].channel
          == if Registered(s, x) && s.requests[x].id in taken && p.Some? then [p.value] else s.requests[x].channel)
  }

  lemma ClaimedEffect(s: State, r: RequestNo)
    requires CallbackTakeReady(s, r) && s.requests[r].id in s.registry
    requires var x := s.registry[s.requests[r].id];
             x in s.requests && s.requests[x].id == s.requests[r].id && s.requests[x].channel == []
    ensures CallbackSendReady(CallbackTake(s, r), r)
    ensures var t := CallbackSend(CallbackTake(s, r), r);
            && Effect(s, t, {s.requests[r].id}, Some(s.requests[r].core.answer))
            && t.freed == s.freed && t.clients == s.clients
  {}

  lemma LostEffect(s: State, r: RequestNo)
    requires CallbackTakeReady(s, r) && s.requests[r].id !in s.registry
    ensures var t := CallbackTake(s, r);
            && Effect(s, t, {s.requests[r].id}, Some(s.requests[r].core.answer))
            && t.freed == FreeResponse(s, s.requests[r].core.answer).freed && t.clients == s.clients
  {}

  lemma CancelEffect(s: State, r: RequestNo)
    requires UntrackReady(s, r) && s.requests[r].cleaner.NoCleaner?
    ensures CancelTakeReady(Untrack(s, r), r)
    ensures var t, c := CancelTake(Untrack(s, r), r), s.requests[r].kind.client;
            && Effect(s, t, {s.requests[r].id}, None)
            && (t.requests[r].cleaner.Discarding? <==> s.requests[r].id !in s.registry)
            && t.clients == s.clients[c := s.clients[c].(pending := s.clients[c].pending - {s.requests[r].id})]
  {}

  // ---------------------------------------------------------------------------------------------
  // The steps of Close
  // ---------------------------------------------------------------------------------------------

  // Close is in its loop, between two IDs.
  ghost predicate InLoop(s: State, c: ClientNo) {
    c in s.clients && s.clients[c].mutex.HeldByClose? && s.clients[c].mutex.sending.None?
  }

  ghost predicate Visitable(s: State, c: ClientNo, id: RequestId) {
    InLoop(s, c) && id in s.clients[c].mutex.todo
  }

  // One ID: CloseTake and, if it claims, CloseSend.
  ghost function Visit(s: State, c: ClientNo, id: RequestId): State
    requires Visitable(s, c, id)
  {
    var s1 := CloseTake(s, c, id);
    if CloseSendReady(s1, c) then CloseSend(s1, c) else s1
  }

  // The IDs in the order Close visits them; one that is not in `todo` is not visited.
  ghost function Visits(s: State, c: ClientNo, ids: seq<RequestId>): State
    decreases |ids|
  {
    if ids == [] then s
    else Visits(if Visitable(s, c, ids[0]) then Visit(s, c, ids[0]) else s, c, ids[1..])
  }

  // CloseStart, the visits, CloseEnd.
  ghost function CloseAll(s: State, c: ClientNo, ids: seq<RequestId>): State
    requires CloseStartReady(s, c)
  {
    var t := Visits(CloseStart(s, c), c, ids);
    if CloseEndReady(t, c) then CloseEnd(t, c) else t
  }

  lemma TakeReaches(s: State, c: ClientNo, id: RequestId)
    requires Reachable(s) && CloseTakeReady(s, c, id)
    ensures Reachable(CloseTake(s, c, id))
  {
    ReachableNext(s, CloseTakeStep(c, id));
  }

  lemma SendReaches(s: State, c: ClientNo)
    requires Reachable(s) && CloseSendReady(s, c)
    ensures Reachable(CloseSend(s, c))
  {
    ReachableNext(s, CloseSendStep(c));
  }

  lemma VisitReaches(s: State, c: ClientNo, id: RequestId)
    requires Reachable(s) && Visitable(s, c, id)
    ensures Reachable(Visit(s, c, id))
  {
    var s1 := CloseTake(s, c, id);
    TakeReaches(s, c, id);
    if CloseSendReady(s1, c) {
      SendReaches(s1, c);
    }
  }

  lemma {:induction false} VisitsReach(s: State, c: ClientNo, ids: seq<RequestId>)
    requires Reachable(s)
    ensures Reachable(Visits(s, c, ids))
    decreases |ids|
  {
    if ids != [] {
      if Visitable(s, c, ids[0]) {
        VisitReaches(s, c, ids[0]);
        VisitsReach(Visit(s, c, ids[0]), c, ids[1..]);
      } else {
        VisitsReach(s, c, ids[1..]);
      }
    }
  }

  ghost function LoopClient(cl: ClaimMachine.Client, todo: set<RequestId>): ClaimMachine.Client
  {
    cl.(mutex := HeldByClose(todo, None))
  }

  lemma EffectKeepsWaiting(s: State, t: State, taken: set<RequestId>, p: Payload)
    requires AllWaiting(s) && Effect(s, t, taken, Some(p))
    ensures AllWaiting(t)
  {}

  lemma VisitEffect(s: State, c: ClientNo, id: RequestId)
    requires Visitable(s, c, id) && AllWaiting(s)
    ensures Effect(s, Visit(s, c, id), {id}, Some(ClosingError))
    ensures Visit(s, c, id).clients == s.clients[c := LoopClient(s.clients[c], s.clients[c].mutex.todo - {id})]
  {
    if id in s.registry {
      VisitClaims(s, c, id);
    } else {
      VisitSkips(s, c, id);
    }
  }

  lemma VisitClaims(s: State, c: ClientNo, id: RequestId)
    requires Visitable(s, c, id) && id in s.registry
    requires var x := s.registry[id]; x in s.requests && s.requests[x].id == id && s.requests[x].channel == []
    ensures Effect(s, Visit(s, c, id), {id}, Some(ClosingError))
    ensures Visit(s, c, id).clients == s.clients[c := LoopClient(s.clients[c], s.clients[c].mutex.todo - {id})]
  {}

  lemma VisitSkips(s: State, c: ClientNo, id: RequestId)
    requires Visitable(s, c, id) && id !in s.registry
    ensures Effect(s, Visit(s, c, id), {id}, Some(ClosingError))
    ensures Visit(s, c, id).clients == s.clients[c := LoopClient(s.clients[c], s.clients[c].mutex.todo - {id})]
  {}

  lemma EffectThenEffect(s: State, t: State, u: State, a: set<RequestId>, b: set<RequestId>, p: Payload)
    requires Effect(s, t, a, Some(p)) && Effect(t, u, b, Some(p)) && a !! b
    ensures Effect(s, u, a + b, Some(p))
  {
    forall x | x in s.requests
      ensures u.requests[x].channel
              == if Registered(s, x) && s.requests[x].id in a + b then [p] else s.requests[x].channel
    {
      assert Registered(t, x) <==> Registered(s, x) && s.requests[x].id !in a;
    }
  }

  // `ids` lists the set `todo`, each ID once.
  ghost predicate Order(ids: seq<RequestId>, todo: set<RequestId>) {
    (forall id :: id in ids <==> id in todo) && (forall i, j | 0 <= i < j < |ids| :: ids[i] != ids[j])
  }

  lemma OrderRest(ids: seq<RequestId>, todo: set<RequestId>)
    requires Order(ids, todo) && ids != []
    ensures ids[0] in todo && Order(ids[1..], todo - {ids[0]})
  {
    forall id
      ensures id in ids[1..] <==> id in todo - {ids[0]}
    {
      assert ids == [ids[0]] + ids[1..];
    }
  }

  lemma {:induction false} VisitsEffect(s: State, c: ClientNo, ids: seq<RequestId>)
    requires AllWaiting(s) && InLoop(s, c) && Order(ids, s.clients[c].mutex.todo)
    ensures Effect(s, Visits(s, c, ids), s.clients[c].mutex.todo, Some(ClosingError))
    ensures Visits(s, c, ids).clients == s.clients[c := LoopClient(s.clients[c], {})]
    decreases |ids|
  {
    var todo := s.clients[c].mutex.todo;
    if ids == [] {
      assert todo == {};
    } else {
      var id := ids[0];
      OrderRest(ids, todo);
      var t := Visit(s, c, id);
      VisitEffect(s, c, id);
      EffectKeepsWaiting(s, t, {id}, ClosingError);
      VisitsEffect(t, c, ids[1..]);
      EffectThenEffect(s, t, Visits(t, c, ids[1..]), {id}, todo - {id}, ClosingError);
      assert {id} + (todo - {id}) == todo;
    }
  }

  lemma CloseEffect(s: State, c: ClientNo, ids: seq<RequestId>)
    requires AllWaiting(s) && CloseStartReady(s, c) && Order(ids, s.clients[c].pending)
    ensures Effect(s, CloseAll(s, c, ids), s.clients[c].pending, Some(ClosingError))
    ensures CloseAll(s, c, ids).clients == s.clients[c := ClaimMachine.Client(false, {}, Free)]
  {
    VisitsEffect(CloseStart(s, c), c, ids);
  }

  lemma CloseReaches(s: State, c: ClientNo, ids: seq<RequestId>)
    requires Reachable(s) && CloseStartReady(s, c)
    ensures Reachable(CloseAll(s, c, ids))
  {
    StartReaches(s, c);
    var t := Visits(CloseStart(s, c), c, ids);
    VisitsReach(CloseStart(s, c), c, ids);
    if CloseEndReady(t, c) {
      EndReaches(t, c);
    }
  }

  lemma StartReaches(s: State, c: ClientNo)
    requires Reachable(s) && CloseStartReady(s, c)
    ensures Reachable(CloseStart(s, c))
  {
    ReachableNext(s, CloseStartStep(c));
  }

  lemma EndReaches(s: State, c: ClientNo)
    requires Reachable(s) && CloseEndReady(s, c)
    ensures Reachable(CloseEnd(s, c))
  {
    ReachableNext(s, CloseEndStep(c));
  }

  // Every set of IDs can be visited in some order.
  lemma {:induction false} SomeOrder(todo: set<RequestId>) returns (ids: seq<RequestId>)
    ensures Order(ids, todo)
  {
    if todo == {} {
      ids := [];
    } else {
      var id :| id in todo;
      ids := SomeOrder(todo - {id});
      ids := [id] + ids;
    }
  }

  // ---------------------------------------------------------------------------------------------
  // The methods carry out these steps
  // ---------------------------------------------------------------------------------------------

  ghost predicate TakenBy(flat: map<nat, Channel>, taken: set<nat>, ch: Channel) {
    exists id :: id in taken && id in flat && flat[id] == ch
  }

  // The channels registered under the IDs in `taken` hold p, the others what they held.
  ghost function Updated(contents: map<RequestNo, seq<Payload>>, chans: ChannelMap, flat: map<nat, Channel>,
                         taken: set<nat>, p: Option<Payload>): map<RequestNo, seq<Payload>>
    requires contents.Keys == chans.Keys
  {
    map r | r in contents :: if p.Some? && TakenBy(flat, taken, chans[r]) then [p.value] else contents[r]
  }

  lemma TakenIff(flat: map<nat, Channel>, contents: map<RequestNo, seq<Payload>>, s: State, chans: ChannelMap,
                 taken: set<RequestId>, x: RequestNo)
    requires AllWaiting(s) && ShowsMaps(flat, contents, s, chans) && x in s.requests
    ensures TakenBy(flat, taken, chans[x]) <==> Registered(s, x) && s.requests[x].id in taken
  {
    forall id | id in flat && flat[id] == chans[x]
      ensures Registered(s, x) && s.requests[x].id == id
    {
      assert s.registry[id] == x;
    }
  }

  lemma MapsAfter(flat: map<nat, Channel>, contents: map<RequestNo, seq<Payload>>, s: State, t: State,
                  chans: ChannelMap, taken: set<RequestId>, p: Option<Payload>)
    requires AllWaiting(s) && ShowsMaps(flat, contents, s, chans) && Effect(s, t, taken, p)
    ensures ShowsMaps(flat - taken, Updated(contents, chans, flat, taken, p), t, chans)
  {
    FlatAfter(flat, s, t, chans, taken);
    forall x | x in s.requests
      ensures Updated(contents, chans, flat, taken, p)[x] == t.requests[x].channel
    {
      ContentsAfter(flat, contents, s, t, chans, taken, p, x);
    }
  }

  lemma ContentsAfter(flat: map<nat, Channel>, contents: map<RequestNo, seq<Payload>>, s: State, t: State,
                      chans: ChannelMap, taken: set<RequestId>, p: Option<Payload>, x: RequestNo)
    requires AllWaiting(s) && ShowsMaps(flat, contents, s, chans) && Effect(s, t, taken, p) && x in s.requests
    ensures Updated(contents, chans, flat, taken, p)[x] == t.requests[x].channel
  {
    TakenIff(flat, contents, s, chans, taken, x);
  }

  lemma FlatAfter(flat: map<nat, Channel>, s: State, t: State, chans: ChannelMap, taken: set<RequestId>)
    requires t.registry == s.registry - taken && flat.Keys == s.registry.Keys
    requires forall id | id in s.registry :: s.registry[id] in chans && flat[id] == chans[s.registry[id]]
    ensures (flat - taken).Keys == t.registry.Keys
    ensures forall id | id in t.registry :: t.registry[id] in chans && (flat - taken)[id] == chans[t.registry[id]]
  {}

  method DeliverTo(registry: Requests, id: nat, answer: Payload, ghost chans: ChannelMap) returns (freed: bool)
    requires Ready(registry) && Injective(chans) && Channels(registry) <= chans.Values
    modifies registry.shards, chans.Values
    ensures registry.ShardsOk() && registry.Flat() == old(registry.Flat()) - {id}
    ensures Contents(chans) == Updated(old(Contents(chans)), chans, old(registry.Flat()), {id}, Some(answer))
    ensures freed <==> id !in old(registry.Flat()) && answer.Response?
  {
    freed := BaseClient.Deliver(registry, id, answer);
  }

  // The callback's steps: CallbackTake and, if it claims the request, CallbackSend.
  ghost function CallbackAll(s: State, r: RequestNo): State
    requires CallbackTakeReady(s, r)
  {
    var s1 := CallbackTake(s, r);
    if CallbackSendReady(s1, r) then CallbackSend(s1, r) else s1
  }

  lemma CallbackReaches(s: State, r: RequestNo)
    requires Reachable(s) && CallbackTakeReady(s, r)
    ensures Reachable(CallbackAll(s, r))
  {
    ReachableNext(s, CallbackTakeStep(r));
    if CallbackSendReady(CallbackTake(s, r), r) {
      CallbackSendReaches(CallbackTake(s, r), r);
    }
  }

  lemma CallbackSendReaches(s: State, r: RequestNo)
    requires Reachable(s) && CallbackSendReady(s, r)
    ensures Reachable(CallbackSend(s, r))
  {
    ReachableNext(s, CallbackSendStep(r));
  }

  lemma CallbackEffect(s: State, r: RequestNo)
    requires AllWaiting(s) && CallbackTakeReady(s, r)
    ensures Effect(s, CallbackAll(s, r), {s.requests[r].id}, Some(s.requests[r].core.answer))
    ensures CallbackAll(s, r).clients == s.clients
    ensures CallbackAll(s, r).freed != s.freed <==>
              s.requests[r].id !in s.registry && s.requests[r].core.answer.Response?
  {
    if s.requests[r].id in s.registry {
      ClaimedEffect(s, r);
    } else {
      LostEffect(s, r);
    }
  }

  method Callback(registry: Requests, id: nat, answer: Payload, ghost s: State, ghost r: RequestNo,
                  ghost chans: ChannelMap)
    returns (freed: bool)
    requires Reachable(s) && Shows(registry, s, chans) && CallbackTakeReady(s, r)
    requires id == s.requests[r].id && answer == s.requests[r].core.answer
    modifies registry.shards, chans.Values
    ensures Shows(registry, CallbackAll(s, r), chans)
    ensures freed <==> CallbackAll(s, r).freed != s.freed
  {
    ReachableAllWaiting(s);
    CallbackEffect(s, r);
    ShowsReady(registry, s, chans);
    MapsAfter(registry.Flat(), Contents(chans), s, CallbackAll(s, r), chans, {id}, Some(answer));
    freed := DeliverTo(registry, id, answer, chans);
  }

  // The cancelled caller's steps: Untrack, then CancelTake.
  ghost function CancelAll(s: State, r: RequestNo): State
    requires UntrackReady(s, r)
  {
    CancelTake(Untrack(s, r), r)
  }

  lemma CancelReaches(s: State, r: RequestNo)
    requires Reachable(s) && UntrackReady(s, r)
    ensures Reachable(CancelAll(s, r))
  {
    UntrackReaches(s, r);
    ReachableNext(Untrack(s, r), CancelTakeStep(r));
  }

  lemma UntrackReaches(s: State, r: RequestNo)
    requires Reachable(s) && UntrackReady(s, r)
    ensures Reachable(Untrack(s, r))
  {
    ReachableNext(s, UntrackStep(r));
  }

  lemma UntrackingNoCleaner(s: State, r: RequestNo)
    requires Reachable(s) && UntrackReady(s, r)
    ensures s.requests[r].cleaner.NoCleaner?
  {
    ViewHolds(s, r);
  }

  lemma ReachableReady(registry: Requests, s: State, chans: ChannelMap)
    requires Reachable(s) && Shows(registry, s, chans)
    ensures Ready(registry) && Channels(registry) <= chans.Values
  {
    ReachableAllWaiting(s);
    ShowsReady(registry, s, chans);
  }

  lemma CancelShown(flat: map<nat, Channel>, contents: map<RequestNo, seq<Payload>>, s: State, r: RequestNo,
                    chans: ChannelMap)
    requires Reachable(s) && ShowsMaps(flat, contents, s, chans) && UntrackReady(s, r)
    ensures ShowsMaps(flat - {s.requests[r].id}, contents, CancelAll(s, r), chans)
    ensures CancelAll(s, r).requests[r].cleaner.Discarding? <==> s.requests[r].id !in flat
    ensures var c := s.requests[r].kind.client;
            && c in CancelAll(s, r).clients
            && CancelAll(s, r).clients[c] == s.clients[c].(pending := s.clients[c].pending - {s.requests[r].id})
  {
    var id := s.requests[r].id;
    ReachableAllWaiting(s);
    UntrackingNoCleaner(s, r);
    CancelEffect(s, r);
    MapsAfter(flat, contents, s, CancelAll(s, r), chans, {id}, None);
    assert Updated(contents, chans, flat, {id}, None) == contents;
  }

  method CancelTo(client: BaseClient.Client, id: nat, ghost chans: ChannelMap) returns (discard: bool)
    requires Ready(client.registry)
    modifies client`pending, client.registry.shards
    ensures client.registry.ShardsOk() && client.registry.Flat() == old(client.registry.Flat()) - {id}
    ensures Contents(chans) == old(Contents(chans))
    ensures client.PendingIds() == old(client.PendingIds()) - {id}
    ensures client.pending.Some? == old(client.pending).Some?
    ensures discard <==> id !in old(client.registry.Flat())
  {
    discard := client.CancelWait(id);
  }

  method CancelWait(client: BaseClient.Client, id: nat, ghost s: State, ghost r: RequestNo, ghost chans: ChannelMap)
    returns (discard: bool)
    requires Reachable(s) && Shows(client.registry, s, chans) && UntrackReady(s, r) && id == s.requests[r].id
    requires ShowsClient(client, s, s.requests[r].kind.client)
    modifies client`pending, client.registry.shards
    ensures Shows(client.registry, CancelAll(s, r), chans)
    ensures ShowsClient(client, CancelAll(s, r), s.requests[r].kind.client)
    ensures discard <==> CancelAll(s, r).requests[r].cleaner.Discarding?
  {
    ReachableReady(client.registry, s, chans);
    CancelShown(client.registry.Flat(), Contents(chans), s, r, chans);
    discard := CancelShows(client, id, CancelAll(s, r), s.requests[r].kind.client, chans);
  }

  method CancelShows(client: BaseClient.Client, id: nat, ghost t: State, ghost c: ClientNo, ghost chans: ChannelMap)
    returns (discard: bool)
    requires Ready(client.registry) && ShowsMaps(client.registry.Flat() - {id}, Contents(chans), t, chans)
    requires c in t.clients && client.coreClient == t.clients[c].open
    requires t.clients[c].pending == client.PendingIds() - {id}
    requires client.coreClient ==> client.pending.Some?
    modifies client`pending, client.registry.shards
    ensures Shows(client.registry, t, chans) && ShowsClient(client, t, c)
    ensures discard <==> id !in old(client.registry.Flat())
  {
    discard := CancelTo(client, id, chans);
  }

  lemma CloseShown(flat: map<nat, Channel>, contents: map<RequestNo, seq<Payload>>, s: State, c: ClientNo,
                   ids: seq<RequestId>, chans: ChannelMap)
    requires Reachable(s) && ShowsMaps(flat, contents, s, chans)
    requires CloseStartReady(s, c) && Order(ids, s.clients[c].pending)
    ensures var pending := s.clients[c].pending;
            ShowsMaps(flat - pending, Updated(contents, chans, flat, pending, Some(ClosingError)),
                      CloseAll(s, c, ids), chans)
    ensures c in CloseAll(s, c, ids).clients && CloseAll(s, c, ids).clients[c] == ClaimMachine.Client(false, {}, Free)
  {
    ReachableAllWaiting(s);
    CloseEffect(s, c, ids);
    MapsAfter(flat, contents, s, CloseAll(s, c, ids), chans, s.clients[c].pending, Some(ClosingError));
  }

  method CloseTo(client: BaseClient.Client, ghost chans: ChannelMap)
    requires Ready(client.registry) && Injective(chans) && Channels(client.registry) <= chans.Values
    requires client.coreClient
    modifies client, client.registry.shards, chans.Values
    ensures !client.coreClient && client.pending == None && client.registry.ShardsOk()
    ensures client.registry.Flat() == old(client.registry.Flat()) - old(client.PendingIds())
    ensures Contents(chans)
         == Updated(old(Contents(chans)), chans, old(client.registry.Flat()), old(client.PendingIds()),
                    Some(ClosingError))
  {
    client.Close();
  }

  method CloseAgain(client: BaseClient.Client, ghost chans: ChannelMap)
    requires Ready(client.registry) && !client.coreClient && Channels(client.registry) <= chans.Values
    modifies client, client.registry.shards, chans.Values
    ensures client.registry.ShardsOk() && client.registry.Flat() == old(client.registry.Flat())
    ensures Contents(chans) == old(Contents(chans))
    ensures !client.coreClient && client.pending == old(client.pending)
  {
    client.Close();
  }

  /**
    Close on an open client is CloseStart, one visit per pending ID and CloseEnd, and the order of the visits
    does not matter; on a closed client it is no step at all.
   */
  method Close(client: BaseClient.Client, ghost ids: seq<RequestId>, ghost s: State, ghost c: ClientNo,
               ghost chans: ChannelMap)
    requires Reachable(s) && Shows(client.registry, s, chans) && ShowsClient(client, s, c)
    requires s.clients[c].mutex.Free? && Order(ids, s.clients[c].pending)
    modifies client, client.registry.shards, chans.Values
    ensures var t := if s.clients[c].open then CloseAll(s, c, ids) else s;
            Shows(client.registry, t, chans) && ShowsClient(client, t, c)
  {
    ReachableReady(client.registry, s, chans);
    if client.coreClient {
      CloseShown(client.registry.Flat(), Contents(chans), s, c, ids, chans);
      CloseTo(client, chans);
    } else {
      CloseAgain(client, chans);
    }
  }

  lemma InjectiveAdd(chans: ChannelMap, r: RequestNo, ch: Channel)
    requires Injective(chans) && r !in chans && ch !in chans.Values
    ensures Injective(chans[r := ch])
  {
    assert forall x | x in chans :: chans[x] in chans.Values;
  }

  lemma AddShown(flat: map<nat, Channel>, contents: map<RequestNo, seq<Payload>>, s: State, t: State, r: RequestNo,
                 q: Request, ch: Channel, chans: ChannelMap)
    requires ShowsMaps(flat, contents, s, chans) && r !in s.requests && q.id !in s.registry && q.channel == []
    requires t.registry == s.registry[q.id := r] && t.requests == s.requests[r := q] && ch !in chans.Values
    ensures ShowsMaps(flat[q.id := ch], contents[r := []], t, chans[r := ch])
  {
    InjectiveAdd(chans, r, ch);
  }

  lemma BeginShown(flat: map<nat, Channel>, contents: map<RequestNo, seq<Payload>>, s: State, r: RequestNo,
                   kind: Kind, id: RequestId, ch: Channel, chans: ChannelMap)
    requires ShowsMaps(flat, contents, s, chans) && BeginReady(s, r, kind, id) && ch !in chans.Values
    ensures ShowsMaps(flat[id := ch], contents[r := []], Begin(s, r, kind, id), chans[r := ch])
  {
    var q := Request(kind, id, Submitting, NotSubmitted, NoCleaner, []);
    AddShown(flat, contents, s, Begin(s, r, kind, id), r, q, ch, chans);
  }

  lemma BeginClientShown(s: State, r: RequestNo, c: ClientNo, id: RequestId)
    requires BeginReady(s, r, ClientCommand(c), id)
    ensures var t := Begin(s, r, ClientCommand(c), id);
            c in t.clients && t.clients[c].open && t.clients[c].pending == s.clients[c].pending + {id}
  {}

  method BeginTo(client: BaseClient.Client, ch: Channel) returns (id: nat)
    requires client.registry.Valid() && Ready(client.registry) && client.pending.Some?
    requires |client.registry.Flat()| < R.WordSize(client.registry.wide) - 1
    requires ch.buffer == [] && ch !in Channels(client.registry)
    modifies client`pending, client.registry`nextRequestId, client.registry.shards
    ensures id != 0 && id !in old(client.registry.Flat())
    ensures client.registry.ShardsOk() && client.registry.Flat() == old(client.registry.Flat())[id := ch]
    ensures client.pending == Some(old(client.PendingIds()) + {id})
  {
    id := client.BeginRequest(ch);
  }

  method BeginKeeping(client: BaseClient.Client, ch: Channel, ghost chans: ChannelMap) returns (id: nat)
    requires client.registry.Valid() && Ready(client.registry) && client.pending.Some?
    requires |client.registry.Flat()| < R.WordSize(client.registry.wide) - 1
    requires ch.buffer == [] && ch !in Channels(client.registry)
    modifies client`pending, client.registry`nextRequestId, client.registry.shards
    ensures id != 0 && id !in old(client.registry.Flat())
    ensures client.registry.ShardsOk() && client.registry.Flat() == old(client.registry.Flat())[id := ch]
    ensures forall r | r in chans :: chans[r].buffer == old(chans[r].buffer)
    ensures client.pending == Some(old(client.PendingIds()) + {id})
  {
    id := BeginTo(client, ch);
  }

  lemma ContentsAre(chans: ChannelMap, contents: map<RequestNo, seq<Payload>>)
    requires contents.Keys == chans.Keys && forall r | r in chans :: chans[r].buffer == contents[r]
    ensures Contents(chans) == contents
  {}

  lemma ContentsAdd(chans: ChannelMap, r: RequestNo, ch: Channel)
    ensures Contents(chans[r := ch]) == Contents(chans)[r := ch.buffer]
  {}

  lemma BeginReadyIff(s: State, r: RequestNo, c: ClientNo, id: RequestId)
    requires c in s.clients && s.clients[c].open && s.clients[c].mutex.Free? && r !in s.requests
    requires id != 0 && id !in s.registry
    ensures BeginReady(s, r, ClientCommand(c), id) <==>
              forall q | q in s.requests && s.requests[q].id == id :: !Busy(s.requests[q])
  {}

  lemma BeginConcluded(client: BaseClient.Client, flat: map<nat, Channel>, contents: map<RequestNo, seq<Payload>>,
                       s: State, r: RequestNo, c: ClientNo, id: RequestId, ch: Channel, chans: ChannelMap)
    requires ShowsMaps(flat, contents, s, chans) && BeginReady(s, r, ClientCommand(c), id) && ch !in chans.Values
    requires client.registry.ShardsOk() && client.registry.Flat() == flat[id := ch]
    requires Contents(chans) == contents && ch.buffer == []
    requires client.coreClient && client.pending == Some(s.clients[c].pending + {id})
    ensures var t := Begin(s, r, ClientCommand(c), id);
            Shows(client.registry, t, chans[r := ch]) && ShowsClient(client, t, c)
  {
    ContentsAdd(chans, r, ch);
    BeginShown(flat, contents, s, r, ClientCommand(c), id, ch, chans);
    BeginClientShown(s, r, c, id);
  }

  /**
    Beginning a command is the machine's Begin, provided that no unfinished call still knows the ID the counter
    came round to: what the machine assumes of the counter, and all it assumes.
   */
  method BeginRequest(client: BaseClient.Client, ch: Channel, ghost s: State, ghost r: RequestNo, ghost c: ClientNo,
                      ghost chans: ChannelMap)
    returns (id: nat)
    requires Reachable(s) && Shows(client.registry, s, chans) && ShowsClient(client, s, c)
    requires s.clients[c].open && s.clients[c].mutex.Free? && r !in s.requests
    requires client.registry.Valid() && |client.registry.Flat()| < R.WordSize(client.registry.wide) - 1
    requires ch.buffer == [] && ch !in chans.Values
    modifies client`pending, client.registry`nextRequestId, client.registry.shards
    ensures BeginReady(s, r, ClientCommand(c), id) <==>
              forall q | q in s.requests && s.requests[q].id == id :: !Busy(s.requests[q])
    ensures BeginReady(s, r, ClientCommand(c), id) ==>
              var t := Begin(s, r, ClientCommand(c), id);
              Shows(client.registry, t, chans[r := ch]) && ShowsClient(client, t, c)
  {
    ReachableReady(client.registry, s, chans);
    ghost var flat, contents := client.registry.Flat(), Contents(chans);
    id := BeginKeeping(client, ch, chans);
    ContentsAre(chans, contents);
    BeginReadyIff(s, r, c, id);
    if BeginReady(s, r, ClientCommand(c), id) {
      BeginConcluded(client, flat, contents, s, r, c, id, ch, chans);
    }
  }
}
