/**
  What every step of the claim protocol keeps.

  The invariant is mostly local: a `View` collects what matters to one request, and `ViewOk` judges it.
  Its heart is `Units`: each request has exactly one unit of responsibility for its channel. The unit starts
  in the registry, whoever claims the ID carries it, a send puts it into the channel and a receive takes it
  out. Two more balances, `Copies` for the core's response and `Grants` for a granted scope, follow it.
 */
module ClaimInvariant {
  import opened Wrappers
  import opened ClaimMachine

  // One request and how the shared state refers to it.
  datatype View = View(
    q: Request,
    registered: bool,       // the registry maps its ID to it
    owns: bool,             // it is the last request that was given its ID
    pending: bool,          // owns, and its ID is in its client's pending set
    open: bool,             // its client is open
    closing: bool,          // Close is inside its loop
    submits: bool,          // client.mu is held for its submission
    closeTodo: bool,        // registered, and Close has still to visit its ID
    closeSends: bool,       // Close has claimed it and not sent yet
    freed: nat,
    released: nat,
    claims: nat,
    sends: nat)

  ghost predicate Registered(s: State, r: RequestNo)
    requires r in s.requests
  {
    s.requests[r].id in s.registry && s.registry[s.requests[r].id] == r
  }

  ghost function ViewOf(s: State, r: RequestNo): View
    requires r in s.requests
  {
    var q := s.requests[r];
    var registered := Registered(s, r);
    var owns := q.id in s.owner && s.owner[q.id] == r;
    var hasClient := q.kind.ClientCommand? && q.kind.client in s.clients;
    var cl := if hasClient then s.clients[q.kind.client] else Client(true, {}, Free);
    View(q, registered, owns,
         hasClient && owns && q.id in cl.pending,
         cl.open,
         cl.mutex.HeldByClose?,
         cl.mutex == HeldBySubmit(r),
         cl.mutex.HeldByClose? && registered && q.id in cl.mutex.todo,
         cl.mutex.HeldByClose? && cl.mutex.sending == Some(r),
         s.freed[r], s.released[r], s.claims[r], s.sends[r])
  }

  function B(b: bool): nat {
    if b then 1 else 0
  }

  predicate CallerTook(caller: Caller) {
    || caller.Received?
    || caller.ScopeRead?
    || (caller.Returned? && (caller.outcome.Result? || caller.outcome.Parsed? || caller.outcome.Scope?))
  }

  predicate CleanerTook(cleaner: Cleaner) {
    cleaner.LateHolding? || cleaner.LateFreeing? || cleaner.CleanerDone?
  }

  predicate CallerClaimed(q: Request) {
    && q.caller.Returned?
    && (q.caller.outcome.CallRefused? || (q.caller.outcome.Canceled? && q.cleaner.NoCleaner?))
  }

  function Units(v: View): nat {
    B(v.registered) + B(v.q.core.Sending?) + B(v.closeSends) + |v.q.channel|
    + B(CallerTook(v.q.caller)) + B(CleanerTook(v.q.cleaner)) + B(CallerClaimed(v.q))
  }

  // The core has answered `r` with a response.
  predicate Produced(q: Request, r: RequestNo) {
    (q.core.Claiming? || q.core.Sending? || q.core.Finished?) && q.core.answer == Response(r)
  }

  predicate CoreHolds(q: Request) {
    (q.core.Claiming? || q.core.Sending?) && q.core.answer.Response?
  }

  predicate ChannelHolds(q: Request) {
    |q.channel| > 0 && q.channel[0].Response?
  }

  predicate CallerHolds(q: Request) {
    || (q.caller.Received? && q.caller.payload.Response?)
    || q.caller.ScopeRead?
    || (q.caller.Returned? && q.caller.outcome.Result? && q.caller.outcome.payload.Response?)
  }

  predicate CleanerHolds(q: Request) {
    (q.cleaner.LateHolding? && q.cleaner.payload.Response?) || q.cleaner.LateFreeing?
  }

  // Copies of the core's response to the request, freed ones included.
  function Copies(v: View): nat {
    B(CoreHolds(v.q)) + B(ChannelHolds(v.q)) + B(CallerHolds(v.q)) + B(CleanerHolds(v.q)) + v.freed
  }

  predicate HoldsScope(q: Request) {
    q.caller.ScopeRead? || (q.caller.Returned? && q.caller.outcome.Scope? && !q.caller.outcome.closed)
  }

  // The granted scope is still only a number inside a response nobody has read.
  predicate Unread(q: Request) {
    || CoreHolds(q)
    || ChannelHolds(q)
    || (q.caller.Received? && q.caller.payload.Response?)
    || (q.cleaner.LateHolding? && q.cleaner.payload.Response?)
  }

  function Grants(v: View): nat {
    B(Unread(v.q)) + B(HoldsScope(v.q)) + v.released
  }

  predicate Own(p: Payload, r: RequestNo) {
    p.Response? ==> p.origin == r
  }

  // p is what the callback delivered, or the error with which Close failed a command of its client.
  predicate Meant(v: View, p: Payload) {
    || (v.q.core.Finished? && p == v.q.core.answer)
    || (p == ClosingError && v.q.kind.ClientCommand? && !v.open)
  }

  predicate GrantMeant(v: View, grant: RequestNo, r: RequestNo) {
    grant == r && v.q.core == Finished(Response(r))
  }

  // Every payload and every scope around request `r` is its own, and the one meant for it.
  predicate PayloadsFit(v: View, r: RequestNo) {
    && (v.q.core.Claiming? || v.q.core.Finished? ==> Own(v.q.core.answer, r))
    && (v.q.core.Sending? ==> Own(v.q.core.answer, r) && v.q.core.target == r)
    && (v.q.core.Claiming? || v.q.core.Sending? || v.q.core.Finished? ==> v.q.core.answer != ClosingError)
    && (|v.q.channel| > 0 ==> Meant(v, v.q.channel[0]))
    && (v.q.caller.Received? ==> Meant(v, v.q.caller.payload))
    && (v.q.caller.ScopeRead? ==> GrantMeant(v, v.q.caller.grant, r))
    && (v.q.caller.Returned? && v.q.caller.outcome.Result? ==> Meant(v, v.q.caller.outcome.payload))
    && (v.q.caller.Returned? && v.q.caller.outcome.Parsed? ==> Meant(v, v.q.caller.outcome.payload))
    && (v.q.caller.Returned? && v.q.caller.outcome.Scope? ==> GrantMeant(v, v.q.caller.outcome.grant, r))
    && (v.q.cleaner.LateHolding? ==> Meant(v, v.q.cleaner.payload))
    && (v.q.cleaner.LateFreeing? ==> GrantMeant(v, v.q.cleaner.grant, r))
  }

  predicate Late(cleaner: Cleaner) {
    cleaner.LateWaiting? || cleaner.LateHolding? || cleaner.LateFreeing?
  }

  predicate WasCanceled(caller: Caller) {
    caller.Returned? && caller.outcome.Canceled?
  }

  // How the phases of caller, core and cleaner fit together.
  predicate PhasesFit(q: Request) {
    && (q.caller.Submitting? <==> q.core.NotSubmitted?)
    && (q.core.Refused? <==> q.caller.RefusedCall? || (q.caller.Returned? && q.caller.outcome.CallRefused?))
    && (q.core.Refused? ==> !q.kind.ClientCommand?)
    && (q.cleaner.NoCleaner? || WasCanceled(q.caller))
    && (q.kind.ScopeAcquire? && WasCanceled(q.caller) ==> !q.cleaner.NoCleaner?)
    && (q.cleaner.Discarding? ==> !q.kind.ScopeAcquire?)
    && (Late(q.cleaner) ==> q.kind.ScopeAcquire?)
    && (q.caller.Untracking? ==> q.kind.ClientCommand?)
    && (q.caller.CancelClaiming? ==> !q.kind.ScopeAcquire?)
    && (q.caller.ScopeRead? ==> q.kind.ScopeAcquire?)
    && (q.caller.Returned? && q.caller.outcome.Scope? ==> q.kind.ScopeAcquire?)
    && (q.caller.Returned? && q.caller.outcome.Parsed? ==> q.kind.ScopeCommand?)
    && (q.caller.Returned? && q.caller.outcome.Result? ==> !q.kind.ScopeCommand?)
    && (q.caller.Returned? && q.caller.outcome.Result? && q.kind.ScopeAcquire? ==>
          !q.caller.outcome.payload.Response?)
  }

  // In these phases the caller's ID is in the client's pending set.
  predicate Tracked(caller: Caller) {
    caller.Submitting? || caller.Submitted? || caller.Waiting? || caller.Untracking? || caller.Received?
  }

  predicate ClientLink(v: View) {
    && (v.pending ==> Tracked(v.q.caller))
    && (v.closing ==> !v.open)
    && (v.closeSends ==> v.closing && v.q.kind.ClientCommand?)
    && (v.q.kind.ClientCommand? ==>
          && (v.submits <==> v.q.caller.Submitting? || v.q.caller.Submitted?)
          && (Tracked(v.q.caller) && (v.open || v.closing) ==> v.pending)
          && (v.registered && !v.open ==> v.q.caller.CancelClaiming? || v.closeTodo))
  }

  predicate ViewOk(v: View, r: RequestNo) {
    && Units(v) == 1
    && PayloadsFit(v, r)
    && PhasesFit(v.q)
    && ClientLink(v)
    && (v.registered ==> Busy(v.q) && !v.q.core.Sending? && !v.q.core.Finished?)
    && (v.registered && v.q.caller.Returned? ==> v.q.kind.ScopeAcquire?)
    && (Busy(v.q) ==> v.owns)
    && (v.q.core.NotSubmitted? || v.q.caller.RefusedCall? ==> v.registered)
    && (v.q.kind.ScopeAcquire? && (v.q.core.Outstanding? || v.q.core.Claiming?) ==>
          v.registered)
    && Copies(v) == B(Produced(v.q, r))
    && Grants(v) == (if v.q.kind.ScopeAcquire? then B(Produced(v.q, r)) else B(Unread(v.q)))
    && v.claims + B(v.registered) == 1
    && v.sends + B(v.registered) + B(v.q.core.Sending?) + B(v.closeSends) + B(CallerClaimed(v.q)) == 1
  }

  ghost predicate RegistryOk(s: State) {
    forall id | id in s.registry ::
      s.registry[id] in s.requests && s.requests[s.registry[id]].id == id
  }

  ghost predicate PendingOk(s: State, c: ClientNo)
    requires c in s.clients
  {
    forall id | id in s.clients[c].pending ::
      && id in s.owner
      && s.owner[id] in s.requests
      && s.requests[s.owner[id]].id == id
      && s.requests[s.owner[id]].kind == ClientCommand(c)
  }

  ghost predicate MutexOk(s: State, c: ClientNo)
    requires c in s.clients
  {
    var cl := s.clients[c];
    match cl.mutex
    case Free => !cl.open ==> cl.pending == {}
    case HeldBySubmit(r) =>
      cl.open && r in s.requests && s.requests[r].kind == ClientCommand(c)
    case HeldByClose(todo, sending) =>
      && !cl.open
      && todo <= cl.pending
      && (forall id | id in cl.pending && id !in todo :: id !in s.registry)
      && (sending.Some? ==>
            && sending.value in s.requests
            && s.requests[sending.value].kind == ClientCommand(c)
            && s.requests[sending.value].id !in todo)
  }

  ghost predicate HistoryOk(s: State) {
    && (forall r | r in s.freed :: r in s.requests)
    && (forall r | r in s.released :: r in s.requests)
    && (forall r | r in s.claims :: r in s.requests)
    && (forall r | r in s.sends :: r in s.requests)
  }

  ghost predicate SharedOk(s: State) {
    && RegistryOk(s)
    && (forall c | c in s.clients :: PendingOk(s, c) && MutexOk(s, c))
    && (forall r | r in s.requests && s.requests[r].kind.ClientCommand? :: s.requests[r].kind.client in s.clients)
    && HistoryOk(s)
  }

  ghost predicate Inv(s: State) {
    && (forall r | r in s.requests :: ViewOk(ViewOf(s, r), r))
    && SharedOk(s)
  }

  lemma InitialOk()
    ensures Inv(Initial)
  {}

  // ---------------------------------------------------------------------------------------------
  // Two shapes most steps have
  // ---------------------------------------------------------------------------------------------

  // No request appears and none changes its kind.
  ghost predicate KindsKept(s: State, s': State) {
    forall r | r in s'.requests :: r in s.requests && s'.requests[r].kind == s.requests[r].kind
  }

  // `s'` differs from `s` in request `r`, which keeps its kind and ID, and in the history of `r`.
  ghost predicate OnlyRequest(s: State, s': State, r: RequestNo) {
    && r in s.requests && r in s'.requests
    && s'.requests == s.requests[r := s'.requests[r]]
    && s'.requests[r].kind == s.requests[r].kind
    && s'.requests[r].id == s.requests[r].id
    && s'.registry == s.registry && s'.clients == s.clients && s'.owner == s.owner
    && HistoryOnly(s, s', r)
  }

  ghost predicate HistoryOnly(s: State, s': State, r: RequestNo) {
    && (forall x | x != r :: s'.freed[x] == s.freed[x])
    && (forall x | x != r :: s'.released[x] == s.released[x])
    && (forall x | x != r :: s'.claims[x] == s.claims[x])
    && (forall x | x != r :: s'.sends[x] == s.sends[x])
  }

  lemma OnlyRequestFrame(s: State, s': State, r: RequestNo, x: RequestNo)
    requires OnlyRequest(s, s', r) && x in s'.requests && x != r
    ensures ViewOf(s', x) == ViewOf(s, x)
  {}

  lemma OnlyRequestShared(s: State, s': State, r: RequestNo)
    requires OnlyRequest(s, s', r) && SharedOk(s)
    ensures SharedOk(s')
  {
    forall c | c in s'.clients ensures PendingOk(s', c) && MutexOk(s', c) {
      assert PendingOk(s, c) && MutexOk(s, c);
    }
  }

  lemma OnlyRequestViews(s: State, s': State, r: RequestNo)
    requires OnlyRequest(s, s', r)
    ensures forall x | x in s'.requests && x != r :: ViewOf(s', x) == ViewOf(s, x)
    ensures KindsKept(s, s')
  {
    forall x | x in s'.requests && x != r ensures ViewOf(s', x) == ViewOf(s, x) {
      OnlyRequestFrame(s, s', r, x);
    }
  }

  // A step that changes request `r` and its own history counters, nothing shared.
  lemma LocalStep(s: State, s': State, r: RequestNo)
    requires Inv(s) && OnlyRequest(s, s', r)
    requires ViewOk(ViewOf(s', r), r)
    ensures Inv(s') && KindsKept(s, s')
  {
    OnlyRequestViews(s, s', r);
    OnlyRequestShared(s, s', r);
  }

  // A step of request `r` that also takes its ID out of the registry.
  ghost predicate OnlyClaim(s: State, s': State, r: RequestNo) {
    && r in s.requests && r in s'.requests && Registered(s, r)
    && s'.requests == s.requests[r := s'.requests[r]]
    && s'.requests[r].kind == s.requests[r].kind
    && s'.requests[r].id == s.requests[r].id
    && s'.registry == s.registry - {s.requests[r].id}
    && s'.clients == s.clients && s'.owner == s.owner
    && HistoryOnly(s, s', r)
  }

  lemma OnlyClaimFrame(s: State, s': State, r: RequestNo, x: RequestNo)
    requires OnlyClaim(s, s', r) && x in s'.requests && x != r
    ensures ViewOf(s', x) == ViewOf(s, x)
  {
    assert Registered(s', x) == Registered(s, x);
  }

  lemma OnlyClaimShared(s: State, s': State, r: RequestNo)
    requires OnlyClaim(s, s', r) && SharedOk(s)
    ensures SharedOk(s')
  {
    forall c | c in s'.clients ensures PendingOk(s', c) && MutexOk(s', c) {
      assert PendingOk(s, c) && MutexOk(s, c);
    }
  }

  lemma OnlyClaimViews(s: State, s': State, r: RequestNo)
    requires OnlyClaim(s, s', r)
    ensures forall x | x in s'.requests && x != r :: ViewOf(s', x) == ViewOf(s, x)
    ensures KindsKept(s, s')
  {
    forall x | x in s'.requests && x != r ensures ViewOf(s', x) == ViewOf(s, x) {
      OnlyClaimFrame(s, s', r, x);
    }
  }

  lemma ClaimStep(s: State, s': State, r: RequestNo)
    requires Inv(s) && OnlyClaim(s, s', r)
    requires ViewOk(ViewOf(s', r), r)
    ensures Inv(s') && KindsKept(s, s')
  {
    OnlyClaimViews(s, s', r);
    OnlyClaimShared(s, s', r);
  }

  // A busy request is the only one its ID can lead to.
  lemma BusyFound(s: State, r: RequestNo)
    requires Inv(s) && r in s.requests && Busy(s.requests[r])
    ensures s.requests[r].id in s.registry ==> Registered(s, r)
  {
    var id := s.requests[r].id;
    if id in s.registry {
      var t := s.registry[id];
      assert Registered(s, t);
      assert ViewOk(ViewOf(s, t), t) && ViewOk(ViewOf(s, r), r);
    }
  }

  // ---------------------------------------------------------------------------------------------
  // The steps
  // ---------------------------------------------------------------------------------------------

  lemma AcceptLocal(s: State, r: RequestNo)
    requires SubmitReady(s, r) && ViewOk(ViewOf(s, r), r)
    ensures OnlyRequest(s, Accept(s, r), r) && ViewOk(ViewOf(Accept(s, r), r), r)
  {}

  lemma RefuseLocal(s: State, r: RequestNo)
    requires RefuseReady(s, r) && ViewOk(ViewOf(s, r), r)
    ensures OnlyRequest(s, Refuse(s, r), r) && ViewOk(ViewOf(Refuse(s, r), r), r)
  {}

  lemma AnswerLocal(s: State, r: RequestNo, p: Payload)
    requires AnswerReady(s, r, p) && ViewOk(ViewOf(s, r), r)
    ensures OnlyRequest(s, Answer(s, r, p), r) && ViewOk(ViewOf(Answer(s, r, p), r), r)
  {}

  lemma PutOnly(s: State, r: RequestNo, q: Request)
    requires r in s.requests && q.kind == s.requests[r].kind && q.id == s.requests[r].id
    ensures OnlyRequest(s, Put(s, r, q), r) && ViewOf(Put(s, r, q), r) == ViewOf(s, r).(q := q)
  {}

  lemma CancelCommandView(v: View, r: RequestNo)
    requires ViewOk(v, r) && v.q.caller.Waiting? && v.q.kind.ClientCommand?
    ensures ViewOk(v.(q := v.q.(caller := Untracking)), r)
  {}

  lemma CancelScopeView(v: View, r: RequestNo)
    requires ViewOk(v, r) && v.q.caller.Waiting? && v.q.kind.ScopeCommand? && !v.pending
    ensures ViewOk(v.(q := v.q.(caller := CancelClaiming)), r)
  {}

  lemma CancelAcquireView(v: View, r: RequestNo)
    requires ViewOk(v, r) && v.q.caller.Waiting? && v.q.kind.ScopeAcquire? && !v.pending
    ensures ViewOk(v.(q := v.q.(caller := Returned(Canceled), cleaner := LateWaiting)), r)
  {}

  lemma CancelLocal(s: State, r: RequestNo)
    requires CancelReady(s, r) && ViewOk(ViewOf(s, r), r)
    ensures OnlyRequest(s, Cancel(s, r), r) && ViewOk(ViewOf(Cancel(s, r), r), r)
  {
    PutOnly(s, r, Cancel(s, r).requests[r]);
    match s.requests[r].kind
    case ClientCommand(_) => CancelCommandView(ViewOf(s, r), r);
    case ScopeCommand => CancelScopeView(ViewOf(s, r), r);
    case ScopeAcquire => CancelAcquireView(ViewOf(s, r), r);
  }

  lemma ReceiveLocal(s: State, r: RequestNo)
    requires ReceiveReady(s, r) && ViewOk(ViewOf(s, r), r)
    ensures OnlyRequest(s, Receive(s, r), r) && ViewOk(ViewOf(Receive(s, r), r), r)
  {}

  lemma FreeGrantLocal(s: State, r: RequestNo)
    requires FreeGrantReady(s, r) && ViewOk(ViewOf(s, r), r)
    ensures OnlyRequest(s, FreeGrant(s, r), r) && ViewOk(ViewOf(FreeGrant(s, r), r), r)
  {}

  lemma CloseScopeOnly(s: State, r: RequestNo)
    requires CloseScopeReady(s, r) && s.requests[r].caller.outcome == Scope(r, false)
    ensures OnlyRequest(s, CloseScope(s, r), r)
    ensures var v := ViewOf(s, r);
            ViewOf(CloseScope(s, r), r) == v.(q := v.q.(caller := Returned(Scope(r, true))), released := v.released + 1)
  {}

  lemma ReleasedView(v: View, r: RequestNo)
    requires ViewOk(v, r) && v.q.caller == Returned(Scope(r, false))
    ensures ViewOk(v.(q := v.q.(caller := Returned(Scope(r, true))), released := v.released + 1), r)
  {}

  lemma CloseScopeLocal(s: State, r: RequestNo)
    requires CloseScopeReady(s, r) && ViewOk(ViewOf(s, r), r)
    ensures OnlyRequest(s, CloseScope(s, r), r) && ViewOk(ViewOf(CloseScope(s, r), r), r)
  {
    if !s.requests[r].caller.outcome.closed {
      assert s.requests[r].caller.outcome == Scope(r, false);
      CloseScopeOnly(s, r);
      ReleasedView(ViewOf(s, r), r);
    }
  }

  lemma DiscardOnly(s: State, r: RequestNo)
    requires DiscardReady(s, r) && Own(s.requests[r].channel[0], r)
    ensures OnlyRequest(s, Discard(s, r), r)
    ensures var v, q := ViewOf(s, r), s.requests[r];
            ViewOf(Discard(s, r), r) == v.(
              q := q.(cleaner := CleanerDone, channel := q.channel[1..]),
              freed := v.freed + B(q.channel[0].Response?))
  {}

  lemma DiscardView(v: View, r: RequestNo)
    requires ViewOk(v, r) && v.q.cleaner.Discarding? && |v.q.channel| > 0
    ensures ViewOk(v.(q := v.q.(cleaner := CleanerDone, channel := v.q.channel[1..]),
                      freed := v.freed + B(v.q.channel[0].Response?)), r)
  {}

  lemma DiscardLocal(s: State, r: RequestNo)
    requires DiscardReady(s, r) && ViewOk(ViewOf(s, r), r)
    ensures OnlyRequest(s, Discard(s, r), r) && ViewOk(ViewOf(Discard(s, r), r), r)
  {
    DiscardOnly(s, r);
    DiscardView(ViewOf(s, r), r);
  }

  lemma LateReceiveLocal(s: State, r: RequestNo)
    requires LateReceiveReady(s, r) && ViewOk(ViewOf(s, r), r)
    ensures OnlyRequest(s, LateReceive(s, r), r) && ViewOk(ViewOf(LateReceive(s, r), r), r)
  {}

  lemma LateReleaseLocal(s: State, r: RequestNo)
    requires LateReleaseReady(s, r) && ViewOk(ViewOf(s, r), r)
    ensures OnlyRequest(s, LateRelease(s, r), r) && ViewOk(ViewOf(LateRelease(s, r), r), r)
  {}

  lemma LateFreeLocal(s: State, r: RequestNo)
    requires LateFreeReady(s, r) && ViewOk(ViewOf(s, r), r)
    ensures OnlyRequest(s, LateFree(s, r), r) && ViewOk(ViewOf(LateFree(s, r), r), r)
  {}

  lemma CallbackSendLocal(s: State, r: RequestNo)
    requires CallbackSendReady(s, r) && ViewOk(ViewOf(s, r), r)
    ensures OnlyRequest(s, CallbackSend(s, r), r) && ViewOk(ViewOf(CallbackSend(s, r), r), r)
  {}

  lemma RefusedTakeLocal(s: State, r: RequestNo)
    requires RefusedTakeReady(s, r) && ViewOk(ViewOf(s, r), r)
    ensures OnlyClaim(s, RefusedTake(s, r), r) && ViewOk(ViewOf(RefusedTake(s, r), r), r)
  {}

  lemma CallbackClaimLocal(s: State, r: RequestNo)
    requires CallbackTakeReady(s, r) && ViewOk(ViewOf(s, r), r) && Registered(s, r)
    ensures OnlyClaim(s, CallbackTake(s, r), r) && ViewOk(ViewOf(CallbackTake(s, r), r), r)
  {}

  lemma CallbackLoseLocal(s: State, r: RequestNo)
    requires CallbackTakeReady(s, r) && ViewOk(ViewOf(s, r), r) && s.requests[r].id !in s.registry
    ensures OnlyRequest(s, CallbackTake(s, r), r) && ViewOk(ViewOf(CallbackTake(s, r), r), r)
  {}

  lemma CallbackTakeKeeps(s: State, r: RequestNo)
    requires Inv(s) && CallbackTakeReady(s, r)
    ensures Inv(CallbackTake(s, r)) && KindsKept(s, CallbackTake(s, r))
  {
    BusyFound(s, r);
    if s.requests[r].id in s.registry {
      CallbackClaimLocal(s, r);
      ClaimStep(s, CallbackTake(s, r), r);
    } else {
      CallbackLoseLocal(s, r);
      LocalStep(s, CallbackTake(s, r), r);
    }
  }

  lemma CancelClaimLocal(s: State, r: RequestNo)
    requires CancelTakeReady(s, r) && ViewOk(ViewOf(s, r), r) && Registered(s, r)
    ensures OnlyClaim(s, CancelTake(s, r), r) && ViewOk(ViewOf(CancelTake(s, r), r), r)
  {}

  lemma CancelLoseLocal(s: State, r: RequestNo)
    requires CancelTakeReady(s, r) && ViewOk(ViewOf(s, r), r) && s.requests[r].id !in s.registry
    ensures OnlyRequest(s, CancelTake(s, r), r) && ViewOk(ViewOf(CancelTake(s, r), r), r)
  {}

  lemma CancelTakeKeeps(s: State, r: RequestNo)
    requires Inv(s) && CancelTakeReady(s, r)
    ensures Inv(CancelTake(s, r)) && KindsKept(s, CancelTake(s, r))
  {
    BusyFound(s, r);
    if s.requests[r].id in s.registry {
      CancelClaimLocal(s, r);
      ClaimStep(s, CancelTake(s, r), r);
    } else {
      CancelLoseLocal(s, r);
      LocalStep(s, CancelTake(s, r), r);
    }
  }

  // A step of client command `r` that releases client.mu or drops the command's own ID from `pending`.
  ghost predicate OnlyOwnClient(s: State, s': State, r: RequestNo) {
    && r in s.requests && r in s'.requests
    && s.requests[r].kind.ClientCommand?
    && var c := s.requests[r].kind.client;
    && c in s.clients && c in s'.clients
    && s'.requests == s.requests[r := s'.requests[r]]
    && s'.requests[r].kind == s.requests[r].kind
    && s'.requests[r].id == s.requests[r].id
    && s'.clients == s.clients[c := s'.clients[c]]
    && s'.clients[c].open == s.clients[c].open
    && (s.clients[c].mutex.Free? || (s.clients[c].mutex == HeldBySubmit(r) && s.clients[c].open))
    && s'.clients[c].mutex.Free?
    && (s'.clients[c].pending == s.clients[c].pending
        || s'.clients[c].pending == s.clients[c].pending - {s.requests[r].id})
    && s'.registry == s.registry && s'.owner == s.owner
    && HistoryOnly(s, s', r)
  }

  lemma OnlyOwnClientFrame(s: State, s': State, r: RequestNo, x: RequestNo)
    requires OnlyOwnClient(s, s', r) && x in s'.requests && x != r
    requires ViewOf(s, r).owns
    ensures ViewOf(s', x) == ViewOf(s, x)
  {}

  lemma OnlyOwnClientShared(s: State, s': State, r: RequestNo)
    requires OnlyOwnClient(s, s', r) && SharedOk(s)
    ensures SharedOk(s')
  {
    forall c | c in s'.clients ensures PendingOk(s', c) && MutexOk(s', c) {
      assert PendingOk(s, c) && MutexOk(s, c);
    }
  }

  lemma OwnClientStep(s: State, s': State, r: RequestNo)
    requires Inv(s) && OnlyOwnClient(s, s', r) && ViewOf(s, r).owns
    requires ViewOk(ViewOf(s', r), r)
    ensures Inv(s') && KindsKept(s, s')
  {
    forall x | x in s'.requests ensures ViewOk(ViewOf(s', x), x) {
      if x != r { OnlyOwnClientFrame(s, s', r, x); }
    }
    OnlyOwnClientShared(s, s', r);
  }

  lemma StartWaitLocal(s: State, r: RequestNo)
    requires StartWaitReady(s, r) && ViewOk(ViewOf(s, r), r)
    requires s.requests[r].kind.ClientCommand? ==> MutexOk(s, s.requests[r].kind.client)
    ensures ViewOk(ViewOf(StartWait(s, r), r), r)
    ensures s.requests[r].kind.ClientCommand? ==> OnlyOwnClient(s, StartWait(s, r), r)
    ensures !s.requests[r].kind.ClientCommand? ==> OnlyRequest(s, StartWait(s, r), r)
  {}

  lemma UntrackLocal(s: State, r: RequestNo)
    requires UntrackReady(s, r) && ViewOk(ViewOf(s, r), r)
    ensures OnlyOwnClient(s, Untrack(s, r), r) && ViewOk(ViewOf(Untrack(s, r), r), r)
  {}

  lemma FinishCommandLocal(s: State, r: RequestNo)
    requires FinishReady(s, r) && ViewOk(ViewOf(s, r), r) && s.requests[r].kind.ClientCommand?
    ensures ViewOk(ViewOf(Finish(s, r), r), r) && OnlyOwnClient(s, Finish(s, r), r)
  {
    var v, v' := ViewOf(s, r), ViewOf(Finish(s, r), r);
    assert v' == v.(q := v'.q, pending := v'.pending);
  }

  lemma FinishScopeLocal(s: State, r: RequestNo)
    requires FinishReady(s, r) && ViewOk(ViewOf(s, r), r) && s.requests[r].kind.ScopeCommand?
    ensures ViewOk(ViewOf(Finish(s, r), r), r) && OnlyRequest(s, Finish(s, r), r)
  {
    var v, v' := ViewOf(s, r), ViewOf(Finish(s, r), r);
    assert v' == v.(q := v'.q, freed := v'.freed);
  }

  lemma FinishAcquireLocal(s: State, r: RequestNo)
    requires FinishReady(s, r) && ViewOk(ViewOf(s, r), r) && s.requests[r].kind.ScopeAcquire?
    ensures ViewOk(ViewOf(Finish(s, r), r), r) && OnlyRequest(s, Finish(s, r), r)
  {
    var v, v' := ViewOf(s, r), ViewOf(Finish(s, r), r);
    assert v' == v.(q := v'.q);
  }

  lemma StartWaitKeeps(s: State, r: RequestNo)
    requires Inv(s) && StartWaitReady(s, r)
    ensures Inv(StartWait(s, r)) && KindsKept(s, StartWait(s, r))
  {
    StartWaitLocal(s, r);
    if s.requests[r].kind.ClientCommand? {
      OwnClientStep(s, StartWait(s, r), r);
    } else {
      LocalStep(s, StartWait(s, r), r);
    }
  }

  lemma UntrackKeeps(s: State, r: RequestNo)
    requires Inv(s) && UntrackReady(s, r)
    ensures Inv(Untrack(s, r)) && KindsKept(s, Untrack(s, r))
  {
    UntrackLocal(s, r);
    OwnClientStep(s, Untrack(s, r), r);
  }

  lemma FinishKeeps(s: State, r: RequestNo)
    requires Inv(s) && FinishReady(s, r)
    ensures Inv(Finish(s, r)) && KindsKept(s, Finish(s, r))
  {
    match s.requests[r].kind
    case ClientCommand(_) => FinishCommandLocal(s, r); OwnClientStep(s, Finish(s, r), r);
    case ScopeCommand => FinishScopeLocal(s, r); LocalStep(s, Finish(s, r), r);
    case ScopeAcquire => FinishAcquireLocal(s, r); LocalStep(s, Finish(s, r), r);
  }

  // Opening a client and beginning a request

  lemma OpenClientFrame(s: State, c: ClientNo, x: RequestNo)
    requires OpenClientReady(s, c) && x in s.requests
    requires s.requests[x].kind != ClientCommand(c)
    ensures ViewOf(OpenClient(s, c), x) == ViewOf(s, x)
  {}

  lemma OpenClientShared(s: State, c: ClientNo)
    requires SharedOk(s) && OpenClientReady(s, c)
    ensures SharedOk(OpenClient(s, c))
  {
    var s' := OpenClient(s, c);
    forall d | d in s'.clients ensures PendingOk(s', d) && MutexOk(s', d) {
      assert d != c ==> PendingOk(s, d) && MutexOk(s, d);
    }
  }

  lemma OpenClientKeeps(s: State, c: ClientNo)
    requires Inv(s) && OpenClientReady(s, c)
    ensures Inv(OpenClient(s, c)) && KindsKept(s, OpenClient(s, c))
  {
    var s' := OpenClient(s, c);
    forall x | x in s'.requests ensures ViewOk(ViewOf(s', x), x) {
      OpenClientFrame(s, c, x);
    }
    OpenClientShared(s, c);
  }

  lemma BeginNew(s: State, r: RequestNo, kind: Kind, id: RequestId)
    requires BeginReady(s, r, kind, id) && HistoryOk(s)
    ensures ViewOk(ViewOf(Begin(s, r, kind, id), r), r)
  {}

  lemma BeginFrame(s: State, r: RequestNo, kind: Kind, id: RequestId, x: RequestNo)
    requires BeginReady(s, r, kind, id) && x in s.requests && ViewOk(ViewOf(s, x), x)
    ensures ViewOk(ViewOf(Begin(s, r, kind, id), x), x)
  {
    if s.requests[x].id == id {
      BeginFrameSameId(s, r, kind, id, x);
      OwnerChanged(ViewOf(s, x), x);
    } else {
      BeginFrameOtherId(s, r, kind, id, x);
    }
  }

  lemma BeginFrameOtherId(s: State, r: RequestNo, kind: Kind, id: RequestId, x: RequestNo)
    requires BeginReady(s, r, kind, id) && x in s.requests && ViewOk(ViewOf(s, x), x) && s.requests[x].id != id
    ensures ViewOf(Begin(s, r, kind, id), x) == ViewOf(s, x)
  {}

  lemma BeginFrameSameId(s: State, r: RequestNo, kind: Kind, id: RequestId, x: RequestNo)
    requires BeginReady(s, r, kind, id) && x in s.requests && ViewOk(ViewOf(s, x), x) && s.requests[x].id == id
    ensures !Busy(s.requests[x]) && !ViewOf(s, x).pending
    ensures ViewOf(Begin(s, r, kind, id), x) == ViewOf(s, x).(owns := false)
  {}

  lemma OwnerChanged(v: View, x: RequestNo)
    requires ViewOk(v, x) && !Busy(v.q)
    ensures ViewOk(v.(owns := false), x)
  {}

  lemma PendingIsBusy(s: State, c: ClientNo, id: RequestId)
    requires Inv(s) && c in s.clients && id in s.clients[c].pending
    ensures id in s.owner && s.owner[id] in s.requests
    ensures s.requests[s.owner[id]].id == id && Busy(s.requests[s.owner[id]])
  {
    assert PendingOk(s, c);
    var x := s.owner[id];
    assert ViewOk(ViewOf(s, x), x) && ViewOf(s, x).pending;
  }

  // An ID in a pending set belongs to an unfinished call, so it is not handed out.
  lemma BeginFreshInPending(s: State, r: RequestNo, kind: Kind, id: RequestId, c: ClientNo)
    requires Inv(s) && BeginReady(s, r, kind, id) && c in s.clients
    ensures id !in s.clients[c].pending
  {
    if id in s.clients[c].pending { PendingIsBusy(s, c, id); }
  }

  lemma BeginClient(s: State, r: RequestNo, kind: Kind, id: RequestId, c: ClientNo)
    requires BeginReady(s, r, kind, id) && c in s.clients && PendingOk(s, c) && MutexOk(s, c)
    requires id !in s.clients[c].pending
    ensures var s' := Begin(s, r, kind, id); PendingOk(s', c) && MutexOk(s', c)
  {}

  lemma BeginRegistry(s: State, r: RequestNo, kind: Kind, id: RequestId)
    requires BeginReady(s, r, kind, id) && RegistryOk(s)
    ensures RegistryOk(Begin(s, r, kind, id))
  {
    var s' := Begin(s, r, kind, id);
    assert s'.registry == s.registry[id := r] && s'.requests[r].id == id;
    assert forall x | x in s.requests :: s'.requests[x] == s.requests[x];
  }

  lemma BeginHistory(s: State, r: RequestNo, kind: Kind, id: RequestId)
    requires BeginReady(s, r, kind, id) && HistoryOk(s)
    ensures HistoryOk(Begin(s, r, kind, id))
  {
    assert forall x | x in s.requests :: x in Begin(s, r, kind, id).requests;
  }

  lemma BeginShared(s: State, r: RequestNo, kind: Kind, id: RequestId)
    requires BeginReady(s, r, kind, id) && SharedOk(s)
    requires forall c | c in s.clients :: id !in s.clients[c].pending
    ensures SharedOk(Begin(s, r, kind, id))
  {
    var s' := Begin(s, r, kind, id);
    forall c | c in s'.clients ensures PendingOk(s', c) && MutexOk(s', c) {
      BeginClient(s, r, kind, id, c);
    }
    BeginRegistry(s, r, kind, id);
    BeginHistory(s, r, kind, id);
  }

  lemma BeginKeeps(s: State, r: RequestNo, kind: Kind, id: RequestId)
    requires Inv(s) && BeginReady(s, r, kind, id)
    ensures Inv(Begin(s, r, kind, id))
  {
    var s' := Begin(s, r, kind, id);
    BeginNew(s, r, kind, id);
    forall x | x in s'.requests ensures ViewOk(ViewOf(s', x), x) {
      if x != r { BeginFrame(s, r, kind, id, x); }
    }
    forall c | c in s.clients ensures id !in s.clients[c].pending {
      BeginFreshInPending(s, r, kind, id, c);
    }
    BeginShared(s, r, kind, id);
  }

  // Close

  lemma CloseStartView(s: State, c: ClientNo, x: RequestNo)
    requires CloseStartReady(s, c) && x in s.requests && ViewOk(ViewOf(s, x), x)
    ensures ViewOk(ViewOf(CloseStart(s, c), x), x)
  {
    var v := ViewOf(s, x);
    var v' := ViewOf(CloseStart(s, c), x);
    if v.q.kind == ClientCommand(c) {
      assert v' == v.(open := false, closing := true, closeTodo := v'.closeTodo);
    } else {
      assert v' == v;
    }
  }

  lemma CloseStartShared(s: State, c: ClientNo)
    requires SharedOk(s) && CloseStartReady(s, c)
    ensures SharedOk(CloseStart(s, c))
  {
    var s' := CloseStart(s, c);
    forall d | d in s'.clients ensures PendingOk(s', d) && MutexOk(s', d) {
      assert PendingOk(s, d) && MutexOk(s, d);
    }
  }

  lemma CloseStartKeeps(s: State, c: ClientNo)
    requires Inv(s) && CloseStartReady(s, c)
    ensures Inv(CloseStart(s, c)) && KindsKept(s, CloseStart(s, c))
  {
    var s' := CloseStart(s, c);
    forall x | x in s'.requests ensures ViewOk(ViewOf(s', x), x) {
      CloseStartView(s, c, x);
    }
    CloseStartShared(s, c);
  }

  // Close finds under a pending ID only a request of its own client.
  lemma CloseFindsOwn(s: State, c: ClientNo, id: RequestId)
    requires Inv(s) && CloseTakeReady(s, c, id) && id in s.registry
    ensures var t := s.registry[id];
            t in s.requests && s.requests[t].kind == ClientCommand(c) && s.requests[t].id == id
  {
    assert PendingOk(s, c) && MutexOk(s, c);
    var t := s.registry[id];
    assert Registered(s, t);
    assert ViewOk(ViewOf(s, t), t);
  }

  lemma CloseTakeView(s: State, c: ClientNo, id: RequestId, x: RequestNo)
    requires CloseTakeReady(s, c, id) && x in s.requests && ViewOk(ViewOf(s, x), x)
    requires id in s.registry ==>
               s.registry[id] in s.requests && s.requests[s.registry[id]].kind == ClientCommand(c)
               && s.requests[s.registry[id]].id == id
    requires !s.clients[c].open
    ensures ViewOk(ViewOf(CloseTake(s, c, id), x), x)
  {
    var v := ViewOf(s, x);
    var v' := ViewOf(CloseTake(s, c, id), x);
    if id in s.registry && s.registry[id] == x {
      assert v' == v.(registered := false, closeTodo := false, closeSends := true, claims := v.claims + 1);
    } else {
      assert v' == v;
    }
  }

  lemma CloseTakeShared(s: State, c: ClientNo, id: RequestId)
    requires CloseTakeReady(s, c, id) && SharedOk(s)
    requires id in s.registry ==>
               s.registry[id] in s.requests && s.requests[s.registry[id]].kind == ClientCommand(c)
               && s.requests[s.registry[id]].id == id
    ensures SharedOk(CloseTake(s, c, id))
  {
    var s' := CloseTake(s, c, id);
    forall d | d in s'.clients ensures PendingOk(s', d) && MutexOk(s', d) {
      assert PendingOk(s, d) && MutexOk(s, d);
    }
  }

  lemma CloseTakeKeeps(s: State, c: ClientNo, id: RequestId)
    requires Inv(s) && CloseTakeReady(s, c, id)
    ensures Inv(CloseTake(s, c, id)) && KindsKept(s, CloseTake(s, c, id))
  {
    var s' := CloseTake(s, c, id);
    if id in s.registry { CloseFindsOwn(s, c, id); }
    assert MutexOk(s, c);
    forall x | x in s'.requests ensures ViewOk(ViewOf(s', x), x) {
      CloseTakeView(s, c, id, x);
    }
    CloseTakeShared(s, c, id);
  }

  lemma CloseSendView(s: State, c: ClientNo, x: RequestNo)
    requires CloseSendReady(s, c) && x in s.requests && ViewOk(ViewOf(s, x), x)
    requires s.requests[s.clients[c].mutex.sending.value].kind == ClientCommand(c)
    ensures ViewOk(ViewOf(CloseSend(s, c), x), x)
  {
    if x == s.clients[c].mutex.sending.value {
      CloseSendTarget(s, c);
      SentView(ViewOf(s, x), x);
    } else {
      CloseSendOther(s, c, x);
    }
  }

  lemma CloseSendTarget(s: State, c: ClientNo)
    requires CloseSendReady(s, c)
    requires s.requests[s.clients[c].mutex.sending.value].kind == ClientCommand(c)
    ensures var x := s.clients[c].mutex.sending.value;
            var v := ViewOf(s, x);
            v.closeSends && ViewOf(CloseSend(s, c), x) == Sent(v)
  {}

  lemma CloseSendOther(s: State, c: ClientNo, x: RequestNo)
    requires CloseSendReady(s, c) && x in s.requests && x != s.clients[c].mutex.sending.value
    ensures ViewOf(CloseSend(s, c), x) == ViewOf(s, x)
  {}

  function Sent(v: View): View {
    v.(closeSends := false, sends := v.sends + 1, q := v.q.(channel := v.q.channel + [ClosingError]))
  }

  lemma SentView(v: View, x: RequestNo)
    requires ViewOk(v, x) && v.closeSends
    ensures ViewOk(Sent(v), x)
  {}

  lemma CloseSendShared(s: State, c: ClientNo)
    requires SharedOk(s) && CloseSendReady(s, c)
    ensures SharedOk(CloseSend(s, c))
  {
    var s' := CloseSend(s, c);
    forall d | d in s'.clients ensures PendingOk(s', d) && MutexOk(s', d) {
      assert PendingOk(s, d) && MutexOk(s, d);
    }
  }

  lemma CloseSendKeeps(s: State, c: ClientNo)
    requires Inv(s) && CloseSendReady(s, c)
    ensures Inv(CloseSend(s, c)) && KindsKept(s, CloseSend(s, c))
  {
    var s' := CloseSend(s, c);
    assert MutexOk(s, c);
    forall x | x in s'.requests ensures ViewOk(ViewOf(s', x), x) {
      CloseSendView(s, c, x);
    }
    CloseSendShared(s, c);
  }

  lemma CloseEndView(s: State, c: ClientNo, x: RequestNo)
    requires CloseEndReady(s, c) && x in s.requests && ViewOk(ViewOf(s, x), x) && !s.clients[c].open
    ensures ViewOk(ViewOf(CloseEnd(s, c), x), x)
  {
    var v := ViewOf(s, x);
    var v' := ViewOf(CloseEnd(s, c), x);
    if v.q.kind == ClientCommand(c) {
      assert v' == v.(closing := false, pending := false);
    } else {
      assert v' == v;
    }
  }

  lemma CloseEndShared(s: State, c: ClientNo)
    requires SharedOk(s) && CloseEndReady(s, c)
    ensures SharedOk(CloseEnd(s, c))
  {
    var s' := CloseEnd(s, c);
    forall d | d in s'.clients ensures PendingOk(s', d) && MutexOk(s', d) {
      assert PendingOk(s, d) && MutexOk(s, d);
    }
  }

  lemma CloseEndKeeps(s: State, c: ClientNo)
    requires Inv(s) && CloseEndReady(s, c)
    ensures Inv(CloseEnd(s, c)) && KindsKept(s, CloseEnd(s, c))
  {
    var s' := CloseEnd(s, c);
    assert MutexOk(s, c);
    forall x | x in s'.requests ensures ViewOk(ViewOf(s', x), x) {
      CloseEndView(s, c, x);
    }
    CloseEndShared(s, c);
  }

  // ---------------------------------------------------------------------------------------------
  // Every run
  // ---------------------------------------------------------------------------------------------

  // The steps that only touch their own request.
  predicate ByCall(e: Step) {
    e.AcceptStep? || e.RefuseStep? || e.CancelStep?
  }

  lemma NextByCall(s: State, e: Step)
    requires Inv(s) && Next(s, e).Some? && ByCall(e)
    ensures Inv(Next(s, e).value) && KindsKept(s, Next(s, e).value)
  {
    match e
    case AcceptStep(r) => AcceptLocal(s, r); LocalStep(s, Accept(s, r), r);
    case RefuseStep(r) => RefuseLocal(s, r); LocalStep(s, Refuse(s, r), r);
    case CancelStep(r) => CancelLocal(s, r); LocalStep(s, Cancel(s, r), r);
  }

  predicate ByReceipt(e: Step) {
    e.ReceiveStep? || e.FreeGrantStep? || e.CloseScopeStep?
  }

  lemma NextByReceipt(s: State, e: Step)
    requires Inv(s) && Next(s, e).Some? && ByReceipt(e)
    ensures Inv(Next(s, e).value) && KindsKept(s, Next(s, e).value)
  {
    match e
    case ReceiveStep(r) => ReceiveLocal(s, r); LocalStep(s, Receive(s, r), r);
    case FreeGrantStep(r) => FreeGrantLocal(s, r); LocalStep(s, FreeGrant(s, r), r);
    case CloseScopeStep(r) => CloseScopeLocal(s, r); LocalStep(s, CloseScope(s, r), r);
  }

  predicate ByCallback(e: Step) {
    e.AnswerStep? || e.CallbackSendStep? || e.DiscardStep?
  }

  lemma NextByCallback(s: State, e: Step)
    requires Inv(s) && Next(s, e).Some? && ByCallback(e)
    ensures Inv(Next(s, e).value) && KindsKept(s, Next(s, e).value)
  {
    match e
    case AnswerStep(r, p) => AnswerLocal(s, r, p); LocalStep(s, Answer(s, r, p), r);
    case CallbackSendStep(r) => CallbackSendLocal(s, r); LocalStep(s, CallbackSend(s, r), r);
    case DiscardStep(r) => DiscardLocal(s, r); LocalStep(s, Discard(s, r), r);
  }

  predicate ByLateRelease(e: Step) {
    e.LateReceiveStep? || e.LateReleaseStep? || e.LateFreeStep?
  }

  lemma NextByLateRelease(s: State, e: Step)
    requires Inv(s) && Next(s, e).Some? && ByLateRelease(e)
    ensures Inv(Next(s, e).value) && KindsKept(s, Next(s, e).value)
  {
    match e
    case LateReceiveStep(r) => LateReceiveLocal(s, r); LocalStep(s, LateReceive(s, r), r);
    case LateReleaseStep(r) => LateReleaseLocal(s, r); LocalStep(s, LateRelease(s, r), r);
    case LateFreeStep(r) => LateFreeLocal(s, r); LocalStep(s, LateFree(s, r), r);
  }

  // The steps that may take an ID out of the registry.
  predicate ByTake(e: Step) {
    e.RefusedTakeStep? || e.CallbackTakeStep? || e.CancelTakeStep?
  }

  lemma NextByTake(s: State, e: Step)
    requires Inv(s) && Next(s, e).Some? && ByTake(e)
    ensures Inv(Next(s, e).value) && KindsKept(s, Next(s, e).value)
  {
    match e
    case RefusedTakeStep(r) => RefusedTakeLocal(s, r); ClaimStep(s, RefusedTake(s, r), r);
    case CallbackTakeStep(r) => CallbackTakeKeeps(s, r);
    case CancelTakeStep(r) => CancelTakeKeeps(s, r);
  }

  // The steps under client.mu that end a call.
  predicate ByUntrack(e: Step) {
    e.UntrackStep? || e.FinishStep?
  }

  lemma NextByUntrack(s: State, e: Step)
    requires Inv(s) && Next(s, e).Some? && ByUntrack(e)
    ensures Inv(Next(s, e).value) && KindsKept(s, Next(s, e).value)
  {
    match e
    case UntrackStep(r) => UntrackKeeps(s, r);
    case FinishStep(r) => FinishKeeps(s, r);
  }

  // The steps under client.mu that start a call.
  predicate UnderMutex(e: Step) {
    e.OpenClientStep? || e.BeginStep? || e.StartWaitStep?
  }

  lemma NextUnderMutex(s: State, e: Step)
    requires Inv(s) && Next(s, e).Some? && UnderMutex(e)
    ensures Inv(Next(s, e).value)
    ensures !e.BeginStep? ==> KindsKept(s, Next(s, e).value)
  {
    match e
    case OpenClientStep(c) => OpenClientKeeps(s, c);
    case BeginStep(r, kind, id) => BeginKeeps(s, r, kind, id);
    case StartWaitStep(r) => StartWaitKeeps(s, r);
  }

  predicate ByClose(e: Step) {
    e.CloseStartStep? || e.CloseTakeStep? || e.CloseSendStep? || e.CloseEndStep?
  }

  lemma NextByClose(s: State, e: Step)
    requires Inv(s) && Next(s, e).Some? && ByClose(e)
    ensures Inv(Next(s, e).value) && KindsKept(s, Next(s, e).value)
  {
    match e
    case CloseStartStep(c) => CloseStartKeeps(s, c);
    case CloseTakeStep(c, id) => CloseTakeKeeps(s, c, id);
    case CloseSendStep(c) => CloseSendKeeps(s, c);
    case CloseEndStep(c) => CloseEndKeeps(s, c);
  }

  lemma NextKeeps(s: State, e: Step)
    requires Inv(s) && Next(s, e).Some?
    ensures Inv(Next(s, e).value)
    ensures !e.BeginStep? ==> KindsKept(s, Next(s, e).value)
  {
    if ByCall(e) { NextByCall(s, e); }
    else if ByReceipt(e) { NextByReceipt(s, e); }
    else if ByCallback(e) { NextByCallback(s, e); }
    else if ByLateRelease(e) { NextByLateRelease(s, e); }
    else if ByClose(e) { NextByClose(s, e); }
    else if ByTake(e) { NextByTake(s, e); }
    else if ByUntrack(e) { NextByUntrack(s, e); }
    else { NextUnderMutex(s, e); }
  }

  lemma {:induction false} RunKeeps(s: State, run: seq<Step>, s': State)
    requires Inv(s) && Run(s, run, s')
    ensures Inv(s')
    decreases |run|
  {
    if run != [] {
      NextKeeps(s, run[0]);
      RunKeeps(Next(s, run[0]).value, run[1..], s');
    }
  }

  lemma ReachableOk(s: State)
    requires Reachable(s)
    ensures Inv(s)
  {
    var run :| Run(Initial, run, s);
    InitialOk();
    RunKeeps(Initial, run, s);
  }
}
