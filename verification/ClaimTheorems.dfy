/**
  What the claim protocol guarantees in every run: in every reachable state, whatever the interleaving of
  callers, callbacks, cancellations and Close.
 */
module ClaimTheorems {
  import opened Wrappers
  import opened ClaimMachine
  import opened ClaimInvariant

  lemma ViewHolds(s: State, r: RequestNo)
    requires Reachable(s) && r in s.requests
    ensures ViewOk(ViewOf(s, r), r)
  {
    ReachableOk(s);
  }

  lemma ClientHolds(s: State, c: ClientNo)
    requires Reachable(s) && c in s.clients
    ensures MutexOk(s, c)
  {
    ReachableOk(s);
  }

  lemma HistoryHolds(s: State, r: RequestNo)
    requires Reachable(s) && r !in s.requests
    ensures s.freed[r] == s.released[r] == s.claims[r] == s.sends[r] == 0
  {
    ReachableOk(s);
  }

  // ---------------------------------------------------------------------------------------------
  // Where the core's response to a request can be
  // ---------------------------------------------------------------------------------------------

  datatype Place =
    | WithCallback(r: RequestNo)
    | InChannel(r: RequestNo)
    | WithCaller(r: RequestNo)
    | WithCleaner(r: RequestNo)
    | ReturnedTo(r: RequestNo)
    | FreedPlace

  // The response to request `o` is at `place`.
  ghost predicate At(s: State, o: RequestNo, place: Place) {
    match place
    case WithCallback(r) =>
      && r in s.requests
      && (s.requests[r].core.Claiming? || s.requests[r].core.Sending?)
      && s.requests[r].core.answer == Response(o)
    case InChannel(r) => r in s.requests && Response(o) in s.requests[r].channel
    case WithCaller(r) =>
      r in s.requests && (s.requests[r].caller == Received(Response(o)) || s.requests[r].caller == ScopeRead(o))
    case WithCleaner(r) =>
      && r in s.requests
      && (s.requests[r].cleaner == LateHolding(Response(o)) || s.requests[r].cleaner == LateFreeing(o))
    case ReturnedTo(r) => r in s.requests && s.requests[r].caller == Returned(Result(Response(o)))
    case FreedPlace => s.freed[o] > 0
  }

  ghost predicate Answered(s: State, o: RequestNo) {
    o in s.requests && Produced(s.requests[o], o)
  }

  // A response is only ever near its own request.
  lemma AtOwn(s: State, o: RequestNo, place: Place)
    requires At(s, o, place) && !place.FreedPlace? && ViewOk(ViewOf(s, place.r), place.r)
    ensures place.r == o
  {
    var v := ViewOf(s, place.r);
    assert Units(v) == 1;
    assert |v.q.channel| <= 1;
  }

  lemma AtUniqueLocal(s: State, o: RequestNo, p1: Place, p2: Place)
    requires o in s.requests && ViewOk(ViewOf(s, o), o) && At(s, o, p1) && At(s, o, p2)
    requires (p1.FreedPlace? || p1.r == o) && (p2.FreedPlace? || p2.r == o)
    ensures p1 == p2 && Answered(s, o) && s.freed[o] <= 1
  {
    var v := ViewOf(s, o);
    assert Units(v) == 1 && Copies(v) == B(Produced(v.q, o));
    assert |v.q.channel| <= 1;
  }

  lemma AtUnique(s: State, o: RequestNo, p1: Place, p2: Place)
    requires Reachable(s) && At(s, o, p1) && At(s, o, p2)
    ensures p1 == p2 && Answered(s, o) && s.freed[o] <= 1
  {
    if !p1.FreedPlace? { ViewHolds(s, p1.r); AtOwn(s, o, p1); }
    if !p2.FreedPlace? { ViewHolds(s, p2.r); AtOwn(s, o, p2); }
    if o !in s.requests { HistoryHolds(s, o); }
    ViewHolds(s, o);
    AtUniqueLocal(s, o, p1, p2);
  }

  lemma AtSomewhere(s: State, o: RequestNo) returns (place: Place)
    requires Reachable(s) && Answered(s, o)
    ensures At(s, o, place)
  {
    ViewHolds(s, o);
    var q := s.requests[o];
    if CoreHolds(q) {
      place := WithCallback(o);
    } else if ChannelHolds(q) {
      assert q.channel[0] == Response(o);
      place := InChannel(o);
    } else if CleanerHolds(q) {
      place := WithCleaner(o);
    } else if s.freed[o] > 0 {
      place := FreedPlace;
    } else if q.caller.Returned? {
      place := ReturnedTo(o);
    } else {
      place := WithCaller(o);
    }
  }

  // Each response the core has produced is in exactly one place, and is freed at most once.
  lemma ResponseInExactlyOnePlace(s: State, o: RequestNo)
    requires Reachable(s)
    ensures Answered(s, o) <==> exists p :: At(s, o, p)
    ensures forall p1, p2 :: At(s, o, p1) && At(s, o, p2) ==> p1 == p2
    ensures s.freed[o] <= 1
  {
    if Answered(s, o) { var p := AtSomewhere(s, o); }
    forall p1, p2 | At(s, o, p1) && At(s, o, p2) ensures p1 == p2 && Answered(s, o) {
      AtUnique(s, o, p1, p2);
    }
    forall p | At(s, o, p) ensures Answered(s, o) { AtUnique(s, o, p, p); }
    if s.freed[o] > 0 {
      assert At(s, o, FreedPlace);
      AtUnique(s, o, FreedPlace, FreedPlace);
    }
  }

  // No caller, channel or cleaner ever has the response or the scope of another request.
  lemma NoCrossDelivery(s: State, r: RequestNo, o: RequestNo)
    requires Reachable(s) && r in s.requests
    requires
      || Response(o) in s.requests[r].channel
      || s.requests[r].caller == Received(Response(o))
      || s.requests[r].caller == Returned(Result(Response(o)))
      || s.requests[r].caller == Returned(Parsed(Response(o)))
      || (s.requests[r].caller.Returned? && s.requests[r].caller.outcome.Scope?
          && s.requests[r].caller.outcome.grant == o)
      || s.requests[r].cleaner == LateHolding(Response(o))
      || (s.requests[r].core.Sending? && s.requests[r].core.target == o)
    ensures o == r
  {
    ViewHolds(s, r);
    assert Units(ViewOf(s, r)) == 1;
  }

  // ---------------------------------------------------------------------------------------------
  // What a caller gets
  // ---------------------------------------------------------------------------------------------

  // Request `r` belongs to a client that has been closed.
  ghost predicate OfClosedClient(s: State, r: RequestNo)
    requires r in s.requests
  {
    var kind := s.requests[r].kind;
    kind.ClientCommand? && kind.client in s.clients && !s.clients[kind.client].open
  }

  // A payload around a request is the core's answer to it, error and nil answers included, or the error with
  // which Close failed a command of its client.
  lemma PayloadIsMeant(s: State, r: RequestNo, p: Payload)
    requires Reachable(s) && r in s.requests
    requires
      || p in s.requests[r].channel
      || s.requests[r].caller == Received(p)
      || s.requests[r].caller == Returned(Result(p))
      || s.requests[r].caller == Returned(Parsed(p))
      || s.requests[r].cleaner == LateHolding(p)
    ensures s.requests[r].core == Finished(p) || (p == ClosingError && OfClosedClient(s, r))
  {
    ViewHolds(s, r);
    ReachableClientOf(s, r);
    assert Units(ViewOf(s, r)) == 1;
  }

  lemma ReachableClientOf(s: State, r: RequestNo)
    requires Reachable(s) && r in s.requests
    ensures s.requests[r].kind.ClientCommand? ==> s.requests[r].kind.client in s.clients
  {
    ReachableOk(s);
  }

  // A call that has returned and was neither cancelled nor refused nor failed by Close has returned exactly the
  // core's answer: a command its result, a scope command its parsed response, an acquisition its scope or the
  // error. Only a call the core refused returns a refusal, and only a closed client's command the closing error.
  lemma ReturnsTheAnswer(s: State, r: RequestNo)
    requires Reachable(s) && r in s.requests && s.requests[r].caller.Returned?
    ensures var q := s.requests[r];
            var outcome := q.caller.outcome;
            if outcome == Canceled then !q.core.Refused?
            else if outcome == CallRefused then q.core.Refused?
            else if outcome == Result(ClosingError) then OfClosedClient(s, r)
            else
              && q.core.Finished?
              && match q.kind
                 case ClientCommand(_) => outcome == Result(q.core.answer)
                 case ScopeCommand => outcome == Parsed(q.core.answer)
                 case ScopeAcquire =>
                   if q.core.answer.Response? then outcome == Scope(r, false) || outcome == Scope(r, true)
                   else outcome == Result(q.core.answer)
  {
    ViewHolds(s, r);
    ReachableClientOf(s, r);
  }

  // ---------------------------------------------------------------------------------------------
  // Claims and sends
  // ---------------------------------------------------------------------------------------------

  // A request is claimed at most once and its channel is sent to at most once, over the whole run.
  lemma ClaimedAndSentAtMostOnce(s: State, r: RequestNo)
    requires Reachable(s)
    ensures s.claims[r] <= 1 && s.sends[r] <= s.claims[r]
    ensures r in s.requests ==> (s.claims[r] == 0 <==> Registered(s, r))
    ensures r in s.requests ==> |s.requests[r].channel| <= s.sends[r]
  {
    if r in s.requests { ViewHolds(s, r); } else { HistoryHolds(s, r); }
  }

  // Whoever has claimed a request finds room in its channel: no callback and no Close ever blocks in a send.
  lemma SendsNeverBlock(s: State)
    requires Reachable(s)
    ensures forall r | r in s.requests && s.requests[r].core.Sending? :: CallbackSendReady(s, r)
    ensures forall c | c in s.clients && s.clients[c].mutex.HeldByClose? && s.clients[c].mutex.sending.Some? ::
              CloseSendReady(s, c)
  {
    forall r | r in s.requests && s.requests[r].core.Sending? ensures CallbackSendReady(s, r) {
      ViewHolds(s, r);
    }
    forall c | c in s.clients && s.clients[c].mutex.HeldByClose? && s.clients[c].mutex.sending.Some?
      ensures CloseSendReady(s, c)
    {
      ClientHolds(s, c);
      ViewHolds(s, s.clients[c].mutex.sending.value);
    }
  }

  // Close only ever fails commands of its own client.
  lemma CloseFailsOnlyItsOwn(s: State, c: ClientNo, id: RequestId)
    requires Reachable(s) && CloseTakeReady(s, c, id) && id in s.registry
    ensures s.registry[id] in s.requests && s.requests[s.registry[id]].kind == ClientCommand(c)
  {
    ReachableOk(s);
    CloseFindsOwn(s, c, id);
  }

  // ---------------------------------------------------------------------------------------------
  // After Close
  // ---------------------------------------------------------------------------------------------

  // Close has returned.
  ghost predicate Closed(s: State, c: ClientNo) {
    c in s.clients && !s.clients[c].open && s.clients[c].mutex.Free?
  }

  predicate PayloadUnderWay(q: Request, r: RequestNo) {
    q.channel != [] || (q.core.Sending? && q.core.target == r)
  }

  lemma AfterClose(s: State, c: ClientNo, r: RequestNo)
    requires Reachable(s) && Closed(s, c)
    requires r in s.requests && s.requests[r].kind == ClientCommand(c)
    ensures s.clients[c].pending == {}
    // an ID still registered belongs to a cancelled caller that is about to take it
    ensures Registered(s, r) ==> s.requests[r].caller.CancelClaiming?
    // nobody is left waiting for an answer that will not come
    ensures s.requests[r].caller.Waiting? || s.requests[r].caller.Untracking? ==>
              PayloadUnderWay(s.requests[r], r)
    ensures s.requests[r].cleaner.Discarding? ==> PayloadUnderWay(s.requests[r], r)
    ensures !s.requests[r].caller.Submitting? && !s.requests[r].caller.Submitted?
  {
    ClientHolds(s, c);
    ViewHolds(s, r);
  }

  ghost function Commands(s: State, c: ClientNo): set<RequestNo> {
    set r | r in s.requests && s.requests[r].kind == ClientCommand(c)
  }

  lemma ClosedNextLocal(s: State, e: Step, c: ClientNo)
    requires Closed(s, c) && Next(s, e).Some? && (ByCall(e) || ByReceipt(e))
    ensures Closed(Next(s, e).value, c)
  {}

  lemma ClosedNextCallback(s: State, e: Step, c: ClientNo)
    requires Closed(s, c) && Next(s, e).Some? && ByCallback(e)
    ensures Closed(Next(s, e).value, c)
  {}

  lemma ClosedNextRegistry(s: State, e: Step, c: ClientNo)
    requires Closed(s, c) && Next(s, e).Some? && (ByLateRelease(e) || ByTake(e))
    ensures Closed(Next(s, e).value, c)
  {}

  lemma ClosedBegin(s: State, r: RequestNo, kind: Kind, id: RequestId, c: ClientNo)
    requires Closed(s, c) && BeginReady(s, r, kind, id)
    ensures Closed(Begin(s, r, kind, id), c)
  {}

  lemma ClosedFinish(s: State, r: RequestNo, c: ClientNo)
    requires Closed(s, c) && FinishReady(s, r)
    ensures Closed(Finish(s, r), c)
  {}

  lemma ClosedNextMutex(s: State, e: Step, c: ClientNo)
    requires Closed(s, c) && Next(s, e).Some? && (UnderMutex(e) || ByUntrack(e))
    ensures Closed(Next(s, e).value, c)
  {
    match e
    case BeginStep(r, kind, id) => ClosedBegin(s, r, kind, id, c);
    case FinishStep(r) => ClosedFinish(s, r, c);
    case _ =>
  }

  lemma ClosedNextClose(s: State, e: Step, c: ClientNo)
    requires Closed(s, c) && Next(s, e).Some? && ByClose(e)
    ensures Closed(Next(s, e).value, c)
  {
    match e
    case CloseTakeStep(d, id) => ClosedTake(s, d, id, c);
    case CloseSendStep(d) => ClosedSend(s, d, c);
    case _ =>
  }

  lemma ClosedTake(s: State, d: ClientNo, id: RequestId, c: ClientNo)
    requires Closed(s, c) && CloseTakeReady(s, d, id)
    ensures Closed(CloseTake(s, d, id), c)
  {}

  lemma ClosedSend(s: State, d: ClientNo, c: ClientNo)
    requires Closed(s, c) && CloseSendReady(s, d)
    ensures Closed(CloseSend(s, d), c)
  {}

  lemma ClosedNext(s: State, e: Step, c: ClientNo)
    requires Closed(s, c) && Next(s, e).Some?
    ensures Closed(Next(s, e).value, c)
  {
    if UnderMutex(e) || ByUntrack(e) {
      ClosedNextMutex(s, e, c);
    } else if ByClose(e) {
      ClosedNextClose(s, e, c);
    } else if ByLateRelease(e) || ByTake(e) {
      ClosedNextRegistry(s, e, c);
    } else if ByCallback(e) {
      ClosedNextCallback(s, e, c);
    } else {
      ClosedNextLocal(s, e, c);
    }
  }

  lemma KindsKeptCommands(s: State, s': State, c: ClientNo)
    requires KindsKept(s, s')
    ensures Commands(s', c) <= Commands(s, c)
  {}

  lemma BeginOnClosed(s: State, e: Step, c: ClientNo)
    requires e.BeginStep? && Closed(s, c) && BeginReady(s, e.r, e.kind, e.id)
    ensures Commands(Begin(s, e.r, e.kind, e.id), c) <= Commands(s, c)
  {}

  lemma ClosedStep(s: State, e: Step, c: ClientNo)
    requires Inv(s) && Closed(s, c) && Next(s, e).Some?
    ensures var s' := Next(s, e).value; Inv(s') && Closed(s', c) && Commands(s', c) <= Commands(s, c)
  {
    ClosedNext(s, e, c);
    NextKeeps(s, e);
    if e.BeginStep? {
      BeginOnClosed(s, e, c);
    } else {
      KindsKeptCommands(s, Next(s, e).value, c);
    }
  }

  // A closed client stays closed and begins no request any more.
  lemma {:induction false} ClosedForever(s: State, run: seq<Step>, s': State, c: ClientNo)
    requires Reachable(s) && Closed(s, c) && Run(s, run, s')
    ensures Closed(s', c) && Commands(s', c) <= Commands(s, c)
  {
    ReachableOk(s);
    ClosedRun(s, run, s', c);
  }

  lemma {:induction false} ClosedRun(s: State, run: seq<Step>, s': State, c: ClientNo)
    requires Inv(s) && Closed(s, c) && Run(s, run, s')
    ensures Closed(s', c) && Commands(s', c) <= Commands(s, c)
    decreases |run|
  {
    if run != [] {
      ClosedStep(s, run[0], c);
      ClosedRun(Next(s, run[0]).value, run[1..], s', c);
    }
  }

  // ---------------------------------------------------------------------------------------------
  // Granted scopes
  // ---------------------------------------------------------------------------------------------

  // The scope granted by the answer to `r` is held, unreleased, by the caller of `h`.
  ghost predicate HeldBy(s: State, r: RequestNo, h: RequestNo) {
    && h in s.requests
    && (s.requests[h].caller == ScopeRead(r) || s.requests[h].caller == Returned(Scope(r, false)))
  }

  // A granted scope is still unread, or held by exactly one IsolatedScope, or released exactly once;
  // and its response is freed only after the scope ID has been read out of it.
  lemma ScopeAccountedFor(s: State, r: RequestNo)
    requires Reachable(s) && Answered(s, r) && s.requests[r].kind.ScopeAcquire?
    ensures s.released[r] <= 1
    ensures forall h :: HeldBy(s, r, h) ==> h == r && s.released[r] == 0 && !Unread(s.requests[r])
    ensures Unread(s.requests[r]) || HeldBy(s, r, r) || s.released[r] == 1
    ensures s.released[r] == 1 ==> !Unread(s.requests[r])
    ensures s.freed[r] > 0 ==> s.released[r] == 1 || s.requests[r].caller == Returned(Scope(r, false))
  {
    ViewHolds(s, r);
    forall h | HeldBy(s, r, h) ensures h == r && s.released[r] == 0 && !Unread(s.requests[r]) {
      ViewHolds(s, h);
    }
  }

  // Only acquisitions release scopes, and no scope is released that was not granted.
  lemma OnlyGrantsAreReleased(s: State, r: RequestNo)
    requires Reachable(s) && s.released[r] > 0
    ensures r in s.requests && s.requests[r].kind.ScopeAcquire? && Answered(s, r)
  {
    if r !in s.requests { HistoryHolds(s, r); }
    ViewHolds(s, r);
  }

  // A scope ID is never read out of a freed response.
  lemma ScopeReadBeforeFree(s: State, r: RequestNo)
    requires Reachable(s) && r in s.requests && s.requests[r].kind.ScopeAcquire?
    requires (FinishReady(s, r) && s.requests[r].caller.payload.Response?)
             || (LateReleaseReady(s, r) && s.requests[r].cleaner.payload.Response?)
    ensures s.freed[r] == 0 && s.released[r] == 0
  {
    ViewHolds(s, r);
  }
}
