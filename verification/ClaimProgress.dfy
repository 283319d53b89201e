/**
  The claim protocol never gets stuck. Steps of the environment are: opening a client, beginning a call,
  the core refusing or answering, a cancellation, and the calls of Close. All other steps are internal:
  they happen by themselves. A state without a possible internal step is exactly a state where every call
  has returned or is waiting for the core, and internal steps cannot go on for ever.
 */
module ClaimProgress {
  import opened Wrappers
  import opened ClaimMachine
  import opened ClaimInvariant
  import opened ClaimTheorems

  predicate Internal(e: Step) {
    && !e.OpenClientStep? && !e.BeginStep? && !e.RefuseStep? && !e.AnswerStep?
    && !e.CancelStep? && !e.CloseStartStep? && !e.CloseScopeStep?
  }

  predicate AllInternal(run: seq<Step>) {
    forall e | e in run :: Internal(e)
  }

  ghost predicate Quiescent(s: State) {
    forall e {:trigger Next(s, e)} | Internal(e) :: Next(s, e).None?
  }

  // The call has returned, or waits for an answer the core still owes it. Nothing is left in its channel,
  // and the goroutine a cancelled caller left behind has ended or waits for the core as well.
  ghost predicate AtRest(s: State, r: RequestNo)
    requires r in s.requests
  {
    var q := s.requests[r];
    && q.channel == []
    && !q.core.Claiming? && !q.core.Sending?
    && (q.caller.Returned?
        || (q.caller.Waiting? && q.core.Outstanding? && Registered(s, r)
            && (q.kind.ClientCommand? ==> q.kind.client in s.clients && s.clients[q.kind.client].open)))
    && (|| q.cleaner.NoCleaner?
        || q.cleaner.CleanerDone?
        || (q.cleaner.LateWaiting? && q.core.Outstanding? && Registered(s, r)))
  }

  // e is a step of request r: of its caller, of the core's callback for it, or of its left-over goroutine.
  predicate OfRequest(e: Step, r: RequestNo) {
    Internal(e) && !ByClose(e) && e.r == r
  }

  // Whoever holds a client's mutex can make the next step of its own.
  lemma MutexMoves(s: State, c: ClientNo) returns (e: Step)
    requires Reachable(s) && c in s.clients && !s.clients[c].mutex.Free?
    ensures Internal(e) && Next(s, e).Some?
    ensures match s.clients[c].mutex
            case HeldBySubmit(r) => e == AcceptStep(r) || e == StartWaitStep(r)
            case HeldByClose(_, _) => ByClose(e) && e.c == c
            case Free => false
  {
    ClientHolds(s, c);
    match s.clients[c].mutex
    case HeldBySubmit(r) =>
      ViewHolds(s, r);
      e := if s.requests[r].caller.Submitting? then AcceptStep(r) else StartWaitStep(r);
    case HeldByClose(todo, sending) =>
      SendsNeverBlock(s);
      if sending.Some? {
        e := CloseSendStep(c);
      } else if todo != {} {
        var id :| id in todo;
        e := CloseTakeStep(c, id);
      } else {
        e := CloseEndStep(c);
      }
  }

  lemma CallerMoves(s: State, r: RequestNo) returns (e: Step)
    requires r in s.requests && ViewOk(ViewOf(s, r), r) && MutexFree(s, s.requests[r])
    requires !s.requests[r].caller.Returned? && !s.requests[r].caller.Waiting?
    ensures Internal(e) && Next(s, e).Some? && OfRequest(e, r)
  {
    match s.requests[r].caller
    case Submitting => e := AcceptStep(r);
    case Submitted => e := StartWaitStep(r);
    case RefusedCall => e := RefusedTakeStep(r);
    case Untracking => e := UntrackStep(r);
    case CancelClaiming => e := CancelTakeStep(r);
    case Received(_) => e := FinishStep(r);
    case ScopeRead(_) => e := FreeGrantStep(r);
  }

  // A call, a callback or a left-over goroutine that is not at rest can make the next step of its own.
  lemma RequestMoves(s: State, r: RequestNo) returns (e: Step)
    requires Reachable(s) && r in s.requests && !AtRest(s, r)
    requires forall c | c in s.clients :: s.clients[c].mutex.Free?
    ensures Internal(e) && Next(s, e).Some? && OfRequest(e, r)
  {
    ViewHolds(s, r);
    ReachableClientOf(s, r);
    var q := s.requests[r];
    if q.core.Claiming? {
      e := CallbackTakeStep(r);
    } else if q.core.Sending? {
      SendsNeverBlock(s);
      e := CallbackSendStep(r);
    } else if !q.caller.Returned? && !q.caller.Waiting? {
      e := CallerMoves(s, r);
    } else if q.caller.Waiting? {
      e := ReceiveStep(r);
    } else {
      e := CleanerMoves(s, r);
    }
  }

  lemma CleanerMoves(s: State, r: RequestNo) returns (e: Step)
    requires r in s.requests && ViewOk(ViewOf(s, r), r) && !AtRest(s, r)
    requires s.requests[r].caller.Returned? && !s.requests[r].core.Claiming? && !s.requests[r].core.Sending?
    requires forall c | c in s.clients :: s.clients[c].mutex.Free?
    ensures Internal(e) && Next(s, e).Some? && OfRequest(e, r)
  {
    var q := s.requests[r];
    e := if q.cleaner.LateHolding? then LateReleaseStep(r)
         else if q.cleaner.LateFreeing? then LateFreeStep(r)
         else if q.cleaner.LateWaiting? then LateReceiveStep(r)
         else DiscardStep(r);
  }

  // Nothing at rest takes an internal step.
  lemma AtRestStays(s: State, e: Step)
    requires forall r | r in s.requests :: AtRest(s, r)
    requires forall c | c in s.clients :: s.clients[c].mutex.Free?
    requires Internal(e)
    ensures Next(s, e).None?
  {}

  // A reachable state has no possible internal step exactly when every mutex is free and every call is at
  // rest: no send, no lock and no left-over goroutine is ever stuck.
  lemma QuiescentIffAtRest(s: State)
    requires Reachable(s)
    ensures Quiescent(s) <==>
              && (forall c | c in s.clients :: s.clients[c].mutex.Free?)
              && (forall r | r in s.requests :: AtRest(s, r))
  {
    if Quiescent(s) {
      forall c | c in s.clients ensures s.clients[c].mutex.Free? {
        if !s.clients[c].mutex.Free? { var e := MutexMoves(s, c); }
      }
      forall r | r in s.requests ensures AtRest(s, r) {
        if !AtRest(s, r) { var e := RequestMoves(s, r); }
      }
    } else if (forall c | c in s.clients :: s.clients[c].mutex.Free?) && forall r | r in s.requests :: AtRest(s, r) {
      forall e | Internal(e) ensures Next(s, e).None? { AtRestStays(s, e); }
    }
  }

  // At rest every response is either with the caller it was returned to or has been freed, exactly once;
  // and every ID still registered belongs to a call the core has not answered.
  lemma RestLeavesNothing(s: State, r: RequestNo)
    requires Reachable(s) && Quiescent(s) && r in s.requests
    ensures s.requests[r].channel == []
    ensures Answered(s, r) ==>
              s.freed[r] == (if s.requests[r].caller == Returned(Result(Response(r))) then 0 else 1)
    ensures Registered(s, r) ==> s.requests[r].core.Outstanding?
    ensures s.requests[r].cleaner.LateWaiting? ==> s.requests[r].core.Outstanding?
    ensures !s.requests[r].cleaner.Discarding?
  {
    QuiescentIffAtRest(s);
    ViewHolds(s, r);
  }

  // At rest every granted scope is held by the one IsolatedScope its caller got, or has been released, exactly
  // once; and its response has been freed, exactly once.
  lemma RestScopes(s: State, r: RequestNo)
    requires Reachable(s) && Quiescent(s) && Answered(s, r) && s.requests[r].kind.ScopeAcquire?
    ensures s.freed[r] == 1
    ensures s.released[r] == (if s.requests[r].caller == Returned(Scope(r, false)) then 0 else 1)
    ensures forall h :: HeldBy(s, r, h) <==> h == r && s.released[r] == 0
  {
    QuiescentIffAtRest(s);
    RestLeavesNothing(s, r);
    ViewHolds(s, r);
    ScopeAccountedFor(s, r);
  }

  // At rest every command of a closed client has returned, its ID is free and no goroutine is left behind.
  lemma RestAfterClose(s: State, c: ClientNo, r: RequestNo)
    requires Reachable(s) && Quiescent(s) && Closed(s, c)
    requires r in s.requests && s.requests[r].kind == ClientCommand(c)
    ensures s.requests[r].caller.Returned? && !Registered(s, r)
    ensures s.requests[r].cleaner.NoCleaner? || s.requests[r].cleaner.CleanerDone?
  {
    QuiescentIffAtRest(s);
    AfterClose(s, c, r);
    ViewHolds(s, r);
  }

  // ---------------------------------------------------------------------------------------------
  // Internal steps end
  // ---------------------------------------------------------------------------------------------

  function CallerWork(caller: Caller): nat {
    match caller
    case Submitting => 6
    case Submitted => 5
    case Waiting => 4
    case Untracking => 3
    case CancelClaiming => 2
    case Received(_) => 2
    case ScopeRead(_) => 1
    case RefusedCall => 1
    case Returned(_) => 0
  }

  function CoreWork(core: Core): nat {
    if core.Claiming? then 2 else if core.Sending? then 1 else 0
  }

  function CleanerWork(cleaner: Cleaner): nat {
    match cleaner
    case LateWaiting => 3
    case LateHolding(_) => 2
    case LateFreeing(_) => 1
    case Discarding => 1
    case NoCleaner => 0
    case CleanerDone => 0
  }

  // An upper bound on the internal steps a request still takes.
  function RequestWork(q: Request): nat {
    CallerWork(q.caller) + CoreWork(q.core) + CleanerWork(q.cleaner)
  }

  // One unit of work: a step of a request, or a claim or a send of Close, or the end of Close.
  datatype Token =
    | Phase(r: RequestNo, k: nat)
    | Visit(c: ClientNo, id: RequestId)
    | Deliver(c: ClientNo, id: RequestId)
    | Unlock(c: ClientNo)

  ghost predicate Closing(s: State, c: ClientNo) {
    c in s.clients && s.clients[c].mutex.HeldByClose?
  }

  ghost predicate Open(s: State, t: Token) {
    match t
    case Phase(r, k) => r in s.requests && k < RequestWork(s.requests[r])
    case Visit(c, id) => Closing(s, c) && id in s.clients[c].mutex.todo
    case Deliver(c, id) =>
      && Closing(s, c)
      && (id in s.clients[c].mutex.todo || SendingId(s, s.clients[c].mutex.sending) == Some(id))
    case Unlock(c) => Closing(s, c)
  }

  ghost function SendingId(s: State, sending: Option<RequestNo>): Option<RequestId> {
    if sending.Some? && sending.value in s.requests then Some(s.requests[sending.value].id) else None
  }

  ghost function IdsOf(s: State, c: ClientNo): set<RequestId>
    requires Closing(s, c)
  {
    var m := s.clients[c].mutex;
    m.todo + (var i := SendingId(s, m.sending); if i.Some? then {i.value} else {})
  }

  ghost function Work(s: State): (w: set<Token>)
    ensures forall t :: t in w <==> Open(s, t)
  {
    (set r, k | r in s.requests && 0 <= k < RequestWork(s.requests[r]) :: Phase(r, k))
    + (set c, id | c in s.clients && Closing(s, c) && id in s.clients[c].mutex.todo :: Visit(c, id))
    + (set c, id | c in s.clients && Closing(s, c) && id in IdsOf(s, c) :: Deliver(c, id))
    + (set c | c in s.clients && Closing(s, c) :: Unlock(c))
  }

  // Only request `r` changes, towards its end, and no Close makes a step.
  ghost predicate Advances(s: State, s': State, r: RequestNo) {
    && r in s.requests && r in s'.requests
    && s'.requests == s.requests[r := s'.requests[r]]
    && s'.requests[r].id == s.requests[r].id
    && RequestWork(s'.requests[r]) < RequestWork(s.requests[r])
    && s'.clients.Keys == s.clients.Keys
    && (forall c | c in s.clients ::
          s'.clients[c].mutex == s.clients[c].mutex
          || (!s'.clients[c].mutex.HeldByClose? && !s.clients[c].mutex.HeldByClose?))
  }

  lemma AdvancesShrinks(s: State, s': State, r: RequestNo)
    requires Advances(s, s', r)
    ensures Work(s') < Work(s)
  {
    var t := Phase(r, RequestWork(s'.requests[r]));
    assert t in Work(s) && t !in Work(s');
    forall t | t in Work(s') ensures t in Work(s) {
      assert Open(s', t);
      assert Open(s, t);
    }
  }

  lemma SubmissionAdvances(s: State, e: Step)
    requires Next(s, e).Some? && (e.AcceptStep? || e.StartWaitStep? || e.RefusedTakeStep?)
    requires e.StartWaitStep? && s.requests[e.r].kind.ClientCommand? ==>
               s.clients[s.requests[e.r].kind.client].mutex == HeldBySubmit(e.r)
    ensures Advances(s, Next(s, e).value, e.r)
  {}

  lemma CallbackTakeAdvances(s: State, r: RequestNo)
    requires CallbackTakeReady(s, r)
    ensures Advances(s, CallbackTake(s, r), r)
  {}

  lemma CallbackSendAdvances(s: State, r: RequestNo)
    requires CallbackSendReady(s, r) && s.requests[r].core.target == r
    ensures Advances(s, CallbackSend(s, r), r)
  {}

  lemma UntrackAdvances(s: State, r: RequestNo)
    requires UntrackReady(s, r)
    ensures Advances(s, Untrack(s, r), r)
  {}

  lemma CancelTakeAdvances(s: State, r: RequestNo)
    requires CancelTakeReady(s, r) && s.requests[r].cleaner.NoCleaner?
    ensures Advances(s, CancelTake(s, r), r)
  {}

  lemma ReceiveAdvances(s: State, r: RequestNo)
    requires ReceiveReady(s, r)
    ensures Advances(s, Receive(s, r), r)
  {}

  lemma FinishCommandAdvances(s: State, r: RequestNo)
    requires FinishReady(s, r) && s.requests[r].kind.ClientCommand?
    ensures Advances(s, Finish(s, r), r)
  {}

  lemma FinishScopeAdvances(s: State, r: RequestNo)
    requires FinishReady(s, r) && s.requests[r].kind.ScopeCommand?
    ensures Advances(s, Finish(s, r), r)
  {}

  lemma FinishAcquireAdvances(s: State, r: RequestNo)
    requires FinishReady(s, r) && s.requests[r].kind.ScopeAcquire?
    ensures Advances(s, Finish(s, r), r)
  {}

  lemma FinishAdvances(s: State, r: RequestNo)
    requires FinishReady(s, r)
    ensures Advances(s, Finish(s, r), r)
  {
    match s.requests[r].kind
    case ClientCommand(_) => FinishCommandAdvances(s, r);
    case ScopeCommand => FinishScopeAdvances(s, r);
    case ScopeAcquire => FinishAcquireAdvances(s, r);
  }

  lemma FreeGrantAdvances(s: State, r: RequestNo)
    requires FreeGrantReady(s, r)
    ensures Advances(s, FreeGrant(s, r), r)
  {}

  lemma DiscardAdvances(s: State, r: RequestNo)
    requires DiscardReady(s, r)
    ensures Advances(s, Discard(s, r), r)
  {}

  lemma LateReceiveAdvances(s: State, r: RequestNo)
    requires LateReceiveReady(s, r)
    ensures Advances(s, LateReceive(s, r), r)
  {}

  lemma LateReleaseAdvances(s: State, r: RequestNo)
    requires LateReleaseReady(s, r)
    ensures Advances(s, LateRelease(s, r), r)
  {}

  lemma LateFreeAdvances(s: State, r: RequestNo)
    requires LateFreeReady(s, r)
    ensures Advances(s, LateFree(s, r), r)
  {}

  lemma CloseTakeShrinks(s: State, c: ClientNo, id: RequestId)
    requires CloseTakeReady(s, c, id)
    requires id in s.registry ==> s.registry[id] in s.requests && s.requests[s.registry[id]].id == id
    ensures Work(CloseTake(s, c, id)) < Work(s)
  {
    var s' := CloseTake(s, c, id);
    assert Visit(c, id) in Work(s) && Visit(c, id) !in Work(s');
    forall t | t in Work(s') ensures t in Work(s) {
      assert Open(s', t);
      assert Open(s, t);
    }
  }

  lemma CloseSendShrinks(s: State, c: ClientNo)
    requires CloseSendReady(s, c)
    requires s.requests[s.clients[c].mutex.sending.value].id !in s.clients[c].mutex.todo
    ensures Work(CloseSend(s, c)) < Work(s)
  {
    var s' := CloseSend(s, c);
    var t := Deliver(c, s.requests[s.clients[c].mutex.sending.value].id);
    assert t in Work(s) && t !in Work(s');
    forall t | t in Work(s') ensures t in Work(s) {
      assert Open(s', t);
      assert Open(s, t);
    }
  }

  lemma CloseEndShrinks(s: State, c: ClientNo)
    requires CloseEndReady(s, c)
    ensures Work(CloseEnd(s, c)) < Work(s)
  {
    var s' := CloseEnd(s, c);
    assert Unlock(c) in Work(s) && Unlock(c) !in Work(s');
    forall t | t in Work(s') ensures t in Work(s) {
      assert Open(s', t);
      assert Open(s, t);
    }
  }

  lemma RequestShrinks(s: State, e: Step, r: RequestNo)
    requires Internal(e) && Next(s, e).Some? && !ByClose(e) && e.r == r
    requires r in s.requests && ViewOk(ViewOf(s, r), r)
    ensures Work(Next(s, e).value) < Work(s)
  {
    match e
    case CallbackTakeStep(_) => CallbackTakeAdvances(s, r); AdvancesShrinks(s, CallbackTake(s, r), r);
    case CallbackSendStep(_) => CallbackSendAdvances(s, r); AdvancesShrinks(s, CallbackSend(s, r), r);
    case UntrackStep(_) => UntrackAdvances(s, r); AdvancesShrinks(s, Untrack(s, r), r);
    case CancelTakeStep(_) => CancelTakeAdvances(s, r); AdvancesShrinks(s, CancelTake(s, r), r);
    case ReceiveStep(_) => ReceiveAdvances(s, r); AdvancesShrinks(s, Receive(s, r), r);
    case FinishStep(_) => FinishAdvances(s, r); AdvancesShrinks(s, Finish(s, r), r);
    case FreeGrantStep(_) => FreeGrantAdvances(s, r); AdvancesShrinks(s, FreeGrant(s, r), r);
    case DiscardStep(_) => DiscardAdvances(s, r); AdvancesShrinks(s, Discard(s, r), r);
    case LateReceiveStep(_) => LateReceiveAdvances(s, r); AdvancesShrinks(s, LateReceive(s, r), r);
    case LateReleaseStep(_) => LateReleaseAdvances(s, r); AdvancesShrinks(s, LateRelease(s, r), r);
    case LateFreeStep(_) => LateFreeAdvances(s, r); AdvancesShrinks(s, LateFree(s, r), r);
    case AcceptStep(_) | StartWaitStep(_) | RefusedTakeStep(_) =>
      SubmissionAdvances(s, e); AdvancesShrinks(s, Next(s, e).value, r);
  }

  lemma CloseShrinks(s: State, e: Step)
    requires Internal(e) && Next(s, e).Some? && ByClose(e)
    requires RegistryOk(s) && e.c in s.clients && MutexOk(s, e.c)
    ensures Work(Next(s, e).value) < Work(s)
  {
    match e
    case CloseTakeStep(c, id) => CloseTakeShrinks(s, c, id);
    case CloseSendStep(c) => CloseSendShrinks(s, c);
    case CloseEndStep(c) => CloseEndShrinks(s, c);
  }

  lemma InternalShrinks(s: State, e: Step)
    requires Inv(s) && Internal(e) && Next(s, e).Some?
    ensures Work(Next(s, e).value) < Work(s)
  {
    if ByClose(e) {
      assert MutexOk(s, e.c);
      CloseShrinks(s, e);
    } else {
      assert e.r in s.requests;
      RequestShrinks(s, e, e.r);
    }
  }

  lemma SmallerSet<T>(a: set<T>, b: set<T>)
    requires a < b
    ensures |a| < |b|
  {
    var x :| x in b && x !in a;
    assert a <= b - {x};
    SubsetSize(a, b - {x});
  }

  // As long as the environment does nothing, the protocol makes at most |Work(s)| steps. With
  // QuiescentIffAtRest this means that every call and every left-over goroutine comes to rest.
  lemma {:induction false} InternalRunsEnd(s: State, run: seq<Step>, s': State)
    requires Reachable(s) && Run(s, run, s')
    requires AllInternal(run)
    ensures |run| <= |Work(s)|
  {
    ReachableOk(s);
    InternalRunLength(s, run, s');
  }

  lemma {:induction false} InternalRunLength(s: State, run: seq<Step>, s': State)
    requires Inv(s) && Run(s, run, s')
    requires AllInternal(run)
    ensures |run| <= |Work(s)|
    decreases |run|
  {
    if run != [] {
      var s1 := Next(s, run[0]).value;
      NextKeeps(s, run[0]);
      InternalShrinks(s, run[0]);
      SmallerSet(Work(s1), Work(s));
      InternalRunLength(s1, run[1..], s');
    }
  }

  lemma {:induction false} RunThenStep(s: State, run: seq<Step>, t: State, e: Step)
    requires Run(s, run, t) && Next(t, e).Some?
    ensures Run(s, run + [e], Next(t, e).value)
    decreases |run|
  {
    if run == [] {
      assert [e][1..] == [];
    } else {
      RunThenStep(Next(s, run[0]).value, run[1..], t, e);
      assert (run + [e])[1..] == run[1..] + [e];
    }
  }

  lemma ReachableNext(s: State, e: Step)
    requires Reachable(s) && Next(s, e).Some?
    ensures Reachable(Next(s, e).value)
  {
    var run :| Run(Initial, run, s);
    RunThenStep(Initial, run, s, e);
  }

  lemma InternalFirst(e: Step, rest: seq<Step>)
    requires Internal(e) && AllInternal(rest)
    ensures AllInternal([e] + rest)
  {}

  lemma StepFirst(s: State, e: Step, t: State, rest: seq<Step>, s': State)
    requires Next(s, e) == Some(t) && Run(t, rest, s')
    ensures Run(s, [e] + rest, s')
  {
    assert ([e] + rest)[1..] == rest;
  }

  lemma WorkDone(s: State, e: Step)
    requires Reachable(s) && Internal(e) && Next(s, e).Some?
    ensures |Work(Next(s, e).value)| < |Work(s)|
  {
    ReachableOk(s);
    InternalShrinks(s, e);
    SmallerSet(Work(Next(s, e).value), Work(s));
  }

  lemma InternalStep(s: State) returns (e: Step, t: State)
    requires Reachable(s) && !Quiescent(s)
    ensures Internal(e) && Next(s, e) == Some(t) && Reachable(t) && |Work(t)| < |Work(s)|
  {
    e :| Internal(e) && Next(s, e).Some?;
    t := Next(s, e).value;
    ReachableNext(s, e);
    WorkDone(s, e);
  }

  // From every reachable state the protocol, left to itself, comes to rest; and by InternalRunsEnd it does so
  // whatever the order of its steps.
  lemma {:induction false} ComesToRest(s: State) returns (run: seq<Step>, s': State)
    requires Reachable(s)
    ensures Run(s, run, s') && Reachable(s') && Quiescent(s')
    ensures AllInternal(run)
    decreases |Work(s)|
  {
    if Quiescent(s) {
      run, s' := [], s;
    } else {
      var e, t := InternalStep(s);
      var rest;
      rest, s' := ComesToRest(t);
      StepFirst(s, e, t, rest, s');
      InternalFirst(e, rest);
      run := [e] + rest;
    }
  }
}
