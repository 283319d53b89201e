/**
  What the steps of a call achieve: an answered call returns the answer, a cancelled one returns at once, and a
  scope that is closed is given back.
 */
module ClaimOutcomes {
  import opened Wrappers
  import opened ClaimMachine
  import opened ClaimInvariant
  import opened ClaimTheorems
  import opened ClaimProgress

  // Request `r` is exactly q; its client, if it has one, is open, and its mutex is free, or held for `r`.
  ghost predicate Stands(s: State, r: RequestNo, q: Request, held: bool) {
    && r in s.requests && s.requests[r] == q
    && (q.kind.ClientCommand? ==>
          && q.kind.client in s.clients && s.clients[q.kind.client].open
          && s.clients[q.kind.client].mutex == if held then HeldBySubmit(r) else Free)
  }

  ghost predicate Listed(s: State, r: RequestNo, id: RequestId) {
    id in s.registry && s.registry[id] == r
  }

  // ---------------------------------------------------------------------------------------------
  // One step each
  // ---------------------------------------------------------------------------------------------

  lemma Begins(s: State, r: RequestNo, kind: Kind, id: RequestId)
    requires BeginReady(s, r, kind, id)
    ensures var t := Begin(s, r, kind, id);
            Stands(t, r, Request(kind, id, Submitting, NotSubmitted, NoCleaner, []), true) && Listed(t, r, id)
  {}

  lemma Accepts(s: State, r: RequestNo, q: Request)
    requires Stands(s, r, q, true) && Listed(s, r, q.id) && q.caller.Submitting?
    ensures SubmitReady(s, r)
    ensures Stands(Accept(s, r), r, q.(core := Outstanding, caller := Submitted), true)
    ensures Listed(Accept(s, r), r, q.id)
  {}

  lemma StartsWait(s: State, r: RequestNo, q: Request)
    requires Stands(s, r, q, true) && Listed(s, r, q.id) && q.caller.Submitted?
    ensures StartWaitReady(s, r)
    ensures var t := StartWait(s, r); Stands(t, r, q.(caller := Waiting), false) && Listed(t, r, q.id)
  {}

  lemma Answers(s: State, r: RequestNo, q: Request, p: Payload)
    requires Stands(s, r, q, false) && Listed(s, r, q.id) && AnswerReady(s, r, p)
    ensures var t := Answer(s, r, p); Stands(t, r, q.(core := Claiming(p)), false) && Listed(t, r, q.id)
  {}

  lemma Takes(s: State, r: RequestNo, q: Request)
    requires Stands(s, r, q, false) && Listed(s, r, q.id) && q.core.Claiming?
    ensures CallbackTakeReady(s, r) && Stands(CallbackTake(s, r), r, q.(core := Sending(r, q.core.answer)), false)
  {}

  lemma Sends(s: State, r: RequestNo, q: Request)
    requires Stands(s, r, q, false) && q.core.Sending? && q.core.target == r && q.channel == []
    ensures CallbackSendReady(s, r)
    ensures Stands(CallbackSend(s, r), r, q.(core := Finished(q.core.answer), channel := [q.core.answer]), false)
  {}

  lemma Receives(s: State, r: RequestNo, q: Request, p: Payload)
    requires Stands(s, r, q, false) && q.caller.Waiting? && q.channel == [p]
    ensures ReceiveReady(s, r) && Stands(Receive(s, r), r, q.(caller := Received(p), channel := []), false)
  {
    assert [p][1..] == [];
  }

  // ---------------------------------------------------------------------------------------------
  // A call that is answered returns the answer
  // ---------------------------------------------------------------------------------------------

  // What a call of this kind makes of the answer p.
  function Delivered(kind: Kind, p: Payload): Outcome {
    match kind
    case ClientCommand(_) => Result(p)
    case ScopeCommand => Parsed(p)
    case ScopeAcquire => if p.Response? then Scope(p.origin, false) else Result(p)
  }

  lemma FinishesCommand(s: State, r: RequestNo, q: Request, p: Payload)
    requires Stands(s, r, q, false) && q.caller == Received(p) && !q.kind.ScopeAcquire?
    ensures FinishReady(s, r)
    ensures r in Finish(s, r).requests && Finish(s, r).requests[r].caller == Returned(Delivered(q.kind, p))
  {}

  lemma FinishesAcquire(s: State, r: RequestNo, q: Request, p: Payload)
    requires Stands(s, r, q, false) && q.caller == Received(p) && q.kind.ScopeAcquire?
    ensures FinishReady(s, r) && r in Finish(s, r).requests
    ensures !p.Response? ==> Finish(s, r).requests[r].caller == Returned(Delivered(q.kind, p))
    ensures p.Response? ==>
              && FreeGrantReady(Finish(s, r), r)
              && r in FreeGrant(Finish(s, r), r).requests
              && FreeGrant(Finish(s, r), r).requests[r].caller == Returned(Delivered(q.kind, p))
  {}

  // Every state follows the one before it by the step between them.
  ghost predicate Chain(states: seq<State>, steps: seq<Step>) {
    && |states| == |steps| + 1
    && forall i {:trigger steps[i]} | 0 <= i < |steps| :: Next(states[i], steps[i]) == Some(states[i + 1])
  }

  lemma {:induction false} ChainRuns(states: seq<State>, steps: seq<Step>)
    requires Chain(states, steps)
    ensures Run(states[0], steps, states[|steps|])
    decreases |steps|
  {
    if steps != [] {
      ChainRest(states, steps);
      ChainRuns(states[1..], steps[1..]);
    }
  }

  lemma ChainRest(states: seq<State>, steps: seq<Step>)
    requires Chain(states, steps) && steps != []
    ensures Chain(states[1..], steps[1..]) && Next(states[0], steps[0]) == Some(states[1])
  {
    forall i | 0 <= i < |steps[1..]|
      ensures Next(states[1..][i], steps[1..][i]) == Some(states[1..][i + 1])
    {
      assert steps[i + 1] == steps[1..][i];
    }
  }

  lemma {:induction false} RunThenRun(s: State, a: seq<Step>, t: State, b: seq<Step>, u: State)
    requires Run(s, a, t) && Run(t, b, u)
    ensures Run(s, a + b, u)
    decreases |a|
  {
    if a == [] {
      assert a + b == b;
    } else {
      RunThenRun(Next(s, a[0]).value, a[1..], t, b, u);
      assert (a + b)[1..] == a[1..] + b;
    }
  }

  // Register, call the core, unlock and wait.
  function SubmitSteps(r: RequestNo, kind: Kind, id: RequestId): seq<Step> {
    [BeginStep(r, kind, id), AcceptStep(r), StartWaitStep(r)]
  }

  lemma Submits(s: State, r: RequestNo, kind: Kind, id: RequestId) returns (t: State)
    requires BeginReady(s, r, kind, id)
    ensures Run(s, SubmitSteps(r, kind, id), t)
    ensures Stands(t, r, Request(kind, id, Waiting, Outstanding, NoCleaner, []), false) && Listed(t, r, id)
  {
    var s1 := Begin(s, r, kind, id);
    Begins(s, r, kind, id);
    Accepts(s1, r, s1.requests[r]);
    var s2 := Accept(s1, r);
    StartsWait(s2, r, s2.requests[r]);
    t := StartWait(s2, r);
    ChainRuns([s, s1, s2, t], SubmitSteps(r, kind, id));
  }

  // The core's callback comes, claims the request and sends; the caller receives.
  function AnswerSteps(r: RequestNo, p: Payload): seq<Step> {
    [AnswerStep(r, p), CallbackTakeStep(r), CallbackSendStep(r), ReceiveStep(r)]
  }

  lemma GetsAnswer(s: State, r: RequestNo, kind: Kind, id: RequestId, p: Payload) returns (t: State)
    requires Stands(s, r, Request(kind, id, Waiting, Outstanding, NoCleaner, []), false) && Listed(s, r, id)
    requires AnswerReady(s, r, p)
    ensures Run(s, AnswerSteps(r, p), t)
    ensures Stands(t, r, Request(kind, id, Received(p), Finished(p), NoCleaner, []), false)
  {
    var s1 := Answer(s, r, p);
    Answers(s, r, s.requests[r], p);
    Takes(s1, r, s1.requests[r]);
    var s2 := CallbackTake(s1, r);
    Sends(s2, r, s2.requests[r]);
    var s3 := CallbackSend(s2, r);
    Receives(s3, r, s3.requests[r], p);
    t := Receive(s3, r);
    ChainRuns([s, s1, s2, s3, t], AnswerSteps(r, p));
  }

  function FinishSteps(r: RequestNo, kind: Kind, p: Payload): seq<Step> {
    if kind.ScopeAcquire? && p.Response? then [FinishStep(r), FreeGrantStep(r)] else [FinishStep(r)]
  }

  lemma Finishes(s: State, r: RequestNo, q: Request, p: Payload) returns (t: State)
    requires Stands(s, r, q, false) && q.caller == Received(p)
    ensures Run(s, FinishSteps(r, q.kind, p), t)
    ensures r in t.requests && t.requests[r].caller == Returned(Delivered(q.kind, p))
  {
    if q.kind.ScopeAcquire? && p.Response? {
      FinishesAcquire(s, r, q, p);
      t := FreeGrant(Finish(s, r), r);
      ChainRuns([s, Finish(s, r), t], [FinishStep(r), FreeGrantStep(r)]);
    } else {
      if q.kind.ScopeAcquire? {
        FinishesAcquire(s, r, q, p);
      } else {
        FinishesCommand(s, r, q, p);
      }
      t := Finish(s, r);
      ChainRuns([s, t], [FinishStep(r)]);
    }
  }

  /**
    From every reachable state, a call of any kind that begins, is answered with p and is not disturbed returns
    exactly what its kind makes of p.
   */
  lemma AnsweredCallReturns(s: State, r: RequestNo, kind: Kind, id: RequestId, p: Payload)
    returns (run: seq<Step>, t: State)
    requires Reachable(s) && BeginReady(s, r, kind, id)
    requires (p.Response? ==> p.origin == r) && p != ClosingError && (p == NilResponse ==> !kind.ScopeAcquire?)
    ensures run == SubmitSteps(r, kind, id) + AnswerSteps(r, p) + FinishSteps(r, kind, p)
    ensures Run(s, run, t) && r in t.requests && t.requests[r].caller == Returned(Delivered(kind, p))
  {
    var s1 := Submits(s, r, kind, id);
    var s2 := GetsAnswer(s1, r, kind, id, p);
    t := Finishes(s2, r, s2.requests[r], p);
    RunThenRun(s, SubmitSteps(r, kind, id), s1, AnswerSteps(r, p), s2);
    RunThenRun(s, SubmitSteps(r, kind, id) + AnswerSteps(r, p), s2, FinishSteps(r, kind, p), t);
    run := SubmitSteps(r, kind, id) + AnswerSteps(r, p) + FinishSteps(r, kind, p);
  }

  // ---------------------------------------------------------------------------------------------
  // A call that is cancelled returns, answered or not
  // ---------------------------------------------------------------------------------------------

  function CancelSteps(r: RequestNo, kind: Kind): seq<Step> {
    match kind
    case ClientCommand(_) => [CancelStep(r), UntrackStep(r), CancelTakeStep(r)]
    case ScopeCommand => [CancelStep(r), CancelTakeStep(r)]
    case ScopeAcquire => [CancelStep(r)]
  }

  /**
    A waiting call whose context is cancelled returns by steps of its own, whatever the core and Close are doing,
    as soon as it gets its client's mutex. It leaves a goroutine behind unless it claimed its ID itself.
   */
  lemma CancelledCallReturns(s: State, r: RequestNo) returns (t: State)
    requires Reachable(s) && r in s.requests && s.requests[r].caller.Waiting? && MutexFree(s, s.requests[r])
    ensures Run(s, CancelSteps(r, s.requests[r].kind), t)
    ensures r in t.requests && t.requests[r].caller == Returned(Canceled)
    ensures t.requests[r].cleaner
         == if s.requests[r].kind.ScopeAcquire? then LateWaiting
            else if s.requests[r].id in s.registry then NoCleaner else Discarding
  {
    WaitingHasNoCleaner(s, r);
    match s.requests[r].kind
    case ScopeAcquire =>
      t := Cancel(s, r);
      ChainRuns([s, t], [CancelStep(r)]);
    case ScopeCommand => t := CancelsScopeCommand(s, r);
    case ClientCommand(_) => t := CancelsCommand(s, r);
  }

  lemma WaitingHasNoCleaner(s: State, r: RequestNo)
    requires Reachable(s) && r in s.requests && s.requests[r].caller.Waiting?
    ensures s.requests[r].cleaner == NoCleaner
  {
    ViewHolds(s, r);
  }

  lemma CancelsScopeCommand(s: State, r: RequestNo) returns (t: State)
    requires CancelReady(s, r) && s.requests[r].kind == ScopeCommand && s.requests[r].cleaner == NoCleaner
    ensures Run(s, [CancelStep(r), CancelTakeStep(r)], t)
    ensures r in t.requests && t.requests[r].caller == Returned(Canceled)
    ensures t.requests[r].cleaner == if s.requests[r].id in s.registry then NoCleaner else Discarding
  {
    t := CancelTake(Cancel(s, r), r);
    ChainRuns([s, Cancel(s, r), t], [CancelStep(r), CancelTakeStep(r)]);
  }

  lemma CancelsCommand(s: State, r: RequestNo) returns (t: State)
    requires CancelReady(s, r) && s.requests[r].kind.ClientCommand? && s.requests[r].cleaner == NoCleaner
    requires MutexFree(s, s.requests[r])
    ensures Run(s, [CancelStep(r), UntrackStep(r), CancelTakeStep(r)], t)
    ensures r in t.requests && t.requests[r].caller == Returned(Canceled)
    ensures t.requests[r].cleaner == if s.requests[r].id in s.registry then NoCleaner else Discarding
  {
    var s1 := Cancel(s, r);
    var s2 := Untrack(s1, r);
    t := CancelTake(s2, r);
    ChainRuns([s, s1, s2, t], [CancelStep(r), UntrackStep(r), CancelTakeStep(r)]);
  }

  // ---------------------------------------------------------------------------------------------
  // Closing a scope
  // ---------------------------------------------------------------------------------------------

  // The first Close of an IsolatedScope gives the scope back, and later ones do nothing.
  lemma CloseScopeReleasesOnce(s: State, r: RequestNo)
    requires Reachable(s) && CloseScopeReady(s, r)
    ensures var t := CloseScope(s, r);
            && r in t.requests && t.requests[r].caller == Returned(Scope(r, true)) && t.released[r] == 1
            && CloseScopeReady(t, r) && CloseScope(t, r) == t
  {
    ViewHolds(s, r);
  }
}
