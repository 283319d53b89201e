/**
  The monitor client without a callback: server lines pass through a bounded channel and a dispatcher into a
  queue that callers take from. `MonitorRuns` interleaves the goroutines; `Monitor` is the object's code.
 */
module MonitorRuns {

  import opened Wrappers

  type Line = string

  const CAPACITY := 512

  datatype Dispatcher = Idle | InHand(line: Line) | Exited

  // One GetMonitorMessage call: parked in cond.Wait, woken but without the lock, or returned.
  datatype Getter = Waiting | Woken | Got(line: Line) | Failed

  // Where the one Close call that found the client open has got to.
  datatype Closer = NotCalled | Flagged | DoneClosed | Joined | Finished

  // `accepted` and `taken` record the lines that entered the channel and left the queue, in order.
  datatype State = State(
    ch: seq<Line>,
    dispatcher: Dispatcher,
    queue: seq<Line>,
    closed: bool,
    closer: Closer,
    getters: map<nat, Getter>,
    accepted: seq<Line>,
    taken: seq<Line>)

  datatype Step =
    | ServerLine(line: Line)
    | Receive
    | Enqueue
    | DispatcherExit
    | Get(k: nat)
    | Resume(k: nat)
    | TryGet
    | CloseFlag
    | CloseDone
    | CloseJoin
    | CloseBroadcast

  function Init(): State {
    State([], Idle, [], false, NotCalled, map[], [], [])
  }

  // cond.Broadcast
  function WakeAll(getters: map<nat, Getter>): map<nat, Getter> {
    map k | k in getters :: if getters[k].Waiting? then Woken else getters[k]
  }

  // What a holder of the lock in GetMonitorMessage does: take the front line, fail, or wait.
  function GetStep(s: State, k: nat): State {
    if s.queue != [] then
      s.(queue := s.queue[1..], taken := s.taken + [s.queue[0]], getters := s.getters[k := Got(s.queue[0])])
    else if s.closed then s.(getters := s.getters[k := Failed])
    else s.(getters := s.getters[k := Waiting])
  }

  function Next(s: State, e: Step): Option<State> {
    match e
    case ServerLine(line) =>
      if |s.ch| < CAPACITY then Some(s.(ch := s.ch + [line], accepted := s.accepted + [line])) else Some(s)
    case Receive =>
      if s.dispatcher.Idle? && s.ch != [] then Some(s.(ch := s.ch[1..], dispatcher := InHand(s.ch[0]))) else None
    case Enqueue =>
      if s.dispatcher.InHand? then
        Some(s.(queue := s.queue + [s.dispatcher.line], dispatcher := Idle, getters := WakeAll(s.getters)))
      else None
    case DispatcherExit =>
      if s.dispatcher.Idle? && (s.closer.DoneClosed? || s.closer.Joined? || s.closer.Finished?) then
        Some(s.(dispatcher := Exited))
      else None
    case Get(k) =>
      if k !in s.getters then Some(GetStep(s, k)) else None
    case Resume(k) =>
      if k in s.getters && s.getters[k].Woken? then Some(GetStep(s, k)) else None
    case TryGet =>
      if s.queue != [] then Some(s.(queue := s.queue[1..], taken := s.taken + [s.queue[0]])) else Some(s)
    case CloseFlag =>
      if s.closed then Some(s) else Some(s.(closed := true, closer := Flagged))
    case CloseDone =>
      if s.closer.Flagged? then Some(s.(closer := DoneClosed)) else None
    case CloseJoin =>
      if s.closer.DoneClosed? && s.dispatcher.Exited? then Some(s.(closer := Joined)) else None
    case CloseBroadcast =>
      if s.closer.Joined? then Some(s.(closer := Finished, getters := WakeAll(s.getters))) else None
  }

  function Run(s: State, steps: seq<Step>): Option<State> {
    if steps == [] then Some(s)
    else
      match Run(s, steps[..|steps| - 1])
      case None => None
      case Some(t) => Next(t, steps[|steps| - 1])
  }

  ghost predicate Reachable(s: State) {
    exists steps :: Run(Init(), steps) == Some(s)
  }

  // ---------------------------------------------------------------- what every state satisfies

  function Held(d: Dispatcher): seq<Line> {
    if d.InHand? then [d.line] else []
  }

  ghost predicate LinesOk(s: State) {
    && s.accepted == s.taken + s.queue + Held(s.dispatcher) + s.ch
    && |s.ch| <= CAPACITY
  }

  ghost predicate CloseOk(s: State) {
    && (s.closed <==> !s.closer.NotCalled?)
    && (s.closer.Joined? || s.closer.Finished? ==> s.dispatcher.Exited?)
    && (s.dispatcher.Exited? ==> s.closer.DoneClosed? || s.closer.Joined? || s.closer.Finished?)
  }

  ghost predicate GetterOk(s: State, g: Getter) {
    && (g.Waiting? ==> s.queue == [] && !s.closer.Finished?)
    && (g.Failed? ==> s.closed)
    && (g.Got? ==> g.line in s.taken)
  }

  ghost predicate Inv(s: State) {
    LinesOk(s) && CloseOk(s) && forall k | k in s.getters :: GetterOk(s, s.getters[k])
  }

  lemma Shift<T>(a: seq<T>, b: seq<T>, c: seq<T>, d: seq<T>, e: seq<T>)
    ensures a + (b + c) + d + e == a + b + (c + d) + e == a + b + c + (d + e)
    ensures (a + b) + c + d + e == a + (b + c) + d + e
  {
  }

  lemma Unfold<T>(q: seq<T>)
    requires q != []
    ensures q == [q[0]] + q[1..]
  {
  }

  lemma TakeKeepsLines(s: State)
    requires LinesOk(s) && s.queue != []
    ensures LinesOk(s.(queue := s.queue[1..], taken := s.taken + [s.queue[0]]))
  {
    Unfold(s.queue);
    Shift(s.taken, [s.queue[0]], s.queue[1..], Held(s.dispatcher), s.ch);
  }

  lemma LinesKept(s: State, e: Step)
    requires LinesOk(s) && Next(s, e).Some?
    ensures LinesOk(Next(s, e).value)
  {
    match e
    case ServerLine(line) =>
      assert s.taken + s.queue + Held(s.dispatcher) + (s.ch + [line])
          == s.taken + s.queue + Held(s.dispatcher) + s.ch + [line];
    case Receive =>
      Unfold(s.ch);
      Shift(s.taken, s.queue, [], [s.ch[0]], s.ch[1..]);
      assert s.queue + [] == s.queue;
    case Enqueue =>
      Shift(s.taken, s.queue, [s.dispatcher.line], [], s.ch);
      assert [s.dispatcher.line] + [] == [s.dispatcher.line];
    case TryGet =>
      if s.queue != [] {
        TakeKeepsLines(s);
      }
    case Get(k) =>
      if s.queue != [] {
        TakeKeepsLines(s);
      }
    case Resume(k) =>
      if s.queue != [] {
        TakeKeepsLines(s);
      }
    case _ =>
  }

  lemma GettersKept(s: State, e: Step)
    requires Inv(s) && Next(s, e).Some?
    ensures var t := Next(s, e).value; forall k | k in t.getters :: GetterOk(t, t.getters[k])
  {
    var t := Next(s, e).value;
    forall k | k in t.getters
      ensures GetterOk(t, t.getters[k])
    {
      assert k in s.getters ==> GetterOk(s, s.getters[k]);
    }
  }

  lemma NextKeeps(s: State, e: Step)
    requires Inv(s) && Next(s, e).Some?
    ensures Inv(Next(s, e).value)
  {
    LinesKept(s, e);
    GettersKept(s, e);
  }

  lemma {:induction false} RunKeeps(steps: seq<Step>, s: State)
    requires Run(Init(), steps) == Some(s)
    ensures Inv(s)
  {
    if steps != [] {
      var t := Run(Init(), steps[..|steps| - 1]).value;
      RunKeeps(steps[..|steps| - 1], t);
      NextKeeps(t, steps[|steps| - 1]);
    }
  }

  lemma ReachableOk(s: State)
    requires Reachable(s)
    ensures Inv(s)
  {
    var steps :| Run(Init(), steps) == Some(s);
    RunKeeps(steps, s);
  }

  // ---------------------------------------------------------------- the results

  /**
    No accepted line is lost, duplicated or reordered: what callers took, what is queued, what the dispatcher
    holds and what is in the channel make up the accepted lines in order, and the channel keeps its bound.
   */
  lemma LinesConserved(s: State)
    requires Reachable(s)
    ensures s.accepted == s.taken + s.queue + Held(s.dispatcher) + s.ch
    ensures |s.ch| <= CAPACITY
  {
    ReachableOk(s);
  }

  // The line a TryGetMonitorMessage call returns.
  function TryResult(s: State): Option<Line> {
    if s.queue == [] then None else Some(s.queue[0])
  }

  // The lines that step e hands to a caller of GetMonitorMessage or TryGetMonitorMessage.
  function Handed(s: State, e: Step): seq<Line>
    requires Next(s, e).Some?
  {
    var t := Next(s, e).value;
    match e
    case TryGet => if TryResult(s).Some? then [TryResult(s).value] else []
    case Get(k) => if k in t.getters && t.getters[k].Got? then [t.getters[k].line] else []
    case Resume(k) => if k in t.getters && t.getters[k].Got? then [t.getters[k].line] else []
    case _ => []
  }

  // Everything callers were handed in a run, in order.
  function HandedLog(s: State, steps: seq<Step>): seq<Line>
    requires Run(s, steps).Some?
  {
    if steps == [] then []
    else
      var front, last := steps[..|steps| - 1], steps[|steps| - 1];
      HandedLog(s, front) + Handed(Run(s, front).value, last)
  }

  lemma TakenIsHanded(s: State, e: Step)
    requires Next(s, e).Some?
    ensures Next(s, e).value.taken == s.taken + Handed(s, e)
  {
    assert s.taken + [] == s.taken;
  }

  /**
    In every run the lines that left the queue are exactly the lines callers were handed: with LinesConserved, each
    accepted line is handed to at most one call, in order.
   */
  lemma {:induction false} HandedIsTaken(steps: seq<Step>, s: State)
    requires Run(Init(), steps) == Some(s)
    ensures HandedLog(Init(), steps) == s.taken
  {
    if steps != [] {
      var front, last := steps[..|steps| - 1], steps[|steps| - 1];
      var t := Run(Init(), front).value;
      HandedIsTaken(front, t);
      TakenIsHanded(t, last);
    }
  }

  // A server line is accepted exactly when fewer than 512 lines wait in the channel, and nothing else enters it.
  lemma AcceptedIffRoom(s: State, e: Step)
    requires Next(s, e).Some?
    ensures Next(s, e).value.accepted
         == if e.ServerLine? && |s.ch| < 512 then s.accepted + [e.line] else s.accepted
    ensures e.ServerLine? ==>
              && Next(s, e).value.ch == (if |s.ch| < 512 then s.ch + [e.line] else s.ch)
              && Next(s, e).value.queue == s.queue && Next(s, e).value.getters == s.getters
  {
  }

  // As long as the dispatcher runs, it alone brings every accepted line into the queue, in order.
  lemma DispatcherDrains(s: State) returns (steps: seq<Step>)
    requires !s.dispatcher.Exited?
    ensures |steps| == 2 * |s.ch| + |Held(s.dispatcher)|
    ensures forall i | 0 <= i < |steps| :: steps[i] == Receive || steps[i] == Enqueue
    ensures Run(s, steps).Some?
    ensures var t := Run(s, steps).value;
            && t.ch == [] && t.dispatcher == Idle && t.taken == s.taken
            && t.queue == s.queue + Held(s.dispatcher) + s.ch
  {
    steps := DrainFrom(s, [], s);
    assert s.queue + Held(s.dispatcher) + s.ch == s.queue + (Held(s.dispatcher) + s.ch);
  }

  lemma {:induction false} DrainFrom(s: State, steps: seq<Step>, t: State) returns (more: seq<Step>)
    requires Run(s, steps) == Some(t) && !t.dispatcher.Exited?
    requires forall i | 0 <= i < |steps| :: steps[i] == Receive || steps[i] == Enqueue
    ensures |more| == |steps| + 2 * |t.ch| + |Held(t.dispatcher)|
    ensures forall i | 0 <= i < |more| :: more[i] == Receive || more[i] == Enqueue
    ensures Run(s, more).Some?
    ensures var u := Run(s, more).value;
            && u.ch == [] && u.dispatcher == Idle && u.taken == t.taken
            && u.queue == t.queue + (Held(t.dispatcher) + t.ch)
    decreases 2 * |t.ch| + |Held(t.dispatcher)|
  {
    if t.dispatcher.Idle? && t.ch == [] {
      more := steps;
      assert t.queue + [] == t.queue;
    } else {
      var e := if t.dispatcher.Idle? then Receive else Enqueue;
      var u := Next(t, e).value;
      assert (steps + [e])[..|steps|] == steps;
      DrainStep(t, e);
      more := DrainFrom(s, steps + [e], u);
    }
  }

  lemma DrainStep(t: State, e: Step)
    requires Next(t, e).Some? && (e == Receive || e == Enqueue)
    ensures var u := Next(t, e).value;
            && u.queue + (Held(u.dispatcher) + u.ch) == t.queue + (Held(t.dispatcher) + t.ch)
            && 2 * |u.ch| + |Held(u.dispatcher)| == 2 * |t.ch| + |Held(t.dispatcher)| - 1
            && u.taken == t.taken && !u.dispatcher.Exited?
  {
    if e == Receive {
      Unfold(t.ch);
      assert [] + t.ch == t.ch;
    } else {
      assert t.queue + [t.dispatcher.line] + ([] + t.ch) == t.queue + ([t.dispatcher.line] + t.ch);
    }
  }

  // No wake-up is lost: a parked caller has nothing to take, and Close still has its broadcast to make.
  lemma ParkedOnlyWithReason(s: State, k: nat)
    requires Reachable(s) && k in s.getters && s.getters[k].Waiting?
    ensures s.queue == []
    ensures !s.closer.Finished?
    ensures s.closed ==> s.closer.Flagged? || s.closer.DoneClosed? || s.closer.Joined?
  {
    ReachableOk(s);
    assert GetterOk(s, s.getters[k]);
  }

  lemma ParkedOnlyWithReasonIf(s: State, k: nat)
    requires Reachable(s) && k in s.getters
    ensures s.getters[k].Waiting? ==> s.queue == [] && !s.closer.Finished?
  {
    if s.getters[k].Waiting? {
      ParkedOnlyWithReason(s, k);
    }
  }

  lemma ReachableNext(s: State, e: Step)
    requires Reachable(s) && Next(s, e).Some?
    ensures Reachable(Next(s, e).value)
  {
    var steps :| Run(Init(), steps) == Some(s);
    assert (steps + [e])[..|steps + [e]| - 1] == steps;
    assert Run(Init(), steps + [e]) == Some(Next(s, e).value);
  }

  // A call fails only on a closed client, and what a call returned is a line that was accepted.
  lemma ReturnsAreJustified(s: State, k: nat)
    requires Reachable(s) && k in s.getters
    ensures s.getters[k].Failed? ==> s.closed
    ensures s.getters[k].Got? ==> s.getters[k].line in s.accepted
  {
    ReachableOk(s);
    assert GetterOk(s, s.getters[k]);
    assert forall x | x in s.taken :: x in s.accepted;
  }

  /**
    After the closing Close has returned, no caller is or becomes parked, however the run goes on: a call made
    or woken from then on takes the front line, or fails exactly when the queue is empty.
   */
  lemma {:induction false} NobodyWaitsAfterClose(s: State, steps: seq<Step>, t: State, k: nat)
    requires Reachable(s) && s.closer.Finished? && Run(s, steps) == Some(t)
    ensures t.closer.Finished? && t.dispatcher.Exited?
    ensures k in t.getters ==> !t.getters[k].Waiting?
    ensures !GetStep(t, k).getters[k].Waiting?
    ensures GetStep(t, k).getters[k].Failed? <==> t.queue == []
    ensures t.taken + t.queue == s.taken + s.queue
  {
    AfterClose(s, steps, t);
    assert k in t.getters ==> GetterOk(t, t.getters[k]);
  }

  lemma {:induction false} AfterClose(s: State, steps: seq<Step>, t: State)
    requires Reachable(s) && s.closer.Finished? && Run(s, steps) == Some(t)
    ensures Inv(t) && t.closer.Finished? && t.taken + t.queue == s.taken + s.queue
  {
    if steps == [] {
      ReachableOk(s);
    } else {
      var u, e := Run(s, steps[..|steps| - 1]).value, steps[|steps| - 1];
      AfterClose(s, steps[..|steps| - 1], u);
      NextKeeps(u, e);
      ExitedKeepsLines(u, e);
    }
  }

  // Once the dispatcher is gone nothing is queued any more; lines only pass from the queue to callers.
  lemma ExitedKeepsLines(s: State, e: Step)
    requires Next(s, e).Some? && s.dispatcher.Exited? && s.closer.Finished?
    ensures Next(s, e).value.taken + Next(s, e).value.queue == s.taken + s.queue
    ensures Next(s, e).value.closer == (if e.CloseFlag? && !s.closed then Flagged else s.closer)
  {
    assert s.queue != [] ==> s.taken + [s.queue[0]] + s.queue[1..] == s.taken + s.queue;
  }

  // The steps a Close call waits for.
  predicate Closing(e: Step) {
    e.Enqueue? || e.DispatcherExit? || e.CloseDone? || e.CloseJoin? || e.CloseBroadcast?
  }

  function StepsLeft(s: State): nat {
    (match s.closer case NotCalled => 4 case Flagged => 3 case DoneClosed => 2 case Joined => 1 case Finished => 0)
    + (match s.dispatcher case InHand(_) => 2 case Idle => 1 case Exited => 0)
  }

  function ClosingStep(s: State): Step {
    if s.closer.Flagged? then CloseDone
    else if s.closer.Joined? then CloseBroadcast
    else if s.dispatcher.InHand? then Enqueue
    else if s.dispatcher.Idle? then DispatcherExit
    else CloseJoin
  }

  lemma ClosingMoves(s: State)
    requires CloseOk(s) && s.closed && !s.closer.Finished?
    ensures Next(s, ClosingStep(s)).Some? && Closing(ClosingStep(s))
    ensures var t := Next(s, ClosingStep(s)).value; CloseOk(t) && t.closed && StepsLeft(t) < StepsLeft(s)
  {
  }

  // Close is never stuck: from any point of it the dispatcher and the closer alone finish it in five steps.
  lemma CloseCanFinish(s: State) returns (steps: seq<Step>)
    requires Reachable(s) && s.closed
    ensures Run(s, steps).Some? && Run(s, steps).value.closer.Finished?
    ensures |steps| <= 5 && forall i | 0 <= i < |steps| :: Closing(steps[i])
  {
    ReachableOk(s);
    steps := FinishFrom(s, [], s);
  }

  lemma FinishFrom(s: State, steps: seq<Step>, t: State) returns (more: seq<Step>)
    requires Run(s, steps) == Some(t) && CloseOk(t) && t.closed
    requires forall i | 0 <= i < |steps| :: Closing(steps[i])
    ensures Run(s, more).Some? && Run(s, more).value.closer.Finished?
    ensures |more| <= |steps| + StepsLeft(t) && forall i | 0 <= i < |more| :: Closing(more[i])
    decreases StepsLeft(t)
  {
    if t.closer.Finished? {
      more := steps;
    } else {
      ClosingMoves(t);
      var e := ClosingStep(t);
      assert (steps + [e])[..|steps|] == steps;
      more := FinishFrom(s, steps + [e], Next(t, e).value);
    }
  }
}
