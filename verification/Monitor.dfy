/**
  The object: each method is the code of one step and is proved to be that step of `MonitorRuns`. The ghost
  fields record what came in and what was taken.
 */
module Monitor {

  import opened Wrappers
  import opened MonitorRuns

  lemma PerformReaches(s: State, e: Step)
    requires Reachable(s)
    ensures Next(s, e).Some? ==> Reachable(Next(s, e).value)
  {
    if Next(s, e).Some? {
      ReachableNext(s, e);
    }
  }

  datatype Answer = Returns(line: Line) | Fails | Parks

  class MonitorClient {
    var ch: seq<Line>
    var dispatcher: Dispatcher
    var queue: seq<Line>
    var closed: bool
    var closer: Closer
    var getters: map<nat, Getter>
    ghost var accepted: seq<Line>
    ghost var taken: seq<Line>

    ghost function Value(): State
      reads this
    {
      State(ch, dispatcher, queue, closed, closer, getters, accepted, taken)
    }

    constructor ()
      ensures Value() == Init()
    {
      ch, dispatcher, queue := [], Idle, [];
      closed, closer, getters := false, NotCalled, map[];
      accepted, taken := [], [];
    }

    // The callback's send: a full channel drops the line.
    method MonitorCallback(line: Line)
      modifies this`ch, this`accepted
      ensures Next(old(Value()), ServerLine(line)) == Some(Value())
      ensures ch == if |old(ch)| < 512 then old(ch) + [line] else old(ch)
    {
      if |ch| < CAPACITY {
        ch := ch + [line];
        accepted := accepted + [line];
      }
    }

    method Broadcast()
      modifies this`getters
      ensures getters == WakeAll(old(getters))
    {
      getters := WakeAll(getters);
    }

    // The dispatcher takes a line out of the channel, and then queues it.
    method DispatcherReceive()
      requires dispatcher.Idle? && ch != []
      modifies this`ch, this`dispatcher
      ensures Next(old(Value()), Receive) == Some(Value())
      ensures dispatcher == InHand(old(ch)[0]) && ch == old(ch)[1..]
    {
      dispatcher := InHand(ch[0]);
      ch := ch[1..];
    }

    method DispatcherEnqueue()
      requires dispatcher.InHand?
      modifies this`queue, this`dispatcher, this`getters
      ensures Next(old(Value()), Enqueue) == Some(Value())
      ensures queue == old(queue) + [old(dispatcher).line] && dispatcher == Idle
      ensures forall k | k in old(getters) :: k in getters && !getters[k].Waiting?
    {
      queue := queue + [dispatcher.line];
      dispatcher := Idle;
      Broadcast();
    }

    method TakeFront() returns (line: Line)
      requires queue != []
      modifies this`queue, this`taken
      ensures line == old(queue)[0] && queue == old(queue)[1..] && taken == old(taken) + [line]
    {
      line := queue[0];
      taken := taken + [line];
      queue := queue[1..];
    }

    method TryGetMonitorMessage() returns (r: Option<Line>)
      modifies this`queue, this`taken
      ensures Next(old(Value()), TryGet) == Some(Value())
      ensures r == TryResult(old(Value()))
      ensures old(queue) == [] ==> r == None && queue == [] && taken == old(taken)
      ensures old(queue) != [] ==>
                r == Some(old(queue)[0]) && queue == old(queue)[1..] && taken == old(taken) + [r.value]
    {
      if |queue| == 0 {
        return None;
      }
      var line := TakeFront();
      r := Some(line);
    }

    // Call k is parked, or has what it will return.
    ghost predicate Settled(k: nat)
      reads this
    {
      && k in getters && !getters[k].Woken?
      && (getters[k].Got? ==> taken != [] && taken[|taken| - 1] == getters[k].line)
      && (getters[k].Failed? ==> closed && queue == [])
    }

    // GetMonitorMessage from where it gets the lock to where it returns or gives it up in cond.Wait.
    method GetPass(k: nat)
      modifies this`queue, this`taken, this`getters
      ensures Value() == GetStep(old(Value()), k) && Settled(k)
      ensures old(queue) != [] ==> getters[k] == Got(old(queue)[0]) && queue == old(queue)[1..]
      ensures old(queue) == [] ==> getters[k] == (if closed then Failed else Waiting) && queue == []
    {
      if |queue| == 0 && !closed {
        getters := getters[k := Waiting];
      } else if closed && |queue| == 0 {
        getters := getters[k := Failed];
      } else {
        var line := TakeFront();
        getters := getters[k := Got(line)];
      }
    }

    method CloseBegin() returns (first: bool)
      modifies this`closed, this`closer
      ensures Next(old(Value()), CloseFlag) == Some(Value())
      ensures first == !old(closed) && closed
    {
      first := !closed;
      if first {
        closed, closer := true, Flagged;
      }
    }

    // A step of another goroutine; nothing happens if it is not possible now.
    method Perform(e: Step)
      modifies this
      ensures Value() == (match Next(old(Value()), e) case Some(t) => t case None => old(Value()))
    {
      match e
      case ServerLine(line) => MonitorCallback(line);
      case Receive =>
        if dispatcher.Idle? && ch != [] {
          DispatcherReceive();
        }
      case Enqueue =>
        if dispatcher.InHand? {
          DispatcherEnqueue();
        }
      case DispatcherExit =>
        if dispatcher.Idle? && (closer.DoneClosed? || closer.Joined? || closer.Finished?) {
          dispatcher := Exited;
        }
      case Get(k) =>
        if k !in getters {
          GetPass(k);
        }
      case Resume(k) =>
        if k in getters && getters[k].Woken? {
          GetPass(k);
        }
      case TryGet =>
        var r := TryGetMonitorMessage();
      case CloseFlag =>
        var first := CloseBegin();
      case CloseDone =>
        if closer.Flagged? {
          closer := DoneClosed;
        }
      case CloseJoin =>
        if closer.DoneClosed? && dispatcher.Exited? {
          closer := Joined;
        }
      case CloseBroadcast =>
        if closer.Joined? {
          closer := Finished;
          Broadcast();
        }
    }

    // While caller k is parked the other goroutines go on; all they can do to it is wake it.
    method PerformAll(steps: seq<Step>, ghost k: nat)
      requires Reachable(Value()) && k in getters && getters[k].Waiting?
      requires forall i | 0 <= i < |steps| :: steps[i] != Resume(k)
      modifies this
      ensures Reachable(Value()) && k in getters && (getters[k].Waiting? || getters[k].Woken?)
    {
      for i := 0 to |steps|
        invariant Reachable(Value()) && k in getters && (getters[k].Waiting? || getters[k].Woken?)
      {
        ghost var before := Value();
        Perform(steps[i]);
        PerformReaches(before, steps[i]);
      }
    }

    // One wait: the others go on, and a woken caller gets the lock and tests again.
    method WaitTurn(k: nat, steps: seq<Step>)
      requires Reachable(Value()) && Settled(k) && getters[k].Waiting?
      requires forall i | 0 <= i < |steps| :: steps[i] != Resume(k)
      modifies this
      ensures Reachable(Value()) && Settled(k)
    {
      PerformAll(steps, k);
      if getters[k].Woken? {
        ReachableNext(Value(), Resume(k));
        GetPass(k);
      }
    }

    /**
      The whole call, with its loop around cond.Wait: others[i] is what the other goroutines do during the i-th
      wait. The call returns the front line, or fails on a closed client with nothing queued; it is still parked
      in the end only if nobody woke it, and then there is nothing to take and Close has not finished.
     */
    method GetMonitorMessage(k: nat, others: seq<seq<Step>>) returns (a: Answer)
      requires Reachable(Value()) && k !in getters
      requires forall i, j | 0 <= i < |others| && 0 <= j < |others[i]| :: others[i][j] != Resume(k)
      modifies this
      ensures Reachable(Value()) && k in getters
      ensures getters[k] == match a case Returns(line) => Got(line) case Fails => Failed case Parks => Waiting
      ensures a.Returns? ==> taken != [] && taken[|taken| - 1] == a.line
      ensures a.Fails? ==> closed && queue == []
      ensures a.Parks? ==> queue == [] && !closer.Finished?
      ensures old(queue) != [] ==> a == Returns(old(queue)[0])
    {
      ReachableNext(Value(), Get(k));
      GetPass(k);
      for i := 0 to |others|
        invariant Reachable(Value()) && Settled(k)
        invariant old(queue) != [] ==> getters[k] == Got(old(queue)[0])
      {
        if !getters[k].Waiting? {
          break;
        }
        WaitTurn(k, others[i]);
      }
      ParkedOnlyWithReasonIf(Value(), k);
      a := match getters[k] case Got(line) => Returns(line) case Failed => Fails case _ => Parks;
    }
  }
}
