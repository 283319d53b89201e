/**
  Whole runs: any interleaving of pushes, pops, waits, registrations and the receiving ends of the channels.
  Calls to WaitForMessage are numbered in the order they take the lock, signal channels in the order they
  are made.
 */
module PubSubRuns {

  import opened Wrappers
  import Q = PubSubQueue

  type Message = string

  // The channel of one WaitForMessage call: what is in it and what its caller has received from it.
  datatype Reply = Reply(buffer: seq<Message>, received: seq<Message>)

  datatype Delivery = ToPop(message: Message) | ToWaiter(call: nat, message: Message)

  // `pushed` and `out` record the messages that came in and went out, in order.
  datatype State = State(
    queue: Q.Queue<Message, nat, nat>,
    replies: seq<Reply>,
    signals: seq<Q.Signal>,
    pushed: seq<Message>,
    out: seq<Delivery>)

  datatype Step =
    | Push(message: Message)
    | Pop
    | Wait
    | Receive(call: nat)
    | NewSignal(capacity: nat)
    | Register(ch: nat)
    | Unregister(ch: nat)
    | Listen(ch: nat)
    | Wake(ch: nat)
    | DrainPop(ch: nat)

  function Init(): State {
    State(Q.Queue([], [], []), [], [], [], [])
  }

  function OfferAll(signals: seq<Q.Signal>, registered: seq<nat>): (after: seq<Q.Signal>)
    requires forall i | 0 <= i < |registered| :: registered[i] < |signals|
    ensures |after| == |signals|
    decreases |registered|
  {
    if registered == [] then signals
    else
      var c := registered[0];
      OfferAll(signals[c := Q.Offer(signals[c])], registered[1..])
  }

  // None: the send would block with the lock held, or the queue holds a channel nobody made.
  function PushStep(s: State, m: Message): Option<State> {
    match Q.Recipient(s.queue)
    case Some(k) =>
      if k < |s.replies| && |s.replies[k].buffer| < 1 then
        Some(s.(queue := Q.Push(s.queue, m),
                replies := s.replies[k := s.replies[k].(buffer := s.replies[k].buffer + [m])],
                pushed := s.pushed + [m],
                out := s.out + [ToWaiter(k, m)]))
      else None
    case None =>
      if forall i | 0 <= i < |s.queue.signals| :: s.queue.signals[i] < |s.signals| then
        Some(s.(queue := Q.Push(s.queue, m),
                signals := OfferAll(s.signals, s.queue.signals),
                pushed := s.pushed + [m]))
      else None
  }

  function PopStep(s: State): State {
    match Q.Front(s.queue)
    case Some(m) => s.(queue := Q.Pop(s.queue), out := s.out + [ToPop(m)])
    case None => s
  }

  function WaitStep(s: State): State {
    var k := |s.replies|;
    match Q.Front(s.queue)
    case Some(m) =>
      s.(queue := Q.Wait(s.queue, k), replies := s.replies + [Reply([m], [])], out := s.out + [ToWaiter(k, m)])
    case None =>
      s.(queue := Q.Wait(s.queue, k), replies := s.replies + [Reply([], [])])
  }

  function ReceiveStep(s: State, k: nat): Option<State> {
    if k < |s.replies| && s.replies[k].buffer != [] then
      var r := s.replies[k];
      Some(s.(replies := s.replies[k := Reply(r.buffer[1..], r.received + [r.buffer[0]])]))
    else None
  }

  function RegisterStep(s: State, c: nat): Option<State> {
    if c < |s.signals| then
      Some(s.(queue := Q.Register(s.queue, c),
              signals := if s.queue.messages != [] then s.signals[c := Q.Offer(s.signals[c])] else s.signals))
    else None
  }

  function DrainStep(s: State, c: nat): Option<State> {
    if c < |s.signals| && s.signals[c].consumer.Draining? then
      if s.queue.messages == [] then Some(s.(signals := s.signals[c := s.signals[c].(consumer := Q.Away)]))
      else Some(PopStep(s))
    else None
  }

  function Next(s: State, e: Step): Option<State> {
    match e
    case Push(m) => PushStep(s, m)
    case Pop => Some(PopStep(s))
    case Wait => Some(WaitStep(s))
    case Receive(k) => ReceiveStep(s, k)
    case NewSignal(capacity) => Some(s.(signals := s.signals + [Q.Signal(capacity, 0, Q.Away)]))
    case Register(c) => RegisterStep(s, c)
    case Unregister(c) => Some(s.(queue := Q.Unregister(s.queue, c)))
    case Listen(c) =>
      if c < |s.signals| && s.signals[c].consumer.Away? then
        Some(s.(signals := s.signals[c := s.signals[c].(consumer := Q.Listening)]))
      else None
    case Wake(c) =>
      if c < |s.signals| && s.signals[c].consumer.Listening? && s.signals[c].tokens > 0 then
        var g := s.signals[c];
        Some(s.(signals := s.signals[c := g.(tokens := g.tokens - 1, consumer := Q.Draining)]))
      else None
    case DrainPop(c) => DrainStep(s, c)
  }

  function Run(s: State, steps: seq<Step>): Option<State> {
    if steps == [] then Some(s)
    else
      match Run(s, steps[..|steps| - 1])
      case None => None
      case Some(t) => Next(t, steps[|steps| - 1])
  }

  ghost predicate Reachable(s: State) {
    exists steps :: Run(Init(), steps) == Some(s)
  }

  // ---------------------------------------------------------------- what every state satisfies

  function Messages(out: seq<Delivery>): seq<Message> {
    if out == [] then [] else Messages(out[..|out| - 1]) + [out[|out| - 1].message]
  }

  // The WaitForMessage calls that have been given a message, in the order they were given it.
  function Served(out: seq<Delivery>): seq<nat> {
    if out == [] then []
    else
      var rest, d := Served(out[..|out| - 1]), out[|out| - 1];
      if d.ToWaiter? then rest + [d.call] else rest
  }

  function Upto(n: nat): seq<nat> {
    seq(n, i => i)
  }

  // In and out balance, and waiters are exactly the latest calls, in call order.
  ghost predicate Balanced(s: State) {
    && s.pushed == Messages(s.out) + s.queue.messages
    && (s.queue.messages == [] || s.queue.waiters == [])
    && Served(s.out) + s.queue.waiters == Upto(|s.replies|)
  }

  // A served call has its one message, in its channel or received; a waiting call has none.
  ghost predicate RepliesOk(s: State) {
    forall k | 0 <= k < |s.replies| ::
      var content := s.replies[k].received + s.replies[k].buffer;
      if k in s.queue.waiters then content == []
      else |content| == 1 && ToWaiter(k, content[0]) in s.out
  }

  ghost predicate SignalOk(s: State, c: nat) {
    && c < |s.signals|
    && (s.signals[c].capacity >= 1 && s.queue.messages != [] ==>
          s.signals[c].tokens > 0 || s.signals[c].consumer.Draining?)
  }

  ghost predicate SignalsOk(s: State) {
    forall c | c in s.queue.signals :: SignalOk(s, c)
  }

  ghost predicate Bounded(signals: seq<Q.Signal>) {
    forall c | 0 <= c < |signals| :: signals[c].tokens <= signals[c].capacity
  }

  ghost predicate Inv(s: State) {
    Balanced(s) && RepliesOk(s) && SignalsOk(s) && Bounded(s.signals)
  }

  lemma Snoc<T>(a: seq<T>, x: T)
    ensures (a + [x])[..|a + [x]| - 1] == a
  {
  }

  lemma MoveHead<T>(a: seq<T>, b: seq<T>)
    requires b != []
    ensures a + [b[0]] + b[1..] == a + b
  {
  }

  lemma UptoGrows(n: nat)
    ensures Upto(n + 1) == Upto(n) + [n]
  {
  }

  lemma OutGrows(out: seq<Delivery>, d: Delivery)
    ensures Messages(out + [d]) == Messages(out) + [d.message]
    ensures Served(out + [d]) == if d.ToWaiter? then Served(out) + [d.call] else Served(out)
  {
    Snoc(out, d);
  }

  // The longest waiter is a call nobody has answered, and it appears once.
  lemma HeadWaiter(s: State)
    requires Balanced(s) && s.queue.waiters != []
    ensures s.queue.waiters[0] < |s.replies|
    ensures s.queue.waiters[0] !in s.queue.waiters[1..]
    ensures forall k | k in s.queue.waiters :: k < |s.replies|
  {
    var n := |Served(s.out)|;
    forall i | 0 <= i < |s.queue.waiters|
      ensures s.queue.waiters[i] == n + i && n + i < |s.replies|
    {
      assert (Served(s.out) + s.queue.waiters)[n + i] == Upto(|s.replies|)[n + i];
    }
  }

  lemma PushBalanced(s: State, m: Message)
    requires Balanced(s) && PushStep(s, m).Some?
    ensures Balanced(PushStep(s, m).value)
  {
    var t := PushStep(s, m).value;
    if s.queue.waiters != [] {
      OutGrows(s.out, ToWaiter(s.queue.waiters[0], m));
      MoveHead(Served(s.out), s.queue.waiters);
      NothingQueued(s.pushed, Messages(s.out), m);
    } else {
      QueuedLast(Messages(s.out), s.queue.messages, m);
    }
  }

  lemma NothingQueued(pushed: seq<Message>, given: seq<Message>, m: Message)
    requires pushed == given + []
    ensures pushed + [m] == (given + [m]) + []
  {}

  lemma QueuedLast(given: seq<Message>, queued: seq<Message>, m: Message)
    ensures given + (queued + [m]) == (given + queued) + [m]
  {}

  lemma PopBalanced(s: State)
    requires Balanced(s)
    ensures Balanced(PopStep(s))
  {
    if s.queue.messages != [] {
      OutGrows(s.out, ToPop(s.queue.messages[0]));
      MoveHead(Messages(s.out), s.queue.messages);
    }
  }

  lemma WaitBalanced(s: State)
    requires Balanced(s)
    ensures Balanced(WaitStep(s))
  {
    var k := |s.replies|;
    UptoGrows(k);
    if s.queue.messages != [] {
      OutGrows(s.out, ToWaiter(k, s.queue.messages[0]));
      MoveHead(Messages(s.out), s.queue.messages);
      assert Served(s.out) + [] == Served(s.out);
      assert Served(s.out) + [k] + [] == Served(s.out) + [k];
    } else {
      assert Served(s.out) + (s.queue.waiters + [k]) == Served(s.out) + s.queue.waiters + [k];
    }
  }

  lemma PushReplies(s: State, m: Message)
    requires Balanced(s) && RepliesOk(s) && PushStep(s, m).Some?
    ensures RepliesOk(PushStep(s, m).value)
  {
    if s.queue.waiters != [] {
      HeadWaiter(s);
      var t, h := PushStep(s, m).value, s.queue.waiters[0];
      assert s.queue.waiters == [h] + s.queue.waiters[1..];
      assert s.replies[h].received + s.replies[h].buffer == [];
      assert t.replies[h].received + t.replies[h].buffer == [m];
      forall k | 0 <= k < |t.replies|
        ensures k in t.queue.waiters <==> k in s.queue.waiters && k != h
      {
      }
    }
  }

  lemma WaitReplies(s: State)
    requires Balanced(s) && RepliesOk(s)
    ensures RepliesOk(WaitStep(s))
  {
    if s.queue.waiters != [] {
      HeadWaiter(s);
    }
  }

  lemma ReceiveReplies(s: State, k: nat)
    requires RepliesOk(s) && ReceiveStep(s, k).Some?
    ensures RepliesOk(ReceiveStep(s, k).value)
  {
    var t := ReceiveStep(s, k).value;
    MoveHead(s.replies[k].received, s.replies[k].buffer);
    assert forall j | 0 <= j < |t.replies| ::
        t.replies[j].received + t.replies[j].buffer == s.replies[j].received + s.replies[j].buffer;
  }

  // Offering tokens keeps capacities and drains, and leaves a token in every offered channel with a buffer.
  lemma {:induction false} OfferAllSignals(signals: seq<Q.Signal>, registered: seq<nat>, c: nat)
    requires forall i | 0 <= i < |registered| :: registered[i] < |signals|
    requires c < |signals|
    ensures var after := OfferAll(signals, registered);
            && |after| == |signals|
            && after[c].capacity == signals[c].capacity
            && after[c].tokens >= signals[c].tokens
            && (signals[c].consumer.Draining? ==> after[c].consumer.Draining?)
            && (c in registered && signals[c].capacity >= 1 ==> after[c].tokens > 0)
    decreases |registered|
  {
    if registered != [] {
      var h := registered[0];
      OfferAllSignals(signals[h := Q.Offer(signals[h])], registered[1..], c);
    }
  }

  lemma {:induction false} WithoutFirstKeeps(s: seq<nat>, ch: nat, c: nat)
    requires c in Q.WithoutFirst(s, ch)
    ensures c in s
    decreases |s|
  {
    if s[0] != ch && c != s[0] {
      WithoutFirstKeeps(s[1..], ch, c);
    }
  }

  lemma PushSignals(s: State, m: Message)
    requires SignalsOk(s) && (s.queue.messages == [] || s.queue.waiters == []) && PushStep(s, m).Some?
    ensures SignalsOk(PushStep(s, m).value)
  {
    var t := PushStep(s, m).value;
    forall c | c in t.queue.signals
      ensures SignalOk(t, c)
    {
      assert SignalOk(s, c);
      if s.queue.waiters == [] {
        OfferAllSignals(s.signals, s.queue.signals, c);
      }
    }
  }

  lemma OtherSignals(s: State, e: Step)
    requires SignalsOk(s) && !e.Push? && Next(s, e).Some?
    ensures SignalsOk(Next(s, e).value)
  {
    var t := Next(s, e).value;
    forall c | c in t.queue.signals
      ensures SignalOk(t, c)
    {
      if e.Unregister? {
        WithoutFirstKeeps(s.queue.signals, e.ch, c);
      }
      assert c in s.queue.signals ==> SignalOk(s, c);
    }
  }

  lemma {:induction false} OfferAllBounded(signals: seq<Q.Signal>, registered: seq<nat>)
    requires forall i | 0 <= i < |registered| :: registered[i] < |signals|
    requires Bounded(signals)
    ensures Bounded(OfferAll(signals, registered))
    decreases |registered|
  {
    if registered != [] {
      var h := registered[0];
      OfferAllBounded(signals[h := Q.Offer(signals[h])], registered[1..]);
    }
  }

  lemma BoundedKept(s: State, e: Step)
    requires Bounded(s.signals) && Next(s, e).Some?
    ensures Bounded(Next(s, e).value.signals)
  {
    if e.Push? && s.queue.waiters == [] {
      OfferAllBounded(s.signals, s.queue.signals);
    }
  }

  lemma NextKeeps(s: State, e: Step)
    requires Inv(s) && Next(s, e).Some?
    ensures Inv(Next(s, e).value)
  {
    BoundedKept(s, e);
    match e
    case Push(m) =>
      PushBalanced(s, m);
      PushReplies(s, m);
      PushSignals(s, m);
    case Pop =>
      PopBalanced(s);
      OtherSignals(s, e);
    case DrainPop(_) =>
      PopBalanced(s);
      OtherSignals(s, e);
    case Wait =>
      WaitBalanced(s);
      WaitReplies(s);
      OtherSignals(s, e);
    case Receive(k) =>
      ReceiveReplies(s, k);
      OtherSignals(s, e);
    case _ =>
      OtherSignals(s, e);
  }

  lemma {:induction false} RunKeeps(steps: seq<Step>, s: State)
    requires Run(Init(), steps) == Some(s)
    ensures Inv(s)
  {
    if steps != [] {
      var t := Run(Init(), steps[..|steps| - 1]).value;
      RunKeeps(steps[..|steps| - 1], t);
      NextKeeps(t, steps[|steps| - 1]);
    } else {
      assert Upto(0) == [];
    }
  }

  lemma ReachableOk(s: State)
    requires Reachable(s)
    ensures Inv(s)
  {
    var steps :| Run(Init(), steps) == Some(s);
    RunKeeps(steps, s);
  }

  // ---------------------------------------------------------------- the results

  /**
    Every pushed message is in exactly one place and in order: what was handed out, in the order it was handed
    out, followed by what is queued, is the log of pushes.
   */
  lemma DeliveredInPushOrder(s: State)
    requires Reachable(s)
    ensures s.pushed == Messages(s.out) + s.queue.messages
    ensures s.queue.messages == [] || s.queue.waiters == []
  {
    ReachableOk(s);
  }

  /**
    Waiting callers are served first come, first served: the calls that got a message are exactly the first
    ones made, in call order, and each has exactly one message, the one recorded as handed to it.
   */
  lemma WaitersFirstComeFirstServed(s: State)
    requires Reachable(s)
    ensures |Served(s.out)| <= |s.replies|
    ensures Served(s.out) == Upto(|Served(s.out)|)
    ensures forall i | 0 <= i < |s.queue.waiters| :: s.queue.waiters[i] == |Served(s.out)| + i
    ensures forall k | 0 <= k < |Served(s.out)| ::
              var content := s.replies[k].received + s.replies[k].buffer;
              |content| == 1 && ToWaiter(k, content[0]) in s.out
    ensures forall k | |Served(s.out)| <= k < |s.replies| :: s.replies[k] == Reply([], [])
  {
    ReachableOk(s);
    var served, waiters := Served(s.out), s.queue.waiters;
    InCallOrder(served, waiters, |s.replies|);
    forall k | |served| <= k < |s.replies|
      ensures s.replies[k] == Reply([], [])
    {
      assert waiters[k - |served|] == k;
      EmptyReply(s.replies[k]);
    }
    forall k | 0 <= k < |served|
      ensures k !in waiters
    {
    }
  }

  lemma EmptyReply(r: Reply)
    requires r.received + r.buffer == []
    ensures r == Reply([], [])
  {}

  lemma InCallOrder(served: seq<nat>, waiters: seq<nat>, n: nat)
    requires served + waiters == Upto(n)
    ensures |served| + |waiters| == n && served == Upto(|served|)
    ensures forall i | 0 <= i < |waiters| :: waiters[i] == |served| + i
  {
    assert |served + waiters| == |Upto(n)|;
    forall i | 0 <= i < |served|
      ensures served[i] == i
    {
      assert (served + waiters)[i] == Upto(n)[i];
    }
    forall i | 0 <= i < |waiters|
      ensures waiters[i] == |served| + i
    {
      assert (served + waiters)[|served| + i] == Upto(n)[|served| + i];
    }
  }

  // Push holds the lock while it sends, and it never blocks there.
  lemma PushNeverBlocks(s: State, m: Message)
    requires Reachable(s)
    ensures PushStep(s, m).Some?
  {
    ReachableOk(s);
    if s.queue.waiters != [] {
      HeadWaiter(s);
      var h := s.queue.waiters[0];
      assert s.replies[h].received + s.replies[h].buffer == [];
    } else {
      assert forall i | 0 <= i < |s.queue.signals| :: SignalOk(s, s.queue.signals[i]);
    }
  }

  // No wake-up is lost: while messages are queued, every registered channel with a buffer has a token in it, or
  // its owner is draining the queue.
  lemma QueuedMeansSignalled(s: State, c: nat)
    requires Reachable(s) && c in s.queue.signals && s.queue.messages != []
    ensures c < |s.signals|
    ensures s.signals[c].capacity >= 1 ==> s.signals[c].tokens > 0 || s.signals[c].consumer.Draining?
  {
    ReachableOk(s);
    assert SignalOk(s, c);
  }

  // What OfferAll leaves in a channel is what the object's loop leaves in it.
  lemma {:induction false} OfferAllIsOffers(signals: seq<Q.Signal>, registered: seq<nat>, n: nat, c: nat)
    requires n <= |registered| && c < |signals|
    requires forall i | 0 <= i < |registered| :: registered[i] < |signals|
    ensures OfferAll(signals, registered[..n])[c] == Q.Offers(signals[c], Q.Registrations(registered, n, c))
  {
    if n > 0 {
      OfferAllIsOffers(signals, registered, n - 1, c);
      OfferAllSnoc(signals, registered[..n - 1], registered[n - 1], c);
      assert registered[..n] == registered[..n - 1] + [registered[n - 1]];
    }
  }

  lemma {:induction false} OfferAllSnoc(signals: seq<Q.Signal>, registered: seq<nat>, last: nat, c: nat)
    requires c < |signals| && last < |signals|
    requires forall i | 0 <= i < |registered| :: registered[i] < |signals|
    ensures var before := OfferAll(signals, registered);
            OfferAll(signals, registered + [last])[c] == if last == c then Q.Offer(before[c]) else before[c]
    decreases |registered|
  {
    if registered == [] {
      assert ([] + [last])[1..] == [];
    } else {
      var h := registered[0];
      OfferAllSnoc(signals[h := Q.Offer(signals[h])], registered[1..], last, c);
      assert (registered + [last])[1..] == registered[1..] + [last];
    }
  }

  // The runs change the queue exactly as the object's operations do, and every pushed message is logged.
  lemma StepsFollowTheQueue(s: State, e: Step)
    requires Next(s, e).Some?
    ensures Next(s, e).value.queue
         == match e
            case Push(m) => Q.Push(s.queue, m)
            case Pop => Q.Pop(s.queue)
            case DrainPop(_) => Q.Pop(s.queue)
            case Wait => Q.Wait(s.queue, |s.replies|)
            case Register(c) => Q.Register(s.queue, c)
            case Unregister(c) => Q.Unregister(s.queue, c)
            case _ => s.queue
    ensures Next(s, e).value.pushed == if e.Push? then s.pushed + [e.message] else s.pushed
    ensures |Next(s, e).value.replies| == if e.Wait? then |s.replies| + 1 else |s.replies|
  {}

  // Registering adds one registration of that channel, unregistering takes one away if there is one, and nothing
  // else changes who is registered.
  lemma RegistrationsExact(s: State, e: Step)
    requires Next(s, e).Some?
    ensures var before, after := multiset(s.queue.signals), multiset(Next(s, e).value.queue.signals);
            match e
            case Register(c) => after == before + multiset{c}
            case Unregister(c) => after == before - multiset{c}
            case _ => after == before
  {
    if e.Unregister? {
      Q.WithoutFirstCounts(s.queue.signals, e.ch);
    }
  }

  // A push that queues its message wakes every registered owner that is parked, with a buffer or without.
  lemma PushWakesParked(s: State, m: Message, c: nat)
    requires Reachable(s) && s.queue.waiters == [] && c in s.queue.signals
    requires c < |s.signals| && s.signals[c].consumer.Listening?
    ensures PushStep(s, m).Some? && c < |PushStep(s, m).value.signals|
    ensures var g := PushStep(s, m).value.signals[c]; g.tokens > 0 || g.consumer.Draining?
  {
    PushNeverBlocks(s, m);
    var n := |s.queue.signals|;
    assert s.queue.signals[..n] == s.queue.signals;
    OfferAllIsOffers(s.signals, s.queue.signals, n, c);
    Registered(s.queue.signals, n, c);
    TokensWithinCapacity(s, c);
    Q.OffersAre(s.signals[c], Q.Registrations(s.queue.signals, n, c));
  }

  lemma {:induction false} Registered(signals: seq<nat>, n: nat, c: nat)
    requires n <= |signals| && c in signals[..n]
    ensures Q.Registrations(signals, n, c) > 0
  {
    if signals[n - 1] != c {
      assert signals[..n] == signals[..n - 1] + [signals[n - 1]];
      Registered(signals, n - 1, c);
    }
  }

  // No channel ever holds more tokens than its capacity.
  lemma TokensWithinCapacity(s: State, c: nat)
    requires Reachable(s) && c < |s.signals|
    ensures s.signals[c].tokens <= s.signals[c].capacity
  {
    ReachableOk(s);
  }

  // The owner of a registered channel is parked although messages are queued.
  predicate Asleep(s: State, c: nat) {
    && c in s.queue.signals && c < |s.signals|
    && s.queue.messages != [] && s.signals[c].consumer.Listening? && s.signals[c].tokens == 0
  }

  /**
    No wake-up is lost, in any run, for channels with room for a token; a channel without a buffer can lose one.
   */
  lemma NoLostWakeupIffBuffered(capacity: nat)
    ensures (forall s: State, c: nat | Reachable(s) && c < |s.signals| && s.signals[c].capacity == capacity ::
               !Asleep(s, c))
            <==> capacity >= 1
  {
    if capacity >= 1 {
      forall s: State, c: nat | Reachable(s) && c < |s.signals| && s.signals[c].capacity == capacity
        ensures !Asleep(s, c)
      {
        ReachableOk(s);
        assert c in s.queue.signals ==> SignalOk(s, c);
      }
    } else {
      var s := LostWakeup();
      assert s.signals[0].capacity == capacity && Asleep(s, 0);
    }
  }

  // A push while the owner of an unbuffered channel is away: the message is queued and nothing is signalled.
  function Unsignalled(owner: Q.Consumer): State {
    State(Q.Queue(["m"], [], [0]), [], [Q.Signal(0, 0, owner)], ["m"], [])
  }

  function Ready(): State {
    State(Q.Queue([], [], [0]), [], [Q.Signal(0, 0, Q.Away)], [], [])
  }

  lemma InitIsReachable()
    ensures Reachable(Init())
  {
    assert Run(Init(), []) == Some(Init());
  }

  lemma ReachableNext(s: State, e: Step)
    requires Reachable(s) && Next(s, e).Some?
    ensures Reachable(Next(s, e).value)
  {
    var steps :| Run(Init(), steps) == Some(s);
    Snoc(steps, e);
    assert Run(Init(), steps + [e]) == Next(s, e);
  }

  lemma ReadyIsReachable()
    ensures Reachable(Ready())
  {
    InitIsReachable();
    ReachableNext(Init(), NewSignal(0));
    var s := Next(Init(), NewSignal(0)).value;
    ReachableNext(s, Register(0));
    var t := Next(s, Register(0)).value;
    assert t.signals == [Q.Signal(0, 0, Q.Away)] && t.queue.signals == [0];
  }

  lemma PushUnsignalled()
    ensures Next(Ready(), Push("m")) == Some(Unsignalled(Q.Away))
  {
    assert [0][1..] == [];
    var s, t := Ready(), PushStep(Ready(), "m").value;
    assert s.signals[0 := Q.Offer(s.signals[0])] == s.signals;
    assert OfferAll(s.signals, [0]) == s.signals;
    assert t.queue.messages == ["m"] && t.pushed == ["m"];
  }

  // Then the owner listens: nothing wakes it.
  lemma LostWakeup() returns (s: State)
    ensures Reachable(s) && |s.signals| == 1 && s.signals[0].capacity == 0 && Asleep(s, 0)
  {
    ReadyIsReachable();
    PushUnsignalled();
    ReachableNext(Ready(), Push("m"));
    ReachableNext(Unsignalled(Q.Away), Listen(0));
    s := Unsignalled(Q.Listening);
    ListensUnsignalled();
  }

  lemma ListensUnsignalled()
    ensures Next(Unsignalled(Q.Away), Listen(0)) == Some(Unsignalled(Q.Listening))
  {
    assert [Q.Signal(0, 0, Q.Away)][0 := Q.Signal(0, 0, Q.Listening)] == [Q.Signal(0, 0, Q.Listening)];
  }
}
