/**
  The pub/sub message queue. `Queue` is the value of its three slices and the functions on it are what one
  locked operation does; the class is the code, proved against these functions; `PubSubRuns` composes them
  with the callers into whole runs.
 */
module PubSubQueue {

  import opened Wrappers

  // Messages, the channels of callers waiting for one, and the registered signal channels.
  datatype Queue<M, C, S> = Queue(messages: seq<M>, waiters: seq<C>, signals: seq<S>)

  // Push: the longest waiter gets the message, or else it is queued.
  function Push<M, C, S>(q: Queue<M, C, S>, m: M): Queue<M, C, S> {
    if q.waiters != [] then q.(waiters := q.waiters[1..]) else q.(messages := q.messages + [m])
  }

  function Recipient<M, C, S>(q: Queue<M, C, S>): Option<C> {
    if q.waiters != [] then Some(q.waiters[0]) else None
  }

  function Front<M, C, S>(q: Queue<M, C, S>): Option<M> {
    if q.messages != [] then Some(q.messages[0]) else None
  }

  function Pop<M, C, S>(q: Queue<M, C, S>): Queue<M, C, S> {
    if q.messages != [] then q.(messages := q.messages[1..]) else q
  }

  // WaitForMessage with a new channel: a queued message goes into it at once, or else it waits.
  function Wait<M, C, S>(q: Queue<M, C, S>, c: C): Queue<M, C, S> {
    if q.messages != [] then Pop(q) else q.(waiters := q.waiters + [c])
  }

  function Register<M, C, S>(q: Queue<M, C, S>, ch: S): Queue<M, C, S> {
    q.(signals := q.signals + [ch])
  }

  function WithoutFirst<S(==)>(s: seq<S>, ch: S): seq<S> {
    if s == [] then [] else if s[0] == ch then s[1..] else [s[0]] + WithoutFirst(s[1..], ch)
  }

  function Unregister<M, C, S(==)>(q: Queue<M, C, S>, ch: S): Queue<M, C, S> {
    q.(signals := WithoutFirst(q.signals, ch))
  }

  // The owner of a signal channel waits for a token and then pops until the queue is empty.
  datatype Consumer = Away | Listening | Draining

  // A signal channel: its buffer, and where its owner is.
  datatype Signal = Signal(capacity: nat, tokens: nat, consumer: Consumer)

  // A send in a select with a default branch, which never blocks. A full buffer drops the token; without a
  // buffer the send succeeds only if the owner is parked in its receive.
  function Offer(g: Signal): Signal {
    if g.capacity == 0 then
      if g.consumer.Listening? then g.(consumer := Draining) else g
    else if g.tokens < g.capacity then g.(tokens := g.tokens + 1)
    else g
  }

  function Offers(g: Signal, n: nat): Signal {
    if n == 0 then g else Offer(Offers(g, n - 1))
  }

  // n offers fill the buffer as far as it goes and leave the owner where it is; without a buffer the first one
  // that finds the owner parked wakes it.
  lemma {:induction false} OffersAre(g: Signal, n: nat)
    requires g.tokens <= g.capacity
    ensures Offers(g, n).capacity == g.capacity
    ensures Offers(g, n).tokens == if g.tokens + n < g.capacity then g.tokens + n else g.capacity
    ensures Offers(g, n).consumer
         == if g.capacity == 0 && n > 0 && g.consumer == Listening then Draining else g.consumer
  {
    if n > 0 {
      OffersAre(g, n - 1);
    }
  }

  // Removing the first registration takes one away from ch and none from any other channel.
  lemma {:induction false} WithoutFirstCounts<S>(s: seq<S>, ch: S)
    ensures multiset(WithoutFirst(s, ch)) == multiset(s) - multiset{ch}
  {
    if s != [] {
      assert s == [s[0]] + s[1..];
      if s[0] != ch {
        WithoutFirstCounts(s[1..], ch);
      }
    }
  }

  // How often ch is among the first n registrations.
  function Registrations<S(==)>(signals: seq<S>, n: nat, ch: S): nat
    requires n <= |signals|
  {
    if n == 0 then 0
    else Registrations(signals, n - 1, ch) + (if signals[n - 1] == ch then 1 else 0)
  }
}

// The queue object itself, with the channels it sends on.
module PubSubHandler {

  import opened Wrappers
  import Q = PubSubQueue

  // A channel of messages with capacity one.
  class MessageChannel<M> {
    var buffer: seq<M>

    constructor ()
      ensures buffer == []
    {
      buffer := [];
    }

    method Send(m: M)
      requires |buffer| < 1
      modifies this
      ensures buffer == [m]
    {
      buffer := buffer + [m];
    }
  }

  class SignalChannel {
    var state: Q.Signal

    constructor (capacity: nat)
      ensures state == Q.Signal(capacity, 0, Q.Away)
    {
      state := Q.Signal(capacity, 0, Q.Away);
    }

    method Offer()
      modifies this
      ensures state == Q.Offer(old(state))
      ensures state.capacity == old(state).capacity
      ensures old(state).tokens < state.capacity ==> state.tokens == old(state).tokens + 1
      ensures old(state).tokens >= state.capacity ==> state.tokens == old(state).tokens
      ensures state.consumer
           == if state.capacity == 0 && old(state).consumer == Q.Listening then Q.Draining else old(state).consumer
    {
      if state.capacity == 0 {
        if state.consumer.Listening? {
          state := state.(consumer := Q.Draining);
        }
      } else if state.tokens < state.capacity {
        state := state.(tokens := state.tokens + 1);
      }
    }
  }

  method OfferAt(signals: seq<SignalChannel>, i: nat)
    requires i < |signals|
    modifies signals[i]
    ensures forall k | 0 <= k < |signals| ::
              signals[k].state
              == if signals[k] == signals[i] then Q.Offer(old(signals[k].state)) else old(signals[k].state)
  {
    signals[i].Offer();
  }

  // Push's loop over the registered signal channels; a channel registered twice is offered two tokens.
  method SignalAll(signals: seq<SignalChannel>)
    modifies signals
    ensures forall k | 0 <= k < |signals| ::
              signals[k].state
              == Q.Offers(old(signals[k].state), Q.Registrations(signals, |signals|, signals[k]))
  {
    for i := 0 to |signals|
      invariant forall k | 0 <= k < |signals| ::
                  signals[k].state == Q.Offers(old(signals[k].state), Q.Registrations(signals, i, signals[k]))
    {
      OfferAt(signals, i);
    }
  }

  // The loop of UnregisterSignalChannel, up to its break.
  method FirstIndex(signals: seq<SignalChannel>, ch: SignalChannel) returns (idx: nat)
    ensures idx <= |signals| && ch !in signals[..idx]
    ensures idx < |signals| ==> signals[idx] == ch
  {
    idx := 0;
    while idx < |signals| && signals[idx] != ch
      invariant idx <= |signals| && ch !in signals[..idx]
    {
      idx := idx + 1;
    }
  }

  lemma {:induction false} RemoveAt(s: seq<SignalChannel>, ch: SignalChannel, idx: nat)
    requires idx <= |s| && ch !in s[..idx] && (idx < |s| ==> s[idx] == ch)
    ensures Q.WithoutFirst(s, ch) == if idx < |s| then s[..idx] + s[idx + 1..] else s
    decreases |s|
  {
    if idx > 0 {
      assert s[..idx][0] == s[0];
      assert s[1..][..idx - 1] == s[..idx][1..];
      RemoveAt(s[1..], ch, idx - 1);
    }
  }

  class PubSubMessageQueue<M> {
    var messages: seq<M>
    var waiters: seq<MessageChannel<M>>
    var nextMessageReady: SignalChannel
    var signals: seq<SignalChannel>

    ghost function Value(): Q.Queue<M, MessageChannel<M>, SignalChannel>
      reads this
    {
      Q.Queue(messages, waiters, signals)
    }

    ghost function Repr(): set<object>
      reads this
    {
      {this, nextMessageReady} + (set c | c in waiters) + (set c | c in signals)
    }

    ghost predicate Valid()
      reads this, Repr()
    {
      && (messages == [] || waiters == [])
      && (forall i, j | 0 <= i < j < |waiters| :: waiters[i] != waiters[j])
      && (forall i | 0 <= i < |waiters| :: waiters[i].buffer == [])
      && nextMessageReady !in signals && nextMessageReady.state.capacity == 1 && nextMessageReady.state.tokens <= 1
    }

    constructor ()
      ensures Valid() && Value() == Q.Queue([], [], []) && fresh(Repr())
    {
      messages := [];
      waiters := [];
      signals := [];
      nextMessageReady := new SignalChannel(1);
    }

    method Push(m: M)
      requires Valid()
      modifies this`messages, this`waiters, nextMessageReady, waiters, signals
      ensures Valid()
      ensures Value() == Q.Push(old(Value()), m)
      ensures old(waiters) != [] ==>
                && waiters == old(waiters)[1..] && messages == old(messages)
                && old(waiters)[0].buffer == [m]
                && forall ch | ch in signals :: ch.state == old(ch.state)
      ensures old(waiters) == [] ==>
                && waiters == [] && messages == old(messages) + [m]
                && nextMessageReady.state.tokens == 1
                && forall ch | ch in signals ::
                     ch.state == Q.Offers(old(ch.state), Q.Registrations(signals, |signals|, ch))
      ensures forall c | c in waiters :: c.buffer == old(c.buffer)
    {
      if |waiters| > 0 {
        var waiter := waiters[0];
        waiters := waiters[1..];
        waiter.Send(m);
        return;
      }
      messages := messages + [m];
      nextMessageReady.Offer();
      SignalAll(signals);
    }

    method Pop() returns (m: Option<M>)
      requires Valid()
      modifies this`messages
      ensures Valid()
      ensures Value() == Q.Pop(old(Value()))
      ensures m == Q.Front(old(Value()))
      ensures old(messages) == [] ==> m == None && messages == []
      ensures old(messages) != [] ==> m == Some(old(messages)[0]) && messages == old(messages)[1..]
    {
      if |messages| == 0 {
        return None;
      }
      m := Some(messages[0]);
      messages := messages[1..];
    }

    method WaitForMessage() returns (c: MessageChannel<M>)
      requires Valid()
      modifies this`messages, this`waiters
      ensures Valid() && fresh(c)
      ensures Value() == Q.Wait(old(Value()), c)
      ensures old(messages) == [] ==> c.buffer == [] && messages == [] && waiters == old(waiters) + [c]
      ensures old(messages) != [] ==>
                c.buffer == [old(messages)[0]] && messages == old(messages)[1..] && waiters == old(waiters)
    {
      c := new MessageChannel<M>();
      if |messages| > 0 {
        c.Send(messages[0]);
        messages := messages[1..];
        return;
      }
      waiters := waiters + [c];
    }

    method RegisterSignalChannel(ch: SignalChannel)
      requires Valid() && ch != nextMessageReady
      modifies this`signals, ch
      ensures Valid()
      ensures Value() == Q.Register(old(Value()), ch)
      ensures signals == old(signals) + [ch]
      ensures ch.state == if messages != [] then Q.Offer(old(ch.state)) else old(ch.state)
    {
      signals := signals + [ch];
      if |messages| > 0 {
        ch.Offer();
      }
    }

    method UnregisterSignalChannel(ch: SignalChannel)
      requires Valid()
      modifies this`signals
      ensures Valid()
      ensures Value() == Q.Unregister(old(Value()), ch)
      ensures ch !in old(signals) ==> signals == old(signals)
      ensures ch in old(signals) ==>
                exists i :: 0 <= i < |old(signals)| && old(signals)[i] == ch && ch !in old(signals)[..i]
                            && signals == old(signals)[..i] + old(signals)[i + 1..]
    {
      var idx := FirstIndex(signals, ch);
      RemoveAt(signals, ch, idx);
      if idx < |signals| {
        signals := signals[..idx] + signals[idx + 1..];
      }
    }
  }
}
