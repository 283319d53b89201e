/**
  Borrowing a client from the pool: try, sleep with capped doubling backoff, try again until the deadline.
  Times are in nanoseconds since the call; the pool's answers, the context and the clock are inputs.
 */
module Pool {

  const MILLISECOND := 1_000_000
  const MAX_BACKOFF := 50 * MILLISECOND

  datatype Outcome = Acquired(client: nat) | PoolClosed | Cancelled | Destroyed | Exhausted

  function NextBackoff(backoff: nat): nat {
    if 2 * backoff > MAX_BACKOFF then MAX_BACKOFF else 2 * backoff
  }

  function Sleep(backoff: nat, remaining: int): int {
    if backoff > remaining then remaining else backoff
  }

  function Positive(n: int): nat {
    if n > 0 then n else 0
  }

  // How many sleeps use up the time remaining when no time passes otherwise.
  function Sleeps(remaining: int, backoff: nat): nat
    requires backoff > 0
    decreases remaining
  {
    if remaining <= 0 then 0 else 1 + Sleeps(remaining - Sleep(backoff, remaining), NextBackoff(backoff))
  }

  // An attempt that found no idle client in a pool that exists.
  predicate Missed(answer: int) {
    answer < 0 && answer != -2
  }

  lemma {:induction false} SleepsMonotone(less: int, more: int, backoff: nat)
    requires less <= more && backoff > 0
    ensures Sleeps(less, backoff) <= Sleeps(more, backoff)
    decreases more
  {
    if less > 0 {
      SleepsMonotone(less - Sleep(backoff, less), more - Sleep(backoff, more), NextBackoff(backoff));
    }
  }

  lemma {:induction false} SleepsAtCap(remaining: int)
    ensures remaining > 0 ==> Sleeps(remaining, MAX_BACKOFF) <= 1 + remaining / MAX_BACKOFF
    decreases remaining
  {
    if remaining > MAX_BACKOFF {
      SleepsAtCap(remaining - MAX_BACKOFF);
    } else if remaining > 0 {
      assert Sleeps(0, MAX_BACKOFF) == 0;
    }
  }

  // How often the backoff doubles before it is capped.
  function Doublings(backoff: nat): nat
    requires 0 < backoff <= MAX_BACKOFF
    decreases MAX_BACKOFF - backoff
  {
    if backoff == MAX_BACKOFF then 0 else 1 + Doublings(NextBackoff(backoff))
  }

  lemma {:induction false} SleepsWhileDoubling(remaining: int, backoff: nat)
    requires 0 < backoff <= MAX_BACKOFF && remaining >= 0
    ensures Sleeps(remaining, backoff) <= Doublings(backoff) + 1 + remaining / MAX_BACKOFF
    decreases MAX_BACKOFF - backoff
  {
    if backoff == MAX_BACKOFF {
      SleepsAtCap(remaining);
    } else if remaining > 0 {
      var rest := remaining - Sleep(backoff, remaining);
      SleepsWhileDoubling(rest, NextBackoff(backoff));
      assert rest / MAX_BACKOFF <= remaining / MAX_BACKOFF;
    }
  }

  lemma SleepsBound(timeout: int)
    requires timeout >= 0
    ensures Sleeps(timeout, MILLISECOND) <= 7 + timeout / MAX_BACKOFF
  {
    assert Doublings(MILLISECOND) == 6;
    SleepsWhileDoubling(timeout, MILLISECOND);
  }

  // The sleeps as planned: 1, 2, 4, 8, 16 and 32 milliseconds, then 50 each time.
  function Planned(i: nat): nat {
    if i == 0 then 1_000_000
    else if i == 1 then 2_000_000
    else if i == 2 then 4_000_000
    else if i == 3 then 8_000_000
    else if i == 4 then 16_000_000
    else if i == 5 then 32_000_000
    else 50_000_000
  }

  lemma BackoffFollowsPlan(i: nat)
    ensures NextBackoff(Planned(i)) == Planned(i + 1)
  {}

  /**
    The clock as the plan has it, with lag(i) the time that passes in turn i besides its sleep: when turn i starts,
    when it reads the clock, and how long it then sleeps, as planned but no longer than the time remaining.
   */
  function StartOf(timeout: int, lag: nat -> nat, i: nat): int
    decreases i, 0
  {
    if i == 0 then 0 else ReadingOf(timeout, lag, i - 1) + NapOf(timeout, lag, i - 1)
  }

  function ReadingOf(timeout: int, lag: nat -> nat, i: nat): int
    decreases i, 1
  {
    StartOf(timeout, lag, i) + lag(i)
  }

  function NapOf(timeout: int, lag: nat -> nat, i: nat): int
    decreases i, 2
  {
    var remaining := timeout - ReadingOf(timeout, lag, i);
    if Planned(i) <= remaining then Planned(i) else remaining
  }

  // The first n sleeps in all.
  function Total(timeout: int, lag: nat -> nat, n: nat): int {
    if n == 0 then 0 else Total(timeout, lag, n - 1) + NapOf(timeout, lag, n - 1)
  }

  ghost predicate Prompt(lag: nat -> nat) {
    forall i :: lag(i) == 0
  }

  // What holds at the start of each turn: the sleeps still to come, with those made, are within the bound, and
  // without delays they are exactly as many.
  ghost predicate Budgeted(timeout: int, lag: nat -> nat, turn: nat, awake: int, total: int) {
    && 0 <= total <= awake && total <= Positive(timeout)
    && turn + Sleeps(timeout - awake, Planned(turn)) <= Sleeps(timeout, MILLISECOND)
    && (Prompt(lag) ==>
          awake == total && turn + Sleeps(timeout - awake, Planned(turn)) == Sleeps(timeout, MILLISECOND))
  }

  lemma TurnExhausts(timeout: int, lag: nat -> nat, turn: nat, awake: int, total: int)
    requires Budgeted(timeout, lag, turn, awake, total) && awake + lag(turn) >= timeout
    ensures turn <= Sleeps(timeout, MILLISECOND)
    ensures Prompt(lag) ==> turn == Sleeps(timeout, MILLISECOND) && total == Positive(timeout)
  {}

  lemma TurnSleeps(timeout: int, lag: nat -> nat, turn: nat, awake: int, total: int)
    requires Budgeted(timeout, lag, turn, awake, total) && awake + lag(turn) < timeout
    ensures var now := awake + lag(turn);
            var nap := Sleep(Planned(turn), timeout - now);
            nap > 0 && Budgeted(timeout, lag, turn + 1, now + nap, total + nap)
  {
    var now := awake + lag(turn);
    SleepsMonotone(timeout - now, timeout - awake, Planned(turn));
    BackoffFollowsPlan(turn);
  }

  // Turns 0 to n - 1 all went to sleep.
  ghost predicate Slept(timeout: int, lag: nat -> nat, n: nat) {
    n == 0 || (Slept(timeout, lag, n - 1) && ReadingOf(timeout, lag, n - 1) < timeout)
  }

  lemma AfterNap(timeout: int, lag: nat -> nat, n: nat)
    requires n > 0
    ensures var now := StartOf(timeout, lag, n - 1) + lag(n - 1);
            var nap := Sleep(Planned(n - 1), timeout - now);
            && StartOf(timeout, lag, n) == now + nap
            && Total(timeout, lag, n) == Total(timeout, lag, n - 1) + nap
  {}

  lemma BudgetAfterNap(timeout: int, lag: nat -> nat, n: nat)
    requires n > 0 && ReadingOf(timeout, lag, n - 1) < timeout
    requires Budgeted(timeout, lag, n - 1, StartOf(timeout, lag, n - 1), Total(timeout, lag, n - 1))
    ensures Budgeted(timeout, lag, n, StartOf(timeout, lag, n), Total(timeout, lag, n))
  {
    AfterNap(timeout, lag, n);
    BudgetStep(timeout, lag, n, StartOf(timeout, lag, n - 1), Total(timeout, lag, n - 1), StartOf(timeout, lag, n),
               Total(timeout, lag, n));
  }

  lemma BudgetStep(timeout: int, lag: nat -> nat, n: nat, a: int, t: int, a': int, t': int)
    requires n > 0 && Budgeted(timeout, lag, n - 1, a, t) && a + lag(n - 1) < timeout
    requires var nap := Sleep(Planned(n - 1), timeout - (a + lag(n - 1))); a' == a + lag(n - 1) + nap && t' == t + nap
    ensures Budgeted(timeout, lag, n, a', t')
  {
    TurnSleeps(timeout, lag, n - 1, a, t);
  }

  lemma {:induction false} Budget(timeout: int, lag: nat -> nat, n: nat)
    requires Slept(timeout, lag, n)
    ensures Budgeted(timeout, lag, n, StartOf(timeout, lag, n), Total(timeout, lag, n))
  {
    if n > 0 {
      Budget(timeout, lag, n - 1);
      BudgetAfterNap(timeout, lag, n);
    }
  }

  // What the sleeps amount to when turn n is the last one.
  lemma SleptBounds(timeout: int, lag: nat -> nat, n: nat)
    requires Slept(timeout, lag, n)
    ensures 0 <= Total(timeout, lag, n) <= Positive(timeout) && n <= Sleeps(timeout, MILLISECOND)
    ensures Prompt(lag) && ReadingOf(timeout, lag, n) >= timeout ==>
              n == Sleeps(timeout, MILLISECOND) && Total(timeout, lag, n) == Positive(timeout)
  {
    Budget(timeout, lag, n);
    if ReadingOf(timeout, lag, n) >= timeout {
      TurnExhausts(timeout, lag, n, StartOf(timeout, lag, n), Total(timeout, lag, n));
    }
  }

  // The sleeps made are those of the plan, each made before the deadline.
  ghost predicate NapsKept(timeout: int, lag: nat -> nat, naps: seq<int>) {
    forall i {:trigger naps[i]} | 0 <= i < |naps| ::
      ReadingOf(timeout, lag, i) < timeout && naps[i] == NapOf(timeout, lag, i)
  }

  lemma {:induction false} KeptIsSlept(timeout: int, lag: nat -> nat, naps: seq<int>, n: nat)
    requires NapsKept(timeout, lag, naps) && n <= |naps|
    ensures Slept(timeout, lag, n)
  {
    if n > 0 {
      KeptIsSlept(timeout, lag, naps, n - 1);
      assert naps[n - 1] == NapOf(timeout, lag, n - 1);
    }
  }

  lemma NextTurn(timeout: int, lag: nat -> nat, naps: seq<int>, now: int, nap: int)
    requires NapsKept(timeout, lag, naps) && now == StartOf(timeout, lag, |naps|) + lag(|naps|) && now < timeout
    requires nap == Sleep(Planned(|naps|), timeout - now)
    ensures NapsKept(timeout, lag, naps + [nap]) && nap > 0
    ensures StartOf(timeout, lag, |naps| + 1) == now + nap
  {
    AfterNap(timeout, lag, |naps| + 1);
    NapsGrow(timeout, lag, naps);
  }

  lemma NapsGrow(timeout: int, lag: nat -> nat, naps: seq<int>)
    requires NapsKept(timeout, lag, naps) && ReadingOf(timeout, lag, |naps|) < timeout
    ensures NapsKept(timeout, lag, naps + [NapOf(timeout, lag, |naps|)])
  {}

  // What the sleeps made amount to.
  lemma KeptBounds(timeout: int, lag: nat -> nat, naps: seq<int>)
    requires NapsKept(timeout, lag, naps)
    ensures 0 <= Total(timeout, lag, |naps|) <= Positive(timeout) && |naps| <= Sleeps(timeout, MILLISECOND)
    ensures timeout >= 0 ==> |naps| <= 7 + timeout / 50_000_000
    ensures Prompt(lag) && ReadingOf(timeout, lag, |naps|) >= timeout ==>
              |naps| == Sleeps(timeout, MILLISECOND) && Total(timeout, lag, |naps|) == Positive(timeout)
  {
    KeptIsSlept(timeout, lag, naps, |naps|);
    SleptBounds(timeout, lag, |naps|);
    if timeout >= 0 {
      SleepsBound(timeout);
    }
  }

  ghost predicate AllMissed(tries: nat -> int, cancelled: nat -> bool, n: nat) {
    forall i | 0 <= i < n :: !cancelled(i) && Missed(tries(i))
  }

  /**
    The loop on an open pool. tries(i), cancelled(i) and lag(i) are what its i-th turn sees: the pool's answer,
    whether the context is done, and the time that passed besides the requested sleep. `naps` are its sleeps.
   */
  method AcquireLoop(timeout: int, tries: nat -> int, cancelled: nat -> bool, lag: nat -> nat)
    returns (r: Outcome, attempts: nat, naps: seq<int>)
    ensures NapsKept(timeout, lag, naps) && AllMissed(tries, cancelled, |naps|)
    ensures match r
            case Acquired(client) => !cancelled(|naps|) && tries(|naps|) == client
            case Destroyed => !cancelled(|naps|) && tries(|naps|) == -2
            case Cancelled => cancelled(|naps|)
            case Exhausted =>
              !cancelled(|naps|) && Missed(tries(|naps|)) && ReadingOf(timeout, lag, |naps|) >= timeout
            case PoolClosed => false
    ensures attempts == if r.Cancelled? then |naps| else |naps| + 1
  {
    attempts, naps := 0, [];
    var backoff: nat := MILLISECOND;
    var awake := 0;
    while true
      invariant |naps| == attempts && backoff == Planned(attempts) && awake == StartOf(timeout, lag, attempts)
      invariant NapsKept(timeout, lag, naps) && AllMissed(tries, cancelled, attempts)
      decreases timeout - awake
    {
      if cancelled(attempts) {
        return Cancelled, attempts, naps;
      }
      var answer := tries(attempts);
      if answer >= 0 {
        return Acquired(answer), attempts + 1, naps;
      }
      if answer == -2 {
        return Destroyed, attempts + 1, naps;
      }
      var now := awake + lag(attempts);
      var remaining := timeout - now;
      if remaining <= 0 {
        return Exhausted, attempts + 1, naps;
      }
      var sleep := Sleep(backoff, remaining);
      NextTurn(timeout, lag, naps, now, sleep);
      BackoffFollowsPlan(attempts);
      naps := naps + [sleep];
      awake := now + sleep;
      backoff := NextBackoff(backoff);
      attempts := attempts + 1;
    }
  }

  method AcquireWithTimeout(closed: bool, timeout: int, tries: nat -> int, cancelled: nat -> bool, lag: nat -> nat)
    returns (r: Outcome, attempts: nat, naps: seq<int>)
    ensures r.PoolClosed? <==> closed
    ensures attempts == 0 <==> closed || cancelled(0)
    ensures forall i | 0 <= i < attempts :: !cancelled(i)
    ensures forall i | 0 <= i < attempts - 1 :: Missed(tries(i))
    ensures match r
            case Acquired(client) => attempts > 0 && tries(attempts - 1) == client
            case Destroyed => attempts > 0 && tries(attempts - 1) == -2
            case Cancelled => cancelled(attempts) && (attempts > 0 ==> Missed(tries(attempts - 1)))
            case Exhausted =>
              attempts > 0 && Missed(tries(attempts - 1)) && ReadingOf(timeout, lag, attempts - 1) >= timeout
            case PoolClosed => attempts == 0 && naps == []
    ensures NapsKept(timeout, lag, naps)
    ensures 0 <= Total(timeout, lag, |naps|) <= Positive(timeout)
    ensures attempts <= 1 + Sleeps(timeout, MILLISECOND)
    ensures timeout >= 0 ==> attempts <= 8 + timeout / 50_000_000
    ensures Prompt(lag) && r.Exhausted? ==>
              attempts == 1 + Sleeps(timeout, MILLISECOND) && Total(timeout, lag, |naps|) == Positive(timeout)
  {
    if closed {
      return PoolClosed, 0, [];
    }
    r, attempts, naps := AcquireLoop(timeout, tries, cancelled, lag);
    KeptBounds(timeout, lag, naps);
  }
}
