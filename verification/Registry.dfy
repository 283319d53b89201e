/**
  The sharded request registry and the parts of a client that use it, as the sequential code inside their
  locks. The registry's `Flat` view is the `registry` map of the claim protocol.
 */
module Registry {

  import opened Wrappers

  const SHARD_COUNT := 64
  const COUNTER_RANGE := 0x1_0000_0000_0000_0000

  // uintptr has 64 or 32 bits; the 64-bit counter is truncated to it.
  function WordSize(wide: bool): nat {
    if wide then COUNTER_RANGE else 0x1_0000_0000
  }

  function Truncate(n: nat, wide: bool): (id: nat)
    ensures id < WordSize(wide)
  {
    if wide then n % COUNTER_RANGE else n % 0x1_0000_0000
  }

  // The ID tried at the k-th attempt after the counter stood at `base`.
  function Attempt(base: nat, k: nat, wide: bool): (id: nat) {
    Truncate(base + k, wide)
  }

  lemma CounterTruncates(base: nat, k: nat, wide: bool)
    ensures Truncate((base + k) % COUNTER_RANGE, wide) == Attempt(base, k, wide)
  {}

  lemma CounterSteps(base: nat, k: nat)
    ensures ((base + k) % COUNTER_RANGE + 1) % COUNTER_RANGE == (base + (k + 1)) % COUNTER_RANGE
  {}

  // Attempts do not repeat within a word size of steps.
  lemma NoRepeat(base: nat, wide: bool, j: nat, k: nat)
    requires j < k < j + WordSize(wide)
    ensures Attempt(base, j, wide) != Attempt(base, k, wide)
  {}

  // The first `tries` attempts, as a set.
  ghost function Attempts(base: nat, tries: nat, wide: bool): (ids: set<nat>)
  {
    set k | 1 <= k <= tries :: Attempt(base, k, wide)
  }

  // Pigeonhole: `tries` attempts that all hit `taken` need `tries` elements of it.
  lemma {:induction false} AttemptsDistinct(base: nat, tries: nat, wide: bool)
    requires tries <= WordSize(wide)
    ensures |Attempts(base, tries, wide)| == tries
  {
    if tries == 0 {
      assert Attempts(base, tries, wide) == {};
    } else {
      AttemptsDistinct(base, tries - 1, wide);
      LastIsNew(base, tries, wide);
      LastAdded(base, tries, wide);
    }
  }

  lemma LastIsNew(base: nat, tries: nat, wide: bool)
    requires 1 <= tries <= WordSize(wide)
    ensures Attempt(base, tries, wide) !in Attempts(base, tries - 1, wide)
  {
    forall k | 1 <= k <= tries - 1
      ensures Attempt(base, k, wide) != Attempt(base, tries, wide)
    {
      NoRepeat(base, wide, k, tries);
    }
  }

  lemma LastAdded(base: nat, tries: nat, wide: bool)
    requires 1 <= tries
    ensures Attempts(base, tries, wide) == Attempts(base, tries - 1, wide) + {Attempt(base, tries, wide)}
  {}

  ghost predicate AllTaken(base: nat, tries: nat, wide: bool, taken: set<nat>) {
    forall k | 1 <= k <= tries :: Attempt(base, k, wide) in taken
  }

  lemma AttemptsBounded(base: nat, tries: nat, wide: bool, taken: set<nat>)
    requires tries <= WordSize(wide) && AllTaken(base, tries, wide, taken)
    ensures tries <= |taken|
  {
    AttemptsDistinct(base, tries, wide);
    SubsetSize(Attempts(base, tries, wide), taken);
  }

  // The IDs the loop passes over.
  ghost function Taken(live: set<nat>): set<nat> {
    live + {0}
  }

  lemma TakenSize(live: set<nat>)
    ensures |Taken(live)| <= |live| + 1
  {}

  lemma OneMoreTaken(base: nat, tries: nat, wide: bool, taken: set<nat>)
    requires tries <= |taken| < WordSize(wide)
    requires AllTaken(base, tries, wide, taken) && Attempt(base, tries + 1, wide) in taken
    ensures AllTaken(base, tries + 1, wide, taken) && tries + 1 <= |taken|
  {
    AttemptsBounded(base, tries + 1, wide, taken);
  }

  class RequestRegistry<Ch> {
    const wide: bool
    const shards: array<map<nat, Ch>>
    var nextRequestId: nat

    // A shard only holds IDs that hash to it.
    ghost predicate ShardsOk()
      reads shards
    {
      && shards.Length == SHARD_COUNT
      && forall i, id | 0 <= i < SHARD_COUNT && id in shards[i] ::
           0 < id < WordSize(wide) && id % SHARD_COUNT == i
    }

    ghost predicate Valid()
      reads this, shards
    {
      nextRequestId < COUNTER_RANGE && ShardsOk()
    }

    // The registry as one map.
    ghost function Flat(): (m: map<nat, Ch>)
      reads shards
      requires ShardsOk()
    {
      map id | 0 <= id < WordSize(wide) && id in shards[id % SHARD_COUNT] :: shards[id % SHARD_COUNT][id]
    }

    constructor (wide: bool)
      ensures Valid() && Flat() == map[] && this.wide == wide && fresh(shards)
    {
      this.wide := wide;
      shards := new map<nat, Ch>[SHARD_COUNT](_ => map[]);
      nextRequestId := 0;
    }

    // The locked part of an attempt.
    method InsertIfAbsent(id: nat, ch: Ch) returns (inserted: bool)
      requires ShardsOk() && 0 < id < WordSize(wide)
      modifies shards
      ensures ShardsOk()
      ensures inserted <==> id !in old(Flat())
      ensures Flat() == if inserted then old(Flat())[id := ch] else old(Flat())
    {
      var shard := id % SHARD_COUNT;
      inserted := id !in shards[shard];
      if inserted {
        shards[shard] := shards[shard][id := ch];
      }
    }

    // nextRequestID.Add(1), truncated.
    method NextAttempt(ghost base: nat, ghost k: nat) returns (id: nat)
      requires nextRequestId == (base + k) % COUNTER_RANGE
      modifies this`nextRequestId
      ensures nextRequestId == (base + (k + 1)) % COUNTER_RANGE
      ensures id == Attempt(base, k + 1, wide)
    {
      CounterSteps(base, k);
      nextRequestId := (nextRequestId + 1) % COUNTER_RANGE;
      CounterTruncates(base, k + 1, wide);
      id := Truncate(nextRequestId, wide);
    }

    // One turn of the loop: draw an ID, and insert it unless it is zero or in use.
    method TryOnce(ghost base: nat, ghost k: nat, ghost flat: map<nat, Ch>, ch: Ch) returns (id: nat, inserted: bool)
      requires Valid() && nextRequestId == (base + k) % COUNTER_RANGE && Flat() == flat
      modifies this`nextRequestId, shards
      ensures Valid() && nextRequestId == (base + (k + 1)) % COUNTER_RANGE
      ensures id == Attempt(base, k + 1, wide)
      ensures inserted <==> id !in Taken(flat.Keys)
      ensures Flat() == if inserted then flat[id := ch] else flat
    {
      id := NextAttempt(base, k);
      inserted := false;
      if id != 0 {
        inserted := InsertIfAbsent(id, ch);
      }
    }

    // `tries` draws since the counter was at `base` have all hit an ID in use, or zero.
    ghost predicate Searching(base: nat, tries: nat, flat: map<nat, Ch>)
      reads this, shards
    {
      && Valid() && Flat() == flat && nextRequestId == (base + tries) % COUNTER_RANGE
      && tries <= |Taken(flat.Keys)| < WordSize(wide)
      && AllTaken(base, tries, wide, Taken(flat.Keys))
    }

    // The draw after that hit a free one, and the registry has it.
    ghost predicate Found(base: nat, tries: nat, flat: map<nat, Ch>, id: nat, ch: Ch)
      reads this, shards
    {
      && Valid() && Flat() == flat[id := ch]
      && id == Attempt(base, tries + 1, wide) && id !in Taken(flat.Keys)
      && tries <= |Taken(flat.Keys)|
      && AllTaken(base, tries, wide, Taken(flat.Keys))
    }

    method Turn(ghost base: nat, ghost tries: nat, ghost flat: map<nat, Ch>, ch: Ch) returns (id: nat, inserted: bool)
      requires Searching(base, tries, flat)
      modifies this`nextRequestId, shards
      ensures inserted ==> Found(base, tries, flat, id, ch)
      ensures !inserted ==> Searching(base, tries + 1, flat) && tries + 1 <= |Taken(flat.Keys)|
    {
      id, inserted := TryOnce(base, tries, flat, ch);
      if !inserted {
        OneMoreTaken(base, tries, wide, Taken(flat.Keys));
      }
    }

    // The loop ends because the IDs it rejects are distinct and each of them is zero or in use.
    method Search(ghost base: nat, ghost flat: map<nat, Ch>, ch: Ch) returns (id: nat, ghost rejected: nat)
      requires Searching(base, 0, flat)
      modifies this`nextRequestId, shards
      ensures Found(base, rejected, flat, id, ch)
    {
      rejected := 0;
      while true
        invariant Searching(base, rejected, flat)
        decreases |Taken(flat.Keys)| - rejected
      {
        var inserted;
        id, inserted := Turn(base, rejected, flat, ch);
        if inserted {
          return;
        }
        rejected := rejected + 1;
      }
    }

    lemma StartSearch()
      requires Valid() && |Flat()| < WordSize(wide) - 1
      ensures Searching(nextRequestId, 0, Flat())
    {
      TakenSize(Flat().Keys);
    }

    // Hands out the first ID that is non-zero and not in use.
    method Register(ch: Ch) returns (id: nat, ghost tries: nat)
      requires Valid() && |Flat()| < WordSize(wide) - 1
      modifies this`nextRequestId, shards
      ensures Valid()
      ensures id != 0 && id !in old(Flat())
      ensures Flat() == old(Flat())[id := ch]
      ensures 1 <= tries <= |old(Flat())| + 2
      ensures id == Attempt(old(nextRequestId), tries, wide)
      ensures AllTaken(old(nextRequestId), tries - 1, wide, Taken(old(Flat().Keys)))
    {
      StartSearch();
      TakenSize(Flat().Keys);
      id, tries := Search(nextRequestId, Flat(), ch);
      tries := tries + 1;
    }

    // Claims an ID: whoever finds it removes it.
    method Take(id: nat) returns (found: Option<Ch>)
      requires ShardsOk()
      modifies shards
      ensures ShardsOk()
      ensures Flat() == old(Flat()) - {id}
      ensures found == if id in old(Flat()) then Some(old(Flat())[id]) else None
    {
      var shard := id % SHARD_COUNT;
      if id in shards[shard] {
        found := Some(shards[shard][id]);
        shards[shard] := shards[shard] - {id};
      } else {
        found := None;
      }
    }
  }
}
