/**
  The hash slot of a key: which bytes of the key are hashed, and the bitwise CRC that hashes them.
  Words are numbers below 2^16; shifting left doubles and truncates. Module `SlotAlgebra` says what the
  loops compute.
 */
module Slot {
  import opened Gf2
  import opened Bytes

  type Word = w: nat | w < 0x10000

  const OPEN: Byte := 0x7B      // '{'
  const CLOSE: Byte := 0x7D     // '}'
  const POLYNOMIAL: Word := 0x1021
  const SLOTS := 16384

  lemma {:induction false} XorBelow(a: nat, b: nat, k: nat)
    requires a < Pow2(k) && b < Pow2(k)
    ensures Xor(a, b) < Pow2(k)
  {
    if a != 0 && b != 0 { XorBelow(a / 2, b / 2, k - 1); }
  }

  lemma WordRange()
    ensures Pow2(8) == 0x100 && Pow2(15) == 0x8000 && Pow2(16) == 0x10000
  {
    assert Pow2(4) == 0x10;
    assert Pow2(8) == 0x100;
    assert Pow2(12) == 0x1000;
  }

  function XorWord(a: Word, b: Word): (r: Word)
    ensures r == Xor(a, b)
  {
    WordRange();
    XorBelow(a, b, 16);
    Xor(a, b)
  }

  // One turn of the inner loop. The top bit of a word is set when the word is at least 0x8000.
  function BitStep(crc: Word): Word {
    if crc >= 0x8000 then XorWord(2 * crc % 0x10000, POLYNOMIAL) else 2 * crc % 0x10000
  }

  function Steps(crc: Word, n: nat): Word {
    if n == 0 then crc else BitStep(Steps(crc, n - 1))
  }

  // One turn of the outer loop.
  function ByteStep(crc: Word, b: Byte): Word {
    Steps(XorWord(crc, b * 0x100), 8)
  }

  function Crc(key: ByteString): Word {
    if key == [] then 0 else ByteStep(Crc(key[..|key| - 1]), key[|key| - 1])
  }

  // `i` is the first position at or after `from` that holds `b`.
  ghost predicate FirstAt(s: ByteString, b: Byte, from: nat, i: nat) {
    from <= i < |s| && s[i] == b && forall j | from <= j < i :: s[j] != b
  }

  // The first '{' is at `i`, the first '}' after it at `j`, and there is something between them.
  ghost predicate TagAt(key: ByteString, i: nat, j: nat) {
    FirstAt(key, OPEN, 0, i) && FirstAt(key, CLOSE, i + 1, j) && j > i + 1
  }

  // What is hashed, as the Valkey cluster specification has it: the bytes between the first '{' and the first
  // '}' after it if there are any, else the whole key.
  ghost function Hashed(key: ByteString): ByteString {
    if i: nat, j: nat :| TagAt(key, i, j) then key[i + 1..j] else key
  }

  ghost function SlotOf(key: ByteString): nat {
    Crc(Hashed(key)) % SLOTS
  }

  lemma TagAtUnique(key: ByteString, i: nat, j: nat, i': nat, j': nat)
    requires FirstAt(key, OPEN, 0, i) && FirstAt(key, CLOSE, i + 1, j) && TagAt(key, i', j')
    ensures i == i' && j == j'
  {}

  lemma HashedTag(key: ByteString, i: nat, j: nat)
    requires TagAt(key, i, j)
    ensures Hashed(key) == key[i + 1..j]
  {
    forall i': nat, j': nat | TagAt(key, i', j') ensures i' == i && j' == j {
      TagAtUnique(key, i, j, i', j');
    }
  }

  // The two loops that narrow `key` down to its hash tag.
  method HashedPart(key: ByteString) returns (part: ByteString)
    ensures part == Hashed(key)
  {
    part := key;
    var start := 0;
    while start < |key| && key[start] != OPEN
      invariant 0 <= start <= |key|
      invariant forall j | 0 <= j < start :: key[j] != OPEN
    {
      start := start + 1;
    }
    if start == |key| {
      return;
    }
    assert FirstAt(key, OPEN, 0, start);
    var i := start + 1;
    while i < |key| && key[i] != CLOSE
      invariant start + 1 <= i <= |key|
      invariant forall j | start + 1 <= j < i :: key[j] != CLOSE
    {
      i := i + 1;
    }
    if i == |key| {
      assert forall i': nat, j': nat | TagAt(key, i', j') :: i' == start;
      return;
    }
    assert FirstAt(key, CLOSE, start + 1, i);
    if i != start + 1 {
      part := key[start + 1..i];
      HashedTag(key, start, i);
    } else {
      forall i': nat, j': nat | TagAt(key, i', j') ensures i' == start && j' == i {
        TagAtUnique(key, start, i, i', j');
      }
    }
  }

  // The inner loop: eight shifts.
  method ByteLoop(start: Word, b: Byte) returns (crc: Word)
    ensures crc == ByteStep(start, b)
  {
    crc := XorWord(start, b * 0x100);
    ghost var mixed := crc;
    var j := 0;
    while j < 8
      invariant 0 <= j <= 8
      invariant crc == Steps(mixed, j)
    {
      if crc >= 0x8000 {
        crc := XorWord(2 * crc % 0x10000, POLYNOMIAL);
      } else {
        crc := 2 * crc % 0x10000;
      }
      j := j + 1;
    }
  }

  method SlotForKey(key: ByteString) returns (slot: nat)
    ensures slot == SlotOf(key) && slot < SLOTS
  {
    var hashed := HashedPart(key);
    var crc := 0;
    var i := 0;
    while i < |hashed|
      invariant 0 <= i <= |hashed|
      invariant crc == Crc(hashed[..i])
    {
      crc := ByteLoop(crc, hashed[i]);
      assert hashed[..i + 1][..i] == hashed[..i];
      i := i + 1;
    }
    assert hashed[..|hashed|] == hashed;
    slot := crc % SLOTS;
  }

  // ---------------------------------------------------------------------------------------------
  // Hash tags
  // ---------------------------------------------------------------------------------------------

  // A tag contains no '}' and so has no tag of its own.
  lemma HashedIdempotent(key: ByteString)
    ensures Hashed(Hashed(key)) == Hashed(key)
  {
    if i: nat, j: nat :| TagAt(key, i, j) {
      HashedTag(key, i, j);
      var tag := key[i + 1..j];
      forall k | 0 <= k < |tag| ensures tag[k] != CLOSE { assert tag[k] == key[i + 1 + k]; }
    }
  }

  // Whatever surrounds a non-empty tag, the tag decides the slot.
  lemma SameTagSameSlot(before: ByteString, tag: ByteString, after: ByteString)
    requires OPEN !in before && CLOSE !in tag && tag != []
    ensures Hashed(before + [OPEN] + tag + [CLOSE] + after) == tag
    ensures SlotOf(before + [OPEN] + tag + [CLOSE] + after) == Crc(tag) % SLOTS
  {
    var key := before + [OPEN] + tag + [CLOSE] + after;
    var i := |before|;
    var j := i + 1 + |tag|;
    assert key[i] == OPEN && key[j] == CLOSE && key[i + 1..j] == tag;
    forall k | 0 <= k < i ensures key[k] != OPEN { assert key[k] == before[k]; }
    forall k | i + 1 <= k < j ensures key[k] != CLOSE { assert key[k] == tag[k - i - 1]; }
    assert TagAt(key, i, j);
    HashedTag(key, i, j);
  }
}
