/**
  The wire format of a scope command: the encoder of the Go side and the decoder of the core, which reads
  what the encoder wrote. Lengths are 32-bit little-endian; the encoder truncates a length to 32 bits.
 */
module WireFormat {
  import opened Wrappers
  import opened Bytes

  datatype Command = Command(name: ByteString, args: seq<ByteString>)

  const LIMIT := 0x1_0000_0000

  // binary.LittleEndian.AppendUint32 of uint32(n).
  function U32(n: nat): (b: ByteString)
    ensures |b| == 4
  {
    [n % 0x100, n / 0x100 % 0x100, n / 0x1_0000 % 0x100, n / 0x100_0000 % 0x100]
  }

  // u32::from_le_bytes of the first four bytes.
  function ReadU32(b: ByteString): (n: nat)
    requires |b| >= 4
    ensures n < LIMIT
  {
    var (b0: nat, b1: nat, b2: nat, b3: nat) := (b[0], b[1], b[2], b[3]);
    b0 + 0x100 * b1 + 0x1_0000 * b2 + 0x100_0000 * b3
  }

  lemma FourDigits(n: nat)
    ensures n % 0x100 + 0x100 * (n / 0x100 % 0x100) + 0x1_0000 * (n / 0x1_0000 % 0x100)
            + 0x100_0000 * (n / 0x100_0000 % 0x100) == n % LIMIT
  {
    var q1, q2, q3 := n / 0x100, n / 0x1_0000, n / 0x100_0000;
    assert q2 == q1 / 0x100 && q3 == q2 / 0x100;
    assert n == 0x100 * q1 + n % 0x100 && q1 == 0x100 * q2 + q1 % 0x100 && q2 == 0x100 * q3 + q2 % 0x100;
    assert q3 == 0x100 * (n / LIMIT) + q3 % 0x100;
  }

  lemma ReadWritten(n: nat, tail: ByteString)
    ensures ReadU32(U32(n) + tail) == n % LIMIT
    ensures (U32(n) + tail)[4..] == tail
  {
    FourDigits(n);
    var b := U32(n) + tail;
    assert b[0] == U32(n)[0] && b[1] == U32(n)[1] && b[2] == U32(n)[2] && b[3] == U32(n)[3];
  }

  lemma ReadInRange(n: nat, tail: ByteString)
    requires n < LIMIT
    ensures ReadU32(U32(n) + tail) == n && (U32(n) + tail)[4..] == tail
  {
    ReadWritten(n, tail);
  }

  function EncodeArgs(args: seq<ByteString>): ByteString {
    if args == [] then [] else U32(|args[0]|) + args[0] + EncodeArgs(args[1..])
  }

  function Encode(c: Command): ByteString {
    U32(|c.name|) + c.name + U32(|c.args|) + EncodeArgs(c.args)
  }

  // ---------------------------------------------------------------------------------------------
  // The encoder
  // ---------------------------------------------------------------------------------------------

  function ArgsSize(args: seq<ByteString>): nat {
    if args == [] then 0 else 4 + |args[0]| + ArgsSize(args[1..])
  }

  lemma {:induction false} ArgsSizeSnoc(args: seq<ByteString>, a: ByteString)
    ensures ArgsSize(args + [a]) == ArgsSize(args) + 4 + |a|
  {
    if args == [] {
      assert ([] + [a])[1..] == [];
    } else {
      ArgsSizeSnoc(args[1..], a);
      assert (args + [a])[1..] == args[1..] + [a];
    }
  }

  lemma Rebracket(head: ByteString, rest: ByteString, len: ByteString, last: ByteString)
    ensures head + (rest + len + last) == head + rest + len + last
  {}

  lemma {:induction false} EncodeArgsSnoc(args: seq<ByteString>, a: ByteString)
    ensures EncodeArgs(args + [a]) == EncodeArgs(args) + U32(|a|) + a
  {
    if args == [] {
      assert ([] + [a])[1..] == [];
      assert EncodeArgs([a]) == U32(|a|) + a + [];
    } else {
      EncodeArgsSnoc(args[1..], a);
      assert (args + [a])[1..] == args[1..] + [a];
      Rebracket(U32(|args[0]|) + args[0], EncodeArgs(args[1..]), U32(|a|), a);
    }
  }

  // Computes the size first, then appends; what it appends has that size.
  method Serialize(c: Command) returns (wire: ByteString, size: nat)
    ensures wire == Encode(c) && |wire| == size
  {
    size := 4 + |c.name| + 4;
    var i := 0;
    while i < |c.args|
      invariant 0 <= i <= |c.args|
      invariant size == 8 + |c.name| + ArgsSize(c.args[..i])
    {
      ArgsSizeSnoc(c.args[..i], c.args[i]);
      assert c.args[..i + 1] == c.args[..i] + [c.args[i]];
      size := size + 4 + |c.args[i]|;
      i := i + 1;
    }
    assert c.args[..i] == c.args;
    wire := U32(|c.name|);
    wire := wire + c.name;
    wire := wire + U32(|c.args|);
    ghost var header := wire;
    i := 0;
    while i < |c.args|
      invariant 0 <= i <= |c.args|
      invariant wire == header + EncodeArgs(c.args[..i])
      invariant |EncodeArgs(c.args[..i])| == ArgsSize(c.args[..i])
    {
      ArgsSizeSnoc(c.args[..i], c.args[i]);
      EncodeArgsSnoc(c.args[..i], c.args[i]);
      assert c.args[..i + 1] == c.args[..i] + [c.args[i]];
      wire := wire + U32(|c.args[i]|);
      wire := wire + c.args[i];
      i := i + 1;
    }
    assert c.args[..i] == c.args;
  }

  // ---------------------------------------------------------------------------------------------
  // The decoder
  // ---------------------------------------------------------------------------------------------

  // A length and that many bytes; what is left after them.
  function ReadBlock(b: ByteString): (r: Option<(ByteString, ByteString)>)
    ensures r.Some? ==> |r.value.1| < |b|
  {
    if |b| < 4 then None
    else
      var n := ReadU32(b);
      if 4 + n > |b| then None else Some((b[4..4 + n], b[4 + n..]))
  }

  function DecodeArgs(b: ByteString, count: nat): Option<seq<ByteString>> {
    if count == 0 then Some([])
    else
      match ReadBlock(b)
      case None => None
      case Some((arg, rest)) =>
        match DecodeArgs(rest, count - 1)
        case None => None
        case Some(args) => Some([arg] + args)
  }

  // deserialize_command. The command name must be UTF-8; bytes after the last argument are ignored.
  function Decode(b: ByteString, utf8: ByteString -> bool): Option<Command> {
    match ReadBlock(b)
    case None => None
    case Some((name, rest)) => if !utf8(name) then None else DecodeRest(name, rest)
  }

  // The number of arguments, and the arguments.
  function DecodeRest(name: ByteString, rest: ByteString): Option<Command> {
    if |rest| < 4 then None
    else
      match DecodeArgs(rest[4..], ReadU32(rest))
      case None => None
      case Some(args) => Some(Command(name, args))
  }

  // ---------------------------------------------------------------------------------------------
  // Where everything stands
  // ---------------------------------------------------------------------------------------------

  // The four bytes at `at` spell n modulo 2^32, the least significant byte first.
  ghost predicate LengthAt(b: ByteString, at: nat, n: nat) {
    && at + 4 <= |b|
    && var b0: nat, b1: nat, b2: nat, b3: nat := b[at], b[at + 1], b[at + 2], b[at + 3];
       b0 + 0x100 * b1 + 0x1_0000 * b2 + 0x100_0000 * b3 == n % 0x1_0000_0000
  }

  ghost predicate BytesAt(b: ByteString, at: nat, s: ByteString) {
    at + |s| <= |b| && b[at..at + |s|] == s
  }

  lemma LengthInside(before: ByteString, n: nat, after: ByteString)
    ensures LengthAt(before + U32(n) + after, |before|, n)
  {
    FourDigits(n);
    var b, at := before + U32(n) + after, |before|;
    assert b[at] == U32(n)[0] && b[at + 1] == U32(n)[1] && b[at + 2] == U32(n)[2] && b[at + 3] == U32(n)[3];
  }

  lemma BytesInside(before: ByteString, s: ByteString, after: ByteString)
    ensures BytesAt(before + s + after, |before|, s)
  {}

  lemma {:induction false} EncodedArgsSize(args: seq<ByteString>)
    ensures |EncodeArgs(args)| == ArgsSize(args)
  {
    if args != [] {
      EncodedArgsSize(args[1..]);
    }
  }

  lemma {:induction false} EncodeArgsSplit(args: seq<ByteString>, i: nat)
    requires i < |args|
    ensures EncodeArgs(args) == EncodeArgs(args[..i]) + U32(|args[i]|) + args[i] + EncodeArgs(args[i + 1..])
  {
    if i == 0 {
      assert args[..0] == [];
    } else {
      EncodeArgsSplit(args[1..], i - 1);
      assert args[1..][..i - 1] == args[..i][1..] && args[1..][i..] == args[i + 1..];
      Nest(U32(|args[0]|) + args[0], EncodeArgs(args[..i][1..]), U32(|args[i]|), args[i], EncodeArgs(args[i + 1..]));
    }
  }

  lemma Nest(a: ByteString, b: ByteString, c: ByteString, d: ByteString, e: ByteString)
    ensures a + (b + c + d + e) == (a + b) + c + d + e
  {}

  // The name follows its length, and the number of arguments the name.
  lemma HeadLayout(c: Command)
    ensures LengthAt(Encode(c), 0, |c.name|) && BytesAt(Encode(c), 4, c.name)
    ensures LengthAt(Encode(c), 4 + |c.name|, |c.args|)
    ensures |Encode(c)| == 8 + |c.name| + ArgsSize(c.args)
  {
    var args := EncodeArgs(c.args);
    EncodedArgsSize(c.args);
    LengthInside([], |c.name|, c.name + U32(|c.args|) + args);
    assert [] + U32(|c.name|) + (c.name + U32(|c.args|) + args) == Encode(c);
    BytesInside(U32(|c.name|), c.name, U32(|c.args|) + args);
    assert U32(|c.name|) + c.name + (U32(|c.args|) + args) == Encode(c);
    LengthInside(U32(|c.name|) + c.name, |c.args|, args);
  }

  // Each argument follows its length, after all the arguments before it.
  lemma ArgLayout(c: Command, i: nat)
    requires i < |c.args|
    ensures var at := 8 + |c.name| + ArgsSize(c.args[..i]);
            LengthAt(Encode(c), at, |c.args[i]|) && BytesAt(Encode(c), at + 4, c.args[i])
  {
    var head := U32(|c.name|) + c.name + U32(|c.args|);
    var before, arg, after := EncodeArgs(c.args[..i]), c.args[i], EncodeArgs(c.args[i + 1..]);
    EncodeArgsSplit(c.args, i);
    EncodedArgsSize(c.args[..i]);
    Nest(head, before, U32(|arg|), arg, after);
    Bracket(head + before + U32(|arg|), arg, after);
    Bracket(head + before, U32(|arg|), arg + after);
    LengthInside(head + before, |arg|, arg + after);
    BytesInside(head + before + U32(|arg|), arg, after);
  }

  // ---------------------------------------------------------------------------------------------
  // Round trip
  // ---------------------------------------------------------------------------------------------

  predicate InRange(c: Command) {
    |c.name| < LIMIT && |c.args| < LIMIT && forall i | 0 <= i < |c.args| :: |c.args[i]| < LIMIT
  }

  lemma Bracket(a: ByteString, b: ByteString, c: ByteString)
    ensures a + b + c == a + (b + c)
  {}

  lemma CutBlock(len: ByteString, s: ByteString, tail: ByteString)
    requires |len| == 4
    ensures var b := len + s + tail; b[4..4 + |s|] == s && b[4 + |s|..] == tail
  {}

  lemma ReadBlockWritten(s: ByteString, tail: ByteString)
    ensures ReadBlock(U32(|s|) + s + tail).Some?
    ensures |s| < LIMIT ==> ReadBlock(U32(|s|) + s + tail) == Some((s, tail))
    ensures |s| >= LIMIT ==> |ReadBlock(U32(|s|) + s + tail).value.0| < |s|
  {
    Bracket(U32(|s|), s, tail);
    ReadWritten(|s|, s + tail);
    if |s| < LIMIT {
      CutBlock(U32(|s|), s, tail);
    }
  }

  lemma {:induction false} DecodeArgsWritten(args: seq<ByteString>, tail: ByteString)
    requires forall i | 0 <= i < |args| :: |args[i]| < LIMIT
    ensures DecodeArgs(EncodeArgs(args) + tail, |args|) == Some(args)
  {
    if args != [] {
      var rest := EncodeArgs(args[1..]) + tail;
      assert EncodeArgs(args) + tail == U32(|args[0]|) + args[0] + rest;
      ReadBlockWritten(args[0], rest);
      DecodeArgsWritten(args[1..], tail);
      assert [args[0]] + args[1..] == args;
    }
  }

  lemma EncodedWithTail(c: Command, tail: ByteString)
    ensures Encode(c) + tail == U32(|c.name|) + c.name + (U32(|c.args|) + (EncodeArgs(c.args) + tail))
  {}

  lemma DecodeHeader(name: ByteString, count: nat, body: ByteString, utf8: ByteString -> bool)
    requires |name| < LIMIT && count < LIMIT && utf8(name) && DecodeArgs(body, count).Some?
    ensures Decode(U32(|name|) + name + (U32(count) + body), utf8)
         == Some(Command(name, DecodeArgs(body, count).value))
  {
    DecodeRestWritten(name, count, body);
    ReadBlockWritten(name, U32(count) + body);
  }

  lemma DecodeRestWritten(name: ByteString, count: nat, body: ByteString)
    requires count < LIMIT && DecodeArgs(body, count).Some?
    ensures DecodeRest(name, U32(count) + body) == Some(Command(name, DecodeArgs(body, count).value))
  {
    ReadInRange(count, body);
    DecodeRestIs(name, U32(count) + body, body, count);
  }

  lemma DecodeRestIs(name: ByteString, rest: ByteString, body: ByteString, count: nat)
    requires |rest| >= 4 && rest[4..] == body && ReadU32(rest) == count && DecodeArgs(body, count).Some?
    ensures DecodeRest(name, rest) == Some(Command(name, DecodeArgs(body, count).value))
  {}

  // Whatever follows the encoding, the command comes back.
  lemma DecodeEncoded(c: Command, tail: ByteString, utf8: ByteString -> bool)
    requires InRange(c) && utf8(c.name)
    ensures Decode(Encode(c) + tail, utf8) == Some(c)
  {
    DecodeArgsWritten(c.args, tail);
    DecodeHeader(c.name, |c.args|, EncodeArgs(c.args) + tail, utf8);
    EncodedWithTail(c, tail);
  }

  lemma {:induction false} DecodeArgsCount(b: ByteString, count: nat)
    ensures DecodeArgs(b, count).Some? ==> |DecodeArgs(b, count).value| == count
    decreases count
  {
    if count > 0 {
      match ReadBlock(b)
      case None =>
      case Some((_, rest)) => DecodeArgsCount(rest, count - 1);
    }
  }

  // An argument whose length does not fit in 32 bits comes back shorter or not at all.
  lemma {:induction false} LongArgLost(args: seq<ByteString>, i: nat, tail: ByteString)
    requires i < |args| && |args[i]| >= LIMIT
    ensures DecodeArgs(EncodeArgs(args) + tail, |args|) != Some(args)
  {
    var rest := EncodeArgs(args[1..]) + tail;
    assert EncodeArgs(args) + tail == U32(|args[0]|) + args[0] + rest;
    ReadBlockWritten(args[0], rest);
    if |args[0]| < LIMIT {
      LongArgLost(args[1..], i - 1, tail);
      var decoded := DecodeArgs(rest, |args| - 1);
      if decoded.Some? {
        assert ([args[0]] + decoded.value)[1..] == decoded.value;
      }
    } else {
      var block := ReadBlock(U32(|args[0]|) + args[0] + rest).value;
      var decoded := DecodeArgs(block.1, |args| - 1);
      if decoded.Some? {
        assert ([block.0] + decoded.value)[0] == block.0;
      }
    }
  }

  // The encoding decodes to its command exactly when the name is UTF-8 and every length fits in 32 bits.
  lemma RoundTripIffInRange(c: Command, utf8: ByteString -> bool)
    ensures Decode(Encode(c), utf8) == Some(c) <==> utf8(c.name) && InRange(c)
  {
    assert Encode(c) + [] == Encode(c);
    EncodedWithTail(c, []);
    if utf8(c.name) && InRange(c) {
      DecodeEncoded(c, [], utf8);
    } else if utf8(c.name) {
      var args := EncodeArgs(c.args) + [];
      ReadBlockWritten(c.name, U32(|c.args|) + args);
      if |c.name| < LIMIT {
        ReadWritten(|c.args|, args);
        DecodeArgsCount(args, |c.args| % LIMIT);
        if |c.args| < LIMIT {
          var i :| 0 <= i < |c.args| && |c.args[i]| >= LIMIT;
          LongArgLost(c.args, i, []);
        }
      }
    }
  }

  lemma WrittenRead(b: ByteString)
    requires |b| >= 4
    ensures U32(ReadU32(b)) == b[..4]
  {
    var b0: nat, b1: nat, b2: nat, b3: nat := b[0], b[1], b[2], b[3];
    var n := ReadU32(b);
    assert n / 0x100 == b1 + 0x100 * b2 + 0x1_0000 * b3;
    assert n / 0x1_0000 == b2 + 0x100 * b3;
    assert n / 0x100_0000 == b3;
  }

  // A block that was read is there, length first.
  lemma BlockRead(b: ByteString)
    requires ReadBlock(b).Some?
    ensures var (s, rest) := ReadBlock(b).value; b == U32(|s|) + s + rest && |s| < LIMIT
  {
    WrittenRead(b);
    var n := ReadU32(b);
    ThreeParts(b, 4, 4 + n);
  }

  lemma ThreeParts(b: ByteString, i: nat, j: nat)
    requires i <= j <= |b|
    ensures b == b[..i] + b[i..j] + b[j..]
  {}

  lemma {:induction false} ArgsRead(b: ByteString, count: nat)
    requires DecodeArgs(b, count).Some?
    ensures |DecodeArgs(b, count).value| == count
    ensures forall i | 0 <= i < count :: |DecodeArgs(b, count).value[i]| < LIMIT
    ensures EncodeArgs(DecodeArgs(b, count).value) <= b
    decreases count
  {
    if count > 0 {
      BlockRead(b);
      var (arg, rest) := ReadBlock(b).value;
      ArgsRead(rest, count - 1);
      var args := DecodeArgs(rest, count - 1).value;
      assert ([arg] + args)[1..] == args;
      PrefixUnder(U32(|arg|) + arg, EncodeArgs(args), rest);
    }
  }

  lemma PrefixUnder(head: ByteString, a: ByteString, b: ByteString)
    requires a <= b
    ensures head + a <= head + b
  {}

  lemma DecodedIsThere(b: ByteString, utf8: ByteString -> bool)
    requires Decode(b, utf8).Some?
    ensures var c := Decode(b, utf8).value; utf8(c.name) && InRange(c) && Encode(c) <= b
  {
    BlockRead(b);
    var (name, rest) := ReadBlock(b).value;
    var args := DecodeArgs(rest[4..], ReadU32(rest)).value;
    ArgsRead(rest[4..], ReadU32(rest));
    WrittenRead(rest);
    CountThenArgs(rest, args);
    PrefixUnder(U32(|name|) + name, U32(|args|) + EncodeArgs(args), rest);
    Bracket(U32(|name|) + name, U32(|args|), EncodeArgs(args));
  }

  lemma CountThenArgs(rest: ByteString, args: seq<ByteString>)
    requires |rest| >= 4 && U32(|args|) == rest[..4] && EncodeArgs(args) <= rest[4..]
    ensures U32(|args|) + EncodeArgs(args) <= rest
  {
    PrefixUnder(rest[..4], EncodeArgs(args), rest[4..]);
    assert rest[..4] + rest[4..] == rest;
  }

  // The core accepts exactly the byte strings that begin with the encoding of a command in range with a UTF-8 name,
  // and takes them for that command.
  lemma DecodeIffEncoded(b: ByteString, c: Command, utf8: ByteString -> bool)
    ensures Decode(b, utf8) == Some(c) <==> utf8(c.name) && InRange(c) && Encode(c) <= b
  {
    if Decode(b, utf8) == Some(c) {
      DecodedIsThere(b, utf8);
    }
    if utf8(c.name) && InRange(c) && Encode(c) <= b {
      var tail := b[|Encode(c)|..];
      assert b == Encode(c) + tail;
      DecodeEncoded(c, tail, utf8);
    }
  }

  // No encoding is the beginning of another one, so none equals another one either.
  lemma EncodingsArePrefixFree(c: Command, d: Command)
    requires InRange(c) && InRange(d) && Encode(c) <= Encode(d)
    ensures c == d
  {
    var tail := Encode(d)[|Encode(c)|..];
    assert Encode(d) == Encode(c) + tail;
    assert Encode(d) + [] == Encode(d);
    DecodeEncoded(c, tail, _ => true);
    DecodeEncoded(d, [], _ => true);
  }

  // ---------------------------------------------------------------------------------------------
  // Beyond 32 bits
  // ---------------------------------------------------------------------------------------------

  function Zeros(n: nat): (z: ByteString)
    ensures |z| == n && forall i | 0 <= i < n :: z[i] == 0
  {
    seq(n, _ => 0)
  }

  lemma {:induction false} EmptyArgsAreZeros(args: seq<ByteString>)
    requires forall i | 0 <= i < |args| :: args[i] == []
    ensures EncodeArgs(args) == Zeros(4 * |args|)
  {
    if args != [] {
      EmptyArgsAreZeros(args[1..]);
      assert U32(0) == [0, 0, 0, 0];
    }
  }

  // Two different commands beyond the range have the same encoding.
  lemma LongCommandsCollide()
    ensures var c := Command(Zeros(4 * LIMIT), []);
            var d := Command([], seq(LIMIT, _ => []));
            c != d && Encode(c) == Encode(d) && !InRange(c) && !InRange(d)
  {
    var c := Command(Zeros(4 * LIMIT), []);
    var d := Command([], seq(LIMIT, _ => []));
    EmptyArgsAreZeros(d.args);
    assert U32(0) == U32(LIMIT) == U32(4 * LIMIT) == Zeros(4);
    assert Encode(c) == Zeros(4) + Zeros(4 * LIMIT) + Zeros(4) + [];
    assert Encode(d) == Zeros(4) + [] + Zeros(4) + Zeros(4 * LIMIT);
    assert |c.name| != |d.name|;
  }
}
