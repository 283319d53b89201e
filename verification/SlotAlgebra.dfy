/**
  The CRC loops compute the remainder of key(x) * x^16 modulo x^16 + x^12 + x^5 + 1 over GF(2), for keys of
  every length. From this follow the linearity of the hash and its blindness to leading zero bytes; and
  because a step of the loop can be undone, two free bytes reach every slot equally often.
 */
module SlotAlgebra {
  import opened Gf2
  import opened Bytes
  import opened Slot

  const G: Poly := {16, 12, 5, 0}

  // The key as one big-endian number.
  function Number(key: ByteString): nat {
    if key == [] then 0 else Number(key[..|key| - 1]) * 0x100 + key[|key| - 1]
  }

  // `r` is a remainder of p modulo G.
  ghost predicate IsRemainder(p: Poly, r: Poly) {
    Below(r, 16) && exists q :: p == Plus(Times(q, G), r)
  }

  // ---------------------------------------------------------------------------------------------
  // Multiples of G
  // ---------------------------------------------------------------------------------------------

  ghost predicate Multiple(p: Poly, g: Poly) {
    exists q :: p == Times(q, g)
  }

  lemma MultipleUp(p: Poly, g: Poly)
    requires Multiple(p, g)
    ensures Multiple(Up(p), g)
  {
    var q :| p == Times(q, g);
    assert (q + [false])[..|q|] == q;
    assert Times(q + [false], g) == Up(p);
  }

  lemma MultiplePlus(p1: Poly, p2: Poly, g: Poly)
    requires Multiple(p1, g) && Multiple(p2, g)
    ensures Multiple(Plus(p1, p2), g)
  {
    var q1 :| p1 == Times(q1, g);
    var q2 :| p2 == Times(q2, g);
    var n := if |q1| < |q2| then |q2| else |q1|;
    TimesPad(q1, n, g);
    TimesPad(q2, n, g);
    TimesPlus(Pad(q1, n), Pad(q2, n), g);
  }

  lemma MultipleSelf(g: Poly)
    ensures Multiple(g, g) && Multiple({}, g)
  {
    assert Times([], g) == {};
    assert Up({}) == {};
    assert Times([true], g) == g;
  }

  lemma {:induction false} MultipleUpBy(p: Poly, g: Poly, n: nat)
    requires Multiple(p, g)
    ensures Multiple(UpBy(p, n), g)
  {
    if n > 0 {
      MultipleUpBy(p, g, n - 1);
      MultipleUp(UpBy(p, n - 1), g);
    }
  }

  lemma RemainderIffMultiple(p: Poly, r: Poly)
    requires Below(r, 16)
    ensures IsRemainder(p, r) <==> Multiple(Plus(p, r), G)
  {
    if IsRemainder(p, r) {
      var q :| p == Plus(Times(q, G), r);
      assert Plus(p, r) == Times(q, G);
    }
    if Multiple(Plus(p, r), G) {
      var q :| Plus(p, r) == Times(q, G);
      assert p == Plus(Times(q, G), r);
    }
  }

  lemma RemainderIsUnique(p: Poly, r1: Poly, r2: Poly)
    requires IsRemainder(p, r1) && IsRemainder(p, r2)
    ensures r1 == r2
  {
    var q1 :| p == Plus(Times(q1, G), r1);
    var q2 :| p == Plus(Times(q2, G), r2);
    RemainderUnique(q1, r1, q2, r2, G, 16);
  }

  // ---------------------------------------------------------------------------------------------
  // The loop on polynomials
  // ---------------------------------------------------------------------------------------------

  // x * p reduced by g, which has degree 16.
  function PolyStep(p: Poly, g: Poly): Poly {
    if 15 in p then Plus(Up(p), g) else Up(p)
  }

  function PolySteps(p: Poly, g: Poly, n: nat): Poly {
    if n == 0 then p else PolyStep(PolySteps(p, g, n - 1), g)
  }

  lemma BitsOfPolynomial()
    ensures Bits(POLYNOMIAL) == {12, 5, 0}
  {
    assert Pow2(4) == 0x10 && Pow2(5) == 0x20;
    assert Pow2(8) == 0x100 && Pow2(12) == 0x1000;
    assert Bits(1) == {0};
    BitsAddTop(1, 5);
    BitsAddTop(0x21, 12);
  }

  lemma WordBelow(w: Word)
    ensures Below(Bits(w), 16)
  {
    WordRange();
    BitsBelow(w, 16);
  }

  // The top bit is set: the shift drops it and the polynomial is added.
  lemma HighStepOnBits(crc: Word)
    requires crc >= 0x8000
    ensures Bits(BitStep(crc)) == PolyStep(Bits(crc), G)
  {
    var low := crc - 0x8000;
    HighBits(low);
    HighShift(crc, low);
    HighPlus(Bits(low));
  }

  lemma HighShift(crc: Word, low: nat)
    requires crc == low + 0x8000
    ensures Bits(BitStep(crc)) == Plus(Up(Bits(low)), G - {16})
  {
    assert 2 * crc % 0x10000 == 2 * low;
    BitsDouble(low);
    BitsXor(2 * low, POLYNOMIAL);
    BitsOfPolynomial();
  }

  lemma HighBits(low: nat)
    requires low < 0x8000
    ensures Bits(low + 0x8000) == Bits(low) + {15} && Below(Bits(low), 15)
  {
    WordRange();
    BitsAddTop(low, 15);
    BitsBelow(low, 15);
  }

  lemma HighPlus(p: Poly)
    requires Below(p, 15)
    ensures Plus(Up(p + {15}), G) == Plus(Up(p), G - {16})
  {
    assert Up(p + {15}) == Up(p) + {16};
  }

  lemma StepOnBits(crc: Word)
    ensures Bits(BitStep(crc)) == PolyStep(Bits(crc), G)
  {
    if crc >= 0x8000 {
      HighStepOnBits(crc);
    } else {
      WordRange();
      BitsDouble(crc);
      BitsBelow(crc, 15);
    }
  }

  lemma {:induction false} StepsOnBits(crc: Word, n: nat)
    ensures Bits(Steps(crc, n)) == PolySteps(Bits(crc), G, n)
  {
    if n > 0 {
      StepsOnBits(crc, n - 1);
      StepOnBits(Steps(crc, n - 1));
    }
  }

  lemma ByteOnBits(crc: Word, b: Byte)
    ensures Bits(ByteStep(crc, b)) == PolySteps(Plus(Bits(crc), UpBy(Bits(b), 8)), G, 8)
  {
    WordRange();
    BitsXor(crc, b * 0x100);
    BitsScale(b, 8);
    StepsOnBits(XorWord(crc, b * 0x100), 8);
  }

  // n steps multiply by x^n, up to a multiple of g.
  lemma {:induction false} StepsAreShifts(p: Poly, g: Poly, n: nat)
    ensures Multiple(Plus(UpBy(p, n), PolySteps(p, g, n)), g)
    decreases n
  {
    MultipleSelf(g);
    if n == 0 {
      PlusSelf(p);
    } else {
      StepsAreShifts(p, g, n - 1);
      var u, s := UpBy(p, n - 1), PolySteps(p, g, n - 1);
      MultipleUp(Plus(u, s), g);
      UpPlus(u, s);
      if 15 in s {
        MultiplePlus(Plus(Up(u), Up(s)), g, g);
        PlusAssociative(Up(u), Up(s), g);
      }
    }
  }

  // ---------------------------------------------------------------------------------------------
  // The CRC is the remainder
  // ---------------------------------------------------------------------------------------------

  lemma {:induction false} DigitAppend(n: nat, k: nat, b: nat, i: nat)
    requires b < Pow2(k)
    ensures Digit(n * Pow2(k) + b, i) <==> if i < k then Digit(b, i) else Digit(n, i - k)
  {
    if k > 0 {
      var m := n * Pow2(k) + b;
      assert n * Pow2(k) == 2 * (n * Pow2(k - 1));
      assert m / 2 == n * Pow2(k - 1) + b / 2 && m % 2 == b % 2;
      if i > 0 { DigitAppend(n, k - 1, b / 2, i - 1); }
    }
  }

  lemma AppendDigit(n: nat, k: nat, b: nat, i: nat)
    requires b < Pow2(k)
    ensures Digit(n * Pow2(k) + b, i) <==> (i in UpBy(Bits(n), k)) != (i in Bits(b))
  {
    DigitAppend(n, k, b, i);
    if i < k {
      LowDigit(n, k, b, i);
    } else {
      HighDigit(n, k, b, i);
    }
  }

  lemma LowDigit(n: nat, k: nat, b: nat, i: nat)
    requires i < k
    ensures i !in UpBy(Bits(n), k) && (i in Bits(b) <==> Digit(b, i))
  {
    UpByIn(Bits(n), k, i);
    InBits(b, i);
  }

  lemma HighDigit(n: nat, k: nat, b: nat, i: nat)
    requires i >= k && b < Pow2(k)
    ensures i !in Bits(b) && (i in UpBy(Bits(n), k) <==> Digit(n, i - k))
  {
    UpByIn(Bits(n), k, i);
    InBits(n, i - k);
    InBits(b, i);
    DigitHigh(b, k, i);
  }

  // Appending k digits shifts and adds.
  lemma BitsAppend(n: nat, k: nat, b: nat)
    requires b < Pow2(k)
    ensures Bits(n * Pow2(k) + b) == Plus(UpBy(Bits(n), k), Bits(b))
  {
    var m := n * Pow2(k) + b;
    var p := Plus(UpBy(Bits(n), k), Bits(b));
    forall i: nat ensures Digit(m, i) <==> i in p { AppendDigit(n, k, b, i); }
    SameBits(m, p);
  }

  lemma {:induction false} UpByUpBy(p: Poly, m: nat, n: nat)
    ensures UpBy(UpBy(p, m), n) == UpBy(UpBy(p, n), m)
  {
    if m > 0 {
      UpByUp(UpBy(p, m - 1), n);
      UpByUpBy(p, m - 1, n);
    }
  }

  lemma {:induction false} UpBySum(p: Poly, m: nat, n: nat)
    ensures UpBy(UpBy(p, m), n) == UpBy(p, m + n)
  {
    if n > 0 { UpBySum(p, m, n - 1); }
  }

  // What one byte adds on both sides.
  lemma ByteRemainder(u: Poly, c: Poly, b: Poly, g: Poly)
    requires Multiple(Plus(u, c), g)
    ensures Multiple(Plus(Plus(UpBy(u, 8), UpBy(b, 16)), PolySteps(Plus(c, UpBy(b, 8)), g, 8)), g)
  {
    var e := Plus(c, UpBy(b, 8));
    var s := PolySteps(e, g, 8);
    var u8, c8, b16 := UpBy(u, 8), UpBy(c, 8), UpBy(b, 16);
    assert Multiple(Plus(Plus(c8, b16), s), g) by {
      StepsAreShifts(e, g, 8);
      UpByPlus(c, UpBy(b, 8), 8);
      UpBySum(b, 8, 8);
    }
    assert Multiple(Plus(u8, c8), g) by {
      MultipleUpBy(Plus(u, c), g, 8);
      UpByPlus(u, c, 8);
    }
    MultiplePlus(Plus(u8, c8), Plus(Plus(c8, b16), s), g);
    PlusCancel(u8, c8, b16, s);
  }

  lemma {:induction false} ZeroUpBy(n: nat)
    ensures UpBy({}, n) == {}
  {
    if n > 0 {
      ZeroUpBy(n - 1);
      assert Up({}) == {};
    }
  }

  // The number of a longer key, shifted.
  lemma NumberAppend(n: nat, b: Byte)
    ensures UpBy(Bits(n * 0x100 + b), 16) == Plus(UpBy(UpBy(Bits(n), 16), 8), UpBy(Bits(b), 16))
  {
    ByteAppend(n, b);
    UpByPlus(UpBy(Bits(n), 8), Bits(b), 16);
    UpByUpBy(Bits(n), 8, 16);
  }

  lemma DividesAfterByte(n: nat, crc: Word, b: Byte)
    requires Multiple(Plus(UpBy(Bits(n), 16), Bits(crc)), G)
    ensures Multiple(Plus(UpBy(Bits(n * 0x100 + b), 16), Bits(ByteStep(crc, b))), G)
  {
    NumberAppend(n, b);
    ByteOnBits(crc, b);
    ByteRemainder(UpBy(Bits(n), 16), Bits(crc), Bits(b), G);
  }

  lemma {:induction false} CrcDivides(key: ByteString)
    ensures Multiple(Plus(UpBy(Bits(Number(key)), 16), Bits(Crc(key))), G)
  {
    if key == [] {
      MultipleSelf(G);
      BitsZero();
      ZeroUpBy(16);
      PlusSelf({});
    } else {
      var k, b := key[..|key| - 1], key[|key| - 1];
      CrcDivides(k);
      DividesAfterByte(Number(k), Crc(k), b);
    }
  }

  // The digits of the CRC are the remainder of key(x) * x^16 modulo G, and nothing else is.
  lemma CrcIsTheRemainder(key: ByteString, r: Poly)
    ensures IsRemainder(UpBy(Bits(Number(key)), 16), r) <==> r == Bits(Crc(key))
  {
    var p := UpBy(Bits(Number(key)), 16);
    WordBelow(Crc(key));
    CrcDivides(key);
    RemainderIffMultiple(p, Bits(Crc(key)));
    if IsRemainder(p, r) { RemainderIsUnique(p, r, Bits(Crc(key))); }
  }

  // ---------------------------------------------------------------------------------------------
  // What follows for keys
  // ---------------------------------------------------------------------------------------------

  // The CRC only depends on the number the key spells.
  lemma {:induction false} SameNumberSameCrc(a: ByteString, b: ByteString)
    requires Number(a) == Number(b)
    ensures Crc(a) == Crc(b)
  {
    CrcIsTheRemainder(a, Bits(Crc(a)));
    CrcIsTheRemainder(b, Bits(Crc(a)));
    BitsInjective(Crc(a), Crc(b));
  }

  lemma {:induction false} NumberLeadingZeros(n: nat, key: ByteString)
    ensures Number(seq(n, _ => 0) + key) == Number(key)
  {
    var zeros: ByteString := seq(n, _ => 0);
    if key != [] {
      var k := key[..|key| - 1];
      NumberLeadingZeros(n, k);
      assert (zeros + key)[..n + |key| - 1] == zeros + k;
    } else if n > 0 {
      NumberLeadingZeros(n - 1, []);
      assert (zeros + key)[..n - 1] == seq(n - 1, _ => 0) + key;
    }
  }

  // Leading zero bytes do not change the CRC.
  lemma LeadingZerosIgnored(n: nat, key: ByteString)
    ensures Crc(seq(n, _ => 0) + key) == Crc(key)
  {
    NumberLeadingZeros(n, key);
    SameNumberSameCrc(seq(n, _ => 0) + key, key);
  }

  lemma XorByteBelow(a: Byte, b: Byte)
    ensures Xor(a, b) < 0x100
  {
    WordRange();
    XorBelow(a, b, 8);
  }

  function XorKeys(a: ByteString, b: ByteString): (r: ByteString)
    requires |a| == |b|
    ensures |r| == |a| && forall i | 0 <= i < |a| :: r[i] == Xor(a[i], b[i])
  {
    if a == [] then []
    else
      var n := |a| - 1;
      XorByteBelow(a[n], b[n]);
      XorKeys(a[..n], b[..n]) + [Xor(a[n], b[n])]
  }

  lemma {:induction false} NumberXor(a: ByteString, b: ByteString)
    requires |a| == |b|
    ensures Bits(Number(XorKeys(a, b))) == Plus(Bits(Number(a)), Bits(Number(b)))
  {
    if a == [] {
      BitsZero();
      PlusSelf({});
    } else {
      var n := |a| - 1;
      var x := XorKeys(a, b);
      NumberXor(a[..n], b[..n]);
      assert x[..n] == XorKeys(a[..n], b[..n]);
      NumberXorByte(Number(x[..n]), Number(a[..n]), Number(b[..n]), a[n], b[n]);
    }
  }

  lemma ByteAppend(n: nat, b: Byte)
    ensures Bits(n * 0x100 + b) == Plus(UpBy(Bits(n), 8), Bits(b))
  {
    WordRange();
    BitsAppend(n, 8, b);
  }

  lemma NumberXorByte(x: nat, m: nat, n: nat, a: Byte, b: Byte)
    requires Bits(x) == Plus(Bits(m), Bits(n))
    ensures Bits(x * 0x100 + Xor(a, b)) == Plus(Bits(m * 0x100 + a), Bits(n * 0x100 + b))
  {
    XorByteBelow(a, b);
    BitsXor(a, b);
    AppendBoth(x, m, n, Xor(a, b), a, b);
  }

  lemma AppendBoth(x: nat, m: nat, n: nat, c: Byte, a: Byte, b: Byte)
    requires Bits(x) == Plus(Bits(m), Bits(n)) && Bits(c) == Plus(Bits(a), Bits(b))
    ensures Bits(x * 0x100 + c) == Plus(Bits(m * 0x100 + a), Bits(n * 0x100 + b))
  {
    ByteAppend(x, c);
    ByteAppend(m, a);
    ByteAppend(n, b);
    UpByPlus(Bits(m), Bits(n), 8);
    PlusParts(Bits(x * 0x100 + c), Bits(m * 0x100 + a), Bits(n * 0x100 + b),
              UpBy(Bits(x), 8), UpBy(Bits(m), 8), UpBy(Bits(n), 8), Bits(c), Bits(a), Bits(b));
  }

  lemma PlusParts(x: Poly, m: Poly, n: Poly, ux: Poly, um: Poly, un: Poly, c: Poly, a: Poly, b: Poly)
    requires x == Plus(ux, c) && m == Plus(um, a) && n == Plus(un, b) && ux == Plus(um, un) && c == Plus(a, b)
    ensures x == Plus(m, n)
  {
    PlusSwap(um, un, a, b);
  }

  lemma PlusSwap(p: Poly, q: Poly, r: Poly, s: Poly)
    ensures Plus(Plus(p, q), Plus(r, s)) == Plus(Plus(p, r), Plus(q, s))
  {}

  // On keys of equal length the CRC is linear.
  lemma CrcIsLinear(a: ByteString, b: ByteString)
    requires |a| == |b|
    ensures Crc(XorKeys(a, b)) == Xor(Crc(a), Crc(b))
  {
    var x := XorKeys(a, b);
    var pa, pb := UpBy(Bits(Number(a)), 16), UpBy(Bits(Number(b)), 16);
    var ca, cb := Bits(Crc(a)), Bits(Crc(b));
    NumberXor(a, b);
    UpByPlus(Bits(Number(a)), Bits(Number(b)), 16);
    CrcDivides(a);
    CrcDivides(b);
    MultiplePlus(Plus(pa, ca), Plus(pb, cb), G);
    PlusSwap(pa, pb, ca, cb);
    WordBelow(Crc(a));
    WordBelow(Crc(b));
    RemainderIffMultiple(Plus(pa, pb), Plus(ca, cb));
    CrcIsTheRemainder(x, Plus(ca, cb));
    BitsXor(Crc(a), Crc(b));
    BitsInjective(Crc(x), Xor(Crc(a), Crc(b)));
  }

  // ---------------------------------------------------------------------------------------------
  // Two free bytes
  // ---------------------------------------------------------------------------------------------

  // Undoes a step: the constant term of g tells whether the step reduced.
  function PolyBack(p: Poly, g: Poly): Poly {
    Down(if 0 in p then Plus(p, g) else p)
  }

  function Down(p: Poly): (r: Poly)
    ensures forall i: nat :: i in r <==> i + 1 in p
  {
    set i | i in p && i > 0 :: i - 1
  }

  lemma PlusTwice(p: Poly, g: Poly)
    ensures Plus(Plus(p, g), g) == p
  {}

  lemma DownUp(p: Poly)
    ensures Down(Up(p)) == p
  {}

  lemma UpDown(p: Poly)
    requires 0 !in p
    ensures Up(Down(p)) == p
  {
    forall i: nat
      ensures i in Up(Down(p)) <==> i in p
    {
      if i > 0 {
        assert i - 1 in Down(p) <==> i in p;
      }
    }
  }

  lemma BackAfterStep(p: Poly, g: Poly)
    requires 0 in g
    ensures PolyBack(PolyStep(p, g), g) == p
  {
    DownUp(p);
    if 15 in p { PlusTwice(Up(p), g); }
  }

  lemma StepAfterBack(p: Poly, g: Poly)
    requires Below(p, 16) && 0 in g && 16 in g
    ensures PolyStep(PolyBack(p, g), g) == p
  {
    if 0 in p {
      var t := Plus(p, g);
      assert 16 in t && 0 !in t;
      UpDown(t);
      PlusTwice(p, g);
    } else {
      UpDown(p);
    }
  }

  // The word whose digits are PolyBack of the digits of v.
  function BackStep(v: Word): Word {
    if v % 2 == 1 then XorWord(v, POLYNOMIAL) / 2 + 0x8000 else v / 2
  }

  lemma BitsHalf(n: nat)
    ensures Bits(n / 2) == Down(Bits(n))
  {
    forall i: nat ensures Digit(n / 2, i) <==> i in Down(Bits(n)) { InBits(n, i + 1); }
    SameBits(n / 2, Down(Bits(n)));
  }

  lemma DownOfG(p: Poly)
    requires Below(p, 16)
    ensures Down(Plus(p, G)) == Down(Plus(p, {12, 5, 0})) + {15}
  {}

  lemma BackOnBits(v: Word)
    ensures Bits(BackStep(v)) == PolyBack(Bits(v), G)
  {
    WordRange();
    InBits(v, 0);
    if v % 2 == 1 {
      var x := XorWord(v, POLYNOMIAL);
      BitsXor(v, POLYNOMIAL);
      BitsOfPolynomial();
      BitsHalf(x);
      BitsAddTop(x / 2, 15);
      WordBelow(v);
      DownOfG(Bits(v));
    } else {
      BitsHalf(v);
    }
  }

  // A step of the inner loop is one-to-one and onto.
  lemma StepIsBijective(v: Word)
    ensures BackStep(BitStep(v)) == v && BitStep(BackStep(v)) == v
  {
    WordBelow(v);
    BackAfterStep(Bits(v), G);
    StepAfterBack(Bits(v), G);
    StepOnBits(v);
    BackOnBits(BitStep(v));
    BitsInjective(BackStep(BitStep(v)), v);
    BackOnBits(v);
    StepOnBits(BackStep(v));
    BitsInjective(BitStep(BackStep(v)), v);
  }

  function BackSteps(v: Word, n: nat): Word
    decreases n, v
  {
    if n == 0 then v else BackSteps(BackStep(v), n - 1)
  }

  lemma {:induction false} StepsIffBack(c: Word, v: Word, n: nat)
    ensures Steps(c, n) == v <==> c == BackSteps(v, n)
    decreases n
  {
    if n > 0 {
      StepIsBijective(Steps(c, n - 1));
      StepIsBijective(v);
      StepsIffBack(c, BackStep(v), n - 1);
    }
  }

  lemma PolyStepPlus(p: Poly, q: Poly, g: Poly)
    ensures PolyStep(Plus(p, q), g) == Plus(PolyStep(p, g), PolyStep(q, g))
  {
    UpPlus(p, q);
  }

  lemma {:induction false} PolyStepsPlus(p: Poly, q: Poly, g: Poly, n: nat)
    ensures PolySteps(Plus(p, q), g, n) == Plus(PolySteps(p, g, n), PolySteps(q, g, n))
    decreases n
  {
    if n > 0 {
      PolyStepsPlus(p, q, g, n - 1);
      OneMoreStep(Plus(p, q), p, q, g, n);
    }
  }

  lemma OneMoreStep(r: Poly, p: Poly, q: Poly, g: Poly, n: nat)
    requires n > 0 && PolySteps(r, g, n - 1) == Plus(PolySteps(p, g, n - 1), PolySteps(q, g, n - 1))
    ensures PolySteps(r, g, n) == Plus(PolySteps(p, g, n), PolySteps(q, g, n))
  {
    StepOfPlus(PolySteps(r, g, n - 1), PolySteps(p, g, n - 1), PolySteps(q, g, n - 1), g);
  }

  lemma StepOfPlus(r: Poly, p: Poly, q: Poly, g: Poly)
    requires r == Plus(p, q)
    ensures PolyStep(r, g) == Plus(PolyStep(p, g), PolyStep(q, g))
  {
    PolyStepPlus(p, q, g);
  }

  // As long as the top bit stays clear a step is just a shift.
  lemma {:induction false} PolyStepsSmall(p: Poly, g: Poly, n: nat)
    requires n <= 16 && Below(p, 16 - n)
    ensures PolySteps(p, g, n) == UpBy(p, n)
    decreases n
  {
    if n > 0 {
      PolyStepsSmall(p, g, n - 1);
      UpByIn(p, n - 1, 15);
    }
  }

  lemma {:induction false} StepsSum(c: Word, m: nat, n: nat)
    ensures Steps(Steps(c, m), n) == Steps(c, m + n)
  {
    if n > 0 { StepsSum(c, m, n - 1); }
  }

  // Eight bits mixed in below the word reach the top byte after eight steps.
  lemma MixLater(x: Word, b: Byte)
    ensures XorWord(Steps(x, 8), b * 0x100) == Steps(XorWord(x, b), 8)
  {
    WordRange();
    StepsOnBits(x, 8);
    StepsOnBits(XorWord(x, b), 8);
    BitsXor(Steps(x, 8), b * 0x100);
    BitsXor(x, b);
    BitsScale(b, 8);
    BitsBelow(b, 8);
    PolyStepsPlus(Bits(x), Bits(b), G, 8);
    PolyStepsSmall(Bits(b), G, 8);
    BitsInjective(XorWord(Steps(x, 8), b * 0x100), Steps(XorWord(x, b), 8));
  }

  lemma WordOfTwo(c: Word, b1: Byte, b2: Byte)
    ensures XorWord(XorWord(c, b1 * 0x100), b2) == XorWord(c, b1 * 0x100 + b2)
  {
    WordRange();
    BitsXor(XorWord(c, b1 * 0x100), b2);
    BitsXor(c, b1 * 0x100);
    BitsXor(c, b1 * 0x100 + b2);
    BitsScale(b1, 8);
    BitsAppend(b1, 8, b2);
    PlusAssociative(Bits(c), UpBy(Bits(b1), 8), Bits(b2));
    BitsInjective(XorWord(XorWord(c, b1 * 0x100), b2), XorWord(c, b1 * 0x100 + b2));
  }

  // Two bytes are sixteen steps from the word they form.
  lemma TwoBytes(c: Word, b1: Byte, b2: Byte)
    ensures ByteStep(ByteStep(c, b1), b2) == Steps(XorWord(c, b1 * 0x100 + b2), 16)
  {
    MixLater(XorWord(c, b1 * 0x100), b2);
    WordOfTwo(c, b1, b2);
    StepsSum(XorWord(c, b1 * 0x100 + b2), 8, 8);
  }

  lemma CrcAppendTwo(prefix: ByteString, b1: Byte, b2: Byte)
    ensures Crc(prefix + [b1, b2]) == ByteStep(ByteStep(Crc(prefix), b1), b2)
  {
    var key := prefix + [b1, b2];
    assert key[..|key| - 1] == prefix + [b1];
    assert (prefix + [b1])[..|prefix|] == prefix;
  }

  lemma XorSolve(a: Word, x: Word, y: Word)
    ensures XorWord(a, x) == y <==> x == XorWord(a, y)
  {
    BitsXor(a, x);
    BitsXor(a, y);
    if XorWord(a, x) == y {
      XorBack(Bits(a), Bits(x));
      BitsInjective(x, XorWord(a, y));
    }
    if x == XorWord(a, y) {
      XorBack(Bits(a), Bits(y));
      BitsInjective(XorWord(a, x), y);
    }
  }

  lemma XorBack(a: Poly, x: Poly)
    ensures Plus(a, Plus(a, x)) == x
  {}

  // The two bytes that, appended to a prefix, give the CRC v.
  function PairFor(prefix: ByteString, v: Word): (Byte, Byte) {
    var w := XorWord(Crc(prefix), BackSteps(v, 16));
    (w / 0x100, w % 0x100)
  }

  // After any prefix the byte pairs and the CRC values correspond one to one.
  lemma EveryCrcFromOnePair(prefix: ByteString, b1: Byte, b2: Byte, v: Word)
    ensures Crc(prefix + [b1, b2]) == v <==> (b1, b2) == PairFor(prefix, v)
  {
    var c := Crc(prefix);
    CrcAppendTwo(prefix, b1, b2);
    TwoBytes(c, b1, b2);
    StepsIffBack(XorWord(c, b1 * 0x100 + b2), v, 16);
    XorSolve(c, b1 * 0x100 + b2, BackSteps(v, 16));
  }

  // A prefix without '{' leaves no room for a hash tag in two more bytes.
  lemma NoTagInTwo(prefix: ByteString, b1: Byte, b2: Byte)
    requires OPEN !in prefix
    ensures Hashed(prefix + [b1, b2]) == prefix + [b1, b2]
  {
    var key := prefix + [b1, b2];
    forall i | 0 <= i < |prefix| ensures key[i] != OPEN { assert key[i] == prefix[i]; }
  }

  ghost function PairsFor(prefix: ByteString, slot: nat): set<(Byte, Byte)>
    requires slot < SLOTS
  {
    { PairFor(prefix, slot), PairFor(prefix, slot + SLOTS),
      PairFor(prefix, slot + 2 * SLOTS), PairFor(prefix, slot + 3 * SLOTS) }
  }

  lemma SlotOfTwo(prefix: ByteString, b1: Byte, b2: Byte)
    requires OPEN !in prefix
    ensures SlotOf(prefix + [b1, b2]) == Crc(prefix + [b1, b2]) % SLOTS
  {
    NoTagInTwo(prefix, b1, b2);
  }

  // The CRC after the pair is one of the four that give the slot.
  lemma CrcIffPair(prefix: ByteString, slot: nat, b1: Byte, b2: Byte)
    requires slot < SLOTS
    ensures (b1, b2) in PairsFor(prefix, slot) <==>
              var v := Crc(prefix + [b1, b2]);
              v == slot || v == slot + SLOTS || v == slot + 2 * SLOTS || v == slot + 3 * SLOTS
  {
    EveryCrcFromOnePair(prefix, b1, b2, slot);
    EveryCrcFromOnePair(prefix, b1, b2, slot + SLOTS);
    EveryCrcFromOnePair(prefix, b1, b2, slot + 2 * SLOTS);
    EveryCrcFromOnePair(prefix, b1, b2, slot + 3 * SLOTS);
  }

  lemma SlotIffPair(prefix: ByteString, slot: nat, b1: Byte, b2: Byte)
    requires OPEN !in prefix && slot < SLOTS
    ensures SlotOf(prefix + [b1, b2]) == slot <==> (b1, b2) in PairsFor(prefix, slot)
  {
    SlotOfTwo(prefix, b1, b2);
    ModSlots(Crc(prefix + [b1, b2]), slot);
    CrcIffPair(prefix, slot, b1, b2);
  }

  lemma ModSlots(v: Word, slot: nat)
    requires slot < SLOTS
    ensures v % SLOTS == slot <==>
              v == slot || v == slot + SLOTS || v == slot + 2 * SLOTS || v == slot + 3 * SLOTS
  {}

  // Every slot is reached by exactly four of the 65536 byte pairs.
  lemma EverySlotFromFourPairs(prefix: ByteString, slot: nat)
    requires OPEN !in prefix && slot < SLOTS
    ensures |PairsFor(prefix, slot)| == 4
    ensures forall b1: Byte, b2: Byte ::
              SlotOf(prefix + [b1, b2]) == slot <==> (b1, b2) in PairsFor(prefix, slot)
  {
    forall b1: Byte, b2: Byte
      ensures SlotOf(prefix + [b1, b2]) == slot <==> (b1, b2) in PairsFor(prefix, slot)
    {
      SlotIffPair(prefix, slot, b1, b2);
    }
    FourPairs(prefix, slot);
  }

  lemma FourDiffer<T>(a: T, b: T, c: T, d: T)
    requires a != b && a != c && a != d && b != c && b != d && c != d
    ensures |{a, b, c, d}| == 4
  {
    assert |{a, b}| == 2 && |{a, b, c}| == 3;
  }

  lemma FourPairs(prefix: ByteString, slot: nat)
    requires slot < SLOTS
    ensures |PairsFor(prefix, slot)| == 4
  {
    PairsDiffer(prefix, slot, slot + SLOTS);
    PairsDiffer(prefix, slot, slot + 2 * SLOTS);
    PairsDiffer(prefix, slot, slot + 3 * SLOTS);
    PairsDiffer(prefix, slot + SLOTS, slot + 2 * SLOTS);
    PairsDiffer(prefix, slot + SLOTS, slot + 3 * SLOTS);
    PairsDiffer(prefix, slot + 2 * SLOTS, slot + 3 * SLOTS);
    FourDiffer(PairFor(prefix, slot), PairFor(prefix, slot + SLOTS), PairFor(prefix, slot + 2 * SLOTS),
               PairFor(prefix, slot + 3 * SLOTS));
  }

  lemma PairsDiffer(prefix: ByteString, u: Word, v: Word)
    requires u != v
    ensures PairFor(prefix, u) != PairFor(prefix, v)
  {
    var (b1, b2) := PairFor(prefix, u);
    EveryCrcFromOnePair(prefix, b1, b2, u);
    EveryCrcFromOnePair(prefix, b1, b2, v);
  }
}
