/**
  Polynomials over GF(2), as the finite set of the exponents that occur: addition is symmetric difference,
  multiplication by x is `Up`. A natural number is read as the polynomial of its binary digits.
 */
module Gf2 {

  type Poly = set<nat>

  function Plus(p: Poly, q: Poly): (r: Poly)
    ensures forall i {:trigger i in r} :: i in r <==> (i in p) != (i in q)
  {
    (p - q) + (q - p)
  }

  // x * p
  function Up(p: Poly): (r: Poly)
    ensures forall i: nat {:trigger i in r} :: i in r <==> i > 0 && i - 1 in p
  {
    set i | i in p :: i + 1
  }

  // x^n * p
  function UpBy(p: Poly, n: nat): Poly {
    if n == 0 then p else Up(UpBy(p, n - 1))
  }

  // q * g, the coefficients of q from the highest to the lowest.
  function Times(q: seq<bool>, g: Poly): Poly {
    if q == [] then {}
    else Plus(Up(Times(q[..|q| - 1], g)), if q[|q| - 1] then g else {})
  }

  ghost predicate Below(p: Poly, n: nat) {
    forall i | i in p :: i < n
  }

  lemma PlusAssociative(p: Poly, q: Poly, r: Poly)
    ensures Plus(Plus(p, q), r) == Plus(p, Plus(q, r))
  {}

  lemma PlusSelf(p: Poly)
    ensures Plus(p, p) == {} && Plus(p, {}) == p && Plus({}, p) == p
  {}

  // The middle term cancels.
  lemma PlusCancel(p: Poly, m: Poly, q: Poly, r: Poly)
    ensures Plus(Plus(p, m), Plus(Plus(m, q), r)) == Plus(Plus(p, q), r)
  {}

  lemma UpPlus(p: Poly, q: Poly)
    ensures Up(Plus(p, q)) == Plus(Up(p), Up(q))
  {}

  lemma {:induction false} UpByPlus(p: Poly, q: Poly, n: nat)
    ensures UpBy(Plus(p, q), n) == Plus(UpBy(p, n), UpBy(q, n))
  {
    if n > 0 {
      UpByPlus(p, q, n - 1);
      UpPlus(UpBy(p, n - 1), UpBy(q, n - 1));
    }
  }

  lemma {:induction false} UpByIn(p: Poly, n: nat, i: nat)
    ensures i in UpBy(p, n) <==> i >= n && i - n in p
  {
    if n > 0 && i > 0 { UpByIn(p, n - 1, i - 1); }
  }

  lemma {:induction false} UpByUp(p: Poly, n: nat)
    ensures UpBy(Up(p), n) == Up(UpBy(p, n))
  {
    if n > 0 { UpByUp(p, n - 1); }
  }

  // ---------------------------------------------------------------------------------------------
  // Binary digits
  // ---------------------------------------------------------------------------------------------

  // Digit `i` of n is one.
  predicate Digit(n: nat, i: nat) {
    if i == 0 then n % 2 == 1 else Digit(n / 2, i - 1)
  }

  function Bits(n: nat): Poly {
    set i: nat | i < n && Digit(n, i)
  }

  // Exclusive or, digit by digit.
  function Xor(a: nat, b: nat): nat {
    if a == 0 then b
    else if b == 0 then a
    else (a % 2 + b % 2) % 2 + 2 * Xor(a / 2, b / 2)
  }

  function Pow2(k: nat): (p: nat)
    ensures p > 0
  {
    if k == 0 then 1 else 2 * Pow2(k - 1)
  }

  lemma {:induction false} DigitBelow(n: nat, i: nat)
    requires Digit(n, i)
    ensures i < n
  {
    if i > 0 { DigitBelow(n / 2, i - 1); }
  }

  lemma InBits(n: nat, i: nat)
    ensures i in Bits(n) <==> Digit(n, i)
  {
    if Digit(n, i) { DigitBelow(n, i); }
  }

  // Two polynomials with the same digits are equal.
  lemma SameBits(n: nat, p: Poly)
    requires forall i: nat :: Digit(n, i) <==> i in p
    ensures Bits(n) == p
  {
    forall i: nat ensures i in Bits(n) <==> i in p { InBits(n, i); }
  }

  lemma {:induction false} DigitZero(i: nat)
    ensures !Digit(0, i)
  {
    if i > 0 { DigitZero(i - 1); }
  }

  lemma {:induction false} DigitXor(a: nat, b: nat, i: nat)
    ensures Digit(Xor(a, b), i) <==> (Digit(a, i) != Digit(b, i))
    decreases i
  {
    DigitZero(i);
    if a != 0 && b != 0 {
      var x := Xor(a / 2, b / 2);
      assert Xor(a, b) / 2 == x && Xor(a, b) % 2 == (a % 2 + b % 2) % 2;
      if i > 0 { DigitXor(a / 2, b / 2, i - 1); }
    }
  }

  lemma BitsXor(a: nat, b: nat)
    ensures Bits(Xor(a, b)) == Plus(Bits(a), Bits(b))
  {
    forall i: nat ensures Digit(Xor(a, b), i) <==> i in Plus(Bits(a), Bits(b)) {
      DigitXor(a, b, i);
      InBits(a, i);
      InBits(b, i);
    }
    SameBits(Xor(a, b), Plus(Bits(a), Bits(b)));
  }

  lemma BitsDouble(n: nat)
    ensures Bits(2 * n) == Up(Bits(n))
  {
    forall i: nat ensures Digit(2 * n, i) <==> i in Up(Bits(n)) {
      if i > 0 { InBits(n, i - 1); assert 2 * n / 2 == n; }
    }
    SameBits(2 * n, Up(Bits(n)));
  }

  lemma {:induction false} BitsScale(n: nat, k: nat)
    ensures Bits(n * Pow2(k)) == UpBy(Bits(n), k)
  {
    if k > 0 {
      BitsScale(n, k - 1);
      BitsDouble(n * Pow2(k - 1));
      assert n * Pow2(k) == 2 * (n * Pow2(k - 1));
    }
  }

  lemma BitsZero()
    ensures Bits(0) == {}
  {}

  // A number below 2^k has no digit from k on.
  lemma {:induction false} DigitHigh(n: nat, k: nat, i: nat)
    requires n < Pow2(k) && i >= k
    ensures !Digit(n, i)
  {
    if k == 0 {
      DigitZero(i);
    } else {
      DigitHigh(n / 2, k - 1, i - 1);
    }
  }

  lemma BitsBelow(n: nat, k: nat)
    requires n < Pow2(k)
    ensures Below(Bits(n), k)
  {
    forall i | i in Bits(n) ensures i < k {
      if i >= k { DigitHigh(n, k, i); }
    }
  }

  // Adding a higher power of two sets that digit.
  lemma {:induction false} DigitAddTop(n: nat, k: nat, i: nat)
    requires n < Pow2(k)
    ensures Digit(n + Pow2(k), i) <==> Digit(n, i) || i == k
    decreases k
  {
    if k == 0 {
      if i > 0 { DigitZero(i - 1); }
    } else {
      assert (n + Pow2(k)) / 2 == n / 2 + Pow2(k - 1) && (n + Pow2(k)) % 2 == n % 2;
      if i > 0 { DigitAddTop(n / 2, k - 1, i - 1); }
    }
  }

  lemma BitsAddTop(n: nat, k: nat)
    requires n < Pow2(k)
    ensures Bits(n + Pow2(k)) == Bits(n) + {k} && k !in Bits(n)
  {
    forall i: nat ensures Digit(n + Pow2(k), i) <==> i in Bits(n) + {k} {
      DigitAddTop(n, k, i);
      InBits(n, i);
    }
    SameBits(n + Pow2(k), Bits(n) + {k});
    DigitHigh(n, k, k);
  }

  lemma {:induction false} DigitsInjective(a: nat, b: nat)
    requires forall i: nat :: Digit(a, i) <==> Digit(b, i)
    ensures a == b
    decreases a + b
  {
    if a != 0 || b != 0 {
      assert Digit(a, 0) <==> Digit(b, 0);
      forall i: nat ensures Digit(a / 2, i) <==> Digit(b / 2, i) {
        assert Digit(a, i + 1) <==> Digit(b, i + 1);
      }
      DigitsInjective(a / 2, b / 2);
    }
  }

  lemma BitsInjective(a: nat, b: nat)
    requires Bits(a) == Bits(b)
    ensures a == b
  {
    forall i: nat ensures Digit(a, i) <==> Digit(b, i) { InBits(a, i); InBits(b, i); }
    DigitsInjective(a, b);
  }

  // ---------------------------------------------------------------------------------------------
  // Division
  // ---------------------------------------------------------------------------------------------

  lemma {:induction false} TimesPlus(a: seq<bool>, b: seq<bool>, g: Poly)
    requires |a| == |b|
    ensures Plus(Times(a, g), Times(b, g)) == Times(seq(|a|, i requires 0 <= i < |a| => a[i] != b[i]), g)
  {
    var c := seq(|a|, i requires 0 <= i < |a| => a[i] != b[i]);
    if a != [] {
      var n := |a| - 1;
      TimesPlus(a[..n], b[..n], g);
      assert c[..n] == seq(n, i requires 0 <= i < n => a[..n][i] != b[..n][i]);
      UpPlus(Times(a[..n], g), Times(b[..n], g));
    }
  }

  lemma {:induction false} TimesLeadingZero(q: seq<bool>, g: Poly)
    ensures Times([false] + q, g) == Times(q, g)
  {
    if q == [] {
      assert ([false] + q)[..0] == [];
      assert Up({}) == {};
    } else {
      TimesLeadingZero(q[..|q| - 1], g);
      assert ([false] + q)[..|q|] == [false] + q[..|q| - 1];
    }
  }

  function Pad(q: seq<bool>, n: nat): (r: seq<bool>)
    requires |q| <= n
    ensures |r| == n
    decreases n - |q|
  {
    if |q| == n then q else Pad([false] + q, n)
  }

  lemma {:induction false} TimesPad(q: seq<bool>, n: nat, g: Poly)
    requires |q| <= n
    ensures Times(Pad(q, n), g) == Times(q, g)
    decreases n - |q|
  {
    if |q| < n {
      TimesPad([false] + q, n, g);
      TimesLeadingZero(q, g);
    }
  }

  lemma TallGrows(q: seq<bool>, g: Poly, d: nat, e: nat)
    requires Below(g, d + 1) && q != [] && e in Times(q[..|q| - 1], g) && e >= d
    ensures e + 1 in Times(q, g)
  {
    assert e + 1 in Up(Times(q[..|q| - 1], g)) && e + 1 !in g;
  }

  // A non-zero multiple of a polynomial of degree d has degree at least d.
  lemma {:induction false} MultipleIsLarge(q: seq<bool>, g: Poly, d: nat)
    requires d in g && Below(g, d + 1) && Below(Times(q, g), d)
    ensures Times(q, g) == {}
  {
    if q != [] {
      var t := Times(q[..|q| - 1], g);
      forall e | e in t ensures e < d {
        if e >= d { TallGrows(q, g, d, e); }
      }
      MultipleIsLarge(q[..|q| - 1], g, d);
      assert Up({}) == {};
      assert q[|q| - 1] ==> Times(q, g) == g;
    }
  }

  // Division by g leaves only one remainder.
  lemma RemainderUnique(q1: seq<bool>, r1: Poly, q2: seq<bool>, r2: Poly, g: Poly, d: nat)
    requires d in g && Below(g, d + 1) && Below(r1, d) && Below(r2, d)
    requires Plus(Times(q1, g), r1) == Plus(Times(q2, g), r2)
    ensures r1 == r2
  {
    var n := if |q1| < |q2| then |q2| else |q1|;
    TimesPad(q1, n, g);
    TimesPad(q2, n, g);
    var a, b := Pad(q1, n), Pad(q2, n);
    TimesPlus(a, b, g);
    var c := seq(n, i requires 0 <= i < n => a[i] != b[i]);
    assert Times(c, g) == Plus(Times(q1, g), Times(q2, g));
    forall i: nat ensures i in Times(c, g) <==> i in Plus(r1, r2) {
      assert i in Plus(Times(q1, g), r1) <==> i in Plus(Times(q2, g), r2);
    }
    MultipleIsLarge(c, g, d);
    forall i: nat ensures i in r1 <==> i in r2 {
      assert i !in Plus(r1, r2);
    }
  }
}
