/** What the checksum means: a remainder of polynomials over GF(2), as ITU-T V.42 defines the 32-bit FCS. */
module CrcPolynomial {
  import opened Words
  import opened Crc

  /** A polynomial over GF(2): the exponents whose coefficient is one. */
  type Polynomial = set<nat>

  function Add(p: Polynomial, q: Polynomial): Polynomial { (p - q) + (q - p) }

  ghost function TimesX(p: Polynomial, k: nat): (r: Polynomial)
    ensures forall e: nat :: e in r <==> e >= k && e - k in p
  {
    var r := set e | e in p :: e + k;
    assert forall e: nat :: e in r <==> e >= k && e - k in p by {
      forall e: nat ensures e in r <==> e >= k && e - k in p { HasScaledTerm(p, k, e); }
    }
    r
  }

  lemma HasScaledTerm(p: Polynomial, k: nat, e: nat)
    ensures e in (set d | d in p :: d + k) <==> e >= k && e - k in p
  {
    var r := set d | d in p :: d + k;
    if e >= k && e - k in p {
      assert (e - k) + k in r;
    }
  }

  /** x^32 + x^26 + x^23 + ... + 1, in section 8.1.1.6.2 of ITU-T V.42. */
  const GENERATOR: Polynomial := {32} + LOW_TERMS

  ghost function Term(b: bool, p: Polynomial): Polynomial { if b then p else {} }

  /** The message as a polynomial: its first bit is the highest coefficient. */
  ghost function Content(bits: seq<bool>): Polynomial
  {
    if bits == [] then {} else Add(TimesX(Content(bits[..|bits| - 1]), 1), Term(bits[|bits| - 1], {0}))
  }

  /** What is divided: x^32 times the message, plus x^n times the all-ones preset. */
  ghost function Dividend(bits: seq<bool>): Polynomial
  {
    Add(TimesX(Content(bits), 32), TimesX(RegisterPolynomial(Ones()), |bits|))
  }

  ghost function TimesGenerator(q: seq<bool>): Polynomial
  {
    if q == [] then {} else Add(TimesX(TimesGenerator(q[..|q| - 1]), 1), Term(q[|q| - 1], GENERATOR))
  }

  /** Bit 0 of the register is the coefficient of x^31. */
  ghost predicate HasTerm(c: Register, e: nat) { e < 32 && c[31 - e] }

  ghost function RegisterPolynomial(c: Register): Polynomial { set e: nat | e < 32 && HasTerm(c, e) }

  /** The ones that fell out of the register. */
  function Quotient(bits: seq<bool>): (q: seq<bool>)
    ensures |q| == |bits|
  {
    if bits == [] then [] else
    var init, last := bits[..|bits| - 1], bits[|bits| - 1];
    Quotient(init) + [Feed(Ones(), init)[0] != last]
  }

  lemma DividendStep(bits: seq<bool>, b: bool)
    ensures Dividend(bits + [b]) == Add(TimesX(Dividend(bits), 1), Term(b, {32}))
  {
    assert (bits + [b])[..|bits|] == bits;
    forall e: nat
      ensures e in Dividend(bits + [b]) <==> e in Add(TimesX(Dividend(bits), 1), Term(b, {32}))
    {
      assert e in TimesX(Content(bits + [b]), 32) <==> (e >= 33 && e - 33 in Content(bits)) != (e == 32 && b);
    }
  }

  lemma RegisterStep(c: Register, b: bool)
    ensures RegisterPolynomial(FeedOne(c, b)) ==
            Add(Add(TimesX(RegisterPolynomial(c), 1), Term(b, {32})), Term(c[0] != b, GENERATOR))
  {
    var d := Xor(c, Overlay([b]));
    var carry := c[0] != b;
    var before := RegisterPolynomial(c);
    forall e: nat
      ensures e in RegisterPolynomial(FeedOne(c, b)) <==>
              ((e in TimesX(before, 1)) != (b && e == 32)) != (carry && e in GENERATOR)
    {
      if e < 32 {
        RegisterStepTerm(c, b, e);
        assert e in TimesX(before, 1) <==> e >= 1 && HasTerm(c, e - 1);
      } else if e == 32 {
        assert e in TimesX(before, 1) <==> HasTerm(c, 31);
      }
    }
  }

  lemma RegisterStepTerm(c: Register, b: bool, e: nat)
    requires e < 32
    ensures FeedOne(c, b)[31 - e] == ((e >= 1 && c[32 - e]) != ((c[0] != b) && e in LOW_TERMS))
  {
    var d := Xor(c, Overlay([b]));
    assert d[0] == (c[0] != b);
    assert Shift(d)[31 - e] == ((d[1..] + [false])[31 - e] != (d[0] && e in LOW_TERMS));
  }

  lemma {:induction false} Division(bits: seq<bool>)
    ensures Dividend(bits) == Add(TimesGenerator(Quotient(bits)), RegisterPolynomial(Feed(Ones(), bits)))
  {
    if bits == [] {
      assert TimesX(Content(bits), 32) == {};
      assert TimesX(RegisterPolynomial(Ones()), 0) == RegisterPolynomial(Ones());
    } else {
      hide FeedOne, Feed;
      var init, b := bits[..|bits| - 1], bits[|bits| - 1];
      var c := Feed(Ones(), init);
      assert bits == init + [b];
      Division(init);
      DividendStep(init, b);
      FeedLast(Ones(), init, b);
      RegisterStep(c, b);
      assert Quotient(bits)[..|bits| - 1] == Quotient(init);
      DivisionStep(Dividend(init), TimesGenerator(Quotient(init)), RegisterPolynomial(c), Term(b, {32}),
                   Term(c[0] != b, GENERATOR));
    }
  }

  lemma DivisionStep(dividend: Polynomial, product: Polynomial, rest: Polynomial, bit: Polynomial, carry: Polynomial)
    requires dividend == Add(product, rest)
    ensures Add(TimesX(dividend, 1), bit) ==
            Add(Add(TimesX(product, 1), carry), Add(Add(TimesX(rest, 1), bit), carry))
  {
  }

  lemma ProductStep(q: seq<bool>, b: bool)
    ensures TimesGenerator(q + [b]) == Add(TimesX(TimesGenerator(q), 1), Term(b, GENERATOR))
  {
    assert (q + [b])[..|q|] == q;
  }

  lemma {:induction false} ZeroProduct(k: nat)
    ensures TimesGenerator(Zeros(k)) == {}
    decreases k
  {
    if k > 0 {
      ZeroProduct(k - 1);
      assert Zeros(k) == Zeros(k - 1) + [false];
      ProductStep(Zeros(k - 1), false);
    }
  }

  lemma {:induction false} PaddedProduct(q: seq<bool>, k: nat)
    ensures TimesGenerator(Zeros(k) + q) == TimesGenerator(q)
    decreases |q|
  {
    hide TimesGenerator, Add;
    if q == [] {
      assert Zeros(k) + q == Zeros(k);
      ZeroProduct(k);
      ZeroProduct(0);
      assert Zeros(0) == q;
    } else {
      var init, b := q[..|q| - 1], q[|q| - 1];
      assert q == init + [b] && Zeros(k) + q == (Zeros(k) + init) + [b];
      PaddedProduct(init, k);
      ProductStep(init, b);
      ProductStep(Zeros(k) + init, b);
    }
  }

  lemma SumOfSteps(p: Polynomial, q: Polynomial, a: bool, b: bool)
    ensures Add(TimesX(Add(p, q), 1), Term(a != b, GENERATOR)) ==
            Add(Add(TimesX(p, 1), Term(a, GENERATOR)), Add(TimesX(q, 1), Term(b, GENERATOR)))
  {
  }

  lemma {:induction false} ProductOfSum(p: seq<bool>, q: seq<bool>)
    requires |p| == |q|
    ensures TimesGenerator(Xor(p, q)) == Add(TimesGenerator(p), TimesGenerator(q))
    decreases |p|
  {
    if p != [] {
      hide TimesGenerator, Add, TimesX, Term;
      var n := |p| - 1;
      ProductOfSum(p[..n], q[..n]);
      assert p == p[..n] + [p[n]] && q == q[..n] + [q[n]];
      assert Xor(p, q) == Xor(p[..n], q[..n]) + [p[n] != q[n]];
      ProductStep(p[..n], p[n]);
      ProductStep(q[..n], q[n]);
      ProductStep(Xor(p[..n], q[..n]), p[n] != q[n]);
      SumOfSteps(TimesGenerator(p[..n]), TimesGenerator(q[..n]), p[n], q[n]);
    }
  }

  /** A multiple of the generator with no term of degree 32 or more is zero. */
  lemma {:induction false} SmallMultipleIsZero(q: seq<bool>)
    ensures TimesGenerator(q) == {} || exists e: nat :: e >= 32 && e in TimesGenerator(q)
  {
    hide TimesGenerator;
    if q == [] {
      ZeroProduct(0);
      assert q == Zeros(0);
    } else {
      var init, b := q[..|q| - 1], q[|q| - 1];
      assert q == init + [b];
      SmallMultipleIsZero(init);
      ProductStep(init, b);
      HighTermStays(TimesGenerator(init), b);
    }
  }

  lemma HighTermStays(p: Polynomial, b: bool)
    requires p == {} || exists e: nat :: e >= 32 && e in p
    ensures var next := Add(TimesX(p, 1), Term(b, GENERATOR));
            next == {} || exists e: nat :: e >= 32 && e in next
  {
    var next := Add(TimesX(p, 1), Term(b, GENERATOR));
    if p == {} {
      assert TimesX(p, 1) == {};
      if b {
        assert 32 in next;
      } else {
        assert next == {};
      }
    } else {
      var e: nat :| e >= 32 && e in p;
      HasScaledTerm(p, 1, e + 1);
      assert e + 1 in next;
    }
  }

  ghost predicate IsRemainder(bits: seq<bool>, q: seq<bool>, r: Polynomial)
  {
    (forall e | e in r :: e < 32) && Dividend(bits) == Add(TimesGenerator(q), r)
  }

  lemma EqualLengthRemainder(bits: seq<bool>, p: seq<bool>, q: seq<bool>, r: Polynomial, s: Polynomial)
    requires |p| == |q| && IsRemainder(bits, p, r) && IsRemainder(bits, q, s)
    ensures r == s
  {
    ProductOfSum(p, q);
    SmallMultipleIsZero(Xor(p, q));
    var product := TimesGenerator(Xor(p, q));
    assert product == Add(r, s) by {
      forall e: nat ensures e in product <==> e in Add(r, s) {
        assert e in Add(TimesGenerator(p), r) <==> e in Add(TimesGenerator(q), s);
      }
    }
    forall e: nat ensures e in r <==> e in s {
      assert e !in Add(r, s);
    }
  }

  lemma RemainderIsUnique(bits: seq<bool>, p: seq<bool>, q: seq<bool>, r: Polynomial, s: Polynomial)
    requires IsRemainder(bits, p, r) && IsRemainder(bits, q, s)
    ensures r == s
  {
    PaddedProduct(p, |q|);
    PaddedProduct(q, |p|);
    EqualLengthRemainder(bits, Zeros(|q|) + p, Zeros(|p|) + q, r, s);
  }

  /** The complemented checksum is the remainder, and nothing else is. */
  lemma ChecksumIsTheRemainder(bytes: seq<byte>, q: seq<bool>, r: Polynomial)
    ensures IsRemainder(Bits(bytes), Quotient(Bits(bytes)), RegisterPolynomial(Complement(Crc32(bytes))))
    ensures IsRemainder(Bits(bytes), q, r) ==> r == RegisterPolynomial(Complement(Crc32(bytes)))
  {
    hide Bits, Feed;
    var bits := Bits(bytes);
    var c := Feed(Ones(), bits);
    assert Complement(Complement(c)) == c;
    Division(bits);
    if IsRemainder(bits, q, r) {
      RemainderIsUnique(bits, q, Quotient(bits), r, RegisterPolynomial(c));
    }
  }
}
