/** The frame checksum: a 32-bit register stepped once a bit, and the damage it is certain to detect. */
module Crc {
  import opened Words

  /** A `uint32_t` seen as its bits, least significant first. */
  type Register = c: seq<bool> | |c| == 32 witness seq(32, _ => false)

  /** The exponents of the generator polynomial below x^32. */
  const LOW_TERMS: set<nat> := {26, 23, 22, 16, 12, 11, 10, 8, 7, 5, 4, 2, 1, 0}

  /** The generator constant, bit-reversed: bit i is the coefficient of x^(31-i). */
  function Poly(): Register { seq(32, i requires 0 <= i < 32 => 31 - i in LOW_TERMS) }

  function Ones(): Register { seq(32, _ => true) }

  function Zeros(n: nat): seq<bool> { seq(n, _ => false) }

  function Xor(a: seq<bool>, b: seq<bool>): (c: seq<bool>)
    requires |a| == |b|
  {
    seq(|a|, i requires 0 <= i < |a| => a[i] != b[i])
  }

  /** One round of the inner loop: shift right, then add the polynomial if a one fell out. */
  function Shift(c: Register): Register
  {
    Xor(c[1..] + [false], if c[0] then Poly() else Zeros(32))
  }

  function ShiftN(c: Register, n: nat): Register
    decreases n
  {
    if n == 0 then c else ShiftN(Shift(c), n - 1)
  }

  /** The n low bits of v, least significant first: the order in which bits enter the register. */
  function LowBits(v: nat, n: nat): (bits: seq<bool>)
    ensures |bits| == n
    decreases n
  {
    if n == 0 then [] else [v % 2 == 1] + LowBits(v / 2, n - 1)
  }

  function Bits(bytes: seq<byte>): (bits: seq<bool>)
    ensures |bits| == 8 * |bytes|
  {
    if bytes == [] then [] else Bits(bytes[..|bytes| - 1]) + LowBits(bytes[|bytes| - 1], 8)
  }

  /** Bits laid over the low end of a register. */
  function Overlay(bits: seq<bool>): Register
    requires |bits| <= 32
  {
    bits + Zeros(32 - |bits|)
  }

  function FeedOne(c: Register, b: bool): Register { Shift(Xor(c, Overlay([b]))) }

  /** The register after a message has gone through it one bit at a time. */
  function Feed(c: Register, bits: seq<bool>): Register
    decreases |bits|
  {
    if bits == [] then c else Feed(FeedOne(c, bits[0]), bits[1..])
  }

  function Complement(c: Register): Register { Xor(c, Ones()) }

  function Crc32(bytes: seq<byte>): Register { Complement(Feed(Ones(), Bits(bytes))) }

  /** Written as the source writes it, the generator is 0xedb88320. */
  lemma GeneratorConstant()
    ensures LoadU32([0x20, 0x83, 0xb8, 0xed]) == 0xedb88320
    ensures Poly() == LowBits(0x20, 8) + LowBits(0x83, 8) + LowBits(0xb8, 8) + LowBits(0xed, 8)
  {
    hide Poly, LowBits;
    Octet20();
    Octet83();
    OctetB8();
    OctetEd();
    var p := Poly();
    assert p == p[0..8] + p[8..16] + p[16..24] + p[24..32];
  }

  lemma LowBitsStep(v: nat, n: nat)
    requires n > 0
    ensures LowBits(v, n) == [v % 2 == 1] + LowBits(v / 2, n - 1)
  {
  }

  lemma Octet(v: nat)
    ensures LowBits(v, 8) == [v % 2 == 1, v / 2 % 2 == 1, v / 4 % 2 == 1, v / 8 % 2 == 1,
                              v / 16 % 2 == 1, v / 32 % 2 == 1, v / 64 % 2 == 1, v / 128 % 2 == 1]
  {
    hide LowBits;
    Nibble(v, 8);
    Nibble(v / 16, 4);
    assert v / 16 / 2 == v / 32 && v / 16 / 4 == v / 64 && v / 16 / 8 == v / 128;
  }

  lemma Nibble(v: nat, n: nat)
    requires n >= 4
    ensures LowBits(v, n) == [v % 2 == 1, v / 2 % 2 == 1, v / 4 % 2 == 1, v / 8 % 2 == 1] + LowBits(v / 16, n - 4)
  {
    hide LowBits;
    LowBitsStep(v, n);
    LowBitsStep(v / 2, n - 1);
    assert v / 2 / 2 == v / 4;
    LowBitsStep(v / 4, n - 2);
    assert v / 4 / 2 == v / 8;
    LowBitsStep(v / 8, n - 3);
    assert v / 8 / 2 == v / 16;
  }

  lemma Octet20()
    ensures LowBits(0x20, 8) == Poly()[0..8]
  {
    hide LowBits;
    Octet(0x20);
  }

  lemma Octet83()
    ensures LowBits(0x83, 8) == Poly()[8..16]
  {
    hide LowBits;
    Octet(0x83);
  }

  lemma OctetB8()
    ensures LowBits(0xb8, 8) == Poly()[16..24]
  {
    hide LowBits;
    Octet(0xb8);
  }

  lemma OctetEd()
    ensures LowBits(0xed, 8) == Poly()[24..32]
  {
    hide LowBits;
    Octet(0xed);
  }

  lemma ShiftXor(a: Register, b: Register)
    ensures Shift(Xor(a, b)) == Xor(Shift(a), Shift(b))
  {
  }

  lemma ShiftOverlay(bits: seq<bool>)
    requires 0 < |bits| <= 32
    ensures Shift(Overlay([false] + bits[1..])) == Overlay(bits[1..])
    ensures Overlay(bits) == Xor(Overlay([bits[0]]), Overlay([false] + bits[1..]))
  {
  }

  /** Pending bits lying over the register may be consumed one at a time. */
  lemma FeedPending(c: Register, bits: seq<bool>)
    requires 0 < |bits| <= 32
    ensures Shift(Xor(c, Overlay(bits))) == Xor(FeedOne(c, bits[0]), Overlay(bits[1..]))
  {
    var head, rest := Overlay([bits[0]]), Overlay([false] + bits[1..]);
    ShiftOverlay(bits);
    assert Xor(c, Overlay(bits)) == Xor(Xor(c, head), rest);
    ShiftXor(Xor(c, head), rest);
  }

  lemma {:induction false} FeedAppend(c: Register, xs: seq<bool>, ys: seq<bool>)
    ensures Feed(c, xs + ys) == Feed(Feed(c, xs), ys)
    decreases |xs|
  {
    if xs == [] {
      assert xs + ys == ys;
    } else {
      assert (xs + ys)[1..] == xs[1..] + ys;
      FeedAppend(FeedOne(c, xs[0]), xs[1..], ys);
    }
  }

  lemma FeedNothing(c: Register)
    ensures Feed(c, []) == c
  {
  }

  lemma FeedLast(c: Register, xs: seq<bool>, b: bool)
    ensures Feed(c, xs + [b]) == FeedOne(Feed(c, xs), b)
  {
    FeedAppend(c, xs, [b]);
    assert Feed(Feed(c, xs), [b]) == Feed(FeedOne(Feed(c, xs), b), []);
  }

  /** The inner loop: a byte XORed in at once behaves as its eight bits fed one by one. */
  method FeedByte(start: Register, value: byte) returns (crc: Register)
    ensures crc == Feed(start, LowBits(value, 8))
  {
    hide Shift, Poly, LowBits, FeedOne, Feed;
    ghost var bits := LowBits(value, 8);
    FeedNothing(start);
    crc := Xor(start, Overlay(LowBits(value, 8)));
    assert bits[0..] == bits;
    for bit := 0 to 8
      invariant crc == Xor(Feed(start, bits[..bit]), Overlay(bits[bit..]))
    {
      FeedPending(Feed(start, bits[..bit]), bits[bit..]);
      FeedLast(start, bits[..bit], bits[bit]);
      assert bits[..bit + 1] == bits[..bit] + [bits[bit]];
      assert bits[bit..][1..] == bits[bit + 1..];
      crc := Shift(crc);
    }
    assert bits[..8] == bits;
    assert Xor(Feed(start, bits), Overlay([])) == Feed(start, bits);
  }

  /** The nested byte and bit loops compute the bit-serial register. */
  method FrameCrc32(bytes: seq<byte>) returns (crc: Register)
    ensures crc == Crc32(bytes)
  {
    crc := Ones();
    for index := 0 to |bytes|
      invariant crc == Feed(Ones(), Bits(bytes[..index]))
    {
      FeedAppend(Ones(), Bits(bytes[..index]), LowBits(bytes[index], 8));
      assert bytes[..index + 1][..index] == bytes[..index];
      crc := FeedByte(crc, bytes[index]);
    }
    assert bytes[..|bytes|] == bytes;
    crc := Complement(crc);
  }

  /** Undoes one step: the top bit of the generator tells whether it was added. */
  function Unshift(c: Register): Register
  {
    if c[31] then [true] + Xor(c, Poly())[..31] else [false] + c[..31]
  }

  lemma UnshiftShift(c: Register)
    ensures Unshift(Shift(c)) == c
  {
    var d := Shift(c);
    assert d[31] == c[0];
    forall j | 1 <= j < 32 ensures Unshift(d)[j] == c[j] {
      assert d[j - 1] == (c[j] != (c[0] && Poly()[j - 1]));
    }
  }

  lemma {:induction false} ShiftNInjective(a: Register, b: Register, n: nat)
    requires ShiftN(a, n) == ShiftN(b, n)
    ensures a == b
    decreases n
  {
    if n > 0 {
      ShiftNInjective(Shift(a), Shift(b), n - 1);
      UnshiftShift(a);
      UnshiftShift(b);
    }
  }

  lemma XorCancels(c: seq<bool>, a: seq<bool>, b: seq<bool>)
    requires |a| == |b| == |c| && Xor(c, a) == Xor(c, b)
    ensures a == b
  {
    forall i | 0 <= i < |c| ensures a[i] == b[i] {
      assert Xor(c, a)[i] == Xor(c, b)[i];
    }
  }

  lemma XorCommutes(a: seq<bool>, b: seq<bool>)
    requires |a| == |b|
    ensures Xor(a, b) == Xor(b, a)
  {
  }

  /** Up to 32 bits may be laid over the register at once and shifted out afterwards. */
  lemma {:induction false} FeedIsOverlay(c: Register, bits: seq<bool>)
    requires |bits| <= 32
    ensures Feed(c, bits) == ShiftN(Xor(c, Overlay(bits)), |bits|)
    decreases |bits|
  {
    if bits == [] {
      assert Xor(c, Overlay(bits)) == c;
    } else {
      FeedIsOverlay(FeedOne(c, bits[0]), bits[1..]);
      FeedPending(c, bits);
    }
  }

  /** A changed register stays changed through any common suffix. */
  lemma {:induction false} FeedInjective(c: Register, d: Register, bits: seq<bool>)
    requires Feed(c, bits) == Feed(d, bits)
    ensures c == d
    decreases |bits|
  {
    if bits != [] {
      FeedInjective(FeedOne(c, bits[0]), FeedOne(d, bits[0]), bits[1..]);
      UnshiftShift(Xor(c, Overlay([bits[0]])));
      UnshiftShift(Xor(d, Overlay([bits[0]])));
      XorCommutes(Overlay([bits[0]]), c);
      XorCommutes(Overlay([bits[0]]), d);
      XorCancels(Overlay([bits[0]]), c, d);
    }
  }

  /** The two bit strings agree before position s and from position s + n on. */
  ghost predicate DifferOnlyWithin(x: seq<bool>, y: seq<bool>, s: nat, n: nat)
  {
    |x| == |y| && s + n <= |x| && x[..s] == y[..s] && x[s + n..] == y[s + n..]
  }

  lemma FeedInThree(c: Register, x: seq<bool>, s: nat, n: nat)
    requires s + n <= |x|
    ensures Feed(c, x) == Feed(Feed(Feed(c, x[..s]), x[s..s + n]), x[s + n..])
  {
    hide Feed;
    FeedAppend(c, x[..s], x[s..]);
    FeedAppend(Feed(c, x[..s]), x[s..s + n], x[s + n..]);
    assert x[s..] == x[s..s + n] + x[s + n..];
    assert x == x[..s] + x[s..];
  }

  /** Every burst of at most 32 bits changes the checksum, whatever the message and wherever it strikes. */
  lemma BurstIsDetected(a: seq<byte>, b: seq<byte>, s: nat)
    requires DifferOnlyWithin(Bits(a), Bits(b), s, 32)
    requires Bits(a) != Bits(b)
    ensures Crc32(a) != Crc32(b)
  {
    hide Feed, Shift, Bits, Poly;
    var x, y := Bits(a), Bits(b);
    var c := Feed(Ones(), x[..s]);
    var p, q := x[s..s + 32], y[s..s + 32];
    assert x == x[..s] + p + x[s + 32..];
    assert y == y[..s] + q + y[s + 32..];
    assert Overlay(p) == p && Overlay(q) == q;
    FeedInThree(Ones(), x, s, 32);
    FeedInThree(Ones(), y, s, 32);
    if Crc32(a) == Crc32(b) {
      ComplementInjective(Feed(Ones(), x), Feed(Ones(), y));
      FeedInjective(Feed(c, p), Feed(c, q), x[s + 32..]);
      FeedIsOverlay(c, p);
      FeedIsOverlay(c, q);
      ShiftNInjective(Xor(c, Overlay(p)), Xor(c, Overlay(q)), 32);
      XorCancels(c, Overlay(p), Overlay(q));
    }
  }

  lemma ComplementInjective(c: Register, d: Register)
    requires Complement(c) == Complement(d)
    ensures c == d
  {
    forall i | 0 <= i < 32 ensures c[i] == d[i] {
      assert Complement(c)[i] == Complement(d)[i];
    }
  }

  /** The bound is sharp: the 33-bit burst shaped like the generator is never detected. */
  lemma GeneratorBurstIsMissed(a: seq<byte>, b: seq<byte>, s: nat)
    requires DifferOnlyWithin(Bits(a), Bits(b), s, 33)
    requires Bits(b)[s..s + 33] == Xor(Bits(a)[s..s + 33], [true] + Poly())
    ensures Crc32(a) == Crc32(b)
  {
    hide Feed, Shift, Bits, Poly;
    var x, y := Bits(a), Bits(b);
    var c := Feed(Ones(), x[..s]);
    var p, q := x[s..s + 33], y[s..s + 33];
    FeedInThree(Ones(), x, s, 33);
    FeedInThree(Ones(), y, s, 33);
    FeedAppend(c, [p[0]], p[1..]);
    FeedAppend(c, [q[0]], q[1..]);
    assert p == [p[0]] + p[1..] && q == [q[0]] + q[1..];
    assert q[0] == !p[0];
    assert q[1..] == Xor(p[1..], Poly());
    FeedOppositeBits(c, p[0]);
    var d, e := Feed(c, [p[0]]), Feed(c, [q[0]]);
    FeedIsOverlay(d, p[1..]);
    FeedIsOverlay(e, q[1..]);
    assert Overlay(p[1..]) == p[1..] && Overlay(q[1..]) == q[1..];
    assert Xor(e, q[1..]) == Xor(d, p[1..]);
  }

  lemma FeedOppositeBits(c: Register, b: bool)
    ensures Feed(c, [!b]) == Xor(Feed(c, [b]), Poly())
  {
    FeedLast(c, [], b);
    FeedLast(c, [], !b);
    assert [] + [b] == [b] && [] + [!b] == [!b];
    var x, y := Xor(c, Overlay([b])), Xor(c, Overlay([!b]));
    assert x[0] == !y[0];
    assert x[1..] == y[1..];
  }
}
