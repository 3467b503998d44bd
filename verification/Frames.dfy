/** The frame of the shared rings, and what the consumer makes of the slot it finds. */
module Frames {
  import opened Words
  import opened Crc

  const RING_SLOTS := 8
  const CAPACITY := 7
  const PRIORITY_COUNT := 4
  /** How many frames of one priority the worker deals with in one pass. */
  const DRAIN_QUOTA := RING_SLOTS - 1
  const PAYLOAD_BYTES := 28
  const PROTOCOL_MAGIC: u32 := 0x4d4d5347
  const PROTOCOL_VERSION: u32 := 6

  const MSG_NOP: u32 := 0
  const MSG_PING: u32 := 1
  const MSG_PONG: u32 := 2
  const MSG_ACK: u32 := 3
  const MSG_NACK: u32 := 4
  const MSG_STOP_REQUEST: u32 := 5
  const MSG_STOP_READY: u32 := 6
  const MSG_STOP_REFUSED: u32 := 7
  const MSG_SESSION_READY: u32 := 8

  const NACK_BAD_CRC: u32 := 1
  const NACK_INVALID_FRAME: u32 := 2
  const STOP_REFUSED_INVALID_REQUEST: u32 := 1
  const STOP_REFUSED_BUSY: u32 := 2

  type priority = p: nat | p < 4
  type Payload = p: seq<byte> | |p| == 28 witness seq(28, _ => 0)

  datatype Frame = Frame(generation: u32, kind: u32, sequence: u32, length: u32, payload: Payload)

  /** A frame as it lies in shared memory, with the checksum and commit words behind it. */
  datatype Slot = Slot(frame: Frame, crc: Register, commit: u32)

  datatype RingResult = RingOk | RingEmpty | RingFull | RingIncomplete | RingBadCrc | RingInvalid

  /** The two low bits of the mask 0x3. */
  predicate Reliable(p: priority) { p == 0 || p == 1 }

  predicate WellFormed(f: Frame) { f.generation != 0 && f.sequence != 0 && f.length <= PAYLOAD_BYTES }

  /** The bytes under the checksum, in memory order. */
  function Body(f: Frame): (bytes: seq<byte>)
    ensures |bytes| == 44
  {
    StoreU32(f.generation) + StoreU32(f.kind) + StoreU32(f.sequence) + StoreU32(f.length) + f.payload
  }

  /** A frame as the producer leaves it behind. */
  function Seal(f: Frame): Slot { Slot(f, Crc32(Body(f)), f.sequence) }

  /** The consumer's verdict on a committed slot. */
  function Judge(s: Slot): RingResult
  {
    if !WellFormed(s.frame) then RingInvalid
    else if s.crc != Crc32(Body(s.frame)) then RingBadCrc
    else RingOk
  }

  lemma JudgeVerdicts()
    ensures forall s :: Judge(s) == RingOk || Judge(s) == RingBadCrc || Judge(s) == RingInvalid
  {
  }

  /** The eleven words under the checksum, as they lie in memory: four words of head, then the payload. */
  predicate LiesAs(f: Frame, m: seq<byte>)
  {
    && |m| == 44
    && LoadU32(m) == f.generation && LoadU32(m[4..]) == f.kind
    && LoadU32(m[8..]) == f.sequence && LoadU32(m[12..]) == f.length
    && m[16..] == f.payload
  }

  lemma LiesAsBody(f: Frame, m: seq<byte>)
    ensures LiesAs(f, m) <==> m == Body(f)
  {
    hide StoreU32, LoadU32;
    var a, b, c, d := StoreU32(f.generation), StoreU32(f.kind), StoreU32(f.sequence), StoreU32(f.length);
    if LiesAs(f, m) {
      StoreAfterLoad(m);
      StoreAfterLoad(m[4..]);
      StoreAfterLoad(m[8..]);
      StoreAfterLoad(m[12..]);
      assert m == m[..4] + m[4..][..4] + m[8..][..4] + m[12..][..4] + m[16..];
    }
    if m == Body(f) {
      LoadAfterStore(f.generation, b + c + d + f.payload);
      LoadAfterStore(f.kind, c + d + f.payload);
      LoadAfterStore(f.sequence, d + f.payload);
      LoadAfterStore(f.length, f.payload);
      assert m == a + (b + c + d + f.payload) && m[4..] == b + (c + d + f.payload);
      assert m[8..] == c + (d + f.payload) && m[12..] == d + f.payload;
    }
  }

  /** The checksum word a producer commits is that of the frame's 44 bytes in memory, and the commit word its number. */
  lemma SealedWords(f: Frame, m: seq<byte>)
    requires LiesAs(f, m)
    ensures Seal(f).crc == Crc32(m) && Seal(f).commit == LoadU32(m[8..]) && Seal(f).frame == f
  {
    hide Crc32, Body;
    LiesAsBody(f, m);
  }

  /** The consumer judges by the same bytes: first the three fields it checks, then the checksum word. */
  lemma JudgedWords(s: Slot, m: seq<byte>)
    requires LiesAs(s.frame, m)
    ensures Judge(s) == RingInvalid <==> LoadU32(m) == 0 || LoadU32(m[8..]) == 0 || LoadU32(m[12..]) > 28
    ensures Judge(s) == RingOk <==>
            LoadU32(m) != 0 && LoadU32(m[8..]) != 0 && LoadU32(m[12..]) <= 28 && s.crc == Crc32(m)
    ensures Judge(s) == RingOk || Judge(s) == RingInvalid || Judge(s) == RingBadCrc
  {
    hide Crc32, Body, LoadU32;
    LiesAsBody(s.frame, m);
  }

  /** The abstract ring: a bounded queue of slots. */
  function PushSpec(q: seq<Slot>, f: Frame): (RingResult, seq<Slot>)
  {
    if !WellFormed(f) then (RingInvalid, q)
    else if |q| >= CAPACITY then (RingFull, q)
    else (RingOk, q + [Seal(f)])
  }

  function PopSpec(q: seq<Slot>): (RingResult, Option<Slot>, seq<Slot>)
  {
    if q == [] then (RingEmpty, None, q)
    else if q[0].commit != q[0].frame.sequence then (RingIncomplete, None, q)
    else (Judge(q[0]), Some(q[0]), q[1..])
  }

  /** What was pushed into an empty ring comes out unaltered and is accepted. */
  lemma PopAfterPush(f: Frame)
    requires WellFormed(f)
    ensures PopSpec([Seal(f)]) == (RingOk, Some(Seal(f)), [])
  {
    hide Crc32;
    assert [Seal(f)][1..] == [];
  }

  /** Taking n slots, as far as they are there and committed. */
  function PopN(q: seq<Slot>, n: nat): seq<Slot>
  {
    if n == 0 then q else PopN(PopSpec(q).2, n - 1)
  }

  /**
   What was pushed comes out unaltered and is accepted, behind everything pushed before it: a frame put into any ring
   with room is the next one out after as many pops as there were slots before it, all of them committed.
   */
  lemma {:induction false} PopAfterPushes(q: seq<Slot>, f: Frame)
    requires WellFormed(f) && |q| < CAPACITY
    requires forall s | s in q :: s.commit == s.frame.sequence
    ensures PushSpec(q, f) == (RingOk, q + [Seal(f)])
    ensures PopSpec(PopN(q + [Seal(f)], |q|)) == (RingOk, Some(Seal(f)), [])
    ensures forall i | 0 <= i < |q| :: PopSpec(PopN(q + [Seal(f)], i)).1 == Some(q[i])
  {
    hide Seal, Judge;
    var all := q + [Seal(f)];
    if q == [] {
      PopAfterPush(f);
      assert all == [Seal(f)];
    } else {
      PopAfterPushes(q[1..], f);
      assert all[1..] == q[1..] + [Seal(f)];
      assert PopSpec(all).2 == all[1..];
      forall i | 0 <= i < |q| ensures PopSpec(PopN(all, i)).1 == Some(q[i]) {
        if i > 0 {
          assert PopN(all, i) == PopN(all[1..], i - 1);
          assert q[1..][i - 1] == q[i];
        }
      }
    }
  }

  /** The test-only damage: payload[0] is inverted after the checksum was taken. */
  function Damage(s: Slot): Slot
  {
    s.(frame := s.frame.(payload := s.frame.payload[0 := 0xff - s.frame.payload[0]]))
  }

  lemma {:induction false} BitsAppend(a: seq<byte>, b: seq<byte>)
    ensures Bits(a + b) == Bits(a) + Bits(b)
    decreases |b|
  {
    hide LowBits;
    if b == [] {
      assert a + b == a;
    } else {
      var n := |b| - 1;
      assert (a + b)[..|a| + n] == a + b[..n];
      BitsAppend(a, b[..n]);
    }
  }

  lemma BitsInThree(a: seq<byte>, b: seq<byte>, c: seq<byte>)
    ensures Bits(a + b + c) == Bits(a) + Bits(b) + Bits(c)
  {
    BitsAppend(a + b, c);
    BitsAppend(a, b);
  }

  lemma {:induction false} BitsInjective(a: seq<byte>, b: seq<byte>)
    requires |a| == |b| && Bits(a) == Bits(b)
    ensures a == b
    decreases |a|
  {
    hide LowBits;
    if a != [] {
      var n := |a| - 1;
      assert Bits(a)[..8 * n] == Bits(a[..n]) && Bits(b)[..8 * n] == Bits(b[..n]);
      assert Bits(a)[8 * n..] == LowBits(a[n], 8) && Bits(b)[8 * n..] == LowBits(b[n], 8);
      BitsInjective(a[..n], b[..n]);
      PowerOfEight();
      LowBitsInjective(a[n], b[n], 8, 0x100);
    }
  }

  lemma PowerOfEight()
    ensures Power(8) == 0x100
  {
    assert Power(4) == 0x10;
  }

  lemma {:induction false} LowBitsInjective(v: nat, w: nat, n: nat, bound: nat)
    requires LowBits(v, n) == LowBits(w, n)
    requires v < bound && w < bound && bound == Power(n)
    ensures v == w
    decreases n
  {
    if n > 0 {
      assert LowBits(v, n)[0] == LowBits(w, n)[0];
      assert LowBits(v, n)[1..] == LowBits(v / 2, n - 1) && LowBits(w, n)[1..] == LowBits(w / 2, n - 1);
      LowBitsInjective(v / 2, w / 2, n - 1, Power(n - 1));
    }
  }

  function Power(n: nat): nat { if n == 0 then 1 else 2 * Power(n - 1) }

  /** Damage confined to four consecutive bytes of a message never goes unnoticed. */
  lemma FourByteDamageIsDetected(head: seq<byte>, old4: seq<byte>, new4: seq<byte>, tail: seq<byte>)
    requires |old4| == |new4| == 4 && old4 != new4
    ensures Crc32(head + old4 + tail) != Crc32(head + new4 + tail)
  {
    hide Crc32, Bits;
    BitsInThree(head, old4, tail);
    BitsInThree(head, new4, tail);
    var x, y := Bits(head + old4 + tail), Bits(head + new4 + tail);
    var s := |Bits(head)|;
    assert x[s..s + 32] == Bits(old4) && y[s..s + 32] == Bits(new4);
    assert x[..s] == Bits(head) && y[..s] == Bits(head);
    assert x[s + 32..] == Bits(tail) && y[s + 32..] == Bits(tail);
    if Bits(old4) == Bits(new4) {
      BitsInjective(old4, new4);
    }
    BurstIsDetected(head + old4 + tail, head + new4 + tail, s);
  }

  /** The injected frame: committed, released, and rejected for its checksum, whatever it carried. */
  lemma DamageIsDetected(f: Frame)
    requires WellFormed(f)
    ensures Judge(Damage(Seal(f))) == RingBadCrc
    ensures forall q :: PopSpec([Damage(Seal(f))] + q) == (RingBadCrc, Some(Damage(Seal(f))), q)
  {
    hide Crc32;
    var g := Damage(Seal(f)).frame;
    var head := StoreU32(f.generation) + StoreU32(f.kind) + StoreU32(f.sequence) + StoreU32(f.length);
    assert Body(f) == head + f.payload[..4] + f.payload[4..] by { assert f.payload == f.payload[..4] + f.payload[4..]; }
    assert Body(g) == head + g.payload[..4] + f.payload[4..] by { assert g.payload == g.payload[..4] + f.payload[4..]; }
    assert f.payload[..4][0] != g.payload[..4][0];
    FourByteDamageIsDetected(head, f.payload[..4], g.payload[..4], f.payload[4..]);
    forall q ensures PopSpec([Damage(Seal(f))] + q) == (RingBadCrc, Some(Damage(Seal(f))), q) {
      assert ([Damage(Seal(f))] + q)[1..] == q;
    }
  }
}
