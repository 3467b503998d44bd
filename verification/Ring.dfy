/** The ring as one side sees it when the memory is coherent and the other side is quiet. */
module Ring {
  import opened Words
  import opened Crc
  import opened Frames

  function At(start: nat, i: nat): nat
    requires start < RING_SLOTS && i < RING_SLOTS
  {
    if start + i < RING_SLOTS then start + i else start + i - RING_SLOTS
  }

  function Distance(from: nat, to: nat): nat
    requires from < RING_SLOTS && to < RING_SLOTS
  {
    if to >= from then to - from else RING_SLOTS - from + to
  }

  /** The n slots from `start` on, around the ring. */
  ghost function Window(slots: seq<Slot>, start: nat, n: nat): (w: seq<Slot>)
    requires |slots| == RING_SLOTS && start < RING_SLOTS && n < RING_SLOTS
    ensures |w| == n
  {
    seq(n, i requires 0 <= i < n => slots[At(start, i)])
  }

  lemma WindowAfterPush(slots: seq<Slot>, start: nat, n: nat, s: Slot)
    requires |slots| == RING_SLOTS && start < RING_SLOTS && n + 1 < RING_SLOTS
    ensures Window(slots[At(start, n) := s], start, n + 1) == Window(slots, start, n) + [s]
  {
  }

  /** The slot holds f, f's number as its commit word, and the checksum of f's bytes in memory. */
  ghost predicate CarriesAsBytes(s: Slot, f: Frame)
  {
    s.frame == f && s.commit == f.sequence && forall m | LiesAs(f, m) :: s.crc == Crc32(m)
  }

  lemma SealCarries(f: Frame)
    ensures CarriesAsBytes(Seal(f), f)
  {
    hide Seal, Crc32, LiesAs;
    SealIsPlain(f);
    forall m | LiesAs(f, m) ensures Seal(f).crc == Crc32(m) {
      SealedWords(f, m);
    }
  }

  lemma SealIsPlain(f: Frame)
    ensures Seal(f).frame == f && Seal(f).commit == f.sequence
  {
    hide Crc32, Body;
  }

  /** Zeroed memory. */
  const BLANK := Slot(Frame(0, 0, 0, 0, seq(28, _ => 0)), Zeros(32), 0)

  class Ring {
    var producer: nat
    var consumer: nat
    const slot: array<Slot>

    ghost predicate Valid()
      reads this
    {
      slot.Length == RING_SLOTS && producer < RING_SLOTS && consumer < RING_SLOTS
    }

    ghost function Contents(): (q: seq<Slot>)
      requires Valid()
      reads this, slot
      ensures |q| == Distance(consumer, producer) <= CAPACITY
    {
      Window(slot[..], consumer, Distance(consumer, producer))
    }

    constructor ()
      ensures Valid() && fresh(slot) && Contents() == []
    {
      producer, consumer := 0, 0;
      slot := new Slot[RING_SLOTS](_ => BLANK);
    }

    method Clear()
      requires Valid()
      modifies this, slot
      ensures Valid() && Contents() == []
    {
      forall i | 0 <= i < RING_SLOTS {
        slot[i] := BLANK;
      }
      producer, consumer := 0, 0;
    }

    /** Stores the frame, seals it, and only then moves the index; `damage` is the driver's test-only fault. */
    method Store(f: Frame, damage: bool)
      requires Valid() && Distance(consumer, producer) < CAPACITY
      modifies this`producer, slot
      ensures Valid()
      ensures Contents() == old(Contents()) + [if damage then Damage(Seal(f)) else Seal(f)]
    {
      hide Crc32, Body;
      ghost var n := Distance(consumer, producer);
      ghost var s := if damage then Damage(Seal(f)) else Seal(f);
      slot[producer] := Slot(f, Zeros(32), 0);
      var crc := FrameCrc32(Body(f));
      slot[producer] := slot[producer].(crc := crc);
      if damage {
        slot[producer] := Damage(slot[producer]);
      }
      slot[producer] := slot[producer].(commit := f.sequence);
      assert slot[..] == old(slot[..])[producer := s];
      WindowAfterPush(old(slot[..]), consumer, n, s);
      producer := (producer + 1) % RING_SLOTS;
    }

    method Push(f: Frame) returns (r: RingResult)
      requires Valid()
      modifies this`producer, slot
      ensures Valid()
      ensures (r, Contents()) == PushSpec(old(Contents()), f)
      ensures r == RingOk ==> Contents() == old(Contents()) + [Contents()[|old(Contents())|]]
                              && CarriesAsBytes(Contents()[|old(Contents())|], f)
    {
      SealCarries(f);
      if !WellFormed(f) {
        return RingInvalid;
      }
      if (producer + 1) % RING_SLOTS == consumer {
        return RingFull;
      }
      Store(f, false);
      r := RingOk;
    }

    /** The fault-injection push: as Push, but what it leaves behind is damaged on request. */
    method Inject(f: Frame, damage: bool) returns (r: RingResult)
      requires Valid()
      modifies this`producer, slot
      ensures Valid()
      ensures r == PushSpec(old(Contents()), f).0
      ensures Contents() == if r != RingOk then old(Contents())
                            else old(Contents()) + [if damage then Damage(Seal(f)) else Seal(f)]
    {
      if !WellFormed(f) {
        return RingInvalid;
      }
      if (producer + 1) % RING_SLOTS == consumer {
        return RingFull;
      }
      Store(f, damage);
      r := RingOk;
    }

    /** A committed slot is released whatever the verdict; an uncommitted one stays. */
    method Pop() returns (r: RingResult, message: Option<Slot>)
      requires Valid()
      modifies this`consumer
      ensures Valid()
      ensures (r, message, Contents()) == PopSpec(old(Contents()))
    {
      hide Crc32, Body;
      if consumer == producer {
        return RingEmpty, None;
      }
      ghost var q := Contents();
      var s := slot[consumer];
      assert s == q[0];
      if s.commit != s.frame.sequence {
        return RingIncomplete, None;
      }
      consumer := (consumer + 1) % RING_SLOTS;
      assert Contents() == q[1..];
      r, message := Judge(s), Some(s);
    }

    method HasData() returns (b: bool)
      ensures b <==> producer != consumer
      ensures Valid() ==> (b <==> Contents() != [])
    {
      b := producer != consumer;
    }

    /** None for indices that no producer or consumer leaves behind. */
    method Count() returns (n: Option<nat>)
      ensures n == None <==> producer >= RING_SLOTS || consumer >= RING_SLOTS
      ensures Valid() ==> n == Some(|Contents()|)
    {
      if producer >= RING_SLOTS || consumer >= RING_SLOTS {
        return None;
      }
      n := Some(if producer >= consumer then producer - consumer else RING_SLOTS - consumer + producer);
    }
  }
}
