/**
 The two halves of one ring running at once, one word access at a time.

 Each side works on its own copy of every 32-bit word. Publishing copies a word to memory, acquiring refreshes
 it from memory; at any other moment a word its owner has stored may be written back early, and a word the other
 side owns may be refetched. Accesses of one side take effect in program order.
 */
module RingSteps {
  import opened Words
  import opened Crc
  import opened Frames

  const SLOT_WORDS := 13

  datatype View = View(producer: nat, consumer: nat, slots: seq<Slot>)

  /** Where the producer stands in `mailmsg_ring_push`; k counts the words already dealt with. */
  datatype PushPc =
    | PushIdle
    | PushAcquire(m: Slot)
    | PushCheck(m: Slot)
    | PushStore(m: Slot, k: nat)
    | PushClear(m: Slot)
    | PushSum(m: Slot)
    | PushPublish(m: Slot, k: nat)
    | PushCommit(m: Slot)
    | PushPublishCommit(m: Slot)
    | PushIndex(m: Slot)
    | PushPublishIndex

  /** Where the consumer stands in `mailmsg_ring_pop`. */
  datatype PopPc =
    | PopIdle
    | PopAcquire
    | PopCheck
    | PopFetch(k: nat)
    | PopTest
    | PopCopy(m: Slot, k: nat)
    | PopIndex(m: Slot)
    | PopPublish(m: Slot)
    | PopJudge(m: Slot)

  /**
   The three copies, both program counters and last results, the message the consumer's caller supplies, and the
   history: the frames whose index the producer has stored, the slots the consumer has copied, and how many of either
   each copy of an index stands for.
   */
  datatype State = State(
    mem: View, prod: View, cons: View,
    push: PushPc, pop: PopPc, lastPush: RingResult, lastPop: RingResult, buffer: Slot,
    pushed: seq<Frame>, popped: seq<Slot>,
    memPushed: nat, consKnows: nat, memPopped: nat, prodKnows: nat)

  datatype Act =
    | StartPush(message: Slot)
    | PushStep
    | StartPop(buffer: Slot)
    | PopStep
    | WriteBackSlot(i: nat, k: nat)
    | WriteBackProducer
    | WriteBackConsumer
    | RefetchSlot(i: nat, k: nat)
    | RefetchProducer
    | RefetchConsumer

  /** dst with its k-th word taken from src. */
  function WithWord(dst: Slot, src: Slot, k: nat): Slot
    requires k < SLOT_WORDS
  {
    var f, g := dst.frame, src.frame;
    if k == 0 then dst.(frame := f.(generation := g.generation))
    else if k == 1 then dst.(frame := f.(kind := g.kind))
    else if k == 2 then dst.(frame := f.(sequence := g.sequence))
    else if k == 3 then dst.(frame := f.(length := g.length))
    else if k == 11 then dst.(crc := src.crc)
    else if k == 12 then dst.(commit := src.commit)
    else
      var at := 4 * (k - 4);
      dst.(frame := f.(payload := f.payload[..at] + g.payload[at..at + 4] + f.payload[at + 4..]))
  }

  predicate SameWord(a: Slot, b: Slot, k: nat)
    requires k < SLOT_WORDS
  {
    var f, g := a.frame, b.frame;
    if k == 0 then f.generation == g.generation
    else if k == 1 then f.kind == g.kind
    else if k == 2 then f.sequence == g.sequence
    else if k == 3 then f.length == g.length
    else if k == 11 then a.crc == b.crc
    else if k == 12 then a.commit == b.commit
    else f.payload[4 * (k - 4)..4 * (k - 4) + 4] == g.payload[4 * (k - 4)..4 * (k - 4) + 4]
  }

  ghost predicate AgreeUpTo(a: Slot, b: Slot, n: nat)
    requires n <= SLOT_WORDS
  {
    forall k: nat | k < n :: SameWord(a, b, k)
  }

  lemma AgreeEverywhere(a: Slot, b: Slot)
    requires AgreeUpTo(a, b, SLOT_WORDS)
    ensures a == b
  {
    assert SameWord(a, b, 0) && SameWord(a, b, 1) && SameWord(a, b, 2) && SameWord(a, b, 3);
    assert SameWord(a, b, 11) && SameWord(a, b, 12);
    forall i | 0 <= i < 28 ensures a.frame.payload[i] == b.frame.payload[i] {
      var k := i / 4 + 4;
      assert SameWord(a, b, k);
      assert a.frame.payload[i] == a.frame.payload[4 * (k - 4)..4 * (k - 4) + 4][i % 4];
      assert b.frame.payload[i] == b.frame.payload[4 * (k - 4)..4 * (k - 4) + 4][i % 4];
    }
  }

  lemma CopyPayloadWord(p: seq<byte>, q: seq<byte>, j: nat, k: nat)
    requires |p| == |q| == 28 && j < 7 && k < 7
    ensures var r := p[..4 * k] + q[4 * k..4 * k + 4] + p[4 * k + 4..];
            |r| == 28 && r[4 * j..4 * j + 4] == (if j == k then q else p)[4 * j..4 * j + 4]
  {
    var r := p[..4 * k] + q[4 * k..4 * k + 4] + p[4 * k + 4..];
    assert forall i | 0 <= i < 28 :: r[i] == if 4 * k <= i < 4 * k + 4 then q[i] else p[i];
  }

  /** Copying one word makes it agree, and leaves every other as it was. */
  lemma CopyOneWord(dst: Slot, src: Slot, k: nat, j: nat)
    requires k < SLOT_WORDS && j < SLOT_WORDS && (j == k || SameWord(dst, src, j))
    ensures SameWord(WithWord(dst, src, k), src, j)
  {
    if 4 <= j < 11 && 4 <= k < 11 {
      CopyPayloadWord(dst.frame.payload, src.frame.payload, j - 4, k - 4);
    }
  }

  function WordAt(m: seq<byte>, k: nat): seq<byte>
    requires |m| == 44 && k < 11
  {
    m[4 * k..4 * k + 4]
  }

  lemma WordOfBody(f: Frame, k: nat)
    requires k < 11
    ensures WordAt(Body(f), k)
         == if k == 0 then StoreU32(f.generation)
            else if k == 1 then StoreU32(f.kind)
            else if k == 2 then StoreU32(f.sequence)
            else if k == 3 then StoreU32(f.length)
            else f.payload[4 * (k - 4)..4 * (k - 4) + 4]
  {
    hide StoreU32;
    assert k >= 4 ==> Body(f)[16..] == f.payload;
  }

  lemma SameWordInMemory(a: Slot, b: Slot, k: nat)
    requires k < 11
    ensures SameWord(a, b, k) <==> WordAt(Body(a.frame), k) == WordAt(Body(b.frame), k)
  {
    hide StoreU32, LoadU32, Body, WordAt;
    WordOfBody(a.frame, k);
    WordOfBody(b.frame, k);
    StoreInjective(a.frame.generation, b.frame.generation);
    StoreInjective(a.frame.kind, b.frame.kind);
    StoreInjective(a.frame.sequence, b.frame.sequence);
    StoreInjective(a.frame.length, b.frame.length);
  }

  lemma StoreInjective(v: u32, w: u32)
    ensures StoreU32(v) == StoreU32(w) ==> v == w
  {
    hide StoreU32, LoadU32;
    LoadAfterStore(v, []);
    LoadAfterStore(w, []);
    assert StoreU32(v) + [] == StoreU32(v) && StoreU32(w) + [] == StoreU32(w);
  }

  /** Copying one word leaves every other as it was. */
  lemma OtherWordsStay(dst: Slot, src: Slot, k: nat, j: nat)
    requires k < SLOT_WORDS && j < SLOT_WORDS && j != k
    ensures SameWord(WithWord(dst, src, k), dst, j)
  {
    if 4 <= j < 11 && 4 <= k < 11 {
      CopyPayloadWord(dst.frame.payload, src.frame.payload, j - 4, k - 4);
    }
  }

  lemma PatchedWord(m: seq<byte>, n: seq<byte>, k: nat, j: nat)
    requires |m| == |n| == 44 && k < 11 && j < 11
    ensures var r := m[..4 * k] + n[4 * k..4 * k + 4] + m[4 * k + 4..];
            |r| == 44 && WordAt(r, j) == WordAt(if j == k then n else m, j)
  {
    var r := m[..4 * k] + n[4 * k..4 * k + 4] + m[4 * k + 4..];
    assert forall i | 0 <= i < 44 :: r[i] == if 4 * k <= i < 4 * k + 4 then n[i] else m[i];
  }

  /** The words are numbered as they lie in memory: copying word k copies the bytes 4k..4k+4 under the checksum. */
  lemma WordsInMemoryOrder(dst: Slot, src: Slot, k: nat, m: seq<byte>, n: seq<byte>)
    requires k < 11 && LiesAs(dst.frame, m) && LiesAs(src.frame, n)
    ensures LiesAs(WithWord(dst, src, k).frame, m[..4 * k] + n[4 * k..4 * k + 4] + m[4 * k + 4..])
    ensures WithWord(dst, src, k).crc == dst.crc && WithWord(dst, src, k).commit == dst.commit
    ensures SameWord(dst, src, k) <==> m[4 * k..4 * k + 4] == n[4 * k..4 * k + 4]
  {
    hide StoreU32, LoadU32, Body, SameWord;
    assert |m| == |n| == 44;
    hide LiesAs;
    var t, r := WithWord(dst, src, k), m[..4 * k] + n[4 * k..4 * k + 4] + m[4 * k + 4..];
    assert |r| == 44;
    LiesAsBody(dst.frame, m);
    LiesAsBody(src.frame, n);
    LiesAsBody(t.frame, r);
    SameWordInMemory(dst, src, k);
    forall j: nat | j < 11 ensures WordAt(Body(t.frame), j) == WordAt(r, j) {
      PatchedWord(m, n, k, j);
      if j == k {
        CopyOneWord(dst, src, k, k);
        SameWordInMemory(t, src, k);
      } else {
        OtherWordsStay(dst, src, k, j);
        SameWordInMemory(t, dst, j);
      }
    }
    SameWords(Body(t.frame), r);
  }

  lemma SameWords(m: seq<byte>, n: seq<byte>)
    requires |m| == |n| == 44 && forall k: nat | k < 11 :: WordAt(m, k) == WordAt(n, k)
    ensures m == n
  {
    forall i | 0 <= i < 44 ensures m[i] == n[i] {
      assert WordAt(m, i / 4)[i % 4] == WordAt(n, i / 4)[i % 4];
    }
  }

  /** Copying a word from a source keeps every agreement with that source, and extends it at the frontier. */
  lemma CopyWord(dst: Slot, src: Slot, k: nat, n: nat)
    requires k < SLOT_WORDS && n <= SLOT_WORDS && AgreeUpTo(dst, src, n)
    ensures AgreeUpTo(WithWord(dst, src, k), src, n)
    ensures k == n ==> AgreeUpTo(WithWord(dst, src, k), src, n + 1)
  {
    hide SameWord, WithWord;
    forall j: nat | j < SLOT_WORDS && (j < n || j == k) ensures SameWord(WithWord(dst, src, k), src, j) {
      CopyOneWord(dst, src, k, j);
    }
  }

  lemma CopyOwnWord(a: Slot, k: nat)
    requires k < SLOT_WORDS
    ensures WithWord(a, a, k) == a
  {
    if 4 <= k < 11 {
      var p, at := a.frame.payload, 4 * (k - 4);
      assert p == p[..at] + p[at..at + 4] + p[at + 4..];
    }
  }

  function Next(i: nat): nat { (i + 1) % RING_SLOTS }

  function Stored(v: View, i: nat, s: Slot): View
    requires i < |v.slots|
  {
    v.(slots := v.slots[i := s])
  }

  function Sealed(fs: seq<Frame>): (s: seq<Slot>)
    ensures |s| == |fs|
  {
    seq(|fs|, i requires 0 <= i < |fs| => Seal(fs[i]))
  }

  /** The slot between storing the checksum and storing the commit word. */
  function Draft(f: Frame): Slot { Slot(f, Crc32(Body(f)), 0) }

  ghost predicate Shape(s: State)
  {
    && |s.mem.slots| == |s.prod.slots| == |s.cons.slots| == RING_SLOTS
    && s.prod.producer < RING_SLOTS && s.cons.consumer < RING_SLOTS
  }

  function PushNext(s: State): State
    requires |s.mem.slots| == |s.prod.slots| == RING_SLOTS && s.prod.producer < RING_SLOTS
  {
    var at := s.prod.producer;
    var slot := s.prod.slots[at];
    match s.push
    case PushIdle => s
    case PushAcquire(m) =>
      s.(prod := s.prod.(consumer := s.mem.consumer), prodKnows := s.memPopped, push := PushCheck(m))
    case PushCheck(m) =>
      if Next(at) == s.prod.consumer then s.(push := PushIdle, lastPush := RingFull)
      else s.(push := PushStore(m, 0))
    case PushStore(m, k) =>
      if k < SLOT_WORDS then s.(prod := Stored(s.prod, at, WithWord(slot, m, k)), push := PushStore(m, k + 1))
      else s.(push := PushClear(m))
    case PushClear(m) => s.(prod := Stored(s.prod, at, slot.(commit := 0)), push := PushSum(m))
    case PushSum(m) =>
      s.(prod := Stored(s.prod, at, slot.(crc := Crc32(Body(slot.frame)))), push := PushPublish(m, 0))
    case PushPublish(m, k) =>
      if k < SLOT_WORDS then
        s.(mem := Stored(s.mem, at, WithWord(s.mem.slots[at], slot, k)), push := PushPublish(m, k + 1))
      else s.(push := PushCommit(m))
    case PushCommit(m) =>
      s.(prod := Stored(s.prod, at, slot.(commit := m.frame.sequence)), push := PushPublishCommit(m))
    case PushPublishCommit(m) =>
      s.(mem := Stored(s.mem, at, WithWord(s.mem.slots[at], slot, 12)), push := PushIndex(m))
    case PushIndex(m) =>
      s.(prod := s.prod.(producer := Next(at)), pushed := s.pushed + [m.frame], push := PushPublishIndex)
    case PushPublishIndex =>
      s.(mem := s.mem.(producer := at), memPushed := |s.pushed|, push := PushIdle, lastPush := RingOk)
  }

  function PopNext(s: State): State
    requires |s.mem.slots| == |s.cons.slots| == RING_SLOTS && s.cons.consumer < RING_SLOTS
  {
    var at := s.cons.consumer;
    var slot := s.cons.slots[at];
    match s.pop
    case PopIdle => s
    case PopAcquire =>
      s.(cons := s.cons.(producer := s.mem.producer), consKnows := s.memPushed, pop := PopCheck)
    case PopCheck =>
      if at == s.cons.producer then s.(pop := PopIdle, lastPop := RingEmpty) else s.(pop := PopFetch(0))
    case PopFetch(k) =>
      if k < SLOT_WORDS then
        s.(cons := Stored(s.cons, at, WithWord(slot, s.mem.slots[at], k)), pop := PopFetch(k + 1))
      else s.(pop := PopTest)
    case PopTest =>
      if slot.commit != slot.frame.sequence then s.(pop := PopIdle, lastPop := RingIncomplete)
      else s.(pop := PopCopy(s.buffer, 0))
    case PopCopy(m, k) =>
      if k < SLOT_WORDS then s.(pop := PopCopy(WithWord(m, slot, k), k + 1)) else s.(pop := PopIndex(m))
    case PopIndex(m) =>
      s.(cons := s.cons.(consumer := Next(at)), popped := s.popped + [m], pop := PopPublish(m))
    case PopPublish(m) =>
      s.(mem := s.mem.(consumer := at), memPopped := |s.popped|, pop := PopJudge(m))
    case PopJudge(m) => s.(pop := PopIdle, lastPop := Judge(m))
  }

  /** One step of the whole ring. An action that does not apply leaves the state alone. */
  function Step(s: State, a: Act): State
    requires Shape(s)
  {
    match a
    case StartPush(m) =>
      if s.push != PushIdle then s
      else if !WellFormed(m.frame) then s.(lastPush := RingInvalid)
      else s.(push := PushAcquire(m))
    case PushStep => PushNext(s)
    case StartPop(buffer) => if s.pop != PopIdle then s else s.(pop := PopAcquire, buffer := buffer)
    case PopStep => PopNext(s)
    case WriteBackSlot(i, k) =>
      if i < RING_SLOTS && k < SLOT_WORDS
      then s.(mem := Stored(s.mem, i, WithWord(s.mem.slots[i], s.prod.slots[i], k))) else s
    case WriteBackProducer => s.(mem := s.mem.(producer := s.prod.producer), memPushed := |s.pushed|)
    case WriteBackConsumer => s.(mem := s.mem.(consumer := s.cons.consumer), memPopped := |s.popped|)
    case RefetchSlot(i, k) =>
      if i < RING_SLOTS && k < SLOT_WORDS
      then s.(cons := Stored(s.cons, i, WithWord(s.cons.slots[i], s.mem.slots[i], k))) else s
    case RefetchProducer => s.(cons := s.cons.(producer := s.mem.producer), consKnows := s.memPushed)
    case RefetchConsumer => s.(prod := s.prod.(consumer := s.mem.consumer), prodKnows := s.memPopped)
  }

  predicate Storing(pc: PushPc)
  {
    pc.PushStore? || pc.PushClear? || pc.PushSum? || pc.PushPublish? || pc.PushCommit? || pc.PushPublishCommit?
    || pc.PushIndex?
  }

  predicate Fetching(pc: PopPc) { pc.PopFetch? || pc.PopTest? || pc.PopCopy? || pc.PopIndex? }

  ghost predicate Counters(s: State)
  {
    && s.prodKnows <= s.memPopped <= |s.popped| <= s.consKnows <= s.memPushed <= |s.pushed| <= s.prodKnows + CAPACITY
    && s.prod.producer == |s.pushed| % RING_SLOTS && s.mem.producer == s.memPushed % RING_SLOTS
    && s.cons.producer == s.consKnows % RING_SLOTS
    && s.cons.consumer == |s.popped| % RING_SLOTS && s.mem.consumer == s.memPopped % RING_SLOTS
    && s.prod.consumer == s.prodKnows % RING_SLOTS
    && |s.pushed| <= s.memPushed + 1 && |s.popped| <= s.memPopped + 1
    && (s.push != PushPublishIndex ==> s.memPushed == |s.pushed|)
    && (!s.pop.PopPublish? ==> s.memPopped == |s.popped|)
  }

  /** Every frame between the two indices lies in memory and in the producer's copy as it was sealed. */
  ghost predicate Settled(s: State)
    requires Shape(s)
  {
    && (forall j | 0 <= j < |s.pushed| :: WellFormed(s.pushed[j]))
    && (forall j | |s.popped| <= j < |s.pushed| ::
          s.mem.slots[j % RING_SLOTS] == s.prod.slots[j % RING_SLOTS] == Seal(s.pushed[j]))
  }

  ghost predicate PushInv(s: State)
    requires Shape(s)
  {
    var mem, prod := s.mem.slots[s.prod.producer], s.prod.slots[s.prod.producer];
    && (Storing(s.push) ==> |s.pushed| < s.prodKnows + CAPACITY)
    && (s.push != PushIdle && s.push != PushPublishIndex ==> WellFormed(s.push.m.frame))
    && match s.push
       case PushStore(m, k) => k <= SLOT_WORDS && AgreeUpTo(prod, m, k)
       case PushClear(m) => prod.frame == m.frame
       case PushSum(m) => prod.frame == m.frame && prod.commit == 0
       case PushPublish(m, k) => k <= SLOT_WORDS && prod == Draft(m.frame) && AgreeUpTo(mem, prod, k)
       case PushCommit(m) => prod == Draft(m.frame) && AgreeUpTo(mem, prod, SLOT_WORDS)
       case PushPublishCommit(m) => prod == Seal(m.frame) && AgreeUpTo(mem, prod, 12)
       case PushIndex(m) => prod == Seal(m.frame) && mem == prod
       case _ => true
  }

  ghost predicate PopInv(s: State)
    requires Shape(s) && |s.popped| <= s.consKnows <= |s.pushed|
  {
    var C := |s.popped|;
    var cons := s.cons.slots[s.cons.consumer];
    && s.popped == Sealed(s.pushed)[..C]
    && (Fetching(s.pop) ==> C < s.consKnows)
    && match s.pop
       case PopFetch(k) => k <= SLOT_WORDS && AgreeUpTo(cons, Seal(s.pushed[C]), k)
       case PopTest => cons == Seal(s.pushed[C])
       case PopCopy(m, k) => k <= SLOT_WORDS && cons == Seal(s.pushed[C]) && AgreeUpTo(m, cons, k)
       case PopIndex(m) => m == Seal(s.pushed[C])
       case PopPublish(m) => C > 0 && m == s.popped[C - 1]
       case PopJudge(m) => C > 0 && m == s.popped[C - 1]
       case _ => true
  }

  ghost predicate Results(s: State)
  {
    && (s.lastPush == RingOk || s.lastPush == RingFull || s.lastPush == RingInvalid)
    && (s.lastPop == RingOk || s.lastPop == RingEmpty)
  }

  ghost predicate Inv(s: State)
  {
    Shape(s) && Counters(s) && Settled(s) && PushInv(s) && PopInv(s) && Results(s)
  }

  lemma NextResidue(n: nat)
    ensures Next(n % RING_SLOTS) == (n + 1) % RING_SLOTS
  {
  }

  lemma SameResidue(a: nat, b: nat)
    requires a <= b <= a + RING_SLOTS
    ensures a % RING_SLOTS == b % RING_SLOTS <==> b == a || b == a + RING_SLOTS
  {
  }

  lemma DistinctSlots(a: nat, b: nat)
    requires a < b < a + RING_SLOTS
    ensures a % RING_SLOTS != b % RING_SLOTS
  {
  }

  lemma FreeSlot(s: State)
    requires Shape(s) && Counters(s)
    ensures forall j | |s.popped| <= j < |s.pushed| :: j % RING_SLOTS != s.prod.producer
  {
    forall j | |s.popped| <= j < |s.pushed| ensures j % RING_SLOTS != s.prod.producer {
      DistinctSlots(j, |s.pushed|);
    }
  }

  lemma SettledStays(s: State, t: State)
    requires Shape(s) && Settled(s) && Shape(t)
    requires t.mem.slots == s.mem.slots && t.prod.slots == s.prod.slots && t.pushed == s.pushed && t.popped == s.popped
    ensures Settled(t)
  {
  }

  lemma PushInvStays(s: State, t: State)
    requires Shape(s) && PushInv(s) && Shape(t)
    requires t.mem.slots == s.mem.slots && t.prod.slots == s.prod.slots && t.prod.producer == s.prod.producer
    requires t.push == s.push && t.pushed == s.pushed && t.prodKnows >= s.prodKnows
    ensures PushInv(t)
  {
    hide AgreeUpTo, Seal, WellFormed, Draft;
  }

  lemma PopInvStays(s: State, t: State)
    requires Shape(s) && |s.popped| <= s.consKnows <= |s.pushed| && PopInv(s)
    requires Shape(t) && s.consKnows <= t.consKnows <= |t.pushed|
    requires t.cons.slots == s.cons.slots && t.cons.consumer == s.cons.consumer
    requires t.pop == s.pop && t.popped == s.popped && t.pushed == s.pushed
    ensures PopInv(t)
  {
    hide AgreeUpTo, Seal, Sealed;
  }

  /** The consumer never reads the slot the producer is writing. */
  lemma NeverTheSlotBeingWritten(s: State)
    requires Inv(s) && Storing(s.push) && Fetching(s.pop)
    ensures s.prod.producer != s.cons.consumer
  {
    DistinctSlots(|s.popped|, |s.pushed|);
  }

  /** Writing the producer's own next slot disturbs nothing the consumer can see. */
  lemma OwnSlotWrite(s: State, x: Slot, pc: PushPc)
    requires Inv(s) && Storing(s.push) && Storing(pc)
    ensures var t := s.(prod := Stored(s.prod, s.prod.producer, x), push := pc);
            Shape(t) && Counters(t) && Settled(t) && PopInv(t) && Results(t) && |t.pushed| < t.prodKnows + CAPACITY
  {
    hide Seal, Body, SameWord, WithWord;
    FreeSlot(s);
  }

  lemma PushStoreKeeps(s: State)
    requires Inv(s) && s.push.PushStore?
    ensures Inv(PushNext(s))
  {
    hide Seal, Body, SameWord, WithWord, Settled, PopInv, Results, Counters;
    var m, k, slot := s.push.m, s.push.k, s.prod.slots[s.prod.producer];
    if k < SLOT_WORDS {
      CopyWord(slot, m, k, k);
      OwnSlotWrite(s, WithWord(slot, m, k), PushStore(m, k + 1));
    } else {
      AgreeEverywhere(slot, m);
      OwnSlotWrite(s, slot, PushClear(m));
      assert Stored(s.prod, s.prod.producer, slot) == s.prod;
    }
  }

  lemma PushSealKeeps(s: State)
    requires Inv(s) && (s.push.PushClear? || s.push.PushSum? || s.push.PushCommit?)
    ensures Inv(PushNext(s))
  {
    hide Body, SameWord, WithWord, Settled, PopInv, Results, Counters, Crc32;
    var slot, t := s.prod.slots[s.prod.producer], PushNext(s);
    OwnSlotWrite(s, t.prod.slots[t.prod.producer], t.push);
    if s.push.PushCommit? {
      SealFromDraft(s.push.m.frame, s.mem.slots[s.prod.producer], slot);
    }
  }

  lemma SealFromDraft(f: Frame, mem: Slot, draft: Slot)
    requires draft == Draft(f) && AgreeUpTo(mem, draft, SLOT_WORDS)
    ensures draft.(commit := f.sequence) == Seal(f) && AgreeUpTo(mem, Seal(f), 12)
  {
    AgreeEverywhere(mem, draft);
  }

  /** Writing to memory, in the producer's own next slot, disturbs nothing the consumer can see either. */
  lemma OwnMemoryWrite(s: State, x: Slot)
    requires Inv(s)
    ensures var t := s.(mem := Stored(s.mem, s.prod.producer, x));
            Shape(t) && Counters(t) && Settled(t) && PopInv(t) && Results(t)
  {
    hide Seal, WellFormed, PushInv;
    FreeSlot(s);
    var t := s.(mem := Stored(s.mem, s.prod.producer, x));
    PopInvStays(s, t);
    hide PopInv;
  }

  lemma PushPublishKeeps(s: State)
    requires Inv(s) && (s.push.PushPublish? || s.push.PushPublishCommit?)
    ensures Inv(PushNext(s))
  {
    hide Seal, Body, SameWord, WithWord, WellFormed, Draft;
    var at := s.prod.producer;
    var mem, prod := s.mem.slots[at], s.prod.slots[at];
    var k := if s.push.PushPublish? then s.push.k else 12;
    if k < SLOT_WORDS {
      CopyWord(mem, prod, k, k);
      OwnMemoryWrite(s, WithWord(mem, prod, k));
      StorerStays(s.(mem := Stored(s.mem, at, WithWord(mem, prod, k))), PushNext(s));
      if k == 12 && s.push.PushPublishCommit? {
        AgreeEverywhere(WithWord(mem, prod, 12), prod);
      }
    } else {
      StorerStays(s, PushNext(s));
    }
    hide Settled, PopInv, Counters, AgreeUpTo;
  }

  /** Nothing but the producer's own program counter changes, and it goes on storing. */
  lemma StorerStays(s: State, t: State)
    requires Shape(s) && Counters(s) && Settled(s) && PopInv(s)
    requires t == s.(push := t.push) && Storing(s.push) && Storing(t.push)
    ensures Shape(t) && Counters(t) && Settled(t) && PopInv(t)
  {
    SettledStays(s, t);
    PopInvStays(s, t);
    hide Settled, PopInv;
  }

  lemma PushIndexKeeps(s: State)
    requires Inv(s) && s.push.PushIndex?
    ensures Inv(PushNext(s))
  {
    hide Seal, Body, SameWord, WithWord;
    var t := PushNext(s);
    NextResidue(|s.pushed|);
    assert t.pushed[..|s.pushed|] == s.pushed;
    assert Sealed(t.pushed)[..|s.popped|] == Sealed(s.pushed)[..|s.popped|];
  }

  lemma PushEndsKeep(s: State)
    requires Inv(s) && (s.push.PushIdle? || s.push.PushAcquire? || s.push.PushCheck? || s.push.PushPublishIndex?)
    ensures Inv(PushNext(s))
  {
    hide Settled, PopInv, WellFormed, WithWord;
    var t := PushNext(s);
    SettledStays(s, t);
    PopInvStays(s, t);
    if s.push.PushCheck? {
      CheckMeansFull(s);
      AgreesNowhere(s.prod.slots[s.prod.producer], s.push.m);
    }
    hide AgreeUpTo;
  }

  lemma AgreesNowhere(a: Slot, b: Slot)
    ensures AgreeUpTo(a, b, 0)
  {
  }

  /** The producer's test tells exactly whether seven frames are unreleased as far as it knows. */
  lemma CheckMeansFull(s: State)
    requires Shape(s) && Counters(s)
    ensures Next(s.prod.producer) == s.prod.consumer <==> |s.pushed| == s.prodKnows + CAPACITY
  {
    NextResidue(|s.pushed|);
    SameResidue(s.prodKnows, |s.pushed| + 1);
  }

  lemma CheckMeansEmpty(s: State)
    requires Shape(s) && Counters(s)
    ensures s.cons.consumer == s.cons.producer <==> |s.popped| == s.consKnows
  {
    SameResidue(|s.popped|, s.consKnows);
  }

  lemma PopKeeps(s: State)
    requires Inv(s)
    ensures Inv(PopNext(s))
  {
    hide Inv, PopNext;
    if s.pop.PopFetch? || s.pop.PopCopy? {
      PopCopiesKeep(s);
    } else if s.pop.PopIndex? {
      PopIndexKeeps(s);
    } else {
      PopEndsKeep(s);
    }
  }

  lemma PopIndexKeeps(s: State)
    requires Inv(s) && s.pop.PopIndex?
    ensures Inv(PopNext(s))
  {
    hide Seal, Body, SameWord, WithWord, AgreeUpTo;
    NextResidue(|s.popped|);
    assert PopNext(s).popped == Sealed(s.pushed)[..|s.popped| + 1];
  }

  lemma PopEndsKeep(s: State)
    requires Inv(s) && !s.pop.PopFetch? && !s.pop.PopCopy? && !s.pop.PopIndex?
    ensures Inv(PopNext(s))
  {
    match s.pop {
      case PopCheck => PopCheckKeeps(s); hide Inv, PopNext;
      case PopTest => PopTestKeeps(s); hide Inv, PopNext;
      case PopJudge(m) => PopJudgeKeeps(s); hide Inv, PopNext;
      case _ => PopWaitKeeps(s); hide Inv, PopNext;
    }
  }

  lemma PopCheckKeeps(s: State)
    requires Inv(s) && s.pop.PopCheck?
    ensures Inv(PopNext(s))
  {
    hide Settled, PushInv, WithWord, Seal, WellFormed, Judge;
    SettledStays(s, PopNext(s));
    PushInvStays(s, PopNext(s));
    CheckMeansEmpty(s);
    if s.pushed != [] && |s.popped| < |s.pushed| {
      AgreesNowhere(s.cons.slots[s.cons.consumer], Seal(s.pushed[|s.popped|]));
    }
    hide AgreeUpTo;
  }

  lemma PopTestKeeps(s: State)
    requires Inv(s) && s.pop.PopTest?
    ensures Inv(PopNext(s))
  {
    hide Settled, PushInv, WithWord, Seal, WellFormed, Judge;
    SettledStays(s, PopNext(s));
    PushInvStays(s, PopNext(s));
    SealIsCommitted(s.pushed[|s.popped|]);
    AgreesNowhere(s.buffer, s.cons.slots[s.cons.consumer]);
    hide AgreeUpTo;
  }

  lemma PopJudgeKeeps(s: State)
    requires Inv(s) && s.pop.PopJudge?
    ensures Inv(PopNext(s))
  {
    hide Settled, PushInv, WithWord, Seal, WellFormed, Judge, AgreeUpTo;
    SettledStays(s, PopNext(s));
    PushInvStays(s, PopNext(s));
    assert s.pop.m == Sealed(s.pushed)[|s.popped| - 1];
    PushedIsAccepted(s, |s.popped| - 1);
  }

  lemma PopWaitKeeps(s: State)
    requires Inv(s) && (s.pop.PopIdle? || s.pop.PopAcquire? || s.pop.PopPublish?)
    ensures Inv(PopNext(s))
  {
    hide Settled, PushInv, WithWord, Seal, WellFormed, Judge, AgreeUpTo;
    SettledStays(s, PopNext(s));
    PushInvStays(s, PopNext(s));
  }

  lemma PushedIsAccepted(s: State, j: nat)
    requires Shape(s) && Settled(s) && j < |s.pushed|
    ensures Judge(Seal(s.pushed[j])) == RingOk
  {
    SealIsAccepted(s.pushed[j]);
  }

  lemma PopCopiesKeep(s: State)
    requires Inv(s) && (s.pop.PopFetch? || s.pop.PopCopy?)
    ensures Inv(PopNext(s))
  {
    hide Seal, Body, SameWord, WithWord;
    var at, C := s.cons.consumer, |s.popped|;
    var slot, k := s.cons.slots[at], s.pop.k;
    if s.pop.PopFetch? {
      assert s.mem.slots[C % RING_SLOTS] == Seal(s.pushed[C]);
      if k < SLOT_WORDS { CopyWord(slot, s.mem.slots[at], k, k); } else { AgreeEverywhere(slot, Seal(s.pushed[C])); }
    } else {
      if k < SLOT_WORDS { CopyWord(s.pop.m, slot, k, k); } else { AgreeEverywhere(s.pop.m, slot); }
    }
  }

  lemma SealIsCommitted(f: Frame)
    ensures Seal(f).commit == Seal(f).frame.sequence
  {
  }

  lemma SealIsAccepted(f: Frame)
    requires WellFormed(f)
    ensures Judge(Seal(f)) == RingOk
  {
  }

  lemma WriteBackKeeps(s: State, i: nat, k: nat)
    requires Inv(s) && i < RING_SLOTS && k < SLOT_WORDS
    ensures Inv(Step(s, WriteBackSlot(i, k)))
  {
    hide Settled, PushInv, PopInv, WithWord;
    var t := Step(s, WriteBackSlot(i, k));
    WriteBackSettles(s, i, k);
    WriteBackPublishes(s, i, k);
    PopInvStays(s, t);
  }

  /** A settled slot is written back onto itself. */
  lemma WriteBackSettles(s: State, i: nat, k: nat)
    requires Inv(s) && i < RING_SLOTS && k < SLOT_WORDS
    ensures Settled(Step(s, WriteBackSlot(i, k)))
  {
    hide Seal, WithWord, PushInv, PopInv, WellFormed;
    CopyOwnWord(s.prod.slots[i], k);
  }

  lemma WriteBackPublishes(s: State, i: nat, k: nat)
    requires Inv(s) && i < RING_SLOTS && k < SLOT_WORDS
    ensures PushInv(Step(s, WriteBackSlot(i, k)))
  {
    hide Seal, WithWord, Settled, PopInv, WellFormed, Draft;
    var mem, prod := s.mem.slots[i], s.prod.slots[i];
    if i == s.prod.producer {
      CopyOwnWord(prod, k);
      match s.push {
        case PushPublish(m, n) => CopyWord(mem, prod, k, n);
        case PushCommit(m) => CopyWord(mem, prod, k, SLOT_WORDS);
        case PushPublishCommit(m) => CopyWord(mem, prod, k, 12);
        case _ =>
      }
    }
    hide AgreeUpTo;
  }

  lemma RefetchKeeps(s: State, i: nat, k: nat)
    requires Inv(s) && i < RING_SLOTS && k < SLOT_WORDS
    ensures Inv(Step(s, RefetchSlot(i, k)))
  {
    hide Seal, Body, SameWord, WithWord;
    if i == s.cons.consumer && Fetching(s.pop) {
      var C := |s.popped|;
      assert s.mem.slots[C % RING_SLOTS] == Seal(s.pushed[C]);
      CopyOwnWord(Seal(s.pushed[C]), k);
      if s.pop.PopFetch? {
        CopyWord(s.cons.slots[i], s.mem.slots[i], k, s.pop.k);
      }
    }
  }

  lemma StepKeeps(s: State, a: Act)
    requires Inv(s)
    ensures Inv(Step(s, a))
  {
    hide Counters, Settled, PushInv, PopInv, Results, PushNext, PopNext, WithWord;
    match a {
      case PushStep => PushKeeps(s);
      case PopStep => PopKeeps(s);
      case WriteBackSlot(i, k) => if i < RING_SLOTS && k < SLOT_WORDS { WriteBackKeeps(s, i, k); }
      case RefetchSlot(i, k) => if i < RING_SLOTS && k < SLOT_WORDS { RefetchKeeps(s, i, k); }
      case StartPush(m) => StartsKeep(s, a);
      case StartPop(buffer) => StartsKeep(s, a);
      case _ => IndexMovesKeep(s, a);
    }
  }

  lemma PushKeeps(s: State)
    requires Inv(s)
    ensures Inv(PushNext(s))
  {
    hide Inv;
    if s.push.PushStore? {
      PushStoreKeeps(s);
    } else if s.push.PushClear? || s.push.PushSum? || s.push.PushCommit? {
      PushSealKeeps(s);
    } else if s.push.PushPublish? || s.push.PushPublishCommit? {
      PushPublishKeeps(s);
    } else if s.push.PushIndex? {
      PushIndexKeeps(s);
    } else {
      PushEndsKeep(s);
    }
  }

  lemma StartsKeep(s: State, a: Act)
    requires Inv(s) && (a.StartPush? || a.StartPop?)
    ensures Inv(Step(s, a))
  {
    hide Settled, PushInv, PopInv, WellFormed;
    var t := Step(s, a);
    SettledStays(s, t);
    if a.StartPop? || t.push == s.push {
      PushInvStays(s, t);
    } else {
      AcquiringHolds(t);
    }
    if a.StartPush? || t.pop == s.pop {
      PopInvStays(s, t);
    } else {
      SeekingHolds(s, t);
    }
  }

  lemma AcquiringHolds(t: State)
    requires Shape(t) && t.push.PushAcquire? && WellFormed(t.push.m.frame)
    ensures PushInv(t)
  {
  }

  lemma SeekingHolds(s: State, t: State)
    requires Shape(s) && Counters(s) && PopInv(s) && t == s.(pop := PopAcquire, buffer := t.buffer)
    ensures PopInv(t)
  {
    hide AgreeUpTo, Seal, Sealed;
  }

  /** Indices that reach memory, or are seen, before their time. */
  lemma IndexMovesKeep(s: State, a: Act)
    requires Inv(s) && (a.WriteBackProducer? || a.WriteBackConsumer? || a.RefetchProducer? || a.RefetchConsumer?)
    ensures Inv(Step(s, a))
  {
    hide Settled, PushInv, PopInv;
    var t := Step(s, a);
    SettledStays(s, t);
    PushInvStays(s, t);
    PopInvStays(s, t);
  }

  /** A zeroed ring; the slots and the two private copies may hold anything. */
  ghost predicate Init(s: State)
  {
    && |s.mem.slots| == |s.prod.slots| == |s.cons.slots| == RING_SLOTS
    && s.mem.producer == s.mem.consumer == s.prod.producer == s.prod.consumer == s.cons.producer == s.cons.consumer == 0
    && s.push == PushIdle && s.pop == PopIdle && s.lastPush == RingOk && s.lastPop == RingEmpty
    && s.pushed == [] && s.popped == [] && s.memPushed == s.consKnows == s.memPopped == s.prodKnows == 0
  }

  /** A run of the ring from its zeroed state. */
  ghost predicate Trace(states: seq<State>, acts: seq<Act>)
  {
    && |states| == |acts| + 1 && Init(states[0])
    && forall i | 0 <= i < |acts| :: Follows(states[i], acts[i], states[i + 1])
  }

  ghost predicate Follows(s: State, a: Act, t: State) { Shape(s) ==> t == Step(s, a) }

  lemma {:induction false} TraceKeeps(states: seq<State>, acts: seq<Act>, n: nat)
    requires Trace(states, acts) && n < |states|
    ensures Inv(states[n])
  {
    if n > 0 {
      TraceKeeps(states, acts, n - 1);
      StepKeeps(states[n - 1], acts[n - 1]);
      assert Follows(states[n - 1], acts[n - 1], states[n]);
      hide Inv, Step;
    }
  }

  /** The abstract queue the ring stands for. */
  ghost function Queue(s: State): seq<Slot>
    requires |s.popped| <= |s.pushed|
  {
    Sealed(s.pushed)[|s.popped|..]
  }

  /**
   In every interleaving: what has been popped is a prefix of what has been pushed, in order and unaltered, at most
   seven frames are outstanding, and no pop ever reports an incomplete, invalid or damaged frame.
   */
  lemma DeliveredInOrder(states: seq<State>, acts: seq<Act>, n: nat)
    requires Trace(states, acts) && n < |states|
    ensures var s := states[n];
            && s.popped <= Sealed(s.pushed) && |s.popped| <= |s.pushed| && |Queue(s)| <= CAPACITY
            && (s.lastPop == RingOk || s.lastPop == RingEmpty)
            && (s.lastPush == RingInvalid || s.lastPush == RingOk || s.lastPush == RingFull)
            && (Storing(s.push) && Fetching(s.pop) ==> s.prod.producer != s.cons.consumer)
  {
    TraceKeeps(states, acts, n);
    if Storing(states[n].push) && Fetching(states[n].pop) {
      NeverTheSlotBeingWritten(states[n]);
    }
  }

  lemma PushIndexEnqueues(s: State)
    requires Inv(s) && s.push.PushIndex?
    ensures Inv(PushNext(s))
    ensures PushSpec(Queue(s), s.push.m.frame) == (RingOk, Queue(PushNext(s)))
  {
    hide Seal, Body, SameWord, WithWord, Settled, PopInv;
    PushIndexKeeps(s);
    var t := PushNext(s);
    assert Sealed(t.pushed) == Sealed(s.pushed) + [Seal(s.push.m.frame)];
    assert Queue(t) == Queue(s) + [Seal(s.push.m.frame)];
  }

  lemma PopIndexDequeues(s: State)
    requires Inv(s) && s.pop.PopIndex?
    ensures Inv(PopNext(s))
    ensures PopSpec(Queue(s)) == (RingOk, Some(s.pop.m), Queue(PopNext(s)))
  {
    hide Body, SameWord, WithWord, Crc32, PushInv;
    PopKeeps(s);
    assert Queue(s)[0] == s.pop.m;
    SealIsAccepted(s.pushed[|s.popped|]);
    assert Queue(PopNext(s)) == Queue(s)[1..];
  }

  /** Only storing an index makes history. */
  lemma HistoryStays(s: State, a: Act)
    requires Shape(s) && !(a == PushStep && s.push.PushIndex?) && !(a == PopStep && s.pop.PopIndex?)
    ensures Step(s, a).pushed == s.pushed && Step(s, a).popped == s.popped
  {
    hide WithWord, Crc32, Body, Judge;
  }

  /** Every step is a step of the abstract bounded queue, or leaves the queue alone. */
  lemma StepRefinesQueue(s: State, a: Act)
    requires Inv(s)
    ensures Inv(Step(s, a))
    ensures var q, r := Queue(s), Queue(Step(s, a));
            if a == PushStep && s.push.PushIndex? then PushSpec(q, s.push.m.frame) == (RingOk, r)
            else if a == PopStep && s.pop.PopIndex? then PopSpec(q) == (RingOk, Some(s.pop.m), r)
            else r == q
  {
    hide Settled, PopInv, PushInv, PushSpec, PopSpec, PushNext, PopNext, Sealed, WellFormed, WithWord;
    StepKeeps(s, a);
    if a == PushStep && s.push.PushIndex? {
      PushIndexEnqueues(s);
    } else if a == PopStep && s.pop.PopIndex? {
      PopIndexDequeues(s);
    } else {
      HistoryStays(s, a);
    }
  }

  /** The queue as the indices in memory delimit it. */
  ghost function MemoryQueue(s: State): seq<Slot>
    requires Inv(s)
  {
    Sealed(s.pushed)[s.memPopped..s.memPushed]
  }

  /** What the producer's check would say now. */
  predicate FindsFull(s: State) { Next(s.prod.producer) == s.prod.consumer }

  predicate FindsEmpty(s: State) { s.cons.consumer == s.cons.producer }

  /**
   The steps at which the producer's copy of the consumer's index is made current, and the consumer's of the
   producer's.
   */
  predicate RefreshesConsumer(s: State, a: Act) { a == RefetchConsumer || (a == PushStep && s.push.PushAcquire?) }

  predicate RefreshesProducer(s: State, a: Act) { a == RefetchProducer || (a == PopStep && s.pop.PopAcquire?) }

  /**
   With the queue taken from memory all four answers are atomic: a push takes effect where its index reaches memory, a
   pop where its release does, FULL and EMPTY where the other side's index was last refreshed before the check. Between
   that point and the check nothing changes the answer, and every one of these points lies within the call.
   */
  lemma AnswersAreAtomic(s: State, a: Act)
    requires Inv(s)
    ensures Inv(Step(s, a))
    ensures MemoryStep(s, Step(s, a))
    ensures var t := Step(s, a);
            && (s.push.PushAcquire? || s.push.PushCheck? ==>
                  && (RefreshesConsumer(s, a) ==>
                        (FindsFull(t) <==> PushSpec(MemoryQueue(t), s.push.m.frame).0 == RingFull))
                  && (s.push.PushCheck? && a != PushStep && a != RefetchConsumer ==> FindsFull(t) == FindsFull(s)))
            && (s.pop.PopAcquire? || s.pop.PopCheck? ==>
                  && (RefreshesProducer(s, a) ==> (FindsEmpty(t) <==> PopSpec(MemoryQueue(t)).0 == RingEmpty))
                  && (s.pop.PopCheck? && a != PopStep && a != RefetchProducer ==> FindsEmpty(t) == FindsEmpty(s)))
    ensures s.push.PushCheck? ==> (PushNext(s).push == PushIdle && PushNext(s).lastPush == RingFull <==> FindsFull(s))
    ensures s.pop.PopCheck? ==> (PopNext(s).pop == PopIdle && PopNext(s).lastPop == RingEmpty <==> FindsEmpty(s))
  {
    StepKeeps(s, a);
    MemoryMoves(s, a);
    FullAtRefresh(s, a);
    EmptyAtRefresh(s, a);
    hide Inv, Step, MemoryStep, FindsFull, FindsEmpty, PushSpec, PopSpec, MemoryQueue;
  }

  /** The queue in memory is pushed to, popped from, or left alone. */
  ghost predicate MemoryStep(s: State, t: State)
    requires Inv(s) && Inv(t)
  {
    var q, r := MemoryQueue(s), MemoryQueue(t);
    || (t.memPushed == s.memPushed && t.memPopped == s.memPopped && r == q)
    || (t.memPushed == s.memPushed + 1 && t.memPopped == s.memPopped
        && PushSpec(q, t.pushed[s.memPushed]) == (RingOk, r))
    || (t.memPushed == s.memPushed && t.memPopped == s.memPopped + 1
        && PopSpec(q) == (RingOk, Some(t.popped[s.memPopped]), r))
  }

  lemma MemoryMoves(s: State, a: Act)
    requires Inv(s) && Inv(Step(s, a))
    ensures MemoryStep(s, Step(s, a))
  {
    hide PushSpec, PopSpec, Seal, WithWord, Settled, PushInv, PopInv, WellFormed;
    var t := Step(s, a);
    SealedGrows(s, a);
    if t.memPushed != s.memPushed {
      PushLands(s, t);
    } else if t.memPopped != s.memPopped {
      PopLands(s, t);
    }
  }

  /** The history grows at its end, and by one of its two sides at a time. */
  lemma SealedGrows(s: State, a: Act)
    requires Inv(s)
    ensures var t := Step(s, a);
            && s.pushed <= t.pushed && s.popped <= t.popped
            && (t.memPushed == s.memPushed
                || (t.memPushed == s.memPushed + 1 && t.memPopped == s.memPopped && t.pushed == s.pushed))
            && (t.memPopped == s.memPopped
                || (t.memPopped == s.memPopped + 1 && t.pushed == s.pushed && t.popped == s.popped))
            && Sealed(t.pushed)[..s.memPushed] == Sealed(s.pushed)[..s.memPushed]
  {
    hide Seal, WithWord, Settled, PushInv, PopInv, WellFormed, Crc32, Body, Judge, Sealed;
    SealedPrefix(s.pushed, Step(s, a).pushed, s.memPushed);
    if a == PushStep && s.push.PushIndex? {
      assert s.pushed <= PushNext(s).pushed;
    } else if a == PopStep && s.pop.PopIndex? {
      assert s.popped <= PopNext(s).popped;
    } else {
      HistoryStays(s, a);
    }
  }

  lemma SealedPrefix(fs: seq<Frame>, gs: seq<Frame>, n: nat)
    requires n <= |fs|
    ensures fs <= gs ==> Sealed(gs)[..n] == Sealed(fs)[..n]
  {
    hide Seal;
  }

  lemma PushLands(s: State, t: State)
    requires Inv(s) && t.pushed == s.pushed && t.memPushed == s.memPushed + 1 <= |s.pushed|
             && t.memPopped == s.memPopped && Inv(t)
    ensures PushSpec(MemoryQueue(s), t.pushed[s.memPushed]) == (RingOk, MemoryQueue(t))
  {
    hide Seal, PushInv, PopInv;
    assert MemoryQueue(t) == MemoryQueue(s) + [Sealed(s.pushed)[s.memPushed]];
  }

  lemma PopLands(s: State, t: State)
    requires Inv(s) && t.pushed == s.pushed && t.popped == s.popped
    requires t.memPushed == s.memPushed && t.memPopped == s.memPopped + 1 <= |s.popped| && Inv(t)
    ensures PopSpec(MemoryQueue(s)) == (RingOk, Some(t.popped[s.memPopped]), MemoryQueue(t))
  {
    hide Seal, PushInv;
    var j := s.memPopped;
    assert MemoryQueue(s)[0] == Sealed(s.pushed)[j] == s.popped[j];
    assert MemoryQueue(t) == MemoryQueue(s)[1..];
    PushedIsAccepted(s, j);
    SealIsCommitted(s.pushed[j]);
  }

  lemma FullAtRefresh(s: State, a: Act)
    requires Inv(s) && Inv(Step(s, a))
    ensures var t := Step(s, a);
            s.push.PushAcquire? || s.push.PushCheck? ==>
              && (RefreshesConsumer(s, a) ==>
                    (FindsFull(t) <==> PushSpec(MemoryQueue(t), s.push.m.frame).0 == RingFull))
              && (s.push.PushCheck? && a != PushStep && a != RefetchConsumer ==> FindsFull(t) == FindsFull(s))
    ensures s.push.PushCheck? ==> (PushNext(s).push == PushIdle && PushNext(s).lastPush == RingFull <==> FindsFull(s))
  {
    hide Seal, WithWord, Settled, PopInv, WellFormed, Crc32, Body, Judge, PushInv, PushSpec, FindsFull;
    var t := Step(s, a);
    if s.push.PushAcquire? || s.push.PushCheck? {
      if RefreshesConsumer(s, a) {
        assert WellFormed(s.push.m.frame) by { StartedIsWellFormed(s); }
        FullIsCurrent(t, s.push.m.frame);
      } else if s.push.PushCheck? && a != PushStep {
        ProducerIndicesStay(s, a);
        SameTest(s, t);
      }
      if s.push.PushCheck? {
        CheckSaysFull(s);
      }
    }
    hide Step, PushNext;
  }

  lemma SameTest(s: State, t: State)
    ensures t.prod.producer == s.prod.producer && t.prod.consumer == s.prod.consumer ==> FindsFull(t) == FindsFull(s)
    ensures t.cons.producer == s.cons.producer && t.cons.consumer == s.cons.consumer ==> FindsEmpty(t) == FindsEmpty(s)
  {
  }

  lemma StartedIsWellFormed(s: State)
    requires Inv(s) && (s.push.PushAcquire? || s.push.PushCheck?)
    ensures WellFormed(s.push.m.frame)
  {
  }

  /** With the producer's copy current, its check compares the true length of the queue in memory with the capacity. */
  lemma FullIsCurrent(t: State, f: Frame)
    requires Inv(t) && t.prodKnows == t.memPopped && t.memPushed == |t.pushed| && WellFormed(f)
    ensures FindsFull(t) <==> PushSpec(MemoryQueue(t), f).0 == RingFull
  {
    hide Seal, Settled, PopInv, PushInv, WellFormed;
    CheckMeansFull(t);
  }

  lemma EmptyIsCurrent(t: State)
    requires Inv(t) && t.consKnows == t.memPushed && t.memPopped == |t.popped|
    ensures FindsEmpty(t) <==> PopSpec(MemoryQueue(t)).0 == RingEmpty
  {
    hide Seal, Settled, PopInv, PushInv, Judge;
    JudgeVerdicts();
    CheckMeansEmpty(t);
  }

  lemma ProducerIndicesStay(s: State, a: Act)
    requires Shape(s) && s.push.PushCheck? && a != PushStep && a != RefetchConsumer
    ensures var t := Step(s, a); t.prod.producer == s.prod.producer && t.prod.consumer == s.prod.consumer
  {
    hide WithWord, Judge, PushNext;
  }

  lemma ConsumerIndicesStay(s: State, a: Act)
    requires Shape(s) && s.pop.PopCheck? && a != PopStep && a != RefetchProducer
    ensures var t := Step(s, a); t.cons.producer == s.cons.producer && t.cons.consumer == s.cons.consumer
  {
    hide WithWord, Crc32, Body, PopNext;
  }

  lemma CheckSaysFull(s: State)
    requires Shape(s) && s.push.PushCheck?
    ensures PushNext(s).push == PushIdle && PushNext(s).lastPush == RingFull <==> FindsFull(s)
  {
  }

  lemma CheckSaysEmpty(s: State)
    requires Shape(s) && s.pop.PopCheck?
    ensures PopNext(s).pop == PopIdle && PopNext(s).lastPop == RingEmpty <==> FindsEmpty(s)
  {
  }

  lemma EmptyAtRefresh(s: State, a: Act)
    requires Inv(s) && Inv(Step(s, a))
    ensures var t := Step(s, a);
            s.pop.PopAcquire? || s.pop.PopCheck? ==>
              && (RefreshesProducer(s, a) ==> (FindsEmpty(t) <==> PopSpec(MemoryQueue(t)).0 == RingEmpty))
              && (s.pop.PopCheck? && a != PopStep && a != RefetchProducer ==> FindsEmpty(t) == FindsEmpty(s))
    ensures s.pop.PopCheck? ==> (PopNext(s).pop == PopIdle && PopNext(s).lastPop == RingEmpty <==> FindsEmpty(s))
  {
    hide Seal, WithWord, Settled, PushInv, Crc32, Body, Judge, PopInv, PopSpec, FindsEmpty;
    var t := Step(s, a);
    if s.pop.PopAcquire? || s.pop.PopCheck? {
      if RefreshesProducer(s, a) {
        EmptyIsCurrent(t);
      } else if s.pop.PopCheck? && a != PopStep {
        ConsumerIndicesStay(s, a);
        SameTest(s, t);
      }
      if s.pop.PopCheck? {
        CheckSaysEmpty(s);
      }
    }
    hide Step, PopNext;
  }

  /**
   FULL means seven frames the producer does not know to be released, EMPTY means no frame the consumer knows of.
   Either can be spurious only through a stale index: the other side has moved on since the index was read.
   */
  lemma FullAndEmptyAreStaleAtWorst(s: State)
    requires Inv(s)
    ensures s.push.PushCheck? ==> (PushNext(s).push == PushIdle <==> |s.pushed| - s.prodKnows == CAPACITY)
    ensures s.push.PushCheck? && PushNext(s).push == PushIdle ==>
              PushNext(s).lastPush == RingFull && (|Queue(s)| == CAPACITY || s.prodKnows < |s.popped|)
    ensures s.pop.PopCheck? ==> (PopNext(s).pop == PopIdle <==> |s.popped| == s.consKnows)
    ensures s.pop.PopCheck? && PopNext(s).pop == PopIdle ==>
              PopNext(s).lastPop == RingEmpty && (Queue(s) == [] || s.consKnows < |s.pushed|)
  {
    CheckMeansFull(s);
    CheckMeansEmpty(s);
  }

  /** With the other side outside the window between storing and publishing its index, an acquire is exact. */
  lemma AcquireIsExact(s: State)
    requires Inv(s)
    ensures s.push.PushAcquire? && !s.pop.PopPublish? ==> PushNext(s).prodKnows == |s.popped|
    ensures s.pop.PopAcquire? && s.push != PushPublishIndex ==> PopNext(s).consKnows == |s.pushed|
  {
  }
}
