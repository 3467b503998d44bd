/** One side's endpoint: sequence numbers, session check, statistics, and a doorbell after every commit. */
module Endpoint {
  import opened Words
  import opened Frames
  import opened Ring

  /** The C result codes: ring results, and the endpoint errors kept disjoint from them. */
  datatype Outcome = Ok | RingError(r: RingResult) | BadArgument | ProtocolMismatch | StaleSession | StaleFrame

  const NOTIFY_SENT := 0
  const NOTIFY_COALESCED := 1

  predicate NotifyAccepted(result: int) { result == NOTIFY_SENT || result == NOTIFY_COALESCED }

  datatype Stats = Stats(
    txEnqueued: u32, txFull: u32, txHighWater: u32,
    notifySent: u32, notifyCoalesced: u32, notifyFailed: u32,
    rxOk: u32, rxIncomplete: u32, rxBadCrc: u32, rxInvalid: u32, rxStale: u32)

  const NO_STATS := Stats(0, 0, 0, 0, 0, 0, 0, 0, 0, 0, 0)

  type StatsTable = s: seq<Stats> | |s| == 4 witness seq(4, _ => NO_STATS)

  datatype SendResult = SendResult(queueResult: RingResult, notifyResult: int, notifyAttempted: bool, sequence: u32)

  /** The fields an endpoint keeps for itself. */
  datatype Core = Core(generation: u32, nextSequence: u32, stats: StatsTable)

  function FreshCore(generation: u32): Core { Core(generation, 0, seq(4, _ => NO_STATS)) }

  /** Counters of frames and of sessions skip zero: zero is how an uncommitted slot and an unbound endpoint look. */
  function NextSequence(n: u32): u32 { if Inc(n) == 0 then 1 else Inc(n) }

  function SessionSpec(magic: u32, version: u32, shared: u32, mine: u32): Outcome
  {
    if mine == 0 then BadArgument
    else if magic != PROTOCOL_MAGIC || version != PROTOCOL_VERSION then ProtocolMismatch
    else if shared != mine then StaleSession
    else Ok
  }

  /** The words of the shared header, as a session check finds them. */
  datatype Header = Header(magic: u32, version: u32, generation: u32)

  function SessionOf(h: Header, core: Core): Outcome { SessionSpec(h.magic, h.version, h.generation, core.generation) }

  function PayloadOf(bytes: seq<byte>, length: nat): Payload
    requires length <= PAYLOAD_BYTES && length <= |bytes|
  {
    bytes[..length] + seq(PAYLOAD_BYTES - length, _ => 0)
  }

  function CountNotify(s: Stats, notify: int): Stats
  {
    if notify == NOTIFY_SENT then s.(notifySent := Inc(s.notifySent))
    else if notify == NOTIFY_COALESCED then s.(notifyCoalesced := Inc(s.notifyCoalesced))
    else s.(notifyFailed := Inc(s.notifyFailed))
  }

  function CountReceive(s: Stats, r: Outcome): Stats
  {
    match r
    case Ok => s.(rxOk := Inc(s.rxOk))
    case StaleFrame => s.(rxStale := Inc(s.rxStale))
    case RingError(RingIncomplete) => s.(rxIncomplete := Inc(s.rxIncomplete))
    case RingError(RingBadCrc) => s.(rxBadCrc := Inc(s.rxBadCrc))
    case RingError(RingInvalid) => s.(rxInvalid := Inc(s.rxInvalid))
    case _ => s
  }

  const UNSENT := SendResult(RingInvalid, -1, false, 0)

  /** What queueing the frame does once its number is drawn; `notify` is the backend's answer. */
  function QueueSpec(core: Core, q: seq<Slot>, p: priority, f: Frame, notify: int)
    : (Core, seq<Slot>, SendResult, Outcome)
  {
    var (r, q') := PushSpec(q, f);
    var s := core.stats[p];
    if r != RingOk then
      (if r == RingFull then core.(stats := core.stats[p := s.(txFull := Inc(s.txFull))]) else core,
       q, UNSENT.(queueResult := r), RingError(r))
    else
      var counted := s.(txEnqueued := Inc(s.txEnqueued),
                     txHighWater := if |q'| > s.txHighWater then |q'| else s.txHighWater);
      (core.(stats := core.stats[p := CountNotify(counted, notify)]), q', SendResult(RingOk, notify, true, f.sequence),
       Ok)
  }

  /** What a send does to the endpoint, the queue and the caller's result, which None leaves untouched. */
  function SendSpec(core: Core, session: Outcome, q: seq<Slot>, p: priority, kind: u32, payload: Option<seq<byte>>,
                    length: nat, notify: int)
    : (Core, seq<Slot>, Option<SendResult>, Outcome)
    requires payload.Some? ==> length <= |payload.value|
  {
    if length > PAYLOAD_BYTES || (length > 0 && payload.None?) then (core, q, None, BadArgument)
    else if session != Ok then (core, q, Some(UNSENT), session)
    else
      var n := NextSequence(core.nextSequence);
      var f := Frame(core.generation, kind, n, length, PayloadOf(if payload.Some? then payload.value else [], length));
      var (core', q', result, r) := QueueSpec(core.(nextSequence := n), q, p, f, notify);
      (core', q', Some(result), r)
  }

  function Verdict(core: Core, r: RingResult, message: Option<Slot>): Outcome
  {
    if r != RingOk then RingError(r)
    else if message.Some? && message.value.frame.generation != core.generation then StaleFrame
    else Ok
  }

  function ReceiveSpec(core: Core, session: Outcome, q: seq<Slot>, p: priority)
    : (Core, seq<Slot>, Option<Slot>, Outcome)
  {
    if session != Ok then (core, q, None, session)
    else
      var (r, message, q') := PopSpec(q);
      var v := Verdict(core, r, message);
      (core.(stats := core.stats[p := CountReceive(core.stats[p], v)]), q', message, v)
  }

  /** A sequence number is reported exactly when the frame that carries it was committed. */
  lemma SequenceMeansCommitted(core: Core, session: Outcome, q: seq<Slot>, p: priority, kind: u32,
                               payload: Option<seq<byte>>, length: nat, notify: int)
    requires payload.Some? ==> length <= |payload.value|
    requires core.generation != 0 && !session.RingError? && session != StaleFrame
    ensures var (core', q', result, r) := SendSpec(core, session, q, p, kind, payload, length, notify);
            && (r == Ok <==> result.Some? && result.value.sequence != 0)
            && (r == Ok <==> |q'| == |q| + 1) && (r != Ok <==> q' == q)
            && (r == Ok ==> q' == q + [Seal(q'[|q|].frame)] && q'[|q|].commit == result.value.sequence
                            && q'[|q|].frame.generation == core.generation && q'[|q|].frame.kind == kind
                            && (payload.Some? ==> q'[|q|].frame.payload[..length] == payload.value[..length]))
            && (r != Ok ==> result.None? || !result.value.notifyAttempted)
            && (r == Ok <==>
                session == Ok && |q| < CAPACITY && length <= PAYLOAD_BYTES && (length == 0 || payload.Some?))
            && (r == RingError(RingFull) <==>
                session == Ok && |q| >= CAPACITY && length <= PAYLOAD_BYTES && (length == 0 || payload.Some?))
  {
    hide Seal;
    SealCommits();
  }

  /**
   The session is good for exactly one header; otherwise an unbound endpoint, then a foreign header, then another
   session.
   */
  lemma SessionIsExact(h: Header, core: Core)
    ensures SessionOf(h, core) == Ok <==> core.generation != 0 && h == Header(0x4d4d5347, 6, core.generation)
    ensures SessionOf(h, core) == BadArgument <==> core.generation == 0
    ensures SessionOf(h, core) == StaleSession <==>
            core.generation != 0 && h != Header(0x4d4d5347, 6, core.generation)
            && h == Header(0x4d4d5347, 6, h.generation)
  {
  }

  /**
   What a send that is refused before a number is drawn answers, and that it touches nothing but the caller's result.
   */
  lemma RefusedSends(core: Core, session: Outcome, q: seq<Slot>, p: priority, kind: u32, payload: Option<seq<byte>>,
                     length: nat, notify: int)
    requires payload.Some? ==> length <= |payload.value|
    ensures var (core', q', result, r) := SendSpec(core, session, q, p, kind, payload, length, notify);
            if length > 28 || (length > 0 && payload.None?) then
              core' == core && q' == q && result == None && r == BadArgument
            else if session != Ok then
              core' == core && q' == q && result == Some(SendResult(RingInvalid, -1, false, 0)) && r == session
            else core'.nextSequence != core.nextSequence && result.Some?
  {
    hide Seal;
  }

  /** A receive takes the head of its queue or nothing at all. */
  lemma ReceiveTakesHead(core: Core, session: Outcome, q: seq<Slot>, p: priority)
    ensures var (core', q', message, r) := ReceiveSpec(core, session, q, p);
            && core'.generation == core.generation
            && (message.None? ==> q' == q) && (message.Some? ==> q != [] && message.value == q[0] && q' == q[1..])
  {
    hide Judge, CountReceive, Verdict;
  }

  lemma SealCommits()
    ensures forall f :: Seal(f).commit == f.sequence && Seal(f).frame == f
  {
  }

  /** The shared window: its header and the eight rings. */
  class Shared {
    var magic: u32
    var version: u32
    var generation: u32
    const toCpu3: seq<Ring>
    const toLinux: seq<Ring>

    ghost predicate Valid()
      reads this, set r | r in toCpu3, set r | r in toLinux
    {
      && Disjoint(toCpu3, toLinux)
      && (forall p: priority :: toCpu3[p].Valid() && toLinux[p].Valid())
    }

    static ghost predicate Disjoint(toCpu3: seq<Ring>, toLinux: seq<Ring>)
    {
      && |toCpu3| == |toLinux| == PRIORITY_COUNT
      && (forall p: priority, q: priority :: toCpu3[p] != toLinux[q] && toCpu3[p].slot != toLinux[q].slot)
      && (forall p: priority, q: priority | p != q ::
            toCpu3[p] != toCpu3[q] && toCpu3[p].slot != toCpu3[q].slot && toLinux[p] != toLinux[q]
            && toLinux[p].slot != toLinux[q].slot)
    }

    /** Zeroes the whole window and heads it anew. */
    method Format(magic: u32, version: u32, generation: u32)
      requires Valid()
      modifies this, set r | r in toCpu3 + toLinux, set r | r in toCpu3 + toLinux :: r.slot
      ensures Valid() && this.magic == magic && this.version == version && this.generation == generation
      ensures forall p: priority :: toCpu3[p].Contents() == [] && toLinux[p].Contents() == []
    {
      this.magic, this.version, this.generation := magic, version, generation;
      for i := 0 to PRIORITY_COUNT
        invariant Valid() && this.magic == magic && this.version == version && this.generation == generation
        invariant forall p: priority | p < i :: toCpu3[p].Contents() == [] && toLinux[p].Contents() == []
      {
        toCpu3[i].Clear();
        toLinux[i].Clear();
      }
    }

    constructor (magic: u32, version: u32, generation: u32, toCpu3: seq<Ring>, toLinux: seq<Ring>)
      requires Disjoint(toCpu3, toLinux) && forall p: priority :: toCpu3[p].Valid() && toLinux[p].Valid()
      ensures Valid() && this.magic == magic && this.version == version && this.generation == generation
      ensures this.toCpu3 == toCpu3 && this.toLinux == toLinux
    {
      this.magic, this.version, this.generation := magic, version, generation;
      this.toCpu3, this.toLinux := toCpu3, toLinux;
    }
  }

  class Endpoint {
    var shared: Shared?
    var tx: seq<Ring>
    var rx: seq<Ring>
    var nextSequence: u32
    var generation: u32
    var stats: StatsTable

    ghost predicate Valid()
      reads this, shared, if shared == null then {} else set r | r in shared.toCpu3 + shared.toLinux
    {
      shared != null ==>
        && shared.Valid()
        && ((tx == shared.toCpu3 && rx == shared.toLinux) || (tx == shared.toLinux && rx == shared.toCpu3))
    }

    function View(): Core
      reads this
    {
      Core(generation, nextSequence, stats)
    }

    function Session(): Outcome
      reads this, shared
    {
      if shared == null then BadArgument
      else SessionSpec(shared.magic, shared.version, shared.generation, generation)
    }

    constructor ()
      ensures shared == null && generation == 0 && Valid()
    {
      shared, tx, rx, nextSequence, generation := null, [], [], 0, 0;
      stats := seq(4, _ => NO_STATS);
    }

    /** Zeroes the endpoint; it is no longer bound to anything. */
    method Forget()
      modifies this
      ensures shared == null && Valid() && View() == FreshCore(0)
    {
      shared, tx, rx, nextSequence, generation := null, [], [], 0, 0;
      stats := seq(4, _ => NO_STATS);
    }

    method SessionValid() returns (r: Outcome)
      ensures r == Session()
    {
      if shared == null || generation == 0 {
        return BadArgument;
      }
      if shared.magic != PROTOCOL_MAGIC || shared.version != PROTOCOL_VERSION {
        return ProtocolMismatch;
      }
      r := if shared.generation != generation then StaleSession else Ok;
    }

    /** Joins the session found in shared memory; a refused bind changes nothing. */
    method Bind(window: Shared, linux: bool) returns (r: Outcome)
      requires window.Valid()
      modifies this
      ensures r == if window.magic != PROTOCOL_MAGIC || window.version != PROTOCOL_VERSION then ProtocolMismatch
                   else if window.generation == 0 then StaleSession else Ok
      ensures r == Ok ==> Valid() && shared == window && View() == FreshCore(window.generation) && Session() == Ok
      ensures r == Ok ==> tx == (if linux then window.toCpu3 else window.toLinux)
                          && rx == (if linux then window.toLinux else window.toCpu3)
      ensures r != Ok ==> shared == old(shared) && tx == old(tx) && rx == old(rx) && View() == old(View())
    {
      if window.magic != PROTOCOL_MAGIC || window.version != PROTOCOL_VERSION {
        return ProtocolMismatch;
      }
      if window.generation == 0 {
        return StaleSession;
      }
      shared := window;
      nextSequence := 0;
      generation := window.generation;
      for p := 0 to PRIORITY_COUNT
        invariant stats[..p] == seq(p, _ => NO_STATS)
        invariant shared == window && generation == window.generation && nextSequence == 0
      {
        stats := stats[p := NO_STATS];
      }
      assert stats == stats[..PRIORITY_COUNT];
      if linux {
        tx, rx := window.toCpu3, window.toLinux;
      } else {
        tx, rx := window.toLinux, window.toCpu3;
      }
      r := Ok;
    }

    method DrawSequence() returns (n: u32)
      modifies this`nextSequence
      ensures n == nextSequence == NextSequence(old(nextSequence))
    {
      nextSequence := Inc(nextSequence);
      if nextSequence == 0 {
        nextSequence := Inc(nextSequence);
      }
      n := nextSequence;
    }

    /** `notify` is what the notification backend answers if it is asked. */
    method Send(p: priority, kind: u32, payload: Option<seq<byte>>, length: nat, notify: int)
      returns (r: Outcome, result: Option<SendResult>)
      requires Valid()
      requires payload.Some? ==> length <= |payload.value|
      modifies this`nextSequence, this`stats, if shared == null then {} else {tx[p], tx[p].slot}
      ensures Valid()
      ensures shared == null ==> r == BadArgument && result == None && View() == old(View())
      ensures shared != null ==>
                (View(), tx[p].Contents(), result, r) ==
                  SendSpec(old(View()), old(Session()), old(tx[p].Contents()), p, kind, payload, length, notify)
    {
      hide QueueSpec, PayloadOf, NextSequence;
      if shared == null || length > PAYLOAD_BYTES || (length > 0 && payload.None?) {
        return BadArgument, None;
      }
      var outcome := UNSENT;
      var session := SessionValid();
      if session != Ok {
        return session, Some(outcome);
      }
      var sequence := DrawSequence();
      var bytes := CopyPayload(if payload.Some? then payload.value else [], length);
      r, outcome := Queue(p, Frame(generation, kind, sequence, length, bytes), notify);
      result := Some(outcome);
    }

    method Queue(p: priority, f: Frame, notify: int) returns (r: Outcome, outcome: SendResult)
      requires Valid() && shared != null
      modifies this`stats, tx[p], tx[p].slot
      ensures Valid()
      ensures (View(), tx[p].Contents(), outcome, r) == QueueSpec(old(View()), old(tx[p].Contents()), p, f, notify)
    {
      hide Seal, Body, Window;
      outcome := UNSENT;
      var queued := tx[p].Push(f);
      outcome := outcome.(queueResult := queued);
      if queued != RingOk {
        if queued == RingFull {
          stats := stats[p := stats[p].(txFull := Inc(stats[p].txFull))];
        }
        return RingError(queued), outcome;
      }
      var depth := tx[p].Count();
      CountSend(p, depth.value, notify);
      outcome := outcome.(sequence := f.sequence, notifyAttempted := true, notifyResult := notify);
      r := Ok;
    }

    method CopyPayload(payload: seq<byte>, length: nat) returns (bytes: Payload)
      requires length <= PAYLOAD_BYTES && length <= |payload|
      ensures bytes == PayloadOf(payload, length)
    {
      bytes := seq(PAYLOAD_BYTES, _ => 0);
      for index := 0 to length
        invariant forall i | 0 <= i < index :: bytes[i] == payload[i]
        invariant forall i | index <= i < PAYLOAD_BYTES :: bytes[i] == 0
      {
        bytes := bytes[index := payload[index]];
      }
    }

    method CountSend(p: priority, depth: nat, notify: int)
      requires depth <= CAPACITY
      modifies this`stats
      ensures var s := old(stats)[p];
              var counted := s.(txEnqueued := Inc(s.txEnqueued),
                             txHighWater := if depth > s.txHighWater then depth else s.txHighWater);
              stats == old(stats)[p := CountNotify(counted, notify)]
    {
      var s := stats[p].(txEnqueued := Inc(stats[p].txEnqueued));
      if depth > 0 && depth > s.txHighWater {
        s := s.(txHighWater := depth);
      }
      if notify == NOTIFY_SENT {
        s := s.(notifySent := Inc(s.notifySent));
      } else if notify == NOTIFY_COALESCED {
        s := s.(notifyCoalesced := Inc(s.notifyCoalesced));
      } else {
        s := s.(notifyFailed := Inc(s.notifyFailed));
      }
      stats := stats[p := s];
    }

    method Receive(p: priority) returns (r: Outcome, message: Option<Slot>)
      requires Valid()
      modifies this`stats, if shared == null then {} else {rx[p]}
      ensures Valid()
      ensures shared == null ==> r == BadArgument && message == None && View() == old(View())
      ensures shared != null ==>
                (View(), rx[p].Contents(), message, r) ==
                  ReceiveSpec(old(View()), old(Session()), old(rx[p].Contents()), p)
    {
      hide Judge, Window;
      message := None;
      r := SessionValid();
      if r != Ok {
        return;
      }
      var popped;
      popped, message := rx[p].Pop();
      r := if popped == RingOk then Ok else RingError(popped);
      var s := stats[p];
      if popped == RingOk && message.value.frame.generation != generation {
        s := s.(rxStale := Inc(s.rxStale));
        r := StaleFrame;
      }
      if r == Ok {
        s := s.(rxOk := Inc(s.rxOk));
      } else if r == RingError(RingIncomplete) {
        s := s.(rxIncomplete := Inc(s.rxIncomplete));
      } else if r == RingError(RingBadCrc) {
        s := s.(rxBadCrc := Inc(s.rxBadCrc));
      } else if r == RingError(RingInvalid) {
        s := s.(rxInvalid := Inc(s.rxInvalid));
      }
      stats := stats[p := s];
    }

    method HasReceived(p: priority) returns (b: Option<bool>)
      requires Valid()
      ensures b == if shared == null || Session() != Ok then None else Some(rx[p].Contents() != [])
    {
      var session := SessionValid();
      if session != Ok {
        return None;
      }
      var data := rx[p].HasData();
      b := Some(data);
    }
  }
}
