/** What CPU3's service does with one frame it has taken: which frames it sends back, in order. */
module Answers {
  import opened Words
  import opened Frames
  import opened Endpoint

  datatype Reply = Reply(kind: u32, payload: seq<byte>)

  /** The eight bytes of a feedback frame: the sequence number answered, then a status or reason. */
  function Feedback(kind: u32, sequence: u32, status: u32): (r: Reply)
    ensures |r.payload| == 8
  {
    Reply(kind, StoreU32(sequence) + StoreU32(status))
  }

  function Pong(request: Frame): (r: Reply)
    ensures |r.payload| == 4
  {
    Reply(if request.kind == MSG_PING then MSG_PONG else MSG_NOP, StoreU32(Inc(LoadU32(request.payload))))
  }

  function ReadyReply(generation: u32): (r: Reply)
    ensures |r.payload| == 8
  {
    Reply(MSG_SESSION_READY, StoreU32(generation) + StoreU32(PROTOCOL_VERSION))
  }

  predicate StopRequest?(p: priority, request: Frame) { p == 0 && request.kind == MSG_STOP_REQUEST }

  /** Answer to a stop request; `stopControl` tells whether the image was built to stop. */
  function StopReply(stopControl: bool, request: Frame): (r: Reply)
    ensures |r.payload| == 8
  {
    if request.length != 0 then Feedback(MSG_STOP_REFUSED, request.sequence, STOP_REFUSED_INVALID_REQUEST)
    else if stopControl then Feedback(MSG_STOP_READY, request.sequence, 0)
    else Feedback(MSG_STOP_REFUSED, request.sequence, STOP_REFUSED_BUSY)
  }

  function Replies(stopControl: bool, p: priority, verdict: Outcome, message: Option<Slot>): seq<Reply>
  {
    if message.None? then []
    else
      var f := message.value.frame;
      if verdict == RingError(RingBadCrc)
      then (if Reliable(p) then [Feedback(MSG_NACK, f.sequence, NACK_BAD_CRC)] else [])
      else if verdict == RingError(RingInvalid)
        then (if Reliable(p) then [Feedback(MSG_NACK, f.sequence, NACK_INVALID_FRAME)] else [])
        else if verdict != Ok then []
          else if StopRequest?(p, f) then [StopReply(stopControl, f)]
          else if Reliable(p) then [Feedback(MSG_ACK, f.sequence, 0), Pong(f)]
          else [Pong(f)]
  }

  /** A send of one reply. */
  function SendReply(core: Core, session: Outcome, q: seq<Slot>, p: priority, r: Reply, notify: int)
    : (Core, seq<Slot>, Option<SendResult>, Outcome)
  {
    SendSpec(core, session, q, p, r.kind, Some(r.payload), |r.payload|, notify)
  }

  predicate StopKind?(kind: u32) { kind == MSG_STOP_READY || kind == MSG_STOP_REFUSED }

  /** A stop reply is sent only to a stop request that arrived whole, and echoes its number. */
  lemma StopRepliesEcho(stopControl: bool, p: priority, verdict: Outcome, message: Option<Slot>)
    ensures forall r | r in Replies(stopControl, p, verdict, message) ::
              && |r.payload| <= 8 && r.kind != MSG_SESSION_READY
              && (StopKind?(r.kind) ==> p == 0 && verdict == Ok && message.Some? && StopRequest?(p, message.value.frame)
                                        && r == StopReply(stopControl, message.value.frame))
  {
    hide StoreU32, LoadU32;
  }

  lemma EchoReads(kind: u32, sequence: u32, status: u32)
    ensures LoadU32(PayloadOf(Feedback(kind, sequence, status).payload, 8)) == sequence
    ensures LoadU32(PayloadOf(Feedback(kind, sequence, status).payload, 8)[4..]) == status
  {
    hide StoreU32, LoadU32;
    var rest := seq(PAYLOAD_BYTES - 8, _ => 0);
    var bytes := PayloadOf(Feedback(kind, sequence, status).payload, 8);
    LoadAfterStore(sequence, StoreU32(status) + rest);
    LoadAfterStore(status, rest);
    assert bytes == StoreU32(sequence) + (StoreU32(status) + rest);
    assert bytes[4..] == StoreU32(status) + rest;
  }

  lemma PongReads(request: Frame)
    ensures LoadU32(PayloadOf(Pong(request).payload, 4)) == Inc(LoadU32(request.payload))
  {
    hide StoreU32, LoadU32;
    var bytes := Pong(request).payload;
    LoadAfterStore(Inc(LoadU32(request.payload)), seq(PAYLOAD_BYTES - 4, _ => 0));
    assert bytes[..4] == bytes;
  }

  /** A reply of eight bytes, by the words a receiver reads; and one of four. */
  predicate Says(r: Reply, kind: u32, first: u32, second: u32)
  {
    r.kind == kind && |r.payload| == 8 && LoadU32(r.payload) == first && LoadU32(r.payload[4..]) == second
  }

  predicate Returns(r: Reply, kind: u32, value: u32)
  {
    r.kind == kind && |r.payload| == 4 && LoadU32(r.payload) == value
  }

  lemma FeedbackSays(kind: u32, sequence: u32, status: u32)
    ensures Says(Feedback(kind, sequence, status), kind, sequence, status)
  {
    hide StoreU32, LoadU32;
    LoadAfterStore(sequence, StoreU32(status));
    LoadAfterStore(status, []);
    assert StoreU32(status) + [] == StoreU32(status);
    assert (StoreU32(sequence) + StoreU32(status))[4..] == StoreU32(status);
  }

  lemma PongReturns(f: Frame)
    ensures var v := LoadU32(f.payload);
            Returns(Pong(f), if f.kind == 1 then 2 else 0, if v == 0xffff_ffff then 0 else v + 1)
  {
    hide StoreU32, LoadU32;
    var n := Inc(LoadU32(f.payload));
    LoadAfterStore(n, []);
    assert StoreU32(n) + [] == StoreU32(n);
  }

  /**
   What CPU3 answers to a frame it has taken, word by word: NACK with the number and the reason for a damaged or
   malformed one, nothing for a stale one, one of three replies to a stop request on p0, and otherwise the value plus
   one, behind an ACK on the two reliable priorities.
   */
  lemma RepliesOnTheWire(stopControl: bool, p: priority, verdict: Outcome, s: Slot)
    ensures var f, rs := s.frame, Replies(stopControl, p, verdict, Some(s));
            var v := LoadU32(f.payload);
            var pong := (r: Reply) => Returns(r, if f.kind == 1 then 2 else 0, if v == 0xffff_ffff then 0 else v + 1);
            if verdict == RingError(RingBadCrc) || verdict == RingError(RingInvalid) then
              if p < 2 then |rs| == 1 && Says(rs[0], 4, f.sequence, if verdict == RingError(RingBadCrc) then 1 else 2)
              else rs == []
            else if verdict != Ok then rs == []
            else if p == 0 && f.kind == 5 then
              && |rs| == 1
              && if f.length != 0 then Says(rs[0], 7, f.sequence, 1)
                 else if stopControl then Says(rs[0], 6, f.sequence, 0)
                 else Says(rs[0], 7, f.sequence, 2)
            else if p < 2 then |rs| == 2 && Says(rs[0], 3, f.sequence, 0) && pong(rs[1])
            else |rs| == 1 && pong(rs[0])
    ensures Replies(stopControl, p, verdict, None) == []
  {
    hide StoreU32, LoadU32, Says, Returns, Feedback, Pong;
    FeedbackSays(4, s.frame.sequence, 1);
    FeedbackSays(4, s.frame.sequence, 2);
    FeedbackSays(7, s.frame.sequence, 1);
    FeedbackSays(7, s.frame.sequence, 2);
    FeedbackSays(6, s.frame.sequence, 0);
    FeedbackSays(3, s.frame.sequence, 0);
    PongReturns(s.frame);
  }

  /** READY tells the session's number and the protocol's version. */
  lemma ReadyOnTheWire(generation: u32)
    ensures Says(ReadyReply(generation), 8, generation, 6)
  {
    FeedbackSays(MSG_SESSION_READY, generation, PROTOCOL_VERSION);
    hide StoreU32, LoadU32;
  }

  /**
    * A damaged frame end to end: the injection commits it, CPU3 takes it exactly once as BAD_CRC and releases its slot,
    * no PONG answers it, and a reliable priority refuses it once by number and reason.
    */
  lemma InjectedDamageIsRefused(core: Core, p: priority, f: Frame, behind: seq<Slot>, stopControl: bool)
    requires WellFormed(f) && core.generation != 0
    ensures var (after, q, message, verdict) := ReceiveSpec(core, Ok, [Damage(Seal(f))] + behind, p);
            && q == behind && verdict == RingError(RingBadCrc)
            && message == Some(Damage(Seal(f))) && message.value.frame.sequence == f.sequence
            && after.stats[p] == core.stats[p].(rxBadCrc := Inc(core.stats[p].rxBadCrc))
            && Replies(stopControl, p, verdict, message)
               == (if Reliable(p) then [Feedback(MSG_NACK, f.sequence, NACK_BAD_CRC)] else [])
            && (forall r | r in Replies(stopControl, p, verdict, message) :: r.kind != MSG_PONG && r.kind != MSG_NOP)
  {
    hide Seal, StoreU32;
    DamageIsDetected(f);
    SealCommits();
  }
}
