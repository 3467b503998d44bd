/** CPU3's worker: one pass over the doorbells it has collected, while Linux goes on pushing, popping and ringing. */
module Service {
  import opened Words
  import opened Frames
  import opened R = Ring
  import opened E = Endpoint
  import opened Answers

  /** One look into a forward ring: what lay there, and what the endpoint made of it. */
  datatype Look = Look(p: priority, before: seq<Slot>, verdict: Outcome, message: Option<Slot>)

  /** How a pass leaves a priority. */
  datatype Exit = SawEmpty | Rescheduled | GaveUp(verdict: Outcome) | WentOff

  datatype Outgoing = Outgoing(p: priority, reply: Reply)

  /** The frames one look gives rise to, and those of a series of looks, in order. */
  function Due(stopControl: bool, p: priority, verdict: Outcome, message: Option<Slot>): seq<Outgoing>
  {
    var replies := Replies(stopControl, p, verdict, message);
    seq(|replies|, i requires 0 <= i < |replies| => Outgoing(p, replies[i]))
  }

  function AllDue(stopControl: bool, looks: seq<Look>): seq<Outgoing>
  {
    if looks == [] then []
    else
      var l := looks[|looks| - 1];
      AllDue(stopControl, looks[..|looks| - 1]) + Due(stopControl, l.p, l.verdict, l.message)
  }

  /** A frame was taken out and dealt with. */
  predicate Handled?(verdict: Outcome)
  {
    verdict == Ok || verdict == RingError(RingBadCrc) || verdict == RingError(RingInvalid)
  }

  function HandledIn(looks: seq<Look>): nat
  {
    if looks == [] then 0 else HandledIn(looks[..|looks| - 1]) + if Handled?(looks[|looks| - 1].verdict) then 1 else 0
  }

  /** The look found the head of a ring as a producer of this session leaves it, or found nothing. */
  predicate Sound?(l: Look, generation: u32)
  {
    l.before == [] || (l.before[0] == Seal(l.before[0].frame) && WellFormed(l.before[0].frame)
                       && l.before[0].frame.generation == generation)
  }

  /** The look reports what the endpoint's receive makes of the ring it found. */
  predicate Faithful(l: Look, generation: u32, session: Outcome)
  {
    var (core, q, message, verdict) := ReceiveSpec(FreshCore(generation), session, l.before, l.p);
    l.message == message && l.verdict == verdict
  }

  /** What lies in four rings. */
  ghost function Queues(rings: seq<R.Ring>): (q: seq<seq<Slot>>)
    requires |rings| == PRIORITY_COUNT && forall p: priority :: rings[p].Valid()
    reads rings, set r | r in rings :: r.slot
    ensures |q| == PRIORITY_COUNT
  {
    [rings[0].Contents(), rings[1].Contents(), rings[2].Contents(), rings[3].Contents()]
  }

  /** The frame a look took. */
  function Took(message: Option<Slot>): seq<Slot> { if message.Some? then [message.value] else [] }

  /** What a look left in the ring. */
  function LeftIn(l: Look): seq<Slot> { if l.message.Some? && l.before != [] then l.before[1..] else l.before }

  function TakenIn(looks: seq<Look>): seq<Slot>
  {
    if looks == [] then [] else TakenIn(looks[..|looks| - 1]) + Took(looks[|looks| - 1].message)
  }

  /** A producer at work: every ring keeps what it had, with more behind it. */
  ghost predicate Grown(a: seq<seq<Slot>>, b: seq<seq<Slot>>)
  {
    |a| == |b| == PRIORITY_COUNT && forall p: priority :: a[p] <= b[p]
  }

  /** Frames t have been taken from the head of ring p, while producers went on. */
  ghost predicate Consumed(a: seq<seq<Slot>>, b: seq<seq<Slot>>, p: priority, t: seq<Slot>)
  {
    && |a| == |b| == PRIORITY_COUNT && a[p] <= t + b[p]
    && forall q: priority | q != p :: a[q] <= b[q]
  }

  lemma NothingConsumed(a: seq<seq<Slot>>, p: priority)
    requires |a| == PRIORITY_COUNT
    ensures Consumed(a, a, p, [])
  {
    assert [] + a[p] == a[p];
  }

  lemma ConsumedTwice(a: seq<seq<Slot>>, b: seq<seq<Slot>>, c: seq<seq<Slot>>, p: priority, t: seq<Slot>, u: seq<Slot>)
    requires Consumed(a, b, p, t) && Consumed(b, c, p, u)
    ensures Consumed(a, c, p, t + u)
  {
    PrefixBehind(t, b[p], u + c[p]);
    assert t + (u + c[p]) == (t + u) + c[p];
    forall q: priority | q != p ensures a[q] <= c[q] {
      assert a[q] <= b[q] <= c[q];
    }
  }

  lemma ConsumedThenGrown(a: seq<seq<Slot>>, b: seq<seq<Slot>>, c: seq<seq<Slot>>, p: priority, t: seq<Slot>)
    requires Consumed(a, b, p, t) && Grown(b, c)
    ensures Consumed(a, c, p, t)
  {
    PrefixBehind(t, b[p], c[p]);
    forall q: priority | q != p ensures a[q] <= c[q] {
      assert a[q] <= b[q] <= c[q];
    }
  }

  lemma PrefixBehind(t: seq<Slot>, x: seq<Slot>, y: seq<Slot>)
    requires x <= y
    ensures t + x <= t + y
  {
    assert y == x + y[|x|..];
    assert t + y == (t + x) + y[|x|..];
  }

  /** What a drain finds when it begins. */
  datatype Begin = Begin(generation: u32, session: Outcome, pending: set<priority>, semaphore: bool,
                         sent: seq<Outgoing>, queues: seq<seq<Slot>>)

  /** From a to b nothing happened but what producers do. */
  ghost predicate Resumes(a: Begin, b: Begin)
  {
    a.generation == b.generation && a.session == b.session && a.sent == b.sent && Grown(a.queues, b.queues)
  }

  ghost function Footprint(a: seq<R.Ring>, b: seq<R.Ring>): set<object>
  {
    (set r | r in a + b :: r as object) + (set r | r in a + b :: r.slot as object)
  }

  lemma FootprintHolds(a: seq<R.Ring>, b: seq<R.Ring>)
    ensures forall i | 0 <= i < |a| :: a[i] in Footprint(a, b) && a[i].slot in Footprint(a, b)
    ensures forall i | 0 <= i < |b| :: b[i] in Footprint(a, b) && b[i].slot in Footprint(a, b)
    ensures forall x | x in Footprint(a, b) :: x is R.Ring || x is array<Slot>
  {
    assert forall i | 0 <= i < |a| :: a[i] in a + b;
    assert forall i | 0 <= i < |b| :: b[i] in a + b;
  }

  class Service {
    const endpoint: E.Endpoint
    const toLinux: seq<R.Ring>
    const toCpu3: seq<R.Ring>
    const stopControl: bool
    const skip: Option<priority>
    /** The eight rings and their slots. */
    ghost const repr: set<object>

    var endpointReady: bool
    var readyCommitted: bool
    var readyPublished: bool
    var pending: set<priority>
    var semaphore: bool
    var b2a: set<priority>
    var off: bool
    var txFullCount: u32
    var rxErrorCount: u32
    var wakeCount: u32
    var emptyWakeCount: u32
    var messageCount: u32
    ghost var sent: seq<Outgoing>

    ghost predicate Valid()
      reads this, endpoint, endpoint.shared, repr
    {
      && |toCpu3| == |toLinux| == PRIORITY_COUNT && this !in repr && endpoint !in repr
      && (forall p: priority ::
            toCpu3[p] in repr && toCpu3[p].slot in repr && toLinux[p] in repr && toLinux[p].slot in repr)
      && endpoint.shared != null && endpoint.shared !in repr && endpoint.shared.toCpu3 == toCpu3
      && endpoint.shared.toLinux == toLinux
      && endpoint.tx == toLinux && endpoint.rx == toCpu3
      && endpoint.Valid()
      && (readyPublished ==> readyCommitted)
    }

    constructor (endpoint: E.Endpoint, stopControl: bool, skip: Option<priority>)
      requires endpoint.shared != null && endpoint.tx == endpoint.shared.toLinux
               && endpoint.rx == endpoint.shared.toCpu3 && endpoint.Valid()
      ensures Valid() && this.endpoint == endpoint && sent == [] && !readyCommitted && !off
    {
      this.endpoint, this.stopControl, this.skip := endpoint, stopControl, skip;
      toLinux, toCpu3 := endpoint.tx, endpoint.rx;
      repr := Footprint(endpoint.tx, endpoint.rx);
      endpointReady, readyCommitted, readyPublished := true, false, false;
      pending, semaphore, b2a, off := {}, false, {}, false;
      txFullCount, rxErrorCount, wakeCount, emptyWakeCount, messageCount := 0, 0, 0, 0, 0;
      sent := [];
      hide Footprint, Shared.Disjoint;
      FootprintHolds(endpoint.tx, endpoint.rx);
    }

    /**
     Linux at work: it appends to forward rings, consumes from reverse rings, acknowledges doorbells and rings new
     ones.
     */
    method Meanwhile()
      requires Valid()
      modifies repr, this`pending, this`semaphore, this`b2a
      ensures Valid()
      ensures old(pending) <= pending && (old(semaphore) ==> semaphore)
      ensures Grown(old(Queues(toCpu3)), Queues(toCpu3))
    {
      hide Queues;
      var steps: nat :| true;
      while steps > 0
        invariant Valid() && old(pending) <= pending && (old(semaphore) ==> semaphore)
        invariant Grown(old(Queues(toCpu3)), Queues(toCpu3))
      {
        var p: priority :| true;
        OneStep(p);
        steps := steps - 1;
      }
    }

    method OneStep(p: priority)
      requires Valid()
      modifies toCpu3[p], toCpu3[p].slot, toLinux[p], this`pending, this`semaphore, this`b2a
      ensures Valid() && old(pending) <= pending && (old(semaphore) ==> semaphore)
      ensures Grown(old(Queues(toCpu3)), Queues(toCpu3))
    {
      if * {
        Enqueue(p);
      } else if * {
        Dequeue(p);
      } else if * {
        b2a := b2a - {p};
      } else {
        pending, semaphore := pending + {p}, true;
      }
    }

    method Enqueue(p: priority)
      requires Valid()
      modifies toCpu3[p], toCpu3[p].slot
      ensures Valid() && old(toCpu3[p].Contents()) <= toCpu3[p].Contents()
      ensures forall q: priority | q != p :: toCpu3[q].Contents() == old(toCpu3[q].Contents())
    {
      hide Seal, WellFormed, Damage;
      var f: Frame :| true;
      var damage: bool :| true;
      var queued := toCpu3[p].Inject(f, damage);
    }

    method Dequeue(p: priority)
      requires Valid()
      modifies toLinux[p]
      ensures Valid() && Queues(toCpu3) == old(Queues(toCpu3))
    {
      var popped, message := toLinux[p].Pop();
    }

    /** Queues one reply and rings its doorbell; an unacknowledged doorbell is not rung again. */
    method Transmit(p: priority, r: Reply) returns (outcome: Outcome)
      requires Valid() && |r.payload| <= 8
      modifies endpoint, toLinux[p], toLinux[p].slot, this`b2a, this`txFullCount, this`sent
      ensures Valid() && endpoint.View().generation == old(endpoint.View()).generation
              && endpoint.Session() == old(endpoint.Session())
      ensures var answer := if p in old(b2a) then NOTIFY_COALESCED else NOTIFY_SENT;
              var (core, q, result, o) :=
                SendReply(old(endpoint.View()), old(endpoint.Session()), old(toLinux[p].Contents()), p, r, answer);
              endpoint.View() == core && toLinux[p].Contents() == q && outcome == o
      ensures b2a == if outcome == Ok then old(b2a) + {p} else old(b2a)
      ensures txFullCount == if outcome == RingError(RingFull) then Inc(old(txFullCount)) else old(txFullCount)
      ensures sent == old(sent) + [Outgoing(p, r)] && Queues(toCpu3) == old(Queues(toCpu3))
    {
      hide R.Ring.Contents;
      hide SendSpec, Queues;
      SendKeepsGeneration(endpoint.View(), endpoint.Session(), toLinux[p].Contents(), p, r,
                          if p in b2a then NOTIFY_COALESCED else NOTIFY_SENT);
      var result;
      outcome, result := endpoint.Send(p, r.kind, Some(r.payload), |r.payload|,
                                       if p in b2a then NOTIFY_COALESCED else NOTIFY_SENT);
      if outcome == Ok {
        b2a := b2a + {p};
      } else if outcome == RingError(RingFull) {
        txFullCount := Inc(txFullCount);
      }
      sent := sent + [Outgoing(p, r)];
    }

    /** Everything CPU3 sends for one look; the core goes off exactly on a STOP_READY that was committed. */
    method Answer(p: priority, verdict: Outcome, message: Option<Slot>)
      requires Valid() && !off && (message.Some? || !Handled?(verdict))
      modifies endpoint, toLinux[p], toLinux[p].slot, this`b2a, this`txFullCount, this`rxErrorCount, this`sent, this`off
      ensures Kept(old(endpoint.View()).generation, old(endpoint.Session()), old(pending), old(semaphore))
      ensures sent == old(sent) + Due(stopControl, p, verdict, message) && Queues(toCpu3) == old(Queues(toCpu3))
      ensures off <==> StopsFor(p, verdict, message) && |toLinux[p].Contents()| == |old(toLinux[p].Contents())| + 1
      ensures off ==> StopReadyBehind(old(toLinux[p].Contents()), toLinux[p].Contents(), message.value.frame.sequence)
      ensures rxErrorCount
           == if verdict == RingError(RingBadCrc) || verdict == RingError(RingInvalid) then Inc(old(rxErrorCount))
              else old(rxErrorCount)
    {
      hide SendReply, Queues;
      if verdict == RingError(RingBadCrc) || verdict == RingError(RingInvalid) {
        AnswerBad(p, verdict, message);
        return;
      }
      if verdict != Ok {
        return;
      }
      var request := message.value.frame;
      if p == 0 && request.kind == MSG_STOP_REQUEST {
        AnswerStop(request);
        return;
      }
      if Reliable(p) {
        var acked := Transmit(p, Feedback(MSG_ACK, request.sequence, 0));
      }
      var answered := Transmit(p, Pong(request));
    }

    /** A damaged or malformed frame is counted, and refused by number and reason where feedback is owed. */
    method AnswerBad(p: priority, verdict: Outcome, message: Option<Slot>)
      requires Valid() && !off && message.Some?
      requires verdict == RingError(RingBadCrc) || verdict == RingError(RingInvalid)
      modifies endpoint, toLinux[p], toLinux[p].slot, this`b2a, this`txFullCount, this`rxErrorCount, this`sent
      ensures Kept(old(endpoint.View()).generation, old(endpoint.Session()), old(pending), old(semaphore))
      ensures sent == old(sent) + Due(stopControl, p, verdict, message) && Queues(toCpu3) == old(Queues(toCpu3))
      ensures rxErrorCount == Inc(old(rxErrorCount))
    {
      hide SendReply, Queues;
      if Reliable(p) {
        var reason := if verdict == RingError(RingBadCrc) then NACK_BAD_CRC else NACK_INVALID_FRAME;
        var nacked := Transmit(p, Feedback(MSG_NACK, message.value.frame.sequence, reason));
      }
      rxErrorCount := Inc(rxErrorCount);
    }

    /** The one reply to a stop request; an accepted STOP_READY turns the core off. */
    method AnswerStop(request: Frame)
      requires Valid() && !off && request.kind == MSG_STOP_REQUEST
      modifies endpoint, toLinux[0], toLinux[0].slot, this`b2a, this`txFullCount, this`sent, this`off
      ensures Kept(old(endpoint.View()).generation, old(endpoint.Session()), old(pending), old(semaphore))
      ensures sent == old(sent) + [Outgoing(0, StopReply(stopControl, request))]
              && Queues(toCpu3) == old(Queues(toCpu3))
      ensures off <==> stopControl && request.length == 0 && |toLinux[0].Contents()| == |old(toLinux[0].Contents())| + 1
      ensures off ==> StopReadyBehind(old(toLinux[0].Contents()), toLinux[0].Contents(), request.sequence)
    {
      hide SendReply, StoreU32, LoadU32, Queues;
      if request.length != 0 {
        var refused := Transmit(0, Feedback(MSG_STOP_REFUSED, request.sequence, STOP_REFUSED_INVALID_REQUEST));
      } else if stopControl {
        ReplyAppended(endpoint.View(), endpoint.Session(), toLinux[0].Contents(), 0,
                      Feedback(MSG_STOP_READY, request.sequence, 0),
                      if 0 in b2a then NOTIFY_COALESCED else NOTIFY_SENT);
        EchoReads(MSG_STOP_READY, request.sequence, 0);
        var replied := Transmit(0, Feedback(MSG_STOP_READY, request.sequence, 0));
        off := replied == Ok;
      } else {
        var busy := Transmit(0, Feedback(MSG_STOP_REFUSED, request.sequence, STOP_REFUSED_BUSY));
      }
    }

    /** An empty stop request in the hands of an image built to stop. */
    predicate StopsFor(p: priority, verdict: Outcome, message: Option<Slot>)
    {
      stopControl && verdict == Ok && message.Some? && StopRequest?(p, message.value.frame)
      && message.value.frame.length == 0
    }

    ghost predicate Kept(generation: u32, session: Outcome, waiting: set<priority>, up: bool)
      reads this, endpoint, endpoint.shared, repr
    {
      && Valid() && endpoint.View().generation == generation && endpoint.Session() == session
      && waiting <= pending && (up ==> semaphore)
    }

    method TakeLook(p: priority) returns (verdict: Outcome, message: Option<Slot>, ghost before: seq<Slot>)
      requires Valid()
      modifies endpoint, toCpu3[p]
      ensures Kept(old(endpoint.View()).generation, old(endpoint.Session()), old(pending), old(semaphore))
      ensures Faithful(Look(p, before, verdict, message), old(endpoint.View()).generation, old(endpoint.Session()))
      ensures before == old(Queues(toCpu3))[p] == Took(message) + Queues(toCpu3)[p]
      ensures verdict == RingError(RingEmpty) ==> before == []
      ensures Queues(toCpu3) == old(Queues(toCpu3))[p := Queues(toCpu3)[p]]
      ensures Handled?(verdict) ==> message.Some? && old(endpoint.Session()) == Ok
    {
      hide ReceiveSpec, Faithful, R.Ring.Contents;
      before := toCpu3[p].Contents();
      LookSays(endpoint.View(), endpoint.Session(), before, p);
      verdict, message := endpoint.Receive(p);
    }

    /** One frame of a drain, answered. */
    method DrainOne(p: priority) returns (verdict: Outcome, ghost l: Look)
      requires Valid() && !off
      modifies this`pending, this`semaphore, this`b2a, this`txFullCount, this`rxErrorCount, this`sent, this`off
      modifies endpoint, repr
      ensures Kept(old(endpoint.View()).generation, old(endpoint.Session()), old(pending), old(semaphore))
      ensures l.p == p && l.verdict == verdict && Faithful(l, old(endpoint.View()).generation, old(endpoint.Session()))
      ensures sent == old(sent) + Due(stopControl, l.p, l.verdict, l.message)
      ensures off ==> StopsFor(p, verdict, l.message)
      ensures verdict == RingError(RingEmpty) ==> l.before == []
      ensures Consumed(old(Queues(toCpu3)), Queues(toCpu3), p, Took(l.message))
              && l.before == Took(l.message) + Queues(toCpu3)[p]
      ensures Handled?(verdict) ==> old(endpoint.Session()) == Ok
    {
      hide Due, Faithful, StopsFor, Queues;
      Meanwhile();
      verdict, l := TakeAndAnswer(p);
    }

    method TakeAndAnswer(p: priority) returns (verdict: Outcome, ghost l: Look)
      requires Valid() && !off
      modifies endpoint, toCpu3[p], toLinux[p], toLinux[p].slot, this`b2a, this`txFullCount, this`rxErrorCount,
               this`sent, this`off
      ensures Kept(old(endpoint.View()).generation, old(endpoint.Session()), old(pending), old(semaphore))
      ensures l.p == p && l.verdict == verdict && Faithful(l, old(endpoint.View()).generation, old(endpoint.Session()))
      ensures sent == old(sent) + Due(stopControl, l.p, l.verdict, l.message)
      ensures off ==> StopsFor(p, verdict, l.message)
      ensures verdict == RingError(RingEmpty) ==> l.before == []
      ensures l.before == old(Queues(toCpu3))[p] == Took(l.message) + Queues(toCpu3)[p]
      ensures Queues(toCpu3) == old(Queues(toCpu3))[p := Queues(toCpu3)[p]]
      ensures Handled?(verdict) ==> old(endpoint.Session()) == Ok
    {
      hide Due, Faithful, StopsFor, Queues;
      var message;
      ghost var before;
      verdict, message, before := TakeLook(p);
      l := Look(p, before, verdict, message);
      Answer(p, verdict, message);
    }

    /** Drains one priority up to the quota, and looks once more when the quota is used up. */
    method Drain(p: priority) returns (handled: nat, exit: Exit, ghost run: Run)
      requires Valid() && !off
      modifies this`pending, this`semaphore, this`b2a, this`txFullCount, this`rxErrorCount, this`sent, this`off
      modifies endpoint, repr
      ensures Kept(old(endpoint.View()).generation, old(endpoint.Session()), old(pending), old(semaphore))
      ensures Passed(run, old(endpoint.View()).generation, old(endpoint.Session()))
      ensures run.p == p && run.handled == handled && run.exit == exit
      ensures sent == old(sent) + AllDue(stopControl, run.looks)
      ensures off <==> exit == WentOff
      ensures Consumed(old(Queues(toCpu3)), Queues(toCpu3), p, TakenIn(run.looks))
      ensures LeftSeen(run) == Queues(toCpu3)[p] && (exit == SawEmpty ==> Queues(toCpu3)[p] == [])
    {
      hide Due, Faithful, AllDue, HandledIn, Looked, Queues, TakenIn;
      ghost var looks;
      handled, exit, looks := DrainLoop(p);
      run := Run(p, looks, handled, exit, None, exit);
      if handled == DRAIN_QUOTA && !off {
        var more;
        ghost var found;
        ghost var before := Queues(toCpu3);
        more, found := LookAgain(p);
        ConsumedThenGrown(old(Queues(toCpu3)), before, Queues(toCpu3), p, TakenIn(looks));
        run := run.(again := Some(found));
        if more {
          exit := Rescheduled;
          run := run.(exit := Rescheduled);
        }
      }
    }

    /** Where a drain of p started from. */
    ghost predicate Since(b: Begin)
      reads this, endpoint, endpoint.shared, repr
    {
      Kept(b.generation, b.session, b.pending, b.semaphore)
    }

    /** The loop so far: good looks only, answered one by one, and nothing lost. */
    ghost predicate Draining(p: priority, looks: seq<Look>, b: Begin)
      reads this, endpoint, endpoint.shared, repr
    {
      && Since(b) && !off && |looks| <= DRAIN_QUOTA && (looks != [] ==> b.session == Ok)
      && GoodLooks(p, looks, b.generation, b.session)
      && sent == b.sent + AllDue(stopControl, looks)
      && Consumed(b.queues, Queues(toCpu3), p, TakenIn(looks))
    }

    /** The loop at its end. */
    ghost predicate Ended(p: priority, looks: seq<Look>, handled: nat, exit: Exit, b: Begin)
      reads this, endpoint, endpoint.shared, repr
    {
      && Since(b) && handled <= DRAIN_QUOTA && exit != Rescheduled && (off <==> exit == WentOff)
      && (handled > 0 ==> b.session == Ok)
      && Looked(p, looks, handled, exit, b.generation, b.session)
      && sent == b.sent + AllDue(stopControl, looks)
      && Consumed(b.queues, Queues(toCpu3), p, TakenIn(looks))
      && (handled < DRAIN_QUOTA || off ==> looks != [] && LeftIn(looks[|looks| - 1]) == Queues(toCpu3)[p])
      && (exit == SawEmpty && handled < DRAIN_QUOTA ==> Queues(toCpu3)[p] == [])
    }

    method DrainLoop(p: priority) returns (handled: nat, exit: Exit, ghost looks: seq<Look>)
      requires Valid() && !off
      modifies this`pending, this`semaphore, this`b2a, this`txFullCount, this`rxErrorCount, this`sent, this`off
      modifies endpoint, repr
      ensures Ended(p, looks, handled, exit, old(Here()))
    {
      ghost var b := Here();
      handled, exit, looks := 0, SawEmpty, [];
      DrainBegins(p, looks, b);
      hide Draining, Ended;
      while handled < DRAIN_QUOTA
        invariant Draining(p, looks, b) && handled == |looks| <= DRAIN_QUOTA
      {
        var verdict;
        verdict, looks := DrainStep(p, looks, b);
        if verdict != Ok {
          if verdict == RingError(RingBadCrc) || verdict == RingError(RingInvalid) {
            handled := handled + 1;
          }
          exit := if verdict == RingError(RingEmpty) then SawEmpty else GaveUp(verdict);
          return;
        }
        handled := handled + 1;
        if off {
          return handled, WentOff, looks;
        }
      }
      QuotaEnds(p, looks, b);
    }

    lemma DrainBegins(p: priority, looks: seq<Look>, b: Begin)
      requires Valid() && !off && b == Here() && looks == []
      ensures Draining(p, looks, b)
    {
      NoLooks(stopControl, p, looks, b.generation, b.session);
      NothingConsumed(b.queues, p);
      hide AllDue, GoodLooks, Consumed, TakenIn, Queues;
    }

    lemma QuotaEnds(p: priority, looks: seq<Look>, b: Begin)
      requires Draining(p, looks, b) && |looks| == DRAIN_QUOTA
      ensures Ended(p, looks, DRAIN_QUOTA, SawEmpty, b)
    {
      LookedByQuota(p, looks, b.generation, b.session);
      LastWasGood(p, looks, b.generation, b.session);
      hide Looked, GoodLooks, Consumed, Queues, TakenIn, AllDue;
    }

    /** One turn of the loop, added to its account. */
    method DrainStep(p: priority, ghost looks: seq<Look>, ghost b: Begin)
      returns (verdict: Outcome, ghost more: seq<Look>)
      requires Draining(p, looks, b) && |looks| < DRAIN_QUOTA
      modifies this`pending, this`semaphore, this`b2a, this`txFullCount, this`rxErrorCount, this`sent, this`off
      modifies endpoint, repr
      ensures |more| == |looks| + 1
      ensures verdict == Ok && !off ==> Draining(p, more, b)
      ensures verdict == Ok && off ==> Ended(p, more, |more|, WentOff, b)
      ensures verdict != Ok ==>
                Ended(p, more, |looks| + if Handled?(verdict) then 1 else 0,
                      if verdict == RingError(RingEmpty) then SawEmpty else GaveUp(verdict), b)
    {
      hide Due, Faithful, AllDue, HandledIn, GoodLooks, Looked, Queues, TakenIn, Consumed, StopRequest?;
      ghost var l;
      ghost var before := Queues(toCpu3);
      verdict, l := DrainOne(p);
      ConsumedTwice(b.queues, before, Queues(toCpu3), p, TakenIn(looks), Took(l.message));
      LooksSnoc(stopControl, p, looks, l, b.generation, b.session);
      more := looks + [l];
    }

    method LookAgain(p: priority) returns (more: bool, ghost found: seq<Slot>)
      requires Valid()
      modifies repr, this`pending, this`semaphore, this`b2a
      ensures Kept(old(endpoint.View()).generation, old(endpoint.Session()), old(pending), old(semaphore))
      ensures Grown(old(Queues(toCpu3)), Queues(toCpu3)) && Queues(toCpu3)[p] == found
      ensures more <==> found != [] && old(endpoint.Session()) == Ok
    {
      Meanwhile();
      found := toCpu3[p].Contents();
      var data := endpoint.HasReceived(p);
      more := data == Some(true);
    }

    /** One pass over the doorbells taken, in the order of the priorities. */
    method Pass(taken: set<priority>)
      returns (messages: nat, last: nat, reschedule: set<priority>, ghost runs: seq<Run>)
      requires Valid() && !off
      modifies this`pending, this`semaphore, this`b2a, this`txFullCount, this`rxErrorCount, this`sent, this`off
      modifies endpoint, repr
      ensures Since(old(Here()))
      ensures Account(stopControl, runs, PRIORITY_COUNT, old(Here()), messages, reschedule, sent, Queues(toCpu3))
      ensures Serves(runs, taken - Skipped(), endpointReady && readyPublished && !off)
      ensures !(endpointReady && readyPublished) ==> runs == [] && !off
      ensures last == if runs == [] then PRIORITY_COUNT else runs[|runs| - 1].p
    {
      hide Account, RunsOf, Below, Queues, HandledAcross, RescheduledIn;
      messages, last, reschedule, runs := 0, PRIORITY_COUNT, {}, [];
      ghost var b := Here();
      NoRuns(stopControl, runs, messages, reschedule, b);
      BelowEnds(taken - Skipped());
      assert Since(b) && sent == b.sent && Queues(toCpu3) == b.queues;
      hide Here, R.Ring.Contents;
      if !endpointReady || !readyPublished {
        AccountFurther(stopControl, runs, 0, b, messages, reschedule, sent, Queues(toCpu3));
        return;
      }
      for p := 0 to PRIORITY_COUNT
        invariant Since(b) && !off
        invariant Account(stopControl, runs, p, b, messages, reschedule, sent, Queues(toCpu3))
        invariant RunsOf(runs) == Below(taken - Skipped(), p)
        invariant last == if runs == [] then PRIORITY_COUNT else runs[|runs| - 1].p
      {
        BelowSnoc(taken - Skipped(), p);
        if p !in taken || skip == Some(p) {
          AccountFurther(stopControl, runs, p, b, messages, reschedule, sent, Queues(toCpu3));
          continue;
        }
        last := p;
        var handled, exit;
        handled, exit, runs := DrainRun(p, runs, b, messages, reschedule);
        messages := messages + handled;
        if exit == Rescheduled {
          reschedule := reschedule + {p};
        }
        if off {
          AccountFurther(stopControl, runs, p + 1, b, messages, reschedule, sent, Queues(toCpu3));
          return;
        }
      }
    }

    /** The moment a pass or a drain begins. */
    ghost function Here(): Begin
      requires Valid()
      reads this, endpoint, endpoint.shared, repr
    {
      Begin(endpoint.View().generation, endpoint.Session(), pending, semaphore, sent, Queues(toCpu3))
    }

    /** A drain, added to the account of the pass. */
    method DrainRun(p: priority, ghost runs: seq<Run>, ghost b: Begin, ghost messages: nat,
                    ghost reschedule: set<priority>)
      returns (handled: nat, exit: Exit, ghost after: seq<Run>)
      requires Since(b) && !off && Account(stopControl, runs, p, b, messages, reschedule, sent, Queues(toCpu3))
      modifies this`pending, this`semaphore, this`b2a, this`txFullCount, this`rxErrorCount, this`sent, this`off
      modifies endpoint, repr
      ensures Since(b) && (off <==> exit == WentOff)
      ensures |after| == |runs| + 1 && after[|runs|].p == p && RunsOf(after) == RunsOf(runs) + {p}
      ensures Account(stopControl, after, p + 1, b, messages + handled,
                      if exit == Rescheduled then reschedule + {p} else reschedule, sent, Queues(toCpu3))
    {
      hide AllDue, Passed, RunsOf, Queues, LeftSeen, Consumed, Account;
      ghost var run;
      ghost var sent0, mid := sent, Queues(toCpu3);
      handled, exit, run := Drain(p);
      after := runs + [run];
      AccountSnoc(stopControl, runs, p, b, messages, reschedule, sent0, mid, run, Queues(toCpu3));
    }

    /**
     One turn of the worker, its semaphore taken: it takes all pending doorbells at once, serves them, and puts back
     those whose quota ran out while frames were left.
     */
    method WorkerTurn() returns (ghost taken: set<priority>, ghost runs: seq<Run>)
      requires Valid() && !off && semaphore
      modifies this`wakeCount, this`emptyWakeCount, this`messageCount
      modifies this`pending, this`semaphore, this`b2a, this`txFullCount, this`rxErrorCount, this`sent, this`off
      modifies endpoint, repr
      ensures Valid() && old(pending) <= taken
      ensures Account(stopControl, runs, PRIORITY_COUNT, old(Here()), HandledAcross(runs), RescheduledIn(runs), sent,
                      Queues(toCpu3))
      ensures Serves(runs, taken - Skipped(), endpointReady && readyPublished && !off)
      ensures !off ==> RescheduledIn(runs) <= pending && (RescheduledIn(runs) != {} ==> semaphore)
      ensures wakeCount == Inc(old(wakeCount))
      ensures messageCount == (old(messageCount) + HandledAcross(runs)) % MODULUS || off
    {
      hide HandledAcross, RescheduledIn, RunsOf, Account, Queues, Here, Resumes, Shared.Disjoint, R.Ring.Contents,
        Serves;
      var batch := TakePending();
      taken := batch;
      ghost var b := Here();
      runs := ServeBatch(batch);
      AccountSince(stopControl, runs, old(Here()), b, sent, Queues(toCpu3));
    }

    method ServeBatch(batch: set<priority>) returns (ghost runs: seq<Run>)
      requires Valid() && !off
      modifies this`emptyWakeCount, this`messageCount
      modifies this`pending, this`semaphore, this`b2a, this`txFullCount, this`rxErrorCount, this`sent, this`off
      modifies endpoint, repr
      ensures Valid()
      ensures Account(stopControl, runs, PRIORITY_COUNT, old(Here()), HandledAcross(runs), RescheduledIn(runs), sent,
                      Queues(toCpu3))
      ensures Serves(runs, batch - Skipped(), endpointReady && readyPublished && !off)
      ensures !off ==> RescheduledIn(runs) <= pending && (RescheduledIn(runs) != {} ==> semaphore)
      ensures messageCount == (old(messageCount) + HandledAcross(runs)) % MODULUS || off
    {
      hide HandledAcross, RescheduledIn, RunsOf, Account, Queues, Shared.Disjoint, R.Ring.Contents, Serves;
      assert |Here().queues| == PRIORITY_COUNT && Here().sent == sent && Here().queues == Queues(toCpu3);
      hide Here;
      if batch == {} {
        runs := EmptyPass(stopControl, Here(), batch - Skipped());
        emptyWakeCount := Inc(emptyWakeCount);
        return;
      }
      var messages, last, reschedule;
      messages, last, reschedule, runs := Pass(batch);
      AccountCounts(stopControl, runs, old(Here()), messages, reschedule, sent, Queues(toCpu3));
      if !off {
        PutBack(messages, reschedule);
      }
    }

    method PutBack(messages: nat, reschedule: set<priority>)
      requires Valid()
      modifies this`pending, this`semaphore, this`messageCount
      ensures Valid() && messageCount == (old(messageCount) + messages) % MODULUS
      ensures pending == old(pending) + reschedule && (semaphore <==> old(semaphore) || reschedule != {})
    {
      messageCount := (messageCount + messages) % MODULUS;
      if reschedule != {} {
        pending := pending + reschedule;
        semaphore := true;
      }
    }

    /** The atomic exchange behind the semaphore; a doorbell in between is taken along. */
    method TakePending() returns (batch: set<priority>)
      requires Valid() && semaphore
      modifies this`pending, this`semaphore, this`b2a, this`wakeCount
      modifies repr
      ensures Kept(old(endpoint.View()).generation, old(endpoint.Session()), {}, false)
      ensures old(pending) <= batch && pending == {} && wakeCount == Inc(old(wakeCount))
      ensures Resumes(old(Here()), Here()) && Here().sent == sent && Here().queues == Queues(toCpu3)
    {
      hide Queues, Grown, Shared.Disjoint;
      semaphore := false;
      wakeCount := Inc(wakeCount);
      Meanwhile();
      batch := pending;
      pending := {};
    }

    /** The main loop's turn: READY is committed once, and after that only its doorbell is tried again. */
    method SessionReady()
      requires Valid()
      modifies endpoint, toLinux[0], toLinux[0].slot, this`b2a, this`txFullCount, this`sent, this`readyCommitted,
               this`readyPublished
      ensures Valid()
      ensures !endpointReady || old(readyPublished) ==>
                readyPublished == old(readyPublished) && readyCommitted == old(readyCommitted)
      ensures endpointReady && old(readyCommitted) ==> readyCommitted && readyPublished
      ensures !endpointReady || old(readyCommitted) ==>
                sent == old(sent) && toLinux[0].Contents() == old(toLinux[0].Contents())
      ensures endpointReady && !old(readyCommitted) ==>
                && sent == old(sent) + [Outgoing(0, ReadyReply(old(endpoint.View()).generation))]
                && (readyCommitted <==> |toLinux[0].Contents()| == |old(toLinux[0].Contents())| + 1)
                && (!readyCommitted ==> toLinux[0].Contents() == old(toLinux[0].Contents()))
                && readyPublished == readyCommitted
    {
      hide SendSpec, Queues;
      if !endpointReady || readyPublished {
        return;
      }
      if readyCommitted {
        b2a := b2a + {0};
        readyPublished := true;
        return;
      }
      ReplyAppended(endpoint.View(), endpoint.Session(), toLinux[0].Contents(), 0,
                    ReadyReply(endpoint.View().generation),
                    if 0 in b2a then NOTIFY_COALESCED else NOTIFY_SENT);
      var outcome := Transmit(0, ReadyReply(endpoint.generation));
      readyCommitted := outcome == Ok;
      readyPublished := readyCommitted;
    }

    ghost function Skipped(): set<priority> { if skip.Some? then {skip.value} else {} }
  }

  /**
   One priority's part of a pass: the loop's looks and how it ended, what lay in the ring at the look after the quota,
   and the exit.
   */
  datatype Run = Run(p: priority, looks: seq<Look>, handled: nat, first: Exit, again: Option<seq<Slot>>, exit: Exit)

  ghost predicate InOrder(runs: seq<Run>, bound: nat)
  {
    && (forall i, j | 0 <= i < j < |runs| :: runs[i].p < runs[j].p)
    && (forall i | 0 <= i < |runs| :: runs[i].p < bound)
  }

  ghost predicate Each(runs: seq<Run>, generation: u32, session: Outcome)
  {
    forall r | r in runs :: Passed(r, generation, session)
  }

  function HandledAcross(runs: seq<Run>): nat
  {
    if runs == [] then 0 else HandledAcross(runs[..|runs| - 1]) + runs[|runs| - 1].handled
  }

  function DueAcross(stopControl: bool, runs: seq<Run>): seq<Outgoing>
  {
    if runs == [] then [] else DueAcross(stopControl, runs[..|runs| - 1]) + AllDue(stopControl, runs[|runs| - 1].looks)
  }

  function TakenBy(runs: seq<Run>, p: priority): seq<Slot>
  {
    if runs == [] then []
    else
      var r := runs[|runs| - 1];
      TakenBy(runs[..|runs| - 1], p) + if r.p == p then TakenIn(r.looks) else []
  }

  /** What a drain last saw in its ring. */
  function LeftSeen(r: Run): seq<Slot>
  {
    if r.again.Some? then r.again.value else if r.looks == [] then [] else LeftIn(r.looks[|r.looks| - 1])
  }

  /**
   From `start` to `now` nothing was lost: what lay in a ring was taken, or still lies there with only new frames
   behind it; and what a drain did not take of a ring is what it last saw there, and still lies there.
   */
  ghost predicate Conserved(runs: seq<Run>, start: seq<seq<Slot>>, now: seq<seq<Slot>>)
  {
    && |start| == |now| == PRIORITY_COUNT
    && (forall p: priority :: start[p] <= TakenBy(runs, p) + now[p])
    && (forall r | r in runs :: start[r.p] <= TakenIn(r.looks) + LeftSeen(r) && LeftSeen(r) <= now[r.p])
  }

  lemma NothingConserved(start: seq<seq<Slot>>, now: seq<seq<Slot>>)
    requires Grown(start, now) || (start == now && |now| == PRIORITY_COUNT)
    ensures Conserved([], start, now)
  {
    forall p: priority ensures start[p] <= TakenBy([], p) + now[p] {
      assert TakenBy([], p) + now[p] == now[p];
    }
  }

  lemma ConservedSince(runs: seq<Run>, start: seq<seq<Slot>>, mid: seq<seq<Slot>>, now: seq<seq<Slot>>)
    requires Grown(start, mid) && Conserved(runs, mid, now)
    ensures Conserved(runs, start, now)
  {
    forall p: priority ensures start[p] <= TakenBy(runs, p) + now[p] {
      assert start[p] <= mid[p] <= TakenBy(runs, p) + now[p];
    }
    forall r | r in runs ensures start[r.p] <= TakenIn(r.looks) + LeftSeen(r) {
      assert start[r.p] <= mid[r.p];
    }
  }

  lemma {:induction false} NotTakenYet(runs: seq<Run>, p: priority)
    requires InOrder(runs, p)
    ensures TakenBy(runs, p) == []
  {
    if runs != [] {
      NotTakenYet(runs[..|runs| - 1], p);
    }
  }

  lemma ConservedSnoc(runs: seq<Run>, r: Run, start: seq<seq<Slot>>, mid: seq<seq<Slot>>, now: seq<seq<Slot>>)
    requires Conserved(runs, start, mid) && InOrder(runs, r.p)
    requires Consumed(mid, now, r.p, TakenIn(r.looks)) && LeftSeen(r) == now[r.p]
    ensures Conserved(runs + [r], start, now)
  {
    hide LeftSeen, TakenIn;
    var all := runs + [r];
    assert all[..|all| - 1] == runs;
    NotTakenYet(runs, r.p);
    assert start[r.p] <= mid[r.p] by { assert [] + mid[r.p] == mid[r.p]; }
    forall p: priority ensures start[p] <= TakenBy(all, p) + now[p] {
      if p == r.p {
        assert TakenBy(all, p) == [] + TakenIn(r.looks) == TakenIn(r.looks);
      } else {
        assert TakenBy(all, p) == TakenBy(runs, p) + [] == TakenBy(runs, p);
        PrefixBehind(TakenBy(runs, p), mid[p], now[p]);
      }
    }
    forall x | x in all ensures start[x.p] <= TakenIn(x.looks) + LeftSeen(x) && LeftSeen(x) <= now[x.p] {
      if x in runs {
        assert x.p < r.p && LeftSeen(x) <= mid[x.p] <= now[x.p];
      } else {
        assert start[r.p] <= mid[r.p] <= TakenIn(r.looks) + now[r.p];
      }
    }
  }

  /** Only priorities of s were served, and all of them if the pass went through. */
  ghost predicate Serves(runs: seq<Run>, s: set<priority>, through: bool)
  {
    RunsOf(runs) <= s && (through ==> RunsOf(runs) == s)
  }

  ghost function RunsOf(runs: seq<Run>): set<priority> { set r | r in runs :: r.p }

  ghost function RescheduledIn(runs: seq<Run>): set<priority> { set r | r in runs && r.exit == Rescheduled :: r.p }

  ghost function Below(s: set<priority>, bound: nat): set<priority> { set p | p in s && p < bound }

  /**
   The account of a pass that began at b: which priorities it served, in order and below the bound, how many frames it
   dealt with, which priorities it puts back, what it sent, and that it lost nothing.
   */
  ghost predicate Account(stopControl: bool, runs: seq<Run>, bound: nat, b: Begin, messages: nat,
                          reschedule: set<priority>, sent: seq<Outgoing>, queues: seq<seq<Slot>>)
  {
    && InOrder(runs, bound) && Each(runs, b.generation, b.session)
    && |runs| <= bound && messages == HandledAcross(runs) <= DRAIN_QUOTA * |runs|
    && reschedule == RescheduledIn(runs)
    && sent == b.sent + DueAcross(stopControl, runs)
    && Conserved(runs, b.queues, queues)
  }

  lemma NoRuns(stopControl: bool, runs: seq<Run>, messages: nat, reschedule: set<priority>, b: Begin)
    requires runs == [] && messages == 0 && reschedule == {} && |b.queues| == PRIORITY_COUNT
    ensures Account(stopControl, runs, 0, b, messages, reschedule, b.sent, b.queues)
    ensures HandledAcross(runs) == messages && RunsOf(runs) == RescheduledIn(runs) == reschedule
  {
    NothingConserved(b.queues, b.queues);
  }

  lemma EmptyPass(stopControl: bool, b: Begin, s: set<priority>) returns (runs: seq<Run>)
    requires |b.queues| == PRIORITY_COUNT && s == {}
    ensures Serves(runs, s, true) && Serves(runs, s, false)
    ensures Account(stopControl, runs, PRIORITY_COUNT, b, HandledAcross(runs), RescheduledIn(runs), b.sent, b.queues)
    ensures HandledAcross(runs) == 0 && RescheduledIn(runs) == {}
  {
    runs := [];
    NoRuns(stopControl, runs, 0, {}, b);
  }

  lemma BelowEnds(s: set<priority>)
    ensures Below(s, 0) == {} && Below(s, PRIORITY_COUNT) == s
  {
  }

  lemma AccountFurther(stopControl: bool, runs: seq<Run>, bound: nat, b: Begin, messages: nat,
                       reschedule: set<priority>, sent: seq<Outgoing>, queues: seq<seq<Slot>>)
    requires Account(stopControl, runs, bound, b, messages, reschedule, sent, queues)
    ensures Account(stopControl, runs, bound + 1, b, messages, reschedule, sent, queues)
    ensures bound <= PRIORITY_COUNT ==>
              Account(stopControl, runs, PRIORITY_COUNT, b, messages, reschedule, sent, queues)
  {
    hide Each, HandledAcross, RescheduledIn, DueAcross, Conserved;
  }

  lemma AccountCounts(stopControl: bool, runs: seq<Run>, b: Begin, messages: nat, reschedule: set<priority>,
                      sent: seq<Outgoing>, queues: seq<seq<Slot>>)
    requires Account(stopControl, runs, PRIORITY_COUNT, b, messages, reschedule, sent, queues)
    ensures messages == HandledAcross(runs) <= DRAIN_QUOTA * PRIORITY_COUNT && reschedule == RescheduledIn(runs)
  {
    hide RescheduledIn, HandledAcross;
  }

  lemma AccountSince(stopControl: bool, runs: seq<Run>, a: Begin, b: Begin, sent: seq<Outgoing>, queues: seq<seq<Slot>>)
    requires Account(stopControl, runs, PRIORITY_COUNT, b, HandledAcross(runs), RescheduledIn(runs), sent, queues)
    requires Resumes(a, b)
    ensures Account(stopControl, runs, PRIORITY_COUNT, a, HandledAcross(runs), RescheduledIn(runs), sent, queues)
  {
    hide Each, HandledAcross, RescheduledIn, DueAcross, InOrder, Conserved;
    ConservedSince(runs, a.queues, b.queues, queues);
  }

  lemma AccountSnoc(stopControl: bool, runs: seq<Run>, bound: nat, b: Begin, messages: nat, reschedule: set<priority>,
                    sent: seq<Outgoing>, mid: seq<seq<Slot>>, r: Run, queues: seq<seq<Slot>>)
    requires Account(stopControl, runs, bound, b, messages, reschedule, sent, mid) && r.p == bound
    requires Passed(r, b.generation, b.session)
    requires Consumed(mid, queues, r.p, TakenIn(r.looks)) && LeftSeen(r) == queues[r.p]
    ensures Account(stopControl, runs + [r], bound + 1, b, messages + r.handled,
                    if r.exit == Rescheduled then reschedule + {r.p} else reschedule,
                    sent + AllDue(stopControl, r.looks), queues)
    ensures RunsOf(runs + [r]) == RunsOf(runs) + {r.p}
  {
    hide Each, HandledAcross, RescheduledIn, DueAcross, Conserved, RunsOf, Passed, AllDue, LeftSeen, Consumed, TakenIn;
    RunsSnoc(stopControl, runs, r, b.generation, b.session);
    ConservedSnoc(runs, r, b.queues, mid, queues);
  }

  lemma BelowSnoc(s: set<priority>, p: priority)
    ensures Below(s, p + 1) == (if p in s then Below(s, p) + {p} else Below(s, p)) <= s
  {
  }

  lemma RescheduledAreRuns(runs: seq<Run>)
    ensures RescheduledIn(runs) <= RunsOf(runs)
  {
  }

  lemma RunsSnoc(stopControl: bool, runs: seq<Run>, r: Run, generation: u32, session: Outcome)
    requires Each(runs, generation, session) && Passed(r, generation, session)
    ensures Each(runs + [r], generation, session) && r.handled <= DRAIN_QUOTA
    ensures HandledAcross(runs + [r]) == HandledAcross(runs) + r.handled
    ensures DueAcross(stopControl, runs + [r]) == DueAcross(stopControl, runs) + AllDue(stopControl, r.looks)
    ensures RunsOf(runs + [r]) == RunsOf(runs) + {r.p}
    ensures RescheduledIn(runs + [r]) == RescheduledIn(runs) + if r.exit == Rescheduled then {r.p} else {}
  {
    hide AllDue;
    var all := runs + [r];
    assert all[..|all| - 1] == runs;
    assert forall x :: x in all <==> x in runs || x == r;
  }

  /** Looks of one drain that all found a good frame. */
  ghost predicate GoodLooks(p: priority, looks: seq<Look>, generation: u32, session: Outcome)
  {
    && HandledIn(looks) == |looks|
    && forall i | 0 <= i < |looks| ::
         looks[i].p == p && looks[i].verdict == Ok && Faithful(looks[i], generation, session)
  }

  /** What the loop of a drain has done: at most seven looks, all but the last good, and why it ended. */
  ghost predicate Looked(p: priority, looks: seq<Look>, handled: nat, first: Exit, generation: u32, session: Outcome)
  {
    && |looks| <= DRAIN_QUOTA && handled == HandledIn(looks) <= DRAIN_QUOTA
    && (forall i | 0 <= i < |looks| :: looks[i].p == p && Faithful(looks[i], generation, session))
    && (forall i | 0 <= i < |looks| - 1 :: looks[i].verdict == Ok)
    && match first
       case SawEmpty => handled == DRAIN_QUOTA || (looks != [] && looks[|looks| - 1].verdict == RingError(RingEmpty))
       case Rescheduled => false
       case GaveUp(verdict) =>
         looks != [] && looks[|looks| - 1].verdict == verdict != Ok && verdict != RingError(RingEmpty)
       case WentOff => looks != [] && looks[|looks| - 1].verdict == Ok && looks[|looks| - 1].message.Some?
                       && StopRequest?(p, looks[|looks| - 1].message.value.frame)
  }

  /** After a used-up quota there is one more look, and a frame it finds is what reschedules the priority. */
  ghost predicate Passed(r: Run, generation: u32, session: Outcome)
  {
    && Looked(r.p, r.looks, r.handled, r.first, generation, session)
    && (r.again.Some? <==> r.handled == DRAIN_QUOTA && r.first != WentOff)
    && r.exit == if r.again.Some? && r.again.value != [] then Rescheduled else r.first
  }

  /** The last look at the ring found nothing. */
  ghost predicate SeenEmpty(r: Run)
  {
    if r.again.Some? then r.again.value == [] else r.looks != [] && r.looks[|r.looks| - 1].before == []
  }

  lemma NoLooks(stopControl: bool, p: priority, looks: seq<Look>, generation: u32, session: Outcome)
    requires looks == []
    ensures AllDue(stopControl, looks) == [] && GoodLooks(p, looks, generation, session) && TakenIn(looks) == []
  {
  }

  lemma LookedByQuota(p: priority, looks: seq<Look>, generation: u32, session: Outcome)
    requires GoodLooks(p, looks, generation, session) && |looks| == DRAIN_QUOTA
    ensures Looked(p, looks, DRAIN_QUOTA, SawEmpty, generation, session)
  {
  }

  lemma LastWasGood(p: priority, looks: seq<Look>, generation: u32, session: Outcome)
    requires GoodLooks(p, looks, generation, session) && looks != []
    ensures looks[|looks| - 1].before != []
  {
    hide HandledIn;
    var l := looks[|looks| - 1];
    assert l.verdict == Ok && Faithful(l, generation, session);
  }

  lemma SumsSnoc(stopControl: bool, looks: seq<Look>, l: Look)
    ensures AllDue(stopControl, looks + [l]) == AllDue(stopControl, looks) + Due(stopControl, l.p, l.verdict, l.message)
    ensures TakenIn(looks + [l]) == TakenIn(looks) + Took(l.message)
    ensures HandledIn(looks + [l]) == HandledIn(looks) + if Handled?(l.verdict) then 1 else 0
  {
    hide Due;
    var all := looks + [l];
    assert all[..|all| - 1] == looks;
  }

  /** One more look, behind good ones. */
  lemma LooksSnoc(stopControl: bool, p: priority, looks: seq<Look>, l: Look, generation: u32, session: Outcome)
    requires GoodLooks(p, looks, generation, session) && |looks| < DRAIN_QUOTA
    requires l.p == p && Faithful(l, generation, session)
    ensures AllDue(stopControl, looks + [l]) == AllDue(stopControl, looks) + Due(stopControl, l.p, l.verdict, l.message)
    ensures TakenIn(looks + [l]) == TakenIn(looks) + Took(l.message)
    ensures l.verdict == Ok ==> GoodLooks(p, looks + [l], generation, session)
    ensures var handled := |looks| + if Handled?(l.verdict) then 1 else 0;
            && (l.verdict == RingError(RingEmpty) ==> Looked(p, looks + [l], handled, SawEmpty, generation, session))
            && (l.verdict != Ok && l.verdict != RingError(RingEmpty) ==>
                  Looked(p, looks + [l], handled, GaveUp(l.verdict), generation, session))
            && (l.verdict == Ok && l.message.Some? && StopRequest?(p, l.message.value.frame) ==>
                  Looked(p, looks + [l], handled, WentOff, generation, session))
  {
    hide Faithful, AllDue, TakenIn, HandledIn, Due, StopRequest?;
    SumsSnoc(stopControl, looks, l);
  }

  ghost predicate SentAt(sent: seq<Outgoing>, i: nat, due: seq<Outgoing>)
  {
    i + |due| <= |sent| && sent[i..i + |due|] == due
  }

  /** The frames due lie together among those sent from position `from` on. */
  ghost predicate SentWithin(sent: seq<Outgoing>, from: nat, due: seq<Outgoing>)
  {
    exists i: nat :: from <= i && SentAt(sent, i, due)
  }

  lemma {:induction false} DueIsSent(stopControl: bool, runs: seq<Run>, before: seq<Outgoing>, i: nat)
    requires i < |runs|
    ensures SentWithin(before + DueAcross(stopControl, runs), |before|, AllDue(stopControl, runs[i].looks))
  {
    hide AllDue;
    var n := |runs| - 1;
    var due, front := AllDue(stopControl, runs[i].looks), before + DueAcross(stopControl, runs[..n]);
    var sent := before + DueAcross(stopControl, runs);
    assert sent == front + AllDue(stopControl, runs[n].looks);
    if i == n {
      assert SentAt(sent, |front|, due);
    } else {
      DueIsSent(stopControl, runs[..n], before, i);
      var k: nat :| |before| <= k && SentAt(front, k, due);
      assert SentAt(sent, k, due);
    }
  }

  /**
   A pass over well-formed frames leaves nothing behind: of every priority it served, all that lay in the ring when the
   pass began was taken, in order, and all its answers were sent; or the priority is to be rescheduled with a frame
   seen in its ring; or the core has gone off.
   */
  lemma WellFormedLeavesNothing(stopControl: bool, runs: seq<Run>, bound: nat, b: Begin, messages: nat,
                                reschedule: set<priority>, sent: seq<Outgoing>, queues: seq<seq<Slot>>, i: nat)
    requires Account(stopControl, runs, bound, b, messages, reschedule, sent, queues) && b.session == Ok && i < |runs|
    requires forall l | l in runs[i].looks :: Sound?(l, b.generation)
    ensures var r := runs[i];
            || (b.queues[r.p] <= TakenIn(r.looks) && SentWithin(sent, |b.sent|, AllDue(stopControl, r.looks)))
            || (r.p in reschedule && r.again.Some? && r.again.value != [])
            || r.exit == WentOff
  {
    hide HandledAcross, DueAcross, TakenIn, TakenBy, AllDue, SentWithin;
    DueIsSent(stopControl, runs, b.sent, i);
    assert runs[i] in runs;
    LeftSeenOrRescheduled(runs[i], b.generation);
    hide SeenEmpty, Passed, Sound?;
  }

  lemma LeftSeenOrRescheduled(r: Run, generation: u32)
    requires Passed(r, generation, Ok) && forall l | l in r.looks :: Sound?(l, generation)
    ensures SeenEmpty(r) || (r.exit == Rescheduled && r.again.Some? && r.again.value != []) || r.exit == WentOff
  {
    hide HandledIn, Faithful, Sound?;
    if r.looks != [] {
      var l := r.looks[|r.looks| - 1];
      assert l in r.looks;
      SoundIsGoodOrEmpty(l, generation);
    }
  }

  /** What a look tells depends on the ring, the session and the generation only. */
  lemma LookSays(core: Core, session: Outcome, before: seq<Slot>, p: priority)
    requires !session.RingError?
    ensures var (after, q, message, verdict) := ReceiveSpec(core, session, before, p);
            && Faithful(Look(p, before, verdict, message), core.generation, session)
            && before == Took(message) + q && after.generation == core.generation
            && (verdict == RingError(RingEmpty) ==> before == [])
            && (Handled?(verdict) ==> message.Some? && session == Ok)
  {
    hide Judge, CountReceive;
    JudgeVerdicts();
    ReceiveTakesHead(core, session, before, p);
  }

  lemma SoundIsGoodOrEmpty(l: Look, generation: u32)
    requires Faithful(l, generation, Ok) && Sound?(l, generation)
    ensures if l.before == [] then l.verdict == RingError(RingEmpty) else l.verdict == Ok
  {
    hide Seal;
    SealCommits();
    if l.before != [] {
      PopAfterPush(l.before[0].frame);
    }
  }

  /** A reply is appended to its ring exactly when its send succeeds. */
  lemma ReplyAppended(core: Core, session: Outcome, q: seq<Slot>, p: priority, r: Reply, notify: int)
    requires |r.payload| <= 8
    ensures var (core', q', result, o) := SendReply(core, session, q, p, r, notify);
            && (o == Ok ==> |q'| == |q| + 1 && q' == q + [q'[|q|]] && q'[|q|].frame.kind == r.kind
                            && q'[|q|].frame.payload == PayloadOf(r.payload, |r.payload|))
            && (o != Ok ==> q' == q)
  {
    hide PayloadOf, NextSequence, Seal;
    SealCommits();
  }

  ghost predicate StopReadyBehind(q: seq<Slot>, r: seq<Slot>, sequence: u32)
  {
    && |r| == |q| + 1 && r == q + [r[|q|]]
    && r[|q|].frame.kind == MSG_STOP_READY && LoadU32(r[|q|].frame.payload) == sequence
  }

  lemma SendKeepsGeneration(core: Core, session: Outcome, q: seq<Slot>, p: priority, r: Reply, notify: int)
    ensures SendReply(core, session, q, p, r, notify).0.generation == core.generation
  {
    hide PushSpec, PayloadOf, NextSequence;
  }
}
