/** One direction between two bound endpoints, over any run of sends and receives. */
module Traffic {
  import opened Words
  import opened Frames
  import opened Endpoint
  import opened Sequences

  /** A committed slot and the number of the draw that numbered it. */
  datatype Entry = Entry(draw: nat, slot: Slot)

  /**
   Sender, receiver and the four queues between them; and the history: how many numbers were drawn, every commit in
   order, and what was committed to and taken from each queue.
   */
  datatype Link = Link(
    tx: Core, rx: Core, queues: seq<seq<Slot>>,
    draws: nat, log: seq<Entry>, sent: seq<seq<Slot>>, taken: seq<seq<Slot>>)

  /** The shared header is read anew by every operation and may hold anything. */
  datatype Op =
    | Send(p: priority, kind: u32, payload: Option<seq<byte>>, length: nat, notify: int, header: Header)
    | Receive(p: priority, header: Header)

  ghost predicate Callable(op: Op) { op.Send? && op.payload.Some? ==> op.length <= |op.payload.value| }

  ghost predicate Shape(l: Link)
  {
    |l.queues| == |l.sent| == |l.taken| == PRIORITY_COUNT && l.tx.generation != 0
  }

  function Step(l: Link, op: Op): Link
    requires Shape(l) && Callable(op)
  {
    match op
    case Send(p, kind, payload, length, notify, header) =>
      var (tx, q, result, r) := SendSpec(l.tx, SessionOf(header, l.tx), l.queues[p], p, kind, payload, length, notify);
      var draws := l.draws + if r == Ok || r.RingError? then 1 else 0;
      var next := l.(tx := tx, queues := l.queues[p := q], draws := draws);
      if |q| <= |l.queues[p]| then next
      else next.(log := l.log + [Entry(draws, q[|q| - 1])], sent := l.sent[p := l.sent[p] + [q[|q| - 1]]])
    case Receive(p, header) =>
      var (rx, q, message, r) := ReceiveSpec(l.rx, SessionOf(header, l.rx), l.queues[p], p);
      l.(rx := rx, queues := l.queues[p := q],
      taken := if message.Some? then l.taken[p := l.taken[p] + [message.value]] else l.taken)
  }

  ghost predicate Init(l: Link)
  {
    && l.tx.generation != 0 && l.tx == FreshCore(l.tx.generation) && l.rx == FreshCore(l.rx.generation)
    && l.queues == l.sent == l.taken == seq(4, _ => []) && l.draws == 0 && l.log == []
  }

  ghost predicate Genuine(s: Slot, generation: u32)
  {
    WellFormed(s.frame) && s == Seal(s.frame) && s.frame.generation == generation
  }

  /** Every queue holds what its producer sealed, and nothing has been lost, doubled or reordered. */
  ghost predicate Conserved(l: Link, p: priority)
    requires Shape(l)
  {
    && |l.queues[p]| <= CAPACITY
    && (forall s | s in l.queues[p] :: Genuine(s, l.tx.generation))
    && l.sent[p] == l.taken[p] + l.queues[p]
  }

  /** The counters agree with each other and with the queue, modulo the width of a counter. */
  ghost predicate Balanced(tx: Stats, rx: Stats, depth: nat)
  {
    && tx.txEnqueued == (tx.notifySent + tx.notifyCoalesced + tx.notifyFailed) % MODULUS
    && tx.txEnqueued == (rx.rxOk + rx.rxBadCrc + rx.rxInvalid + rx.rxStale + depth) % MODULUS
    && tx.txHighWater <= CAPACITY
    && rx.rxBadCrc == rx.rxInvalid == rx.rxIncomplete == 0
  }

  /** Commits carry the number drawn for them, and each draw numbers at most one commit. */
  ghost predicate Logged(l: Link)
  {
    && l.tx.nextSequence == Draw(l.draws)
    && (forall i | 0 <= i < |l.log| ::
          0 < l.log[i].draw <= l.draws && l.log[i].slot.frame.sequence == Draw(l.log[i].draw))
    && (forall i, j | 0 <= i < j < |l.log| :: l.log[i].draw < l.log[j].draw)
  }

  ghost predicate Inv(l: Link)
  {
    && Shape(l) && Logged(l)
    && (forall p: priority :: Conserved(l, p) && Balanced(l.tx.stats[p], l.rx.stats[p], |l.queues[p]|))
  }

  lemma IncOfSum(total: u32, sum: nat)
    requires total == sum % MODULUS
    ensures Inc(total) == (sum + 1) % MODULUS
  {
    var q := sum / MODULUS;
    assert sum + 1 == q * MODULUS + (total + 1);
    if total + 1 == MODULUS {
      assert sum + 1 == (q + 1) * MODULUS;
    }
  }

  lemma IncInSum(counter: u32, others: nat)
    ensures (Inc(counter) + others) % MODULUS == (counter + 1 + others) % MODULUS
  {
    if counter + 1 == MODULUS {
      IncOfCycle(others);
    }
  }

  lemma IncOfCycle(n: nat)
    ensures (n + MODULUS) % MODULUS == n % MODULUS
  {
  }

  lemma BalancedAfterCommit(tx: Stats, rx: Stats, depth: nat, notify: int)
    requires Balanced(tx, rx, depth) && depth < CAPACITY
    ensures var counted := tx.(txEnqueued := Inc(tx.txEnqueued),
                           txHighWater := if depth + 1 > tx.txHighWater then depth + 1 else tx.txHighWater);
            Balanced(CountNotify(counted, notify), rx, depth + 1)
  {
    var sent: int, coalesced: int, failed: int := tx.notifySent, tx.notifyCoalesced, tx.notifyFailed;
    IncOfSum(tx.txEnqueued, sent + coalesced + failed);
    IncOfSum(tx.txEnqueued, rx.rxOk + rx.rxBadCrc + rx.rxInvalid + rx.rxStale + depth);
    IncInSum(sent, coalesced + failed);
    IncInSum(coalesced, sent + failed);
    IncInSum(failed, sent + coalesced);
  }

  lemma BalancedAfterReceive(tx: Stats, rx: Stats, depth: nat, r: Outcome)
    requires Balanced(tx, rx, depth) && depth > 0 && (r == Ok || r == StaleFrame)
    ensures Balanced(tx, CountReceive(rx, r), depth - 1)
  {
    IncInSum(rx.rxOk, rx.rxBadCrc + rx.rxInvalid + rx.rxStale + (depth - 1));
    IncInSum(rx.rxStale, rx.rxOk + rx.rxBadCrc + rx.rxInvalid + (depth - 1));
  }

  /** The three ways a send can end. */
  lemma SendCases(l: Link, op: Op)
    requires Shape(l) && Callable(op) && op.Send?
    ensures var q, t := l.queues[op.p], Step(l, op);
            var s := l.tx.stats[op.p];
            var n := NextSequence(l.tx.nextSequence);
            var high := if |q| + 1 > s.txHighWater then |q| + 1 else s.txHighWater;
            || t == l
            || (&& |q| >= CAPACITY && t.queues == l.queues
                && t == l.(tx := t.tx, queues := t.queues, draws := l.draws + 1)
                && t.tx == Core(l.tx.generation, n, l.tx.stats[op.p := s.(txFull := Inc(s.txFull))]))
            || (&& |q| < CAPACITY && |t.queues[op.p]| == |q| + 1
                && var last := t.queues[op.p][|q|];
                && Genuine(last, l.tx.generation) && last.frame.sequence == n
                && t == l.(tx := t.tx, queues := l.queues[op.p := q + [last]], draws := l.draws + 1,
                        log := l.log + [Entry(l.draws + 1, last)], sent := l.sent[op.p := l.sent[op.p] + [last]])
                && t.tx.nextSequence == n && t.tx.generation == l.tx.generation
                && var counted := s.(txEnqueued := Inc(s.txEnqueued), txHighWater := high);
                t.tx.stats == l.tx.stats[op.p := CountNotify(counted, op.notify)])
  {
    hide Seal, PayloadOf, CountNotify;
    SealCommits();
  }

  lemma SendKeeps(l: Link, op: Op)
    requires Inv(l) && Callable(op) && op.Send?
    ensures Inv(Step(l, op))
  {
    hide Step, Balanced, CountNotify, Genuine;
    var p := op.p;
    var q, t := l.queues[p], Step(l, op);
    SendCases(l, op);
    assert Conserved(l, p) && Balanced(l.tx.stats[p], l.rx.stats[p], |q|);
    FullCountsNothingElse(l.tx.stats[p], l.rx.stats[p], |q|);
    if |t.queues[p]| > |q| {
      BalancedAfterCommit(l.tx.stats[p], l.rx.stats[p], |q|, op.notify);
      assert l.sent[p] + [t.queues[p][|q|]] == l.taken[p] + t.queues[p];
    }
    assert Draw(l.draws + 1) == NextSequence(l.tx.nextSequence);
    forall o: priority ensures Conserved(t, o) && Balanced(t.tx.stats[o], t.rx.stats[o], |t.queues[o]|) {
      assert Conserved(l, o) && Balanced(l.tx.stats[o], l.rx.stats[o], |l.queues[o]|);
    }
  }

  lemma FullCountsNothingElse(tx: Stats, rx: Stats, depth: nat)
    requires Balanced(tx, rx, depth)
    ensures Balanced(tx.(txFull := Inc(tx.txFull)), rx, depth)
  {
  }

  lemma ReceiveKeeps(l: Link, op: Op)
    requires Inv(l) && op.Receive?
    ensures Inv(Step(l, op))
  {
    hide Seal, Balanced, CountReceive, SessionSpec, Judge;
    var p := op.p;
    var q, t := l.queues[p], Step(l, op);
    assert Conserved(l, p) && Balanced(l.tx.stats[p], l.rx.stats[p], |q|);
    if SessionOf(op.header, l.rx) == Ok {
      if q == [] {
        EmptyCountsNothing(l.rx.stats[p]);
      } else {
        assert q[0] in q;
        GenuineIsAccepted(q[0], l.tx.generation);
        BalancedAfterReceive(l.tx.stats[p], l.rx.stats[p], |q|, Verdict(l.rx, RingOk, Some(q[0])));
        assert l.taken[p] + q == (l.taken[p] + [q[0]]) + q[1..];
      }
    }
    forall o: priority ensures Conserved(t, o) && Balanced(t.tx.stats[o], t.rx.stats[o], |t.queues[o]|) {
      assert Conserved(l, o) && Balanced(l.tx.stats[o], l.rx.stats[o], |l.queues[o]|);
    }
  }

  lemma EmptyCountsNothing(s: Stats)
    ensures CountReceive(s, RingError(RingEmpty)) == s
  {
  }

  lemma GenuineIsAccepted(s: Slot, generation: u32)
    requires Genuine(s, generation)
    ensures PopSpec([s]).0 == RingOk && s.commit == s.frame.sequence && Judge(s) == RingOk
  {
    hide Body;
    assert [s][1..] == [];
  }

  /** A run since the two binds. */
  ghost predicate Trace(links: seq<Link>, ops: seq<Op>)
  {
    && |links| == |ops| + 1 && Init(links[0])
    && forall i | 0 <= i < |ops| :: Callable(ops[i]) && Follows(links[i], ops[i], links[i + 1])
  }

  ghost predicate Follows(l: Link, op: Op, m: Link)
    requires Callable(op)
  {
    Shape(l) ==> m == Step(l, op)
  }

  lemma {:induction false} TraceKeeps(links: seq<Link>, ops: seq<Op>, n: nat)
    requires Trace(links, ops) && n < |links|
    ensures Inv(links[n])
  {
    if n > 0 {
      TraceKeeps(links, ops, n - 1);
      StepKeeps(links[n - 1], ops[n - 1]);
      assert Follows(links[n - 1], ops[n - 1], links[n]);
      hide Step;
    } else {
      assert forall o: priority :: links[0].queues[o] == [] && links[0].sent[o] == [] && links[0].taken[o] == [];
    }
  }

  lemma StepKeeps(l: Link, op: Op)
    requires Inv(l) && Callable(op)
    ensures Inv(Step(l, op))
  {
    if op.Send? { SendKeeps(l, op); } else { ReceiveKeeps(l, op); }
  }

  /** Over every run since the two binds, on every priority: frames are conserved and the counters add up. */
  lemma CountersAddUp(links: seq<Link>, ops: seq<Op>, n: nat, p: priority)
    requires Trace(links, ops) && n < |links|
    ensures var t := links[n];
            && Shape(t) && t.sent[p] == t.taken[p] + t.queues[p]
            && Balanced(t.tx.stats[p], t.rx.stats[p], |t.queues[p]|)
  {
    TraceKeeps(links, ops, n);
    assert Conserved(links[n], p);
  }

  /**
   Commits fewer than a whole cycle of draws apart differ, across priorities and across draws burnt on a full ring.
   */
  lemma CommitsAreDistinct(links: seq<Link>, ops: seq<Op>, n: nat, i: nat, j: nat)
    requires Trace(links, ops) && n < |links|
    requires i < j < |links[n].log| && links[n].log[j].draw - links[n].log[i].draw < CYCLE
    ensures links[n].log[i].slot.frame.sequence != links[n].log[j].slot.frame.sequence
  {
    TraceKeeps(links, ops, n);
    DrawsRepeatExactlyByCycle(links[n].log[i].draw, links[n].log[j].draw);
  }

  // ---- Counter by counter

  /** What the counters of one priority count. */
  datatype Event = Rung | Coalesced | BellFailed | FoundFull

  ghost predicate Happens(e: Event, l: Link, op: Op, m: Link, p: priority)
    requires Shape(l) && Shape(m)
  {
    var commits := |m.queues[p]| > |l.queues[p]|;
    op.Send? && op.p == p &&
    match e
    case Rung => commits && op.notify == 0
    case Coalesced => commits && op.notify == 1
    case BellFailed => commits && op.notify != 0 && op.notify != 1
    case FoundFull =>
      && op.header == Header(PROTOCOL_MAGIC, PROTOCOL_VERSION, l.tx.generation)
      && op.length <= PAYLOAD_BYTES && (op.payload.Some? || op.length == 0) && |l.queues[p]| >= CAPACITY
  }

  ghost predicate Shaped(links: seq<Link>) { forall i | 0 <= i < |links| :: Shape(links[i]) }

  /** How often that happened in the first n steps. */
  ghost function Times(e: Event, links: seq<Link>, ops: seq<Op>, n: nat, p: priority): nat
    requires Shaped(links) && n <= |ops| && n < |links|
  {
    if n == 0 then 0
    else Times(e, links, ops, n - 1, p) + if Happens(e, links[n - 1], ops[n - 1], links[n], p) then 1 else 0
  }

  function OfGeneration(q: seq<Slot>, generation: u32): nat
  {
    if q == [] then 0
    else OfGeneration(q[..|q| - 1], generation) + if q[|q| - 1].frame.generation == generation then 1 else 0
  }

  /** What one step does to the sender's counters of p. */
  ghost predicate SendsCounted(l: Link, op: Op, m: Link, p: priority)
    requires Shape(l) && Shape(m)
  {
    var s, t := l.tx.stats[p], m.tx.stats[p];
    && t.notifySent == (if Happens(Rung, l, op, m, p) then Inc(s.notifySent) else s.notifySent)
    && t.notifyCoalesced == (if Happens(Coalesced, l, op, m, p) then Inc(s.notifyCoalesced) else s.notifyCoalesced)
    && t.notifyFailed == (if Happens(BellFailed, l, op, m, p) then Inc(s.notifyFailed) else s.notifyFailed)
    && t.txFull == (if Happens(FoundFull, l, op, m, p) then Inc(s.txFull) else s.txFull)
    && t.txHighWater == if |m.queues[p]| > s.txHighWater then |m.queues[p]| else s.txHighWater
  }

  lemma StepCountsSends(l: Link, op: Op, p: priority)
    requires Inv(l) && Callable(op) && |l.queues[p]| <= l.tx.stats[p].txHighWater
    ensures Shape(Step(l, op)) && SendsCounted(l, op, Step(l, op), p)
  {
    hide Seal, PayloadOf, Judge, CountReceive, Logged, Genuine;
    assert Conserved(l, p) && Conserved(l, op.p);
    assert forall q: seq<Slot>, s :: |q + [s]| == |q| + 1;
  }

  lemma TimesCount(count: u32, times: nat, happens: bool)
    requires count == times % MODULUS
    ensures (if happens then Inc(count) else count) == (times + if happens then 1 else 0) % MODULUS
  {
    IncOfSum(count, times);
  }

  ghost predicate Depths(links: seq<Link>, n: nat, p: priority, high: nat)
    requires Shaped(links) && n < |links|
  {
    (forall k: nat | k <= n :: |links[k].queues[p]| <= high) && exists k: nat :: k <= n && |links[k].queues[p]| == high
  }

  lemma DepthsGo(links: seq<Link>, n: nat, p: priority, high: nat)
    requires Shaped(links) && 0 < n < |links| && Depths(links, n - 1, p, high)
    ensures Depths(links, n, p, if |links[n].queues[p]| > high then |links[n].queues[p]| else high)
  {
    var k: nat :| k <= n - 1 && |links[k].queues[p]| == high;
    var depth := |links[n].queues[p]|;
    assert |links[if depth > high then n else k].queues[p]| == if depth > high then depth else high;
  }

  lemma TraceIsShaped(links: seq<Link>, ops: seq<Op>)
    requires Trace(links, ops)
    ensures Shaped(links)
  {
    forall i | 0 <= i < |links| ensures Shape(links[i]) {
      TraceKeeps(links, ops, i);
    }
  }

  /**
   The sender's counters of p after n steps are what their names say; the high water is the greatest depth there was.
   */
  ghost predicate SendsAgree(links: seq<Link>, ops: seq<Op>, n: nat, p: priority)
    requires Shaped(links) && n <= |ops| && n < |links|
  {
    var s := links[n].tx.stats[p];
    && s.notifySent == Times(Rung, links, ops, n, p) % MODULUS
    && s.notifyCoalesced == Times(Coalesced, links, ops, n, p) % MODULUS
    && s.notifyFailed == Times(BellFailed, links, ops, n, p) % MODULUS
    && s.txFull == Times(FoundFull, links, ops, n, p) % MODULUS
    && Depths(links, n, p, s.txHighWater)
  }

  lemma SendsGoOn(links: seq<Link>, ops: seq<Op>, n: nat, p: priority)
    requires Shaped(links) && 0 < n < |links| && n <= |ops| && SendsAgree(links, ops, n - 1, p)
    requires SendsCounted(links[n - 1], ops[n - 1], links[n], p)
    ensures SendsAgree(links, ops, n, p)
  {
    hide Happens, Depths, Shape;
    assert Shape(links[n - 1]) && Shape(links[n]);
    var l, op, m, s := links[n - 1], ops[n - 1], links[n], links[n - 1].tx.stats[p];
    TimesCount(s.notifySent, Times(Rung, links, ops, n - 1, p), Happens(Rung, l, op, m, p));
    TimesCount(s.notifyCoalesced, Times(Coalesced, links, ops, n - 1, p), Happens(Coalesced, l, op, m, p));
    TimesCount(s.notifyFailed, Times(BellFailed, links, ops, n - 1, p), Happens(BellFailed, l, op, m, p));
    TimesCount(s.txFull, Times(FoundFull, links, ops, n - 1, p), Happens(FoundFull, l, op, m, p));
    DepthsGo(links, n, p, s.txHighWater);
  }

  lemma TraceStep(links: seq<Link>, ops: seq<Op>, n: nat)
    requires Trace(links, ops) && 0 < n < |links|
    ensures n <= |ops| && Callable(ops[n - 1]) && Inv(links[n - 1]) && links[n] == Step(links[n - 1], ops[n - 1])
  {
    TraceKeeps(links, ops, n - 1);
    assert Follows(links[n - 1], ops[n - 1], links[n]);
    hide Step;
  }

  /**
   Over every run since the two binds, modulo their width: doorbells rung, coalesced and failed, sends that found the
   queue full; and the high water is the greatest depth the queue has had.
   */
  lemma {:induction false} SendCountersCount(links: seq<Link>, ops: seq<Op>, n: nat, p: priority)
    requires Trace(links, ops) && n < |links|
    ensures Shaped(links) && SendsAgree(links, ops, n, p)
  {
    TraceIsShaped(links, ops);
    if n == 0 {
      assert |links[0].queues[p]| == 0;
    } else {
      hide Trace, Step, Inv, Happens, Shape;
      SendCountersCount(links, ops, n - 1, p);
      TraceStep(links, ops, n);
      DepthsHold(links, n - 1, p, links[n - 1].tx.stats[p].txHighWater);
      StepCountsSends(links[n - 1], ops[n - 1], p);
      SendsGoOn(links, ops, n, p);
    }
  }

  lemma DepthsHold(links: seq<Link>, n: nat, p: priority, high: nat)
    requires Shaped(links) && n < |links| && Depths(links, n, p, high)
    ensures |links[n].queues[p]| <= high
  {
  }

  /** A frame more, counted by whether it is the receiver's own. */
  ghost predicate TakenCounted(l: Link, m: Link, p: priority, x: Slot)
    requires Shape(l) && Shape(m)
  {
    var s, t, own := l.rx.stats[p], m.rx.stats[p], x.frame.generation == l.rx.generation;
    && m.taken[p] == l.taken[p] + [x]
    && t.rxOk == (if own then Inc(s.rxOk) else s.rxOk) && t.rxStale == if own then s.rxStale else Inc(s.rxStale)
  }

  /** What one step does to the receiver's counters of p. */
  lemma StepCountsTaken(l: Link, op: Op, p: priority)
    requires Inv(l) && Callable(op)
    ensures var m := Step(l, op);
            var s, t := l.rx.stats[p], m.rx.stats[p];
            && Shape(m) && m.rx.generation == l.rx.generation
            && ((m.taken[p] == l.taken[p] && t.rxOk == s.rxOk && t.rxStale == s.rxStale)
                || exists x :: TakenCounted(l, m, p, x))
  {
    hide Seal, PayloadOf, Judge, Genuine, SessionSpec, Logged;
    var m := Step(l, op);
    if op.Receive? && op.p == p && m.taken[p] != l.taken[p] {
      var q := l.queues[p];
      assert Conserved(l, p) && q[0] in q;
      assert Judge(q[0]) == RingOk by { GenuineIsAccepted(q[0], l.tx.generation); }
      assert TakenCounted(l, m, p, q[0]);
    }
  }

  /** The receiver's counters of p: good are the frames taken that carry its own generation, stale all the others. */
  ghost predicate ReceivesAgree(m: Link, p: priority, generation: u32)
    requires Shape(m)
  {
    var own := OfGeneration(m.taken[p], generation);
    && m.rx.generation == generation && own <= |m.taken[p]|
    && m.rx.stats[p].rxOk == own % MODULUS && m.rx.stats[p].rxStale == (|m.taken[p]| - own) % MODULUS
  }

  lemma ReceivesGoOn(l: Link, m: Link, p: priority, x: Slot)
    requires Shape(l) && Shape(m) && ReceivesAgree(l, p, m.rx.generation) && TakenCounted(l, m, p, x)
    ensures ReceivesAgree(m, p, m.rx.generation)
  {
    hide OfGeneration;
    var own := OfGeneration(l.taken[p], l.rx.generation);
    OwnSnoc(l.taken[p], x, l.rx.generation);
    TimesCount(l.rx.stats[p].rxOk, own, x.frame.generation == l.rx.generation);
    TimesCount(l.rx.stats[p].rxStale, |l.taken[p]| - own, x.frame.generation != l.rx.generation);
  }

  lemma {:induction false} ReceiveCountersCount(links: seq<Link>, ops: seq<Op>, n: nat, p: priority)
    requires Trace(links, ops) && n < |links|
    ensures Shape(links[n]) && ReceivesAgree(links[n], p, links[0].rx.generation)
  {
    TraceIsShaped(links, ops);
    if n == 0 {
      assert links[0].taken[p] == [];
    } else {
      hide Trace, Step, Inv, Shape, TakenCounted;
      ReceiveCountersCount(links, ops, n - 1, p);
      TraceStep(links, ops, n);
      var l, m := links[n - 1], links[n];
      StepCountsTaken(l, ops[n - 1], p);
      if exists x :: TakenCounted(l, m, p, x) {
        var x :| TakenCounted(l, m, p, x);
        ReceivesGoOn(l, m, p, x);
      }
    }
  }

  lemma OwnSnoc(q: seq<Slot>, x: Slot, generation: u32)
    ensures OfGeneration(q + [x], generation)
         == OfGeneration(q, generation) + if x.frame.generation == generation then 1 else 0
  {
    assert (q + [x])[..|q|] == q;
  }

  // ---- A receiver against any peer

  /** One receive: the priority asked for, and what lies in its queue and in the shared header at that moment. */
  datatype Arrival = Arrival(p: priority, queue: seq<Slot>, header: Header)

  datatype Finding = Good | Uncommitted | Corrupt | Malformed | Foreign

  function Hear(core: Core, arrivals: seq<Arrival>): Core
  {
    if arrivals == [] then core
    else
      var before, a := Hear(core, arrivals[..|arrivals| - 1]), arrivals[|arrivals| - 1];
      ReceiveSpec(before, SessionOf(a.header, before), a.queue, a.p).0
  }

  /** What a receiver of that generation finds at the head of the queue, if its session is good and there is a head. */
  predicate Finds(a: Arrival, p: priority, generation: u32, f: Finding)
  {
    && a.p == p && a.queue != [] && generation != 0
    && a.header == Header(PROTOCOL_MAGIC, PROTOCOL_VERSION, generation)
    && var s := a.queue[0];
    match f
    case Uncommitted => s.commit != s.frame.sequence
    case Malformed => s.commit == s.frame.sequence && Judge(s) == RingInvalid
    case Corrupt => s.commit == s.frame.sequence && Judge(s) == RingBadCrc
    case Foreign => s.commit == s.frame.sequence && Judge(s) == RingOk && s.frame.generation != generation
    case Good => s.commit == s.frame.sequence && Judge(s) == RingOk && s.frame.generation == generation
  }

  function Found(arrivals: seq<Arrival>, p: priority, generation: u32, f: Finding): nat
  {
    if arrivals == [] then 0
    else
      var n := |arrivals| - 1;
      Found(arrivals[..n], p, generation, f) + if Finds(arrivals[n], p, generation, f) then 1 else 0
  }

  ghost predicate Heard(before: Stats, a: Arrival, p: priority, generation: u32, after: Stats)
  {
    && after.rxOk == (if Finds(a, p, generation, Good) then Inc(before.rxOk) else before.rxOk)
    && after.rxIncomplete
       == (if Finds(a, p, generation, Uncommitted) then Inc(before.rxIncomplete) else before.rxIncomplete)
    && after.rxBadCrc == (if Finds(a, p, generation, Corrupt) then Inc(before.rxBadCrc) else before.rxBadCrc)
    && after.rxInvalid == (if Finds(a, p, generation, Malformed) then Inc(before.rxInvalid) else before.rxInvalid)
    && after.rxStale == (if Finds(a, p, generation, Foreign) then Inc(before.rxStale) else before.rxStale)
  }

  lemma HearsOne(core: Core, a: Arrival, p: priority)
    ensures var after := ReceiveSpec(core, SessionOf(a.header, core), a.queue, a.p).0;
            && after.generation == core.generation && after.nextSequence == core.nextSequence
            && Heard(core.stats[p], a, p, core.generation, after.stats[p])
  {
    hide Judge;
    JudgeVerdicts();
  }

  /** Whatever a peer leaves in the rings: each receive counter is the number of such findings, modulo its width. */
  lemma {:induction false} FindingsAreCounted(generation: u32, arrivals: seq<Arrival>, p: priority)
    ensures var core := Hear(FreshCore(generation), arrivals);
            var s := core.stats[p];
            && core.generation == generation
            && s.rxOk == Found(arrivals, p, generation, Good) % MODULUS
            && s.rxIncomplete == Found(arrivals, p, generation, Uncommitted) % MODULUS
            && s.rxBadCrc == Found(arrivals, p, generation, Corrupt) % MODULUS
            && s.rxInvalid == Found(arrivals, p, generation, Malformed) % MODULUS
            && s.rxStale == Found(arrivals, p, generation, Foreign) % MODULUS
  {
    hide Finds, ReceiveSpec;
    if arrivals != [] {
      var front, a := arrivals[..|arrivals| - 1], arrivals[|arrivals| - 1];
      FindingsAreCounted(generation, front, p);
      var core := Hear(FreshCore(generation), front);
      var s := core.stats[p];
      HearsOne(core, a, p);
      TimesCount(s.rxOk, Found(front, p, generation, Good), Finds(a, p, generation, Good));
      TimesCount(s.rxIncomplete, Found(front, p, generation, Uncommitted), Finds(a, p, generation, Uncommitted));
      TimesCount(s.rxBadCrc, Found(front, p, generation, Corrupt), Finds(a, p, generation, Corrupt));
      TimesCount(s.rxInvalid, Found(front, p, generation, Malformed), Finds(a, p, generation, Malformed));
      TimesCount(s.rxStale, Found(front, p, generation, Foreign), Finds(a, p, generation, Foreign));
    }
  }
}
