/**
 The worker of Service takes the steps of the worker of Doorbell: what a look makes of a frame is that frame's kind,
 and the drain goes on, ends, and comes back to a priority exactly as the program counter says.
 */
module WorkerSteps {
  import opened Words
  import opened Frames
  import opened Doorbell
  import E = Endpoint
  import S = Service

  /** What the doorbell path knows of a committed slot. */
  function KindOf(s: Slot, generation: u32): Kind
  {
    if Judge(s) != RingOk then Damaged else if s.frame.generation != generation then Stale else Good
  }

  function Kinds(q: seq<Slot>, generation: u32): seq<Kind>
  {
    seq(|q|, i requires 0 <= i < |q| => KindOf(q[i], generation))
  }

  /** The head of the ring, if there is one, carries its commit word. */
  predicate Committed?(q: seq<Slot>) { q == [] || q[0].commit == q[0].frame.sequence }

  lemma LookKind(l: S.Look, generation: u32)
    requires S.Faithful(l, generation, E.Ok) && Committed?(l.before)
    ensures l.verdict == E.RingError(RingEmpty) <==> l.before == []
    ensures l.before != [] ==>
              match KindOf(l.before[0], generation)
              case Good => l.verdict == E.Ok
              case Damaged => l.verdict != E.Ok && S.Handled?(l.verdict)
              case Stale => l.verdict == E.StaleFrame
  {
    JudgeVerdicts();
    hide Judge, E.CountReceive;
  }

  /** The states of the doorbell path in which the worker moves; between two of them everything else may have moved. */
  ghost predicate WorkerMoves(ss: seq<State>)
  {
    forall i: nat | i + 1 < |ss| :: Shape(ss[i]) && ss[i + 1].worker == WorkerNext(ss[i]).worker
  }

  /** The last look was good, so the quota ended the loop. */
  predicate ByQuota(r: S.Run) { r.looks != [] && r.looks[|r.looks| - 1].verdict == E.Ok }

  /**
   These worker moves are the drain r: before each look, and at the check behind them, the ring holds what r found.
   */
  ghost predicate DrainMoves(ss: seq<State>, r: S.Run, generation: u32)
  {
    && |ss| == |r.looks| + (if ByQuota(r) then 3 else 2) && WorkerMoves(ss)
    && (forall i: nat | i < |r.looks| :: ss[i].rings[r.p] == Kinds(r.looks[i].before, generation))
    && (r.again.Some? ==> ss[|ss| - 2].rings[r.p] == Kinds(r.again.value, generation))
  }

  /** Where the worker stands before look i. */
  lemma {:induction false} LooksAreMoves(ss: seq<State>, r: S.Run, generation: u32, i: nat, taken: set<priority>,
                                         again: set<priority>)
    requires DrainMoves(ss, r, generation) && S.Passed(r, generation, E.Ok)
    requires forall l | l in r.looks :: Committed?(l.before)
    requires ss[0].worker == Draining(taken, r.p, 0, again) && r.p in taken && i < |r.looks|
    ensures ss[i].worker == Draining(taken, r.p, i, again)
  {
    hide S.HandledIn, S.Faithful, KindOf, Kinds, WorkerNext;
    if i > 0 {
      LooksAreMoves(ss, r, generation, i - 1, taken, again);
      assert ss[i - 1 + 1].worker == WorkerNext(ss[i - 1]).worker;
      LookMoves(ss[i - 1], r.looks[i - 1], generation, i - 1, taken, again);
    }
  }

  /** One look is one move. */
  lemma LookMoves(s: State, l: S.Look, generation: u32, handled: nat, taken: set<priority>, again: set<priority>)
    requires Shape(s) && s.worker == Draining(taken, l.p, handled, again) && l.p in taken && handled < DRAIN_QUOTA
    requires s.rings[l.p] == Kinds(l.before, generation) && S.Faithful(l, generation, E.Ok) && Committed?(l.before)
    ensures WorkerNext(s).worker
         == if l.verdict == E.Ok then Draining(taken, l.p, handled + 1, again)
            else Checking(taken, l.p, handled + if S.Handled?(l.verdict) then 1 else 0, again)
    ensures l.message.Some? ==> WorkerNext(s).rings[l.p] == Kinds(l.before[1..], generation)
    ensures l.message.None? ==> WorkerNext(s).rings[l.p] == s.rings[l.p]
  {
    LookKind(l, generation);
    hide KindOf;
    E.ReceiveTakesHead(E.FreshCore(generation), E.Ok, l.before, l.p);
    if l.before != [] {
      assert Kinds(l.before, generation)[1..] == Kinds(l.before[1..], generation);
      LookTakes(l, generation);
    }
    hide S.Faithful;
  }

  lemma LookTakes(l: S.Look, generation: u32)
    requires S.Faithful(l, generation, E.Ok) && Committed?(l.before)
    ensures l.message.Some? <==> l.before != []
  {
  }

  lemma {:induction false} GoodLooksAreHandled(looks: seq<S.Look>)
    requires forall i | 0 <= i < |looks| :: looks[i].verdict == E.Ok
    ensures S.HandledIn(looks) == |looks|
  {
    if looks != [] {
      GoodLooksAreHandled(looks[..|looks| - 1]);
    }
  }

  lemma HandledCounts(r: S.Run, generation: u32)
    requires S.Passed(r, generation, E.Ok)
    ensures r.looks != []
    ensures r.handled == |r.looks| - 1 + if S.Handled?(r.looks[|r.looks| - 1].verdict) then 1 else 0
    ensures r.first != S.WentOff && ByQuota(r) ==> r.handled == DRAIN_QUOTA == |r.looks|
  {
    hide S.Faithful;
    if r.looks != [] {
      GoodLooksAreHandled(r.looks[..|r.looks| - 1]);
    }
  }

  /**
   A drain that leaves the core on ends where the worker's moves do, and comes back to its priority exactly when they
   do.
   */
  lemma DrainIsTheWorkers(ss: seq<State>, r: S.Run, generation: u32, taken: set<priority>, again: set<priority>)
    requires DrainMoves(ss, r, generation) && S.Passed(r, generation, E.Ok) && r.first != S.WentOff
    requires forall l | l in r.looks :: Committed?(l.before)
    requires ss[0].worker == Draining(taken, r.p, 0, again) && r.p in taken
    ensures ss[|ss| - 1].worker == Draining(taken, r.p + 1, 0, if r.exit == S.Rescheduled then again + {r.p} else again)
  {
    hide S.HandledIn, S.Faithful, KindOf, Kinds, WorkerNext;
    HandledCounts(r, generation);
    var n := |r.looks|;
    LooksAreMoves(ss, r, generation, n - 1, taken, again);
    LookMoves(ss[n - 1], r.looks[n - 1], generation, n - 1, taken, again);
    assert ss[n].worker == WorkerNext(ss[n - 1]).worker;
    assert ss[n + 1].worker == WorkerNext(ss[n]).worker;
    if ByQuota(r) {
      QuotaMoves(ss[n], taken, r.p, again);
      assert ss[n + 2].worker == WorkerNext(ss[n + 1]).worker;
    }
    CheckMoves(ss[|ss| - 2], r, generation, taken, again);
  }

  lemma QuotaMoves(s: State, taken: set<priority>, p: priority, again: set<priority>)
    requires Shape(s) && s.worker == Draining(taken, p, DRAIN_QUOTA, again) && p in taken
    ensures WorkerNext(s).worker == Checking(taken, p, DRAIN_QUOTA, again)
  {
  }

  /** The check behind the loop is the second look. */
  lemma CheckMoves(s: State, r: S.Run, generation: u32, taken: set<priority>, again: set<priority>)
    requires Shape(s) && s.worker == Checking(taken, r.p, r.handled, again)
    requires S.Passed(r, generation, E.Ok) && r.first != S.WentOff
    requires r.again.Some? ==> s.rings[r.p] == Kinds(r.again.value, generation)
    ensures WorkerNext(s).worker
         == Draining(taken, r.p + 1, 0, if r.exit == S.Rescheduled then again + {r.p} else again)
  {
    hide S.HandledIn, S.Faithful, KindOf;
  }

  // ---- A whole pass

  /** One priority's share of the worker's moves: its drain, or one move past it. */
  ghost predicate SegmentMoves(ss: seq<State>, p: priority, runs: seq<S.Run>, generation: u32, taken: set<priority>)
  {
    if p in taken then exists r | r in runs :: r.p == p && DrainMoves(ss, r, generation)
    else |ss| == 2 && WorkerMoves(ss)
  }

  ghost predicate Joins(a: seq<State>, b: seq<State>) { a != [] && b != [] && b[0].worker == a[|a| - 1].worker }

  /** The worker's moves of a pass, cut where the loop turns to the next priority. */
  ghost predicate PassMoves(segments: seq<seq<State>>, runs: seq<S.Run>, generation: u32, taken: set<priority>)
  {
    && |segments| == PRIORITY_COUNT
    && (forall p: priority :: SegmentMoves(segments[p], p, runs, generation, taken))
    && Joins(segments[0], segments[1]) && Joins(segments[1], segments[2]) && Joins(segments[2], segments[3])
  }

  /** Every drain left the core on, and met committed slots only. */
  ghost predicate Undisturbed(runs: seq<S.Run>)
  {
    forall r | r in runs :: r.first != S.WentOff && forall l | l in r.looks :: Committed?(l.before)
  }

  lemma SegmentIsTheWorkers(ss: seq<State>, p: priority, runs: seq<S.Run>, generation: u32, taken: set<priority>)
    requires SegmentMoves(ss, p, runs, generation, taken) && Undisturbed(runs)
    requires S.InOrder(runs, PRIORITY_COUNT) && S.Each(runs, generation, E.Ok) && S.RunsOf(runs) == taken && ss != []
    requires ss[0].worker == Draining(taken, p, 0, S.Below(S.RescheduledIn(runs), p))
    ensures ss[|ss| - 1].worker == Draining(taken, p + 1, 0, S.Below(S.RescheduledIn(runs), p + 1))
  {
    hide S.Passed, WorkerNext;
    S.BelowSnoc(S.RescheduledIn(runs), p);
    if p in taken {
      hide WorkerMoves, Committed?;
      var r :| r in runs && r.p == p && DrainMoves(ss, r, generation);
      DrainIsTheWorkers(ss, r, generation, taken, S.Below(S.RescheduledIn(runs), p));
      assert r.exit == S.Rescheduled <==> p in S.RescheduledIn(runs) by { OneRun(runs, r); }
    } else {
      assert ss[0 + 1].worker == WorkerNext(ss[0]).worker;
      PassesOver(ss[0], taken, p, S.Below(S.RescheduledIn(runs), p));
      S.RescheduledAreRuns(runs);
    }
  }

  lemma OneRun(runs: seq<S.Run>, r: S.Run)
    requires S.InOrder(runs, PRIORITY_COUNT) && r in runs
    ensures r.exit == S.Rescheduled <==> r.p in S.RescheduledIn(runs)
  {
  }

  lemma PassesOver(s: State, taken: set<priority>, p: priority, again: set<priority>)
    requires Shape(s) && s.worker == Draining(taken, p, 0, again) && p !in taken
    ensures WorkerNext(s).worker == Draining(taken, p + 1, 0, again)
  {
  }

  /**
   A pass as accounted for by the worker of Service is a pass of the worker whose wake-ups are never lost: fed with the
   same ring contents it ends with the same priorities to come back to.
   */
  lemma PassIsTheWorkers(segments: seq<seq<State>>, stopControl: bool, runs: seq<S.Run>, b: S.Begin, messages: nat,
                         reschedule: set<priority>, sent: seq<S.Outgoing>, queues: seq<seq<Slot>>, taken: set<priority>)
    requires S.Account(stopControl, runs, PRIORITY_COUNT, b, messages, reschedule, sent, queues) && b.session == E.Ok
    requires S.Serves(runs, taken, true) && Undisturbed(runs) && PassMoves(segments, runs, b.generation, taken)
    requires segments[0][0].worker == Draining(taken, 0, 0, {})
    ensures var s := segments[3][|segments[3]| - 1];
            && s.worker == Draining(taken, PRIORITY_COUNT, 0, reschedule)
            && (Shape(s) ==> WorkerNext(s).worker == if reschedule == {} then Waiting else Merging(reschedule))
  {
    hide SegmentMoves, Undisturbed, S.InOrder, S.Each, S.HandledAcross, S.DueAcross, S.Conserved, S.RescheduledIn,
      S.RunsOf;
    S.BelowEnds(reschedule);
    SegmentIsTheWorkers(segments[0], 0, runs, b.generation, taken);
    SegmentIsTheWorkers(segments[1], 1, runs, b.generation, taken);
    SegmentIsTheWorkers(segments[2], 2, runs, b.generation, taken);
    SegmentIsTheWorkers(segments[3], 3, runs, b.generation, taken);
  }
}
