/**
 From a committed frame to a draining worker: the doorbell bit, the interrupt handler, the pending bitmap, the binary
 semaphore and the quota-bounded pass, every access a step of its own.

 The interrupt line of a channel is the channel's status bit; writing DAT sets the bit and writing a one to the status
 register clears it. Rings are the bounded queues that RingSteps refines; here a frame is only good, damaged or stale.
 */
module Doorbell {
  import opened Frames

  datatype Kind = Good | Damaged | Stale
  datatype Command = Protocol | RawTest | Other

  /** The one Linux sender that holds the driver's lock. */
  datatype LinuxPc =
    | LinuxIdle
    | Committed(p: priority, raw: bool)
    | Ringing(p: priority, raw: bool)
    | CommandWritten(p: priority)

  datatype IsrPc =
    | IsrIdle
    | IsrRead(p: priority, known: bool)
    | IsrCleared(p: priority, known: bool)
    | IsrPended(p: priority)

  datatype WorkerPc =
    | Waiting
    | Woken
    | Entering(taken: set<priority>)
    | Draining(taken: set<priority>, cur: nat, handled: nat, again: set<priority>)
    | Checking(taken: set<priority>, cur: nat, handled: nat, again: set<priority>)
    | Merging(again: set<priority>)
    | Giving

  /**
   `rung[p]` counts the frames at the head of ring p up to the newest one whose doorbell was accepted. READY is
   committed to its ring first and flagged as published afterwards; once it is committed, Linux may read it and open
   its data gate.
   */
  datatype State = State(
    rings: seq<seq<Kind>>, rung: seq<nat>, a2b: set<priority>, command: seq<Command>,
    linux: LinuxPc, isr: IsrPc, pending: set<priority>, sem: bool, worker: WorkerPc,
    committed: bool, published: bool, open: bool)

  datatype Act =
    | Commit(p: priority, kind: Kind)
    | CommitSilently(p: priority, kind: Kind)
    | StartRaw(p: priority)
    | NotifyFails
    | Linux
    | Interrupt(p: priority)
    | Isr
    | Worker
    | CommitReady
    | Publish
    | Gate(open: bool)

  ghost predicate Shape(s: State)
  {
    |s.rings| == |s.rung| == |s.command| == PRIORITY_COUNT
  }

  function LinuxNext(s: State): (t: State)
    requires Shape(s)
    ensures Shape(t)
  {
    match s.linux
    case LinuxIdle => s
    case Committed(p, raw) =>
      if p in s.a2b then s.(rung := s.rung[p := |s.rings[p]|], linux := LinuxIdle)
      else s.(linux := Ringing(p, raw))
    case Ringing(p, raw) =>
      s.(command := s.command[p := if raw then RawTest else Protocol], linux := CommandWritten(p))
    case CommandWritten(p) =>
      s.(a2b := s.a2b + {p}, rung := s.rung[p := |s.rings[p]|], linux := LinuxIdle)
  }

  function IsrNext(s: State): (t: State)
    requires Shape(s)
    ensures Shape(t)
  {
    match s.isr
    case IsrIdle => s
    case IsrRead(p, known) => s.(a2b := s.a2b - {p}, isr := IsrCleared(p, known))
    case IsrCleared(p, known) =>
      if known then s.(pending := s.pending + {p}, isr := IsrPended(p)) else s.(isr := IsrIdle)
    case IsrPended(p) => s.(sem := true, isr := IsrIdle)
  }

  function Popped(s: State, p: priority): (t: State)
    requires Shape(s) && s.rings[p] != []
    ensures Shape(t)
  {
    s.(rings := s.rings[p := s.rings[p][1..]], rung := s.rung[p := if s.rung[p] > 0 then s.rung[p] - 1 else 0])
  }

  function WorkerNext(s: State): (t: State)
    requires Shape(s)
    ensures Shape(t)
  {
    match s.worker
    case Waiting => if s.sem then s.(sem := false, worker := Woken) else s
    case Woken => s.(pending := {}, worker := if s.pending == {} then Waiting else Entering(s.pending))
    case Entering(taken) => s.(worker := if s.published then Draining(taken, 0, 0, {}) else Waiting)
    case Draining(taken, cur, handled, again) =>
      if cur >= PRIORITY_COUNT then s.(worker := if again == {} then Waiting else Merging(again))
      else if cur !in taken then s.(worker := Draining(taken, cur + 1, 0, again))
      else if handled >= DRAIN_QUOTA || s.rings[cur] == [] then s.(worker := Checking(taken, cur, handled, again))
      else
        var t := Popped(s, cur);
        t.(worker := match s.rings[cur][0] {
        case Good => Draining(taken, cur, handled + 1, again)
        case Damaged => Checking(taken, cur, handled + 1, again)
        case Stale => Checking(taken, cur, handled, again)
      })
    case Checking(taken, cur, handled, again) =>
      var more := cur < PRIORITY_COUNT && handled == DRAIN_QUOTA && s.rings[cur] != [];
      s.(worker := Draining(taken, cur + 1, 0, if more then again + {cur} else again))
    case Merging(again) => s.(pending := s.pending + again, worker := Giving)
    case Giving => s.(sem := true, worker := Waiting)
  }

  /** One step; an action that does not apply leaves the state alone. */
  function Step(s: State, a: Act): (t: State)
    requires Shape(s)
    ensures Shape(t)
  {
    match a
    case Commit(p, kind) =>
      if s.open && s.linux == LinuxIdle && |s.rings[p]| < CAPACITY
      then s.(rings := s.rings[p := s.rings[p] + [kind]], linux := Committed(p, false)) else s
    case CommitSilently(p, kind) =>
      if s.open && s.linux == LinuxIdle && |s.rings[p]| < CAPACITY
      then s.(rings := s.rings[p := s.rings[p] + [kind]]) else s
    case StartRaw(p) => if s.open && s.linux == LinuxIdle then s.(linux := Committed(p, true)) else s
    case NotifyFails => if s.linux.Committed? then s.(linux := LinuxIdle) else s
    case Linux => LinuxNext(s)
    case Interrupt(p) =>
      if s.isr == IsrIdle && p in s.a2b then s.(isr := IsrRead(p, s.command[p] != Other)) else s
    case Isr => IsrNext(s)
    case Worker => WorkerNext(s)
    case CommitReady => s.(committed := true)
    case Publish => if s.committed then s.(published := true) else s
    case Gate(open) => if open && !s.committed then s else s.(open := open)
  }

  /** The doorbell, the handler, or the bitmap together with someone who will act on it, still vouches for p. */
  ghost predicate Announced(s: State, p: priority)
  {
    || p in s.a2b
    || (s.isr.IsrCleared? && s.isr.p == p && s.isr.known)
    || (p in s.pending && (s.sem || s.isr.IsrPended? || s.worker == Woken || s.worker == Giving))
  }

  /** The worker's current pass will still look at p, or has decided to come back to it. */
  ghost predicate InPass(s: State, p: priority)
  {
    match s.worker
    case Entering(taken) => p in taken
    case Draining(taken, cur, handled, again) => p in again || (p in taken && p >= cur)
    case Checking(taken, cur, handled, again) =>
      p in again || (p in taken && (p > cur || (p == cur && handled == DRAIN_QUOTA)))
    case Merging(again) => p in again
    case _ => false
  }

  /** A rung frame waits, and nothing in the system will lead the worker to it. */
  ghost predicate Stranded(s: State, p: priority)
    requires Shape(s)
  {
    s.rung[p] > 0 && !Announced(s, p) && !InPass(s, p)
  }

  ghost predicate Inv(s: State) { Shape(s) && Bounded(s) && Lines(s) && Passing(s) }

  ghost predicate Bounded(s: State)
    requires Shape(s)
  {
    && (s.published || s.open ==> s.committed)
    && forall p: priority :: s.rung[p] <= |s.rings[p]| <= CAPACITY
  }

  /** Every standing line carries a command the handler knows, and every pending bit has someone to act on it. */
  ghost predicate Lines(s: State)
    requires Shape(s)
  {
    && (forall p: priority | p in s.a2b :: s.command[p] != Other)
    && (s.isr.IsrRead? || s.isr.IsrCleared? ==> s.isr.known)
    && (s.linux.CommandWritten? ==> s.command[s.linux.p] != Other)
    && (s.pending != {} ==> s.sem || s.isr.IsrPended? || s.worker == Woken || s.worker == Giving)
  }

  ghost predicate Passing(s: State)
  {
    match s.worker
    case Draining(taken, cur, handled, again) => handled <= DRAIN_QUOTA && Ahead(taken, cur, again)
    case Checking(taken, cur, handled, again) =>
      handled <= DRAIN_QUOTA && cur < PRIORITY_COUNT && cur in taken && Ahead(taken, cur, again)
    case _ => true
  }

  /** Only priorities already served are put back. */
  ghost predicate Ahead(taken: set<priority>, cur: nat, again: set<priority>)
  {
    forall p | p in again :: p in taken && p < cur
  }

  ghost predicate Init(s: State)
  {
    s == State([[], [], [], []], [0, 0, 0, 0], {}, s.command, LinuxIdle, IsrIdle, {}, false, Waiting, false, false,
               false)
    && |s.command| == PRIORITY_COUNT
  }

  lemma WorkerKeeps(s: State)
    requires Inv(s)
    ensures Inv(WorkerNext(s))
  {
    if s.worker.Draining? {
      DrainingKeeps(s);
      hide WorkerNext;
    } else {
      CheckingKeeps(s);
      hide Bounded;
    }
  }

  lemma CheckingKeeps(s: State)
    requires Inv(s) && !s.worker.Draining?
    ensures Bounded(WorkerNext(s)) && Passing(WorkerNext(s))
  {
    hide Lines;
  }

  lemma DrainingKeeps(s: State)
    requires Inv(s) && s.worker.Draining?
    ensures Inv(WorkerNext(s))
  {
    var cur := s.worker.cur;
    if cur < PRIORITY_COUNT && cur in s.worker.taken && s.worker.handled < DRAIN_QUOTA && s.rings[cur] != [] {
      PoppedKeeps(s, cur);
      hide Popped, Bounded, Ahead;
    } else {
      hide Bounded;
      assert Bounded(WorkerNext(s)) by { SameRings(s, WorkerNext(s)); }
    }
  }

  lemma SameRings(s: State, t: State)
    requires Shape(s) && Bounded(s) && t.rings == s.rings && t.rung == s.rung
    requires t.committed == s.committed && t.published == s.published && t.open == s.open && Shape(t)
    ensures Bounded(t)
  {
  }

  lemma PoppedKeeps(s: State, p: priority)
    requires Shape(s) && Bounded(s) && s.rings[p] != []
    ensures var t := Popped(s, p);
            && Shape(t) && Bounded(t) && t == s.(rings := t.rings, rung := t.rung)
  {
    assert s.rung[p] <= |s.rings[p]|;
  }

  lemma StepKeeps(s: State, a: Act)
    requires Inv(s)
    ensures Inv(Step(s, a))
  {
    hide WorkerNext, LinuxNext, IsrNext;
    match a {
      case Worker => WorkerKeeps(s); hide Inv;
      case Linux => LinuxKeeps(s); hide Inv;
      case Isr => IsrKeeps(s); hide Inv;
      case _ => SameWorker(s, Step(s, a)); hide Passing;
    }
  }

  lemma LinuxKeeps(s: State)
    requires Inv(s)
    ensures Inv(LinuxNext(s))
  {
    hide Passing, Bounded, Lines;
    SameWorker(s, LinuxNext(s));
    LinuxKeepsBounds(s);
    LinuxKeepsLines(s);
    hide LinuxNext;
  }

  lemma LinuxKeepsBounds(s: State)
    requires Shape(s) && Bounded(s)
    ensures Bounded(LinuxNext(s))
  {
    RingsStay(s);
    forall p: priority ensures LinuxNext(s).rung[p] <= |s.rings[p]| {
      assert s.rung[p] <= |s.rings[p]|;
    }
  }

  lemma LinuxKeepsLines(s: State)
    requires Shape(s) && Lines(s)
    ensures Lines(LinuxNext(s))
  {
  }

  lemma IsrKeeps(s: State)
    requires Inv(s)
    ensures Inv(IsrNext(s))
  {
    hide Passing, Bounded;
    SameWorker(s, IsrNext(s));
    SameRings(s, IsrNext(s));
  }

  lemma SameWorker(s: State, t: State)
    requires Passing(s) && t.worker == s.worker
    ensures Passing(t)
  {
  }

  /** The worker gives up on p with rung frames left: it was woken before READY, or met a bad frame before its quota. */
  ghost predicate GivesUp(s: State, p: priority)
    requires Shape(s)
  {
    match s.worker
    case Entering(taken) => !s.published && p in taken && s.rung[p] > 0
    case Draining(taken, cur, handled, again) =>
      && cur == p && p in taken && p !in again && handled < DRAIN_QUOTA && s.rings[p] != [] && s.rung[p] > 1
      && ((s.rings[p][0] == Damaged && handled + 1 < DRAIN_QUOTA) || s.rings[p][0] == Stale)
    case _ => false
  }

  /** Exactly the two ways to strand a frame, in either case with no doorbell of p on its way. */
  lemma StrandedExactlyByGivingUp(s: State, a: Act, p: priority)
    requires Inv(s) && !Stranded(s, p)
    ensures Stranded(Step(s, a), p) <==> a == Worker && GivesUp(s, p) && !Announced(s, p)
  {
    hide Inv, Stranded, GivesUp, Announced, WorkerNext, LinuxNext, IsrNext;
    match a {
      case Worker => if s.worker.Draining? { DrainingStrands(s, p); } else { WorkerStrands(s, p); }
      case Linux => LinuxStrandsNone(s, p);
      case Isr => IsrStrandsNone(s, p);
      case _ => OthersStrandNone(s, a, p);
    }
  }

  lemma WorkerStrands(s: State, p: priority)
    requires Inv(s) && !Stranded(s, p) && !s.worker.Draining?
    ensures Stranded(WorkerNext(s), p) <==> GivesUp(s, p) && !Announced(s, p)
  {
    hide Popped;
    assert s.rung[p] <= |s.rings[p]|;
  }

  lemma DrainingStrands(s: State, p: priority)
    requires Inv(s) && !Stranded(s, p) && s.worker.Draining?
    ensures Stranded(WorkerNext(s), p) <==> GivesUp(s, p) && !Announced(s, p)
  {
    hide Lines;
    var cur := s.worker.cur;
    if cur < PRIORITY_COUNT && cur in s.worker.taken && s.worker.handled < DRAIN_QUOTA && s.rings[cur] != [] {
      PopStrands(s, p);
      hide WorkerNext, GivesUp, Announced;
    } else {
      hide Popped;
      assert s.rung[p] <= |s.rings[p]|;
    }
  }

  lemma PopStrands(s: State, p: priority)
    requires Inv(s) && !Stranded(s, p) && s.worker.Draining?
    requires var cur := s.worker.cur;
             cur < PRIORITY_COUNT && cur in s.worker.taken && s.worker.handled < DRAIN_QUOTA && s.rings[cur] != []
    ensures Stranded(WorkerNext(s), p) <==> GivesUp(s, p) && !Announced(s, p)
  {
    hide Lines, Bounded;
    var t := WorkerNext(s);
    assert Announced(t, p) == Announced(s, p);
    hide Announced;
    assert t.rung[p] == if p == s.worker.cur && s.rung[p] > 0 then s.rung[p] - 1 else s.rung[p];
  }

  lemma LinuxStrandsNone(s: State, p: priority)
    requires Inv(s) && !Stranded(s, p)
    ensures !Stranded(LinuxNext(s), p)
  {
    hide Bounded, Passing;
    assert InPass(LinuxNext(s), p) == InPass(s, p) by { SamePass(s, LinuxNext(s), p); }
    hide InPass;
  }

  lemma IsrStrandsNone(s: State, p: priority)
    requires Inv(s) && !Stranded(s, p)
    ensures !Stranded(IsrNext(s), p)
  {
    hide Bounded, Passing;
    assert InPass(IsrNext(s), p) == InPass(s, p) by { SamePass(s, IsrNext(s), p); }
    hide InPass;
  }

  lemma OthersStrandNone(s: State, a: Act, p: priority)
    requires Inv(s) && !Stranded(s, p) && a != Worker && a != Linux && a != Isr
    ensures !Stranded(Step(s, a), p)
  {
    hide Bounded, Passing, Lines, WorkerNext, LinuxNext, IsrNext;
    assert InPass(Step(s, a), p) == InPass(s, p) by { SamePass(s, Step(s, a), p); }
    hide InPass;
  }

  lemma SamePass(s: State, t: State, p: priority)
    requires t.worker == s.worker
    ensures InPass(t, p) == InPass(s, p)
  {
  }

  /** Nothing before READY is rung, and no frame is bad. */
  ghost predicate CleanStep(s: State, a: Act)
    requires Shape(s)
  {
    && (a.Commit? || a.CommitSilently? ==> a.kind == Good)
    && (a == Linux && !s.linux.LinuxIdle? ==> s.published)
  }

  ghost predicate Clean(s: State, acts: seq<Act>)
    requires Inv(s)
    decreases |acts|
  {
    acts == [] || (CleanStep(s, acts[0]) && (StepKeeps(s, acts[0]); Clean(Step(s, acts[0]), acts[1..])))
  }

  ghost function Run(s: State, acts: seq<Act>): (t: State)
    requires Inv(s)
    ensures Inv(t)
    decreases |acts|
  {
    if acts == [] then s else (StepKeeps(s, acts[0]); Run(Step(s, acts[0]), acts[1..]))
  }

  ghost predicate GoodRing(ring: seq<Kind>) { forall i | 0 <= i < |ring| :: ring[i] == Good }

  ghost predicate AllGood(s: State)
    requires Shape(s)
  {
    && (forall p: priority :: GoodRing(s.rings[p]))
    && (!s.published ==> forall p: priority :: s.rung[p] == 0)
    && (forall p: priority :: !Stranded(s, p))
  }

  lemma CleanStepKeeps(s: State, a: Act)
    requires Inv(s) && AllGood(s) && CleanStep(s, a)
    ensures AllGood(Step(s, a))
  {
    var t := Step(s, a);
    forall p: priority ensures !Stranded(t, p) {
      assert !Stranded(s, p) && GoodRing(s.rings[p]);
      StrandedExactlyByGivingUp(s, a, p);
      assert !(a == Worker && GivesUp(s, p)) by { CleanNeverGivesUp(s, a, p); }
      hide *;
    }
    CleanStepKeepsGood(s, a);
    hide Step, Stranded, GoodRing;
  }

  lemma CleanNeverGivesUp(s: State, a: Act, p: priority)
    requires Inv(s) && AllGood(s) && CleanStep(s, a)
    ensures !GivesUp(s, p)
  {
    assert GoodRing(s.rings[p]);
    hide Stranded, Step;
  }

  lemma CleanStepKeepsGood(s: State, a: Act)
    requires Inv(s) && AllGood(s) && CleanStep(s, a)
    ensures forall p: priority :: GoodRing(Step(s, a).rings[p])
    ensures !Step(s, a).published ==> forall p: priority :: Step(s, a).rung[p] == 0
  {
    hide Bounded, Lines, Passing, Stranded;
    forall p: priority ensures GoodRing(Step(s, a).rings[p]) {
      assert GoodRing(s.rings[p]);
      RingMoves(s, a, p);
    }
  }

  /** What a step can do to one ring: nothing, one frame less in front, or the frame just committed behind. */
  lemma RingMoves(s: State, a: Act, p: priority)
    requires Shape(s)
    ensures var q, r := s.rings[p], Step(s, a).rings[p];
            || r == q || (q != [] && r == q[1..])
            || ((a.Commit? || a.CommitSilently?) && r == q + [a.kind])
  {
    hide LinuxNext, IsrNext;
    if a == Linux || a == Isr {
      assert LinuxNext(s).rings == s.rings && IsrNext(s).rings == s.rings by { RingsStay(s); }
    }
  }

  lemma RingsStay(s: State)
    requires Shape(s)
    ensures LinuxNext(s).rings == s.rings && IsrNext(s).rings == s.rings
  {
  }

  lemma {:induction false} CleanRunKeeps(s: State, acts: seq<Act>)
    requires Inv(s) && AllGood(s) && Clean(s, acts)
    ensures AllGood(Run(s, acts))
    decreases |acts|
  {
    hide Bounded, Lines, Passing, Step, AllGood, CleanStep;
    if acts != [] {
      StepKeeps(s, acts[0]);
      CleanStepKeeps(s, acts[0]);
      CleanRunKeeps(Step(s, acts[0]), acts[1..]);
    }
  }

  /**
   No wake-up is lost: in every clean run a frame whose doorbell was accepted is announced or in the worker's pass;
   so once everything sleeps, no such frame is left.
   */
  lemma NoLostWakeup(s: State, acts: seq<Act>, p: priority)
    requires Init(s)
    ensures Inv(s)
    ensures Clean(s, acts) ==>
              var t := Run(s, acts);
              && (t.rung[p] > 0 ==> Announced(t, p) || InPass(t, p))
              && (t.worker == Waiting && !t.sem && t.isr == IsrIdle && t.a2b == {} ==> t.rung[p] == 0)
  {
    assert forall q: priority :: s.rings[q] == [] && s.rung[q] == 0;
    if Clean(s, acts) {
      CleanRunKeeps(s, acts);
      assert !Stranded(Run(s, acts), p);
    }
  }

  /** Nothing in the system is about to move. */
  ghost predicate Asleep(s: State)
  {
    s.worker == Waiting && !s.sem && s.isr == IsrIdle && s.a2b == {} && s.linux == LinuxIdle
  }

  ghost predicate Reaches(s: State, t: State)
    requires Inv(s)
  {
    exists acts: seq<Act> :: Run(s, acts) == t
  }

  lemma {:induction false} RunThen(s: State, acts: seq<Act>, a: Act)
    requires Inv(s)
    ensures Run(s, acts + [a]) == Step(Run(s, acts), a)
    decreases |acts|
  {
    hide Bounded, Lines, Passing, Step;
    if acts == [] {
      StepKeeps(s, a);
      assert acts + [a] == [a];
      assert Run(s, [a]) == Run(Step(s, a), []);
    } else {
      assert (acts + [a])[1..] == acts[1..] + [a];
      StepKeeps(s, acts[0]);
      RunThen(Step(s, acts[0]), acts[1..], a);
    }
  }

  /** Takes one more step of a run. */
  lemma Go(s0: State, s: State, a: Act) returns (t: State)
    requires Inv(s0) && Reaches(s0, s)
    ensures t == Step(s, a) && Inv(t) && Reaches(s0, t)
  {
    hide Bounded, Lines, Passing, Step;
    var acts: seq<Act> :| Run(s0, acts) == s;
    RunThen(s0, acts, a);
    t := Run(s0, acts + [a]);
  }

  lemma Sends(s0: State, s: State, kind: Kind) returns (t: State)
    requires Inv(s0) && Reaches(s0, s) && Inv(s) && s.open && s.linux == LinuxIdle && 2 !in s.a2b
             && |s.rings[2]| < CAPACITY
    ensures Inv(t) && Reaches(s0, t)
    ensures var ring := s.rings[2] + [kind];
            t == s.(rings := s.rings[2 := ring], a2b := s.a2b + {2}, rung := s.rung[2 := |ring|],
            command := s.command[2 := Protocol])
  {
    t := Go(s0, s, Commit(2, kind));
    t := Go(s0, t, Linux);
    assert t == s.(rings := s.rings[2 := s.rings[2] + [kind]], linux := Ringing(2, false));
    t := Go(s0, t, Linux);
    t := Go(s0, t, Linux);
  }

  lemma SendsCoalesced(s0: State, s: State, kind: Kind) returns (t: State)
    requires Inv(s0) && Reaches(s0, s) && s.open && s.linux == LinuxIdle && 2 in s.a2b && Inv(s)
             && |s.rings[2]| < CAPACITY
    ensures Reaches(s0, t)
    ensures var ring := s.rings[2] + [kind];
            t == s.(rings := s.rings[2 := ring], rung := s.rung[2 := |ring|])
  {
    t := Go(s0, s, Commit(2, kind));
    t := Go(s0, t, Linux);
  }

  lemma Interrupted(s0: State, s: State) returns (t: State)
    requires Inv(s0) && Reaches(s0, s)
    requires s.isr == IsrIdle && s.a2b == {2} && s.pending == {}
    ensures Reaches(s0, t) && t == s.(a2b := {}, pending := {2}, sem := true)
  {
    t := Go(s0, s, Interrupt(2));
    t := Go(s0, t, Isr);
    assert t == s.(a2b := {}, isr := IsrCleared(2, true));
    t := Go(s0, t, Isr);
    assert t == s.(a2b := {}, pending := {2}, isr := IsrPended(2));
    t := Go(s0, t, Isr);
  }

  lemma Wakes(s0: State, s: State) returns (t: State)
    requires Inv(s0) && Reaches(s0, s)
    requires s.worker == Waiting && s.sem && s.pending == {2}
    ensures Reaches(s0, t) && t == s.(pending := {}, sem := false, worker := Entering({2}))
  {
    t := Go(s0, s, Worker);
    t := Go(s0, t, Worker);
  }

  lemma PassReaches(s0: State, s: State) returns (t: State)
    requires Inv(s0) && Reaches(s0, s) && s.worker == Entering({2}) && s.published
    ensures Reaches(s0, t) && t == s.(worker := Draining({2}, 2, 0, {}))
  {
    t := Go(s0, s, Worker);
    t := Go(s0, t, Worker);
    t := Go(s0, t, Worker);
  }

  lemma PassStopsAtBadFrame(s0: State, s: State) returns (t: State)
    requires Inv(s0) && Reaches(s0, s)
    requires s.worker == Entering({2}) && s.published && s.rings[2] == [Damaged, Good] && s.rung[2] == 2
    ensures Reaches(s0, t)
    ensures t == s.(rings := s.rings[2 := [Good]], rung := s.rung[2 := 1], worker := Waiting)
  {
    t := PassReaches(s0, s);
    t := Go(s0, t, Worker);
    assert s.rings[2][1..] == [Good];
    assert t == s.(rings := s.rings[2 := [Good]], rung := s.rung[2 := 1], worker := Checking({2}, 2, 1, {}));
    t := PassEnds(s0, t);
  }

  lemma PassEnds(s0: State, s: State) returns (t: State)
    requires Inv(s0) && Reaches(s0, s) && s.worker == Checking({2}, 2, 1, {})
    ensures Reaches(s0, t) && t == s.(worker := Waiting)
  {
    t := Go(s0, s, Worker);
    t := Go(s0, t, Worker);
    t := Go(s0, t, Worker);
  }

  /** READY lies in its ring, and Linux has read it; the flag that says so is still to come. */
  lemma GateOpens(s: State) returns (t: State)
    requires Init(s)
    ensures Inv(s) && Reaches(s, t) && Inv(t) && t == s.(committed := true, open := true)
  {
    InitHolds(s);
    t := Go(s, s, CommitReady);
    t := Go(s, t, Gate(true));
  }

  /**
   The first hypothesis is needed. A doorbell that reaches the worker between READY's commit and the flag that says
   so is taken from the bitmap and dropped: its frame stays in the ring with everything asleep, the flag set.
   */
  lemma WokenBeforeReadyIsLost(s: State)
    requires Init(s)
    ensures Inv(s)
    ensures exists t ::
              Reaches(s, t) && Asleep(t) && t.published && t.rings[2] == [Good] && t.rung[2] == 1 && Stranded(t, 2)
  {
    var t := GateOpens(s);
    t := Sends(s, t, Good);
    t := Interrupted(s, t);
    t := Wakes(s, t);
    t := GivesUpEarly(s, t);
    t := Go(s, t, Publish);
  }

  lemma InitHolds(s: State)
    requires Init(s)
    ensures Inv(s) && Reaches(s, s)
  {
    assert forall q: priority :: s.rings[q] == [] && s.rung[q] == 0;
    assert Run(s, []) == s;
  }

  lemma GivesUpEarly(s0: State, s: State) returns (t: State)
    requires Inv(s0) && Reaches(s0, s) && s.worker == Entering({2}) && !s.published
    ensures Reaches(s0, t) && t == s.(worker := Waiting)
  {
    t := Go(s0, s, Worker);
  }

  /**
   The second hypothesis is needed. A damaged frame and a good one behind it share one doorbell; the pass stops at the
   first, and the second stays with everything asleep, although its doorbell was reported as coalesced.
   */
  lemma FrameBehindABadOneIsLost(s: State)
    requires Init(s)
    ensures Inv(s)
    ensures exists t ::
              Reaches(s, t) && Asleep(t) && t.published && t.rings[2] == [Good] && t.rung[2] == 1 && Stranded(t, 2)
  {
    var t := GateOpens(s);
    t := Go(s, t, Publish);
    t := Sends(s, t, Damaged);
    t := SendsCoalesced(s, t, Good);
    t := Interrupted(s, t);
    t := Wakes(s, t);
    t := PassStopsAtBadFrame(s, t);
  }
}
