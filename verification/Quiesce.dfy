/**
 The last doorbell of a session: Linux's stop, step by step, beside CPU3's way from popping STOP_REQUEST to CPU_OFF.

 The firmware acknowledges every A2B bit it finds before it goes off, holding that no doorbell can follow: the data
 plane is closed. The stop's own doorbell can: its frame lies in the ring before its doorbell is rung.
 */
module Quiesce {
  import opened Words
  import opened Frames
  import opened Doorbell
  import D = Device
  import L = Lifecycle

  /** Serving; STOP_READY committed and rung; interrupts locked; status read; those bits cleared; powered off. */
  datatype Cpu = Serving | Answered | Masked | Sampled(pending: set<priority>) | Cleared | Off

  /** The doorbell path, how many frames lie before STOP_REQUEST in p0's ring if it is there, and CPU3's way out. */
  datatype Plant = Plant(bell: State, request: Option<nat>, cpu: Cpu)

  /** `Ask` is the stop: the gate closes and the request is committed. `Serve` is one step of CPU3's worker. */
  datatype Move = Bell(a: Act) | Ask | Serve(ready: bool) | Quiesce

  /** The worker's next step pops p0's ring. */
  predicate Pops(s: State)
    requires Shape(s)
  {
    s.worker.Draining? && s.worker.cur == 0 && 0 in s.worker.taken && s.worker.handled < DRAIN_QUOTA && s.rings[0] != []
  }

  /** The worker's next step pops STOP_REQUEST. */
  predicate PopsRequest(s: Plant)
    requires Shape(s.bell)
  {
    s.cpu == Serving && s.request == Some(0) && Pops(s.bell)
  }

  /** Handlers run until interrupts are locked; the gate reopens only by a refusal, which finds no stop in progress. */
  predicate Applies(s: Plant, a: Act)
  {
    match a
    case Worker => false
    case Interrupt(_) => s.cpu == Serving || s.cpu == Answered
    case Isr => s.cpu == Serving || s.cpu == Answered
    case CommitReady => s.cpu == Serving
    case Publish => s.cpu == Serving
    case Gate(open) => open ==> s.cpu == Serving && s.request == None && s.bell.linux == LinuxIdle
    case _ => true
  }

  function AskStep(s: Plant): (t: Plant)
    requires Shape(s.bell)
    ensures Shape(t.bell)
  {
    var b := s.bell;
    if b.open && b.linux == LinuxIdle && |b.rings[0]| < CAPACITY && s.request == None then
      s.(bell := b.(rings := b.rings[0 := b.rings[0] + [Good]], linux := Committed(0, false), open := false),
      request := Some(|b.rings[0]|))
    else s
  }

  /** `ready` tells whether STOP_READY, should this step owe it, is committed and its doorbell accepted. */
  function ServeStep(s: Plant, ready: bool): (t: Plant)
    requires Shape(s.bell)
    ensures Shape(t.bell)
  {
    if s.cpu != Serving then s
    else
      var t := s.(bell := WorkerNext(s.bell));
      if !Pops(s.bell) || s.request == None then t
      else if s.request.value > 0 then t.(request := Some(s.request.value - 1))
      else t.(request := None, cpu := if ready then Answered else Serving)
  }

  /** The thread that locks interrupts is not inside the handler. */
  function QuiesceStep(s: Plant): (t: Plant)
    requires Shape(s.bell)
    ensures Shape(t.bell)
  {
    match s.cpu
    case Serving => s
    case Answered => if s.bell.isr == IsrIdle then s.(cpu := Masked) else s
    case Masked => s.(cpu := Sampled(s.bell.a2b))
    case Sampled(pending) => s.(bell := s.bell.(a2b := s.bell.a2b - pending), cpu := Cleared)
    case Cleared => s.(cpu := Off)
    case Off => s
  }

  function Step(s: Plant, m: Move): (t: Plant)
    requires Shape(s.bell)
    ensures Shape(t.bell)
  {
    match m
    case Bell(a) => if Applies(s, a) then s.(bell := Doorbell.Step(s.bell, a)) else s
    case Ask => AskStep(s)
    case Serve(ready) => ServeStep(s, ready)
    case Quiesce => QuiesceStep(s)
  }

  /** Whoever rings found the bit clear and holds the lock, so the bit is still clear. */
  ghost predicate Sensed(s: State)
  {
    (s.linux.Ringing? || s.linux.CommandWritten?) ==> s.linux.p !in s.a2b
  }

  /**
   From the request's commit on the gate is closed, nothing comes behind it, and only the stop may still be ringing.
   */
  ghost predicate Closing(s: Plant)
    requires Shape(s.bell)
  {
    && (s.request.Some? ==> |s.bell.rings[0]| == s.request.value + 1)
    && (s.request.Some? || s.cpu != Serving ==> !s.bell.open && (s.bell.linux == LinuxIdle || Rings0(s.bell.linux)))
    && (s.cpu != Serving && s.cpu != Answered ==> s.bell.isr == IsrIdle)
  }

  predicate Rings0(pc: LinuxPc)
  {
    match pc
    case LinuxIdle => false
    case Committed(p, raw) => p == 0
    case Ringing(p, raw) => p == 0
    case CommandWritten(p) => p == 0
  }

  ghost predicate Inv(s: Plant) { Shape(s.bell) && Sensed(s.bell) && Closing(s) }

  lemma StepKeeps(s: Plant, m: Move)
    requires Inv(s)
    ensures Inv(Step(s, m))
  {
    hide WorkerNext, LinuxNext, IsrNext, Shape;
    match m {
      case Bell(a) =>
        LinuxRings(s.bell);
        HandlerRings(s.bell);
      case Serve(ready) =>
        WorkerLeavesBells(s.bell);
        WorkerPops(s.bell);
      case Ask => AskKeeps(s);
      case Quiesce =>
    }
  }

  lemma AskKeeps(s: Plant)
    requires Inv(s)
    ensures Inv(AskStep(s))
  {
  }

  lemma LinuxRings(s: State)
    requires Shape(s)
    ensures var t := LinuxNext(s);
            && t.open == s.open && t.isr == s.isr && t.rings == s.rings
            && (Sensed(s) ==> Sensed(t)) && (s.linux == LinuxIdle ==> t == s)
            && (Rings0(s.linux) ==> t.linux == LinuxIdle || Rings0(t.linux))
            && t.a2b == (if s.linux.CommandWritten? then s.a2b + {s.linux.p} else s.a2b)
            && (s.linux.CommandWritten? ==> t.linux == LinuxIdle)
  {
  }

  lemma HandlerRings(s: State)
    requires Shape(s)
    ensures var t := IsrNext(s); t.open == s.open && t.linux == s.linux && t.rings == s.rings && t.a2b <= s.a2b
  {
  }

  lemma WorkerLeavesBells(s: State)
    requires Shape(s)
    ensures var t := WorkerNext(s); t.open == s.open && t.linux == s.linux && t.a2b == s.a2b && t.isr == s.isr
  {
  }

  lemma WorkerPops(s: State)
    requires Shape(s)
    ensures WorkerNext(s).rings[0] == if Pops(s) then s.rings[0][1..] else s.rings[0]
  {
  }

  /**
   Until CPU3 quiesces every step is one of the doorbell path, and a stop is a commit behind which the gate closes.
   */
  lemma BellMoves(s: Plant, m: Move)
    requires Shape(s.bell) && !m.Quiesce?
    ensures var b, t := s.bell, Step(s, m).bell;
            || t == b || (exists a :: t == Doorbell.Step(b, a))
            || (m == Ask && t == Doorbell.Step(Doorbell.Step(b, Commit(0, Good)), Gate(false)))
  {
    assert Doorbell.Step(s.bell, Worker) == WorkerNext(s.bell);
    hide WorkerNext, LinuxNext, IsrNext;
  }

  // ---- Over whole runs

  ghost predicate Runs(ps: seq<Plant>, ms: seq<Move>)
  {
    && |ps| == |ms| + 1 && Inv(ps[0])
    && forall k | 0 <= k < |ms| :: Shape(ps[k].bell) && ps[k + 1] == Step(ps[k], ms[k])
  }

  lemma {:induction false} RunKeeps(ps: seq<Plant>, ms: seq<Move>, n: nat)
    requires Runs(ps, ms) && n < |ps|
    ensures Inv(ps[n])
  {
    hide Inv, Step;
    if n > 0 {
      RunKeeps(ps, ms, n - 1);
      StepKeeps(ps[n - 1], ms[n - 1]);
    }
  }

  /** A power-on leaves a plant that meets the invariant. */
  lemma StartsSound(s: State)
    requires Init(s)
    ensures Inv(Plant(s, None, Serving))
  {
  }

  /** Step r is the status read before CPU_OFF. */
  ghost predicate Samples(ps: seq<Plant>, ms: seq<Move>, r: nat)
    requires |ps| == |ms| + 1
  {
    r < |ms| && ms[r] == Quiesce && ps[r].cpu == Masked
  }

  /** Step k writes DAT. */
  ghost predicate WritesDat(ps: seq<Plant>, ms: seq<Move>, k: nat)
    requires |ps| == |ms| + 1
  {
    k < |ms| && ms[k] == Bell(Linux) && ps[k].bell.linux.CommandWritten?
  }

  /** A doorbell is written between the status read r and n. */
  ghost predicate Late(ps: seq<Plant>, ms: seq<Move>, r: nat, n: nat)
    requires |ps| == |ms| + 1
  {
    exists k: nat :: r < k < n && WritesDat(ps, ms, k)
  }

  /** What is left of A2B once the bits that were read are taken away. */
  function Unread(s: Plant): set<priority>
  {
    if s.cpu.Sampled? then s.bell.a2b - s.cpu.pending else s.bell.a2b
  }

  ghost predicate AfterSample(s: Plant) { s.cpu.Sampled? || s.cpu == Cleared || s.cpu == Off }

  /** Past the status read only the stop's own doorbell can change what will be left. */
  lemma AfterTheSample(s: Plant, m: Move)
    requires Inv(s) && AfterSample(s) && (s.cpu.Sampled? ==> 0 in s.cpu.pending ==> 0 in s.bell.a2b)
    ensures var t := Step(s, m);
            && AfterSample(t) && (t.cpu.Sampled? ==> 0 in t.cpu.pending ==> 0 in t.bell.a2b)
            && if m == Bell(Linux) && s.bell.linux.CommandWritten?
               then Unread(t) == Unread(s) + {0} && t.bell.linux == LinuxIdle
               else Unread(t) == Unread(s) && (s.bell.linux == LinuxIdle ==> t.bell.linux == LinuxIdle)
  {
    hide WorkerNext, LinuxNext, IsrNext, Shape;
    LinuxRings(s.bell);
  }

  /**
   What CPU_OFF leaves in A2B, exactly: nothing, unless the stop's doorbell was written after the status read; then p0's
   bit and no other.
   */
  lemma {:induction false} LeftExactly(ps: seq<Plant>, ms: seq<Move>, r: nat, n: nat)
    requires Runs(ps, ms) && Samples(ps, ms, r) && r < n < |ps|
    ensures AfterSample(ps[n]) && (ps[n].cpu.Sampled? ==> 0 in ps[n].cpu.pending ==> 0 in ps[n].bell.a2b)
    ensures Unread(ps[n]) == if Late(ps, ms, r, n) then {0} else {}
    ensures ps[n].cpu == Off ==> ps[n].bell.a2b == if Late(ps, ms, r, n) then {0} else {}
  {
    hide Inv, Step;
    RunKeeps(ps, ms, n - 1);
    if n == r + 1 {
      SampleReads(ps[r]);
    } else {
      LeftExactly(ps, ms, r, n - 1);
      AfterTheSample(ps[n - 1], ms[n - 1]);
      LateSnoc(ps, ms, r, n);
    }
  }

  lemma SampleReads(s: Plant)
    requires Inv(s) && s.cpu == Masked
    ensures var t := Step(s, Quiesce); t.cpu == Sampled(s.bell.a2b) && t.bell == s.bell && Unread(t) == {}
  {
  }

  lemma LateSnoc(ps: seq<Plant>, ms: seq<Move>, r: nat, n: nat)
    requires |ps| == |ms| + 1 && r + 1 < n < |ps|
    ensures Late(ps, ms, r, n) <==> Late(ps, ms, r, n - 1) || WritesDat(ps, ms, n - 1)
  {
    hide WritesDat;
  }

  /** CPU_OFF lies behind a status read. */
  lemma {:induction false} FindsSample(ps: seq<Plant>, ms: seq<Move>, n: nat) returns (r: nat)
    requires Runs(ps, ms) && n < |ps| && ps[0].cpu == Serving && AfterSample(ps[n])
    ensures r < n && Samples(ps, ms, r)
  {
    hide Inv, Step;
    if AfterSample(ps[n - 1]) {
      r := FindsSample(ps, ms, n - 1);
    } else {
      OnlySampling(ps[n - 1], ms[n - 1]);
      r := n - 1;
    }
  }

  lemma OnlySampling(s: Plant, m: Move)
    requires Shape(s.bell) && !AfterSample(s) && AfterSample(Step(s, m))
    ensures m == Quiesce && s.cpu == Masked
  {
    hide WorkerNext, Doorbell.Step, Shape;
  }

  /** Once CPU3 has the request and the stop has rung, nobody rings again. */
  lemma {:induction false} StaysSilent(ps: seq<Plant>, ms: seq<Move>, w: nat, n: nat)
    requires Runs(ps, ms) && w <= n < |ps| && ps[w].cpu != Serving && ps[w].bell.linux == LinuxIdle
    ensures ps[n].cpu != Serving && ps[n].bell.linux == LinuxIdle
  {
    hide Inv, Step;
    if w < n {
      StaysSilent(ps, ms, w, n - 1);
      RunKeeps(ps, ms, n - 1);
      SilentStep(ps[n - 1], ms[n - 1]);
    }
  }

  lemma SilentStep(s: Plant, m: Move)
    requires Inv(s) && s.cpu != Serving && s.bell.linux == LinuxIdle
    ensures var t := Step(s, m); t.cpu != Serving && t.bell.linux == LinuxIdle
    ensures s.cpu == Off ==> Step(s, m).cpu == Off && Step(s, m).bell.a2b == s.bell.a2b
  {
    hide WorkerNext, LinuxNext, IsrNext, Shape;
    LinuxRings(s.bell);
    HandlerRings(s.bell);
  }

  /** A request popped after its doorbell was settled leaves A2B clear at CPU_OFF, whatever else was pending. */
  lemma RungBeforeThePop(ps: seq<Plant>, ms: seq<Move>, w: nat, n: nat)
    requires Runs(ps, ms) && ps[0].cpu == Serving && w < n < |ps| && ps[n].cpu == Off
    requires PopsRequest(ps[w]) && ms[w] == Serve(true) && ps[w].bell.linux == LinuxIdle
    ensures ps[n].bell.a2b == {}
  {
    hide Inv;
    var r := FindsSample(ps, ms, n);
    assert ps[w + 1].cpu == Answered && ps[w + 1].bell.linux == LinuxIdle by { WorkerLeavesBells(ps[w].bell); }
    forall k: nat | r < k < n && w < k ensures !WritesDat(ps, ms, k) {
      StaysSilent(ps, ms, w + 1, k);
    }
    if r < w {
      LeftExactly(ps, ms, r, w);
    }
    LeftExactly(ps, ms, r, n);
  }

  /**
   The status read decides, but for a stop that has yet to look at the bit: with the doorbell settled nothing is left;
   with the bit found clear and DAT still to be written, p0's bit is.
   */
  lemma SampleDecides(ps: seq<Plant>, ms: seq<Move>, r: nat, n: nat)
    requires Runs(ps, ms) && Samples(ps, ms, r) && r < n < |ps| && ps[n].cpu == Off && ps[n].bell.linux == LinuxIdle
    ensures ps[r].bell.linux == LinuxIdle ==> ps[n].bell.a2b == {}
    ensures ps[r].bell.linux.Ringing? || ps[r].bell.linux.CommandWritten? ==> ps[n].bell.a2b == {0}
  {
    hide Inv, Step;
    LeftExactly(ps, ms, r, n);
    if ps[r].bell.linux == LinuxIdle {
      forall k: nat | r < k < n ensures !WritesDat(ps, ms, k) {
        StaysSilent(ps, ms, r, k);
      }
    } else if !ps[r].bell.linux.Committed? {
      StillRinging(ps, ms, r, n);
    }
  }

  lemma {:induction false} StillRinging(ps: seq<Plant>, ms: seq<Move>, r: nat, n: nat)
    requires Runs(ps, ms) && Samples(ps, ms, r) && r < n < |ps|
    requires ps[r].bell.linux.Ringing? || ps[r].bell.linux.CommandWritten?
    ensures Late(ps, ms, r, n) || ps[n].bell.linux.Ringing? || ps[n].bell.linux.CommandWritten?
  {
    hide Inv, Step, Late;
    RunKeeps(ps, ms, n - 1);
    if n == r + 1 {
      SampleReads(ps[r]);
    } else {
      StillRinging(ps, ms, r, n - 1);
      LateSnoc(ps, ms, r, n);
      LeftExactly(ps, ms, r, n - 1);
      if !Late(ps, ms, r, n - 1) {
        RingingStep(ps[n - 1], ms[n - 1]);
      }
    }
  }

  lemma RingingStep(s: Plant, m: Move)
    requires Inv(s) && (s.bell.linux.Ringing? || s.bell.linux.CommandWritten?) && AfterSample(s)
    ensures var t := Step(s, m);
            || (m == Bell(Linux) && s.bell.linux.CommandWritten?)
            || t.bell.linux.Ringing? || t.bell.linux.CommandWritten?
  {
    hide WorkerNext, IsrNext, Shape;
  }

  // ---- What it means for the next session

  /** With the core off and every descriptor closed, rearm answers by the doorbell alone. */
  lemma RearmAnswers(ps: seq<Plant>, ms: seq<Move>, r: nat, n: nat, d: D.Dev)
    requires Runs(ps, ms) && Samples(ps, ms, r) && r < n < |ps| && ps[n].cpu == Off && d.attempted && d.openCount == 0
    ensures D.RearmSpec(d, D.AffinityOff, ps[n].bell.a2b != {}).1 == if Late(ps, ms, r, n) then D.EBUSY else 0
  {
    LeftExactly(ps, ms, r, n);
    hide Runs;
  }

  /** After CPU_OFF nobody clears the bit. */
  lemma {:induction false} StaysSet(ps: seq<Plant>, ms: seq<Move>, m: nat, n: nat)
    requires Runs(ps, ms) && m <= n < |ps| && ps[m].cpu == Off && ps[m].bell.linux == LinuxIdle
    ensures ps[n].cpu == Off && ps[n].bell.linux == LinuxIdle && ps[n].bell.a2b == ps[m].bell.a2b
  {
    hide Inv, Step;
    if m < n {
      StaysSet(ps, ms, m, n - 1);
      RunKeeps(ps, ms, n - 1);
      SilentStep(ps[n - 1], ms[n - 1]);
    }
  }

  /** From act i on, every rearm reads A2B in a state not before m. */
  ghost predicate Reads(ps: seq<Plant>, m: nat, acts: seq<L.Act>, i: nat)
  {
    forall k | i <= k < |acts| && acts[k].Rearm? ::
      exists x: nat :: m <= x < |ps| && acts[k].doorbellPending == (ps[x].bell.a2b != {})
  }

  /** A late doorbell is final: in every continuation of the driver's run no session is ever started again. */
  lemma {:induction false} NoSessionAfterALateDoorbell(ps: seq<Plant>, ms: seq<Move>, r: nat, m: nat,
                                                       states: seq<D.Dev>, acts: seq<L.Act>, i: nat, n: nat)
    requires Runs(ps, ms) && Samples(ps, ms, r) && r < m < |ps| && Late(ps, ms, r, m)
    requires ps[m].cpu == Off && ps[m].bell.linux == LinuxIdle && Reads(ps, m, acts, i)
    requires L.Trace(states, acts) && i <= n < |states| && states[i].attempted
    ensures states[n].attempted && states[n].session == states[i].session
  {
    hide Runs, Samples, Late, L.Step;
    if i < n {
      NoSessionAfterALateDoorbell(ps, ms, r, m, states, acts, i, n - 1);
      var a := acts[n - 1];
      if a.Rearm? {
        var x: nat :| m <= x < |ps| && a.doorbellPending == (ps[x].bell.a2b != {});
        LeftExactly(ps, ms, r, m);
        StaysSet(ps, ms, m, x);
      }
      StaysAttempted(states[n - 1], a);
    }
  }

  lemma StaysAttempted(d: D.Dev, a: L.Act)
    requires d.attempted && (a.Rearm? ==> a.doorbellPending)
    ensures L.Step(d, a).attempted && L.Step(d, a).session == d.session
  {
    if L.Traffic?(a) {
      L.TrafficLeavesLifecycle(d, a);
      hide L.Step;
    } else if a.Control? && (d.phase == D.Starting || d.phase == D.Stopping) {
      L.ControlReaches(d, a.expired, a.ticks);
      hide D.ControlSpec, L.SuffixOf, D.ReadyFor, D.StopReplyTo;
    } else if a.Stop? {
      L.TransmitIsTraffic(d.(phase := D.Stopping, stopSequence := 0, stopReply := 0,
                          stopResult := D.EINPROGRESS, stopNotify := D.EINPROGRESS),
                          0, MSG_STOP_REQUEST, [], a.notify);
      hide D.Transmit;
    } else {
      hide D.ControlDrain;
    }
  }

  // ---- A run that strands the doorbell

  ghost predicate Reaches(s0: Plant, s: Plant)
  {
    exists ps, ms :: Runs(ps, ms) && ps[0] == s0 && ps[|ms|] == s
  }

  /** Takes one more step of a run. */
  lemma Go(s0: Plant, s: Plant, m: Move) returns (t: Plant)
    requires Reaches(s0, s)
    ensures Inv(s) && t == Step(s, m) && Reaches(s0, t)
  {
    hide Inv, Step;
    var ps, ms :| Runs(ps, ms) && ps[0] == s0 && ps[|ms|] == s;
    RunKeeps(ps, ms, |ms|);
    assert Shape(s.bell) by { InvShape(s); }
    t := Step(s, m);
    var qs, ns := ps + [t], ms + [m];
    assert qs[|ns|] == t;
    assert Runs(qs, ns);
  }

  lemma InvShape(s: Plant)
    requires Inv(s)
    ensures Shape(s.bell)
  {
  }

  /** A session is open, and a first frame on p0 has brought the worker into a pass over p0. */
  lemma DrainsP0(s: State) returns (t: Plant)
    requires Init(s)
    ensures Reaches(Plant(s, None, Serving), t)
    ensures t == Plant(t.bell, None, Serving) && t.bell.open && t.bell.linux == LinuxIdle && t.bell.isr == IsrIdle
    ensures Shape(t.bell) && t.bell.a2b == {} && t.bell.rings[0] == [] && t.bell.worker == Draining({0}, 0, 1, {})
  {
    var s0 := Plant(s, None, Serving);
    StartsSound(s);
    assert Runs([s0], []);
    assert Reaches(s0, s0);
    t := FirstFrame(s0);
    t := FirstInterrupt(s0, t);
    t := Go(s0, t, Serve(true));
    t := Go(s0, t, Serve(true));
    t := Go(s0, t, Serve(true));
    t := Go(s0, t, Serve(true));
  }

  /** READY, the gate, and a frame on p0 with its doorbell. */
  lemma FirstFrame(s0: Plant) returns (t: Plant)
    requires Init(s0.bell) && s0.request == None && s0.cpu == Serving && Reaches(s0, s0)
    ensures Reaches(s0, t) && Shape(t.bell)
    ensures t == s0.(bell := t.bell) && t.bell.open && t.bell.published && t.bell.linux == LinuxIdle
            && t.bell.isr == IsrIdle
    ensures t.bell.a2b == {0} && t.bell.rings[0] == [Good] && t.bell.command[0] == Protocol
    ensures t.bell.worker == Waiting && t.bell.pending == {}
  {
    t := Go(s0, s0, Bell(CommitReady));
    t := Go(s0, t, Bell(Publish));
    t := Go(s0, t, Bell(Gate(true)));
    t := Go(s0, t, Bell(Commit(0, Good)));
    assert t.bell.linux == Committed(0, false) && t.bell.rings[0] == [Good];
    t := Go(s0, t, Bell(Linux));
    t := Go(s0, t, Bell(Linux));
    t := Go(s0, t, Bell(Linux));
  }

  lemma FirstInterrupt(s0: Plant, s: Plant) returns (t: Plant)
    requires Reaches(s0, s) && Shape(s.bell) && s.cpu == Serving && s.bell.isr == IsrIdle
    requires s.bell.a2b == {0} && s.bell.command[0] == Protocol && s.bell.pending == {}
    ensures Reaches(s0, t) && t == s.(bell := s.bell.(a2b := {}, pending := {0}, sem := true))
  {
    t := Go(s0, s, Bell(Interrupt(0)));
    t := Go(s0, t, Bell(Isr));
    assert t.bell.a2b == {} && t.bell.isr == IsrCleared(0, true);
    t := Go(s0, t, Bell(Isr));
    assert t.bell.pending == {0};
    t := Go(s0, t, Bell(Isr));
  }

  /**
   A request popped before its doorbell: CPU3 answers and powers off between the stop's look at the bit and its write,
   and the bit stands with the core off.
   */
  lemma PoppedBeforeTheBell(s: State) returns (t: Plant)
    requires Init(s)
    ensures Reaches(Plant(s, None, Serving), t) && t.cpu == Off && t.bell.linux == LinuxIdle && t.bell.a2b == {0}
  {
    var s0 := Plant(s, None, Serving);
    t := DrainsP0(s);
    t := Go(s0, t, Ask);
    assert t.bell.rings[0] == [Good] && t.bell.linux == Committed(0, false) && t.request == Some(0);
    t := Go(s0, t, Serve(true));
    assert t.cpu == Answered && t.bell.linux == Committed(0, false) && t.bell.a2b == {} && t.bell.isr == IsrIdle;
    t := GoesOff(s0, t);
  }

  lemma GoesOff(s0: Plant, s: Plant) returns (t: Plant)
    requires Reaches(s0, s) && Shape(s.bell)
    requires s.cpu == Answered && s.bell.linux == Committed(0, false) && s.bell.a2b == {} && s.bell.isr == IsrIdle
    ensures Reaches(s0, t) && t.cpu == Off && t.bell.linux == LinuxIdle && t.bell.a2b == {0}
  {
    t := Go(s0, s, Bell(Linux));
    t := Go(s0, t, Quiesce);
    t := Go(s0, t, Quiesce);
    t := Go(s0, t, Quiesce);
    t := Go(s0, t, Quiesce);
    t := Go(s0, t, Bell(Linux));
    t := Go(s0, t, Bell(Linux));
  }
}
