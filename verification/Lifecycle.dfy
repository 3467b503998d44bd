/** Safety of the driver's lifecycle over every run, whatever the other CPU does to the rings and PSCI reports. */
module Lifecycle {
  import opened Words
  import opened Frames
  import opened Endpoint
  import opened Device

  datatype Act =
    | ImageWrite(off: nat, count: nat)
    | Start(a: Affinity, cpuOn: int)
    | Rearm(a: Affinity, doorbellPending: bool)
    | Control(expired: bool, ticks: nat)
    | Timeout(expired: bool, a: Affinity)
    | AffinityWork(a: Affinity)
    | AffinityShow(a: Affinity)
    | Stop(notify: int)
    | Open(fd: nat, p: priority)
    | Release(fd: nat)
    | Claim(fd: nat)
    | Read(fd: nat)
    | Write(fd: nat, to: u32, kind: u32, payload: seq<byte>, notify: int)
    | Ping(p: priority, value: u32, notify: int)
    | Inject(p: priority, value: u32, damage: bool)
    | Response
    | Callback(p: priority)
    | Peer(forward: Rings, reverse: Rings)

  function Step(d: Dev, a: Act): Dev
  {
    match a
    case ImageWrite(off, count) => ImageWriteSpec(d, off, count).0
    case Start(aff, cpuOn) => StartSpec(d, aff, cpuOn).0
    case Rearm(aff, doorbell) => RearmSpec(d, aff, doorbell).0
    case Control(expired, ticks) => ControlSpec(d, expired, ticks)
    case Timeout(expired, aff) => TimeoutSpec(d, expired, aff)
    case AffinityWork(aff) => AffinitySpec(d, aff)
    case AffinityShow(aff) => Refresh(d, aff)
    case Stop(notify) => StopSpec(d, notify).0
    case Open(fd, p) => if fd in d.files then d else OpenSpec(d, fd, p).0
    case Release(fd) => if fd in d.files then ReleaseSpec(d, fd) else d
    case Claim(fd) => if fd in d.files then ClaimSpec(d, fd).0 else d
    case Read(fd) => if fd in d.files && d.files[fd].claimed then ReadSpec(d, d.files[fd].p).0 else d
    case Write(fd, to, kind, payload, notify) =>
      if fd in d.files then WriteSpec(d, d.files[fd].p, to, kind, payload, notify).0 else d
    case Ping(p, value, notify) => PingSpec(d, p, value, notify).0
    case Inject(p, value, damage) => InjectSpec(d, p, value, damage).0
    case Response => ResponseSpec(d)
    case Callback(p) => CallbackSpec(d, p)
    case Peer(forward, reverse) => d.(forward := forward, reverse := reverse)
  }

  /** What a caller gets back: a code, a frame, or the answer that it would have to wait. */
  datatype Report = Code(code: int) | Handed(s: Slot) | Blocks | Nothing

  function ReportOf(turn: Turn): Report
  {
    match turn
    case Got(s) => Handed(s)
    case Failed(code) => Code(code)
    case WouldBlock => Blocks
  }

  function Returned(d: Dev, a: Act): Report
  {
    match a
    case ImageWrite(off, count) => Code(ImageWriteSpec(d, off, count).1)
    case Start(aff, cpuOn) => Code(StartSpec(d, aff, cpuOn).1)
    case Rearm(aff, doorbell) => Code(RearmSpec(d, aff, doorbell).1)
    case Stop(notify) => Code(StopSpec(d, notify).1)
    case Open(fd, p) => if fd in d.files then Nothing else Code(OpenSpec(d, fd, p).1)
    case Claim(fd) => if fd in d.files then Code(ClaimSpec(d, fd).1) else Nothing
    case Read(fd) =>
      if fd in d.files && d.files[fd].claimed then ReportOf(ReadSpec(d, d.files[fd].p).1) else Nothing
    case Write(fd, to, kind, payload, notify) =>
      if fd in d.files then Code(WriteSpec(d, d.files[fd].p, to, kind, payload, notify).1) else Nothing
    case Ping(p, value, notify) => Code(PingSpec(d, p, value, notify).1)
    case Inject(p, value, damage) => Code(InjectSpec(d, p, value, damage).1)
    case _ => Nothing
  }

  predicate Open?(phase: Phase) { phase == Active || phase == Stopping || phase == StopTimeout }

  /** A session under way is complete, bound and numbered; an opened one was confirmed under its own number. */
  ghost predicate Sound(d: Dev)
  {
    && d.imageWritten <= d.imageSize
    && (!d.attempted ==> d.phase == Unarmed && d.cpuOnRet != 0)
    && (d.phase != Unarmed ==>
          && d.attempted && d.cpuOnRet == 0 && d.imageWritten == d.imageSize
          && d.session != 0 && d.session == d.endpoint.generation
          && d.header == Header(PROTOCOL_MAGIC, PROTOCOL_VERSION, d.session))
    && (Open?(d.phase) ==> d.peer == d.session && d.sessionResult == 0 && d.seenOn)
  }

  /** A freshly probed driver; probe refuses an empty image region. */
  ghost predicate Probed(d: Dev)
  {
    && d.phase == Unarmed && d.imageSize > 0 && d.imageWritten == 0 && !d.attempted && d.cpuOnRet == EAGAIN
    && d.session == 0
    && d.openCount == 0 && d.readers == [0, 0, 0, 0] && d.files == map[]
  }

  /** The fields a frame can touch. */
  ghost predicate SameButTraffic(d: Dev, t: Dev)
  {
    t == d.(endpoint := t.endpoint, forward := t.forward, reverse := t.reverse)
    && t.endpoint.generation == d.endpoint.generation
  }

  lemma TransmitIsTraffic(d: Dev, p: priority, kind: u32, payload: seq<byte>, notify: int)
    ensures SameButTraffic(d, Transmit(d, p, kind, payload, notify).0)
            && Transmit(d, p, kind, payload, notify).0.reverse == d.reverse
    ensures var (t, r, n) := Transmit(d, p, kind, payload, notify);
            r == Ok && Session(d) == Ok ==> n == NextSequence(d.endpoint.nextSequence) != 0
    ensures Transmit(d, p, kind, payload, notify).1 == Ok ==> Session(d) == Ok
  {
    hide Seal, PayloadOf;
  }

  ghost predicate SuffixOf(t: seq<Slot>, s: seq<Slot>) { |t| <= |s| && t == s[|s| - |t|..] }

  lemma SuffixStep(u: seq<Slot>, s: seq<Slot>)
    requires s != [] && SuffixOf(u, s[1..])
    ensures SuffixOf(u, s)
  {
  }

  /** Consuming takes frames off the heads of the reverse rings and nothing else. */
  ghost predicate Drained(d: Dev, t: Dev)
  {
    && t == d.(endpoint := t.endpoint, reverse := t.reverse)
    && t.endpoint.generation == d.endpoint.generation && t.endpoint.nextSequence == d.endpoint.nextSequence
    && forall p: priority :: SuffixOf(t.reverse[p], d.reverse[p])
  }

  lemma DrainedFurther(d: Dev, t: Dev, u: Dev)
    requires Drained(d, t) && Drained(t, u)
    ensures Drained(d, u)
  {
  }

  lemma {:induction false} DrainTakesHeads(d: Dev, p: priority)
    ensures Drained(d, DrainSpec(d, p))
    decreases |d.reverse[p]|
  {
    hide Receive;
    ReceiveConsumes(d, p);
    var (t, message, r) := Receive(d, p);
    assert Drained(d, t);
    if Consumed(r) && r != StaleFrame {
      DrainTakesHeads(t, p);
      DrainedFurther(d, t, DrainSpec(t, p));
    }
  }

  lemma ResponseTakesHeads(d: Dev)
    ensures Drained(d, ResponseSpec(d))
  {
    hide DrainSpec;
    if Gate(d.phase) == 0 {
      var d1 := DrainSpec(d, 0);
      var d2 := DrainSpec(d1, 1);
      var d3 := DrainSpec(d2, 2);
      DrainTakesHeads(d, 0);
      DrainTakesHeads(d1, 1);
      DrainedFurther(d, d1, d2);
      DrainTakesHeads(d2, 2);
      DrainedFurther(d, d2, d3);
      DrainTakesHeads(d3, 3);
      DrainedFurther(d, d3, DrainSpec(d3, 3));
    }
  }

  /** Where a drain of p0 can lead, and what had to be found on the way for it to open the data plane. */
  ghost predicate ControlOutcome(d: Dev, t: Dev)
  {
    && t.imageSize == d.imageSize && t.imageWritten == d.imageWritten && t.attempted == d.attempted
    && t.cpuOnRet == d.cpuOnRet
    && t.session == d.session && t.header == d.header && t.endpoint.generation == d.endpoint.generation
    && t.endpoint.nextSequence == d.endpoint.nextSequence && t.forward == d.forward
    && t.stopSequence == d.stopSequence && t.stopNotify == d.stopNotify
    && t.openCount == d.openCount && t.readers == d.readers && t.files == d.files
    && t.reverse == d.reverse[0 := t.reverse[0]] && SuffixOf(t.reverse[0], d.reverse[0])
    && (t.phase == Active ==> |t.reverse[0]| < |d.reverse[0]|)
    && (t.phase != d.phase ==> if d.phase == Starting then t.phase == Active || t.phase == StartTimeout
          else t.phase == Active || t.phase == StopTimeout)
    && (d.phase == Starting && t.phase == Active ==>
          t.peer == d.session && t.sessionResult == 0 && t.seenOn
          && exists s | s in d.reverse[0] ::
            ReadyFor(s.frame, d.session) && s.frame.generation == d.endpoint.generation)
    && (d.phase == Stopping ==> t.peer == d.peer && t.sessionResult == d.sessionResult && t.seenOn == d.seenOn)
    && (d.phase == Stopping && t.phase == Active ==>
          exists s | s in d.reverse[0] :: StopReplyTo(s.frame, d.stopSequence) && s.frame.kind == MSG_STOP_REFUSED
                                          && s.frame.generation == d.endpoint.generation)
    && (t.rxGeneration == d.rxGeneration || (t.phase != Active && t.rxGeneration == AllBumped(d.rxGeneration)))
  }

  lemma {:induction false} ControlDrains(d: Dev, ticks: nat)
    requires d.phase == Starting || d.phase == Stopping
    ensures ControlOutcome(d, ControlDrain(d, ticks))
    decreases |d.reverse[0]|
  {
    hide Receive, ReadyFor, StopReplyTo, Errno;
    ReceiveConsumes(d, 0);
    var (t, message, r) := Receive(d, 0);
    if Consumed(r) {
      assert d.reverse[0][0] in d.reverse[0];
      if r != Ok {
        var u := if r == StaleFrame then t else NoteError(t, r);
        ControlDrains(u, ticks);
        ControlContinues(d, u, ControlDrain(u, ticks));
      } else if ticks > 0 && Digest(t, message.value.frame).None? {
        ControlDrains(t, ticks - 1);
        ControlContinues(d, t, ControlDrain(t, ticks - 1));
      } else {
        ControlEnds(d, t, message.value, ticks);
      }
    }
  }

  lemma ControlEnds(d: Dev, t: Dev, message: Slot, ticks: nat)
    requires (d.phase == Starting || d.phase == Stopping) && d.reverse[0] != [] && message == d.reverse[0][0]
    requires t == d.(endpoint := t.endpoint, reverse := d.reverse[0 := d.reverse[0][1..]])
    requires t.endpoint.generation == d.endpoint.generation == message.frame.generation
    requires t.endpoint.nextSequence == d.endpoint.nextSequence
    ensures ControlOutcome(d, SetTimeout(t))
    ensures Digest(t, message.frame).Some? ==> ControlOutcome(d, Digest(t, message.frame).value)
  {
    hide ReadyFor;
    assert message in d.reverse[0];
    assert ReadyFor(message.frame, d.session) ==>
        exists s | s in d.reverse[0] ::
          ReadyFor(s.frame, d.session) && s.frame.generation == d.endpoint.generation;
    if StopReplyTo(message.frame, d.stopSequence) && message.frame.kind == MSG_STOP_REFUSED {
      assert exists s | s in d.reverse[0] :: StopReplyTo(s.frame, d.stopSequence) && s.frame.kind == MSG_STOP_REFUSED
                                             && s.frame.generation == d.endpoint.generation;
    }
  }

  /** The deadline is extended only by STOP_READY that names the current stop, and the phase stays STOPPING. */
  lemma {:induction false} DrainExtendsOnStopReady(d: Dev, ticks: nat)
    requires (d.phase == Starting || d.phase == Stopping) && DrainExtends(d, ticks)
    ensures var t := ControlDrain(d, ticks);
            d.phase == Stopping && t.phase == Stopping && t.stopReply == MSG_STOP_READY && t.stopResult == 0
    ensures exists s | s in d.reverse[0] :: StopReplyTo(s.frame, d.stopSequence) && s.frame.kind == MSG_STOP_READY
    decreases |d.reverse[0]|
  {
    hide Receive, ReadyFor, Errno;
    ReceiveConsumes(d, 0);
    var (t, message, r) := Receive(d, 0);
    assert d.reverse[0][0] in d.reverse[0];
    if r != Ok {
      DrainExtendsOnStopReady(if r == StaleFrame then t else NoteError(t, r), ticks);
      assert forall s | s in t.reverse[0] :: s in d.reverse[0];
    } else if Digest(t, message.value.frame).None? {
      DrainExtendsOnStopReady(t, ticks - 1);
      assert forall s | s in t.reverse[0] :: s in d.reverse[0];
    } else {
      assert StopReplyTo(message.value.frame, d.stopSequence) && message.value.frame.kind == MSG_STOP_READY;
    }
  }

  lemma ControlContinues(d: Dev, u: Dev, t: Dev)
    requires (d.phase == Starting || d.phase == Stopping) && d.reverse[0] != []
    requires u.reverse == d.reverse[0 := d.reverse[0][1..]] && u.endpoint.generation == d.endpoint.generation
    requires u.endpoint.nextSequence == d.endpoint.nextSequence
    requires u == d.(endpoint := u.endpoint, reverse := u.reverse, sessionResult := u.sessionResult,
                  stopResult := u.stopResult)
    requires d.phase == Stopping ==> u.sessionResult == d.sessionResult
    requires ControlOutcome(u, t)
    ensures ControlOutcome(d, t)
  {
    hide ReadyFor, StopReplyTo;
    SuffixStep(t.reverse[0], d.reverse[0]);
    assert forall s | s in u.reverse[0] :: s in d.reverse[0];
  }

  lemma ControlReaches(d: Dev, expired: bool, ticks: nat)
    requires d.phase == Starting || d.phase == Stopping
    ensures ControlOutcome(d, ControlSpec(d, expired, ticks))
  {
    if !expired {
      ControlDrains(d, ticks);
    }
  }

  /** The actions of the data plane and of the peer. */
  predicate Traffic?(a: Act)
  {
    a.Open? || a.Release? || a.Claim? || a.Read? || a.Write? || a.Ping? || a.Inject? || a.Response? || a.Callback?
    || a.Peer?
  }

  /** Traffic moves frames, files and wake-up counts, and nothing of the lifecycle. */
  ghost predicate SameLifecycle(d: Dev, t: Dev)
  {
    && t == d.(endpoint := t.endpoint, forward := t.forward, reverse := t.reverse,
            openCount := t.openCount, readers := t.readers, files := t.files, rxGeneration := t.rxGeneration)
    && t.endpoint.generation == d.endpoint.generation
  }

  ghost predicate SameFiles(d: Dev, t: Dev)
  {
    t.files == d.files && t.readers == d.readers && t.openCount == d.openCount
  }

  lemma InjectIsTraffic(d: Dev, p: priority, value: u32, damage: bool)
    ensures SameButTraffic(d, InjectSpec(d, p, value, damage).0)
            && InjectSpec(d, p, value, damage).0.reverse == d.reverse
  {
    hide PushSpec, Damage, Seal, StoreU32;
  }

  lemma FilesLeaveLifecycle(d: Dev, fd: nat, p: priority)
    ensures fd !in d.files ==> SameLifecycle(d, OpenSpec(d, fd, p).0)
    ensures fd in d.files ==> SameLifecycle(d, ReleaseSpec(d, fd)) && SameLifecycle(d, ClaimSpec(d, fd).0)
  {
  }

  lemma TrafficLeavesLifecycle(d: Dev, a: Act)
    requires Traffic?(a)
    ensures SameLifecycle(d, Step(d, a))
    ensures !a.Open? && !a.Release? && !a.Claim? ==> SameFiles(d, Step(d, a))
  {
    hide ReadSpec, WriteSpec, PingSpec, ResponseSpec, InjectSpec, StoreU32, OpenSpec, ReleaseSpec, ClaimSpec;
    hide SameLifecycle, SameFiles, SameButTraffic;
    FramesLeaveLifecycle(d, Step(d, a));
    match a {
      case Open(fd, p) =>
        if fd !in d.files { FilesLeaveLifecycle(d, fd, p); } else { NothingLeavesLifecycle(d, Step(d, a)); }
      case Release(fd) => FilesLeaveLifecycle(d, fd, 0); NothingLeavesLifecycle(d, Step(d, a));
      case Claim(fd) => FilesLeaveLifecycle(d, fd, 0); NothingLeavesLifecycle(d, Step(d, a));
      case Inject(p, value, damage) => InjectIsTraffic(d, p, value, damage);
      case Read(fd) => if fd in d.files { ReadIsTraffic(d, d.files[fd].p); } NothingLeavesLifecycle(d, Step(d, a));
      case Write(fd, to, kind, payload, notify) =>
        if fd in d.files { WriteIsTraffic(d, d.files[fd].p, to, kind, payload, notify); }
        NothingLeavesLifecycle(d, Step(d, a));
      case Ping(p, value, notify) => PingIsTraffic(d, p, value, notify);
      case Response => ResponseTakesHeads(d);
      case _ => NothingLeavesLifecycle(d, Step(d, a));
    }
  }

  lemma FramesLeaveLifecycle(d: Dev, t: Dev)
    ensures SameButTraffic(d, t) || Drained(d, t) ==> SameLifecycle(d, t) && SameFiles(d, t)
  {
    hide SuffixOf;
  }

  lemma NothingLeavesLifecycle(d: Dev, t: Dev)
    ensures t == d.(rxGeneration := t.rxGeneration, forward := t.forward, reverse := t.reverse) ==>
              SameLifecycle(d, t) && SameFiles(d, t)
  {
  }

  lemma ReadIsTraffic(d: Dev, p: priority)
    ensures SameButTraffic(d, ReadSpec(d, p).0)
  {
    hide Receive;
    ReceiveConsumes(d, p);
  }

  lemma WriteIsTraffic(d: Dev, p: priority, to: u32, kind: u32, payload: seq<byte>, notify: int)
    ensures SameButTraffic(d, WriteSpec(d, p, to, kind, payload, notify).0)
  {
    hide Transmit;
    TransmitIsTraffic(d, p, kind, payload, notify);
  }

  lemma PingIsTraffic(d: Dev, p: priority, value: u32, notify: int)
    ensures SameButTraffic(d, PingSpec(d, p, value, notify).0)
  {
    hide Transmit, StoreU32;
    TransmitIsTraffic(d, p, MSG_PING, StoreU32(value), notify);
  }

  lemma StepKeepsSound(d: Dev, a: Act)
    requires Sound(d)
    ensures Sound(Step(d, a))
  {
    if Traffic?(a) {
      TrafficLeavesLifecycle(d, a);
      hide Step;
    } else {
      LifecycleKeepsSound(d, a);
    }
  }

  lemma LifecycleKeepsSound(d: Dev, a: Act)
    requires Sound(d) && !Traffic?(a)
    ensures Sound(Step(d, a)) && SameFiles(d, Step(d, a))
    ensures d.openCount != 0 && Step(d, a).phase != d.phase ==> d.phase != Active || Step(d, a).phase == Offline
    ensures d.openCount != 0 && d.phase == Offline ==> Step(d, a).phase == Offline
  {
    if a.Control? {
      ControlKeepsSound(d, a.expired, a.ticks);
      hide ControlSpec, Sound;
    } else if a.Stop? {
      StopKeepsSound(d, a.notify);
      hide StopSpec, Sound;
    } else if a.Start? || a.Rearm? {
      hide Refresh;
      RefreshKeepsSound(d, a.a);
    } else {
      hide StartSpec, RearmSpec;
    }
  }

  lemma RefreshKeepsSound(d: Dev, a: Affinity)
    requires Sound(d)
    ensures var t := Refresh(d, a);
            && Sound(t) && t == d.(seenOn := t.seenOn, phase := t.phase, rxGeneration := t.rxGeneration)
            && (t.phase == d.phase || t.phase == Offline)
  {
  }

  lemma ControlKeepsSound(d: Dev, expired: bool, ticks: nat)
    requires Sound(d)
    ensures var t := ControlSpec(d, expired, ticks);
            && Sound(t) && SameFiles(d, t) && (t.phase != d.phase ==> d.phase == Starting || d.phase == Stopping)
  {
    hide ControlDrain;
    if d.phase == Starting || d.phase == Stopping {
      ControlReaches(d, expired, ticks);
      hide ControlSpec, ReadyFor, StopReplyTo, SuffixOf;
    }
  }

  lemma StopKeepsSound(d: Dev, notify: int)
    requires Sound(d)
    ensures var t := StopSpec(d, notify).0;
            && Sound(t) && SameFiles(d, t) && (t.phase != d.phase ==> d.phase == Active && d.openCount == 0)
  {
    hide Transmit;
    TransmitIsTraffic(d.(phase := Stopping, stopSequence := 0, stopReply := 0, stopResult := EINPROGRESS,
                      stopNotify := EINPROGRESS),
                      0, MSG_STOP_REQUEST, [], notify);
  }

  /** A run: each state follows from the one before by the action between them. */
  ghost predicate Trace(states: seq<Dev>, acts: seq<Act>)
  {
    |states| == |acts| + 1 && forall i | 0 <= i < |acts| :: states[i + 1] == Step(states[i], acts[i])
  }

  lemma {:induction false} TraceIsSound(states: seq<Dev>, acts: seq<Act>, n: nat)
    requires Trace(states, acts) && Probed(states[0]) && n < |states|
    ensures Sound(states[n])
  {
    if n > 0 {
      TraceIsSound(states, acts, n - 1);
      StepKeepsSound(states[n - 1], acts[n - 1]);
    }
  }

  ghost predicate Rearms(states: seq<Dev>, acts: seq<Act>, i: nat)
    requires Trace(states, acts)
  {
    i < |acts| && acts[i].Rearm? && states[i].phase != Unarmed && states[i + 1].phase == Unarmed
  }

  ghost predicate Starts(states: seq<Dev>, acts: seq<Act>, i: nat)
    requires Trace(states, acts)
  {
    && i < |acts| && acts[i].Start? && states[i].phase == Unarmed && states[i + 1].phase == Starting
    && states[i + 1].session == NextSequence(states[i].session) != states[i].session
    && states[i + 1].forward == states[i + 1].reverse == [[], [], [], []]
  }

  /** READY with the number of this very session was found on p0. */
  ghost predicate Confirms(states: seq<Dev>, acts: seq<Act>, i: nat)
    requires Trace(states, acts)
  {
    && i < |acts| && acts[i].Control? && states[i].phase == Starting && states[i + 1].phase == Active
    && states[i + 1].peer == states[i].session
    && exists s | s in states[i].reverse[0] ::
         ReadyFor(s.frame, states[i].session) && s.frame.generation == states[i].session
  }

  /** The core was seen on in this session, and this act sampled it off; a rearm that succeeds leads elsewhere. */
  predicate SawOff(d: Dev, a: Act)
  {
    && d.phase != Unarmed && d.phase != Offline && d.seenOn
    && match a
       case AffinityWork(x) => x == AffinityOff
       case AffinityShow(x) => x == AffinityOff
       case Timeout(expired, x) => x == AffinityOff && expired && d.phase == Stopping && d.stopReply == MSG_STOP_READY
       case Rearm(x, doorbellPending) => x == AffinityOff && doorbellPending && d.openCount == 0
       case _ => false
  }

  /**
   Where one step can lead from each phase, and which step it takes; a core seen off leads to OFFLINE, and nothing
   else.
   */
  ghost predicate WayOut(d: Dev, t: Dev, a: Act)
  {
    if SawOff(d, a) then t.phase == Offline
    else
      t.phase == d.phase || (t.phase == Unarmed && a.Rearm?)
      || match d.phase
         case Unarmed =>
           a.Start? && t.phase == Starting && t.session == NextSequence(d.session)
           && t.forward == t.reverse == [[], [], [], []]
         case Starting =>
           || (t.phase == StartTimeout && (a.Control? || a.Timeout?))
           || (t.phase == Active && a.Control? && t.peer == d.session
               && exists s | s in d.reverse[0] :: ReadyFor(s.frame, d.session) && s.frame.generation == d.session)
         case Active => t.phase == Stopping && a.Stop? && d.openCount == 0
         case Stopping =>
           || (t.phase == StopTimeout && (a.Control? || a.Timeout?))
           || (t.phase == Active && a.Control?
               && exists s | s in d.reverse[0] ::
                 StopReplyTo(s.frame, d.stopSequence) && s.frame.kind == MSG_STOP_REFUSED)
         case _ => false
  }

  lemma WaysOut(d: Dev, a: Act)
    requires Sound(d)
    ensures WayOut(d, Step(d, a), a)
  {
    if Traffic?(a) {
      TrafficLeavesLifecycle(d, a);
      hide Step, ReadyFor, StopReplyTo;
    } else if a.Control? {
      ControlWayOut(d, a.expired, a.ticks);
      hide ControlSpec, WayOut;
    } else {
      hide Transmit, ReadyFor, StopReplyTo;
    }
  }

  lemma ControlWayOut(d: Dev, expired: bool, ticks: nat)
    requires Sound(d)
    ensures WayOut(d, ControlSpec(d, expired, ticks), Control(expired, ticks))
  {
    hide ControlDrain, ReadyFor, SuffixOf;
    if d.phase == Starting || d.phase == Stopping {
      ControlReaches(d, expired, ticks);
      hide ControlSpec, StopReplyTo;
    }
  }

  /** The phases of an opened session from which ACTIVE can still be reached within it. */
  predicate Reopenable?(phase: Phase) { phase == Active || phase == Stopping }

  /** Which steps lead into an opened session and into STARTING. */
  lemma WaysBack(d: Dev, a: Act)
    requires Sound(d)
    ensures var t := Step(d, a);
            && (Reopenable?(t.phase) ==>
                  || (Reopenable?(d.phase) && t.session == d.session)
                  || (d.phase == Starting && t.phase == Active && a.Control? && t.session == d.session
                      && t.peer == d.session
                      && exists s | s in d.reverse[0] ::
                        ReadyFor(s.frame, d.session) && s.frame.generation == d.session))
            && (t.phase == Starting ==>
                  || (d.phase == Starting && t.session == d.session)
                  || (d.phase == Unarmed && a.Start? && t.session == NextSequence(d.session)
                      && t.forward == t.reverse == [[], [], [], []]))
  {
    if Traffic?(a) {
      TrafficLeavesLifecycle(d, a);
      hide Step, ReadyFor;
    } else if a.Control? {
      if d.phase == Starting || d.phase == Stopping {
        ControlReaches(d, a.expired, a.ticks);
      }
      hide ControlDrain, ReadyFor, SuffixOf;
    } else {
      hide Transmit, ReadyFor;
      if a.Stop? {
        TransmitIsTraffic(d.(phase := Stopping, stopSequence := 0, stopReply := 0, stopResult := EINPROGRESS,
                          stopNotify := EINPROGRESS),
                          0, MSG_STOP_REQUEST, [], a.notify);
      }
    }
  }

  /** The session that is open at j was opened at c, and has been open ever since. */
  ghost predicate OpenedAt(states: seq<Dev>, acts: seq<Act>, c: nat, j: nat)
    requires Trace(states, acts) && j < |states|
  {
    && c < j && Confirms(states, acts, c) && states[c].session == states[j].session
    && forall k | c < k <= j :: Reopenable?(states[k].phase) && states[k].session == states[j].session
  }

  /** The session that waits for READY at c was started at b, and has been waiting ever since. */
  ghost predicate StartedAt(states: seq<Dev>, acts: seq<Act>, b: nat, c: nat)
    requires Trace(states, acts) && c < |states|
  {
    && b < c && Starts(states, acts, b) && states[b + 1].session == states[c].session
    && forall k | b < k <= c :: states[k].phase == Starting && states[k].session == states[c].session
  }

  lemma ProbedIsClosed(d: Dev)
    requires Probed(d)
    ensures d.phase == Unarmed
  {
  }

  lemma {:induction false} FindsOpening(states: seq<Dev>, acts: seq<Act>, j: nat) returns (c: nat)
    requires Trace(states, acts) && Probed(states[0]) && j < |states| && Reopenable?(states[j].phase)
    ensures OpenedAt(states, acts, c, j)
  {
    hide Step, Sound, Probed;
    assert j > 0 by { ProbedIsClosed(states[0]); }
    TraceIsSound(states, acts, j - 1);
    WaysBack(states[j - 1], acts[j - 1]);
    if Reopenable?(states[j - 1].phase) {
      c := FindsOpening(states, acts, j - 1);
    } else {
      c := j - 1;
    }
  }

  lemma {:induction false} FindsStart(states: seq<Dev>, acts: seq<Act>, c: nat) returns (b: nat)
    requires Trace(states, acts) && Probed(states[0]) && c < |states| && states[c].phase == Starting
    ensures StartedAt(states, acts, b, c)
  {
    TraceIsSound(states, acts, c - 1);
    WaysBack(states[c - 1], acts[c - 1]);
    hide Step;
    if states[c - 1].phase == Starting {
      b := FindsStart(states, acts, c - 1);
    } else {
      b := c - 1;
    }
  }

  predicate Dead?(phase: Phase) { phase == StartTimeout || phase == StopTimeout || phase == Offline }

  lemma {:induction false} FindsRearm(states: seq<Dev>, acts: seq<Act>, i: nat, b: nat) returns (a: nat)
    requires Trace(states, acts) && Probed(states[0]) && i <= b < |states|
    requires Dead?(states[i].phase) && states[b].phase == Unarmed
    ensures i <= a < b && Rearms(states, acts, a)
    decreases b - i
  {
    TraceIsSound(states, acts, i);
    hide Step;
    WaysOut(states[i], acts[i]);
    if states[i + 1].phase == Unarmed {
      a := i;
    } else {
      a := FindsRearm(states, acts, i + 1, b);
    }
  }

  /**
   From either timeout or from OFFLINE the data plane reopens only by a rearm, behind it a start with a new number, and
   behind that READY carrying this number; the session open at j is the one so started and so confirmed.
   */
  lemma ReopensOnlyThroughANewSession(states: seq<Dev>, acts: seq<Act>, i: nat, j: nat) returns (a: nat, b: nat, c: nat)
    requires Trace(states, acts) && Probed(states[0]) && i <= j < |states|
    requires Dead?(states[i].phase) && states[j].phase == Active
    ensures i <= a < b < c < j && Rearms(states, acts, a) && StartedAt(states, acts, b, c)
            && OpenedAt(states, acts, c, j)
    ensures states[b + 1].session == states[c].session == states[j].session == states[j].peer
  {
    hide Step;
    TraceIsSound(states, acts, j);
    c := FindsOpening(states, acts, j);
    b := FindsStart(states, acts, c);
    a := FindsRearm(states, acts, i, b);
  }

  /** In every run: an opened session is confirmed, bound and complete. */
  lemma OpenedSessionIsConfirmed(states: seq<Dev>, acts: seq<Act>, n: nat)
    requires Trace(states, acts) && Probed(states[0]) && n < |states|
    ensures var d := states[n];
            Open?(d.phase) ==>
              && d.peer == d.session == d.endpoint.generation == d.header.generation != 0
              && d.sessionResult == 0 && d.cpuOnRet == 0 && d.imageWritten == d.imageSize
              && (forall off, count :: ImageWriteSpec(d, off, count) == (d, EBUSY))
  {
    TraceIsSound(states, acts, n);
  }
}
