/** The Linux driver's state and its lock-protected regions, each tied to what it does to the whole of that state. */
module Driver {
  import opened Words
  import opened Frames
  import opened R = Ring
  import opened E = Endpoint
  import opened Device
  import opened Lifecycle
  import opened OpenFiles
  import Regions

  /** One frame of the drain. */
  lemma ControlDrainTurn(d: Dev, ticks: nat)
    ensures var (t, message, r) := Device.Receive(d, 0);
            && (r.RingError? && r != RingError(RingEmpty) && r != RingError(RingIncomplete) ==> Consumed(r))
            && (Consumed(r) ==> |t.reverse[0]| < |d.reverse[0]|)
            && (r == Ok ==> message.Some?) && t.phase == d.phase
            && ControlDrain(d, ticks) ==
               if r == RingError(RingEmpty) || r == RingError(RingIncomplete) then t
               else if r == StaleFrame then ControlDrain(t, ticks)
               else if r.RingError? then ControlDrain(Device.NoteError(t, r), ticks)
               else if r != Ok then Device.NoteError(t, r)
               else if ticks == 0 then Device.SetTimeout(t)
               else if Device.Digest(t, message.value.frame).Some? then Device.Digest(t, message.value.frame).value
               else ControlDrain(t, ticks - 1)
    ensures var (t, message, r) := Device.Receive(d, 0);
            DrainExtends(d, ticks) ==
            if r == RingError(RingEmpty) || r == RingError(RingIncomplete) then false
            else if r == StaleFrame then DrainExtends(t, ticks)
            else if r.RingError? then DrainExtends(Device.NoteError(t, r), ticks)
            else if r != Ok || ticks == 0 then false
            else if Device.Digest(t, message.value.frame).Some?
            then Device.Digest(t, message.value.frame).value.phase == Stopping
            else DrainExtends(t, ticks - 1)
  {
    hide Device.Receive, Device.Digest, Device.SetTimeout, Device.NoteError;
    ReceiveConsumes(d, 0);
  }

  /** The lifecycle plane owns p0. */
  predicate Pending?(phase: Phase) { phase == Starting || phase == Stopping }

  lemma FreshHolds(d: Dev)
    requires Probed(d)
    ensures Trace([d], []) && Sound(d) && Accounted(d)
  {
    TraceIsSound([d], [], 0);
    TraceIsAccounted([d], [], 0);
  }

  lemma TraceGrows(states: seq<Dev>, acts: seq<Act>, a: Act)
    requires |states| == |acts| + 1 && Trace(states, acts)
    ensures Trace(states + [Step(states[|acts|], a)], acts + [a])
  {
    hide Step;
  }

  class Driver {
    const window: Shared
    const endpoint: E.Endpoint

    var phase: Phase
    const imageSize: nat
    var imageWritten: nat
    var affinitySeenOn: bool
    var cpuOnAttempted: bool
    var cpuOnRet: int
    var sessionGeneration: u32
    var peerGeneration: u32
    var sessionResult: int
    var stopRequestSequence: u32
    var stopReplyType: u32
    var stopResult: int
    var stopNotifyResult: int
    var openCount: int
    var readerCount: Tallies
    var files: map<nat, File>
    var rxGeneration: Counts
    /** What has happened to this driver since probe. */
    ghost var states: seq<Dev>
    ghost var acts: seq<Act>

    /** The object structure: the window, and the endpoint bound to it or to nothing. */
    ghost predicate Linked()
      reads this, window, endpoint, set r | r in window.toCpu3 + window.toLinux
    {
      && window.Valid()
      && (endpoint.shared == null
          || (endpoint.shared == window && endpoint.tx == window.toCpu3 && endpoint.rx == window.toLinux))
      && (endpoint.shared == null ==> endpoint.generation == 0 && phase == Unarmed)
      && endpoint.Valid()
    }

    ghost function Rings(r: seq<R.Ring>): Rings
      requires |r| == PRIORITY_COUNT && forall p: priority :: r[p].Valid()
      reads r, set x | x in r :: x.slot
    {
      [r[0].Contents(), r[1].Contents(), r[2].Contents(), r[3].Contents()]
    }

    ghost function View(): Dev
      requires Linked()
      reads this, window, endpoint, set r | r in window.toCpu3 + window.toLinux,
            set r | r in window.toCpu3 + window.toLinux :: r.slot
    {
      Dev(phase, imageSize, imageWritten, affinitySeenOn, cpuOnAttempted, cpuOnRet,
          sessionGeneration, peerGeneration, sessionResult,
          stopRequestSequence, stopReplyType, stopResult, stopNotifyResult,
          Header(window.magic, window.version, window.generation), endpoint.View(),
          Rings(window.toCpu3), Rings(window.toLinux),
          openCount, readerCount, files, rxGeneration)
    }

    /**
     Between two locked regions: the history is a run of the lifecycle that ends in the present state. All that is
     proved of such runs therefore holds of every driver object; the two invariants they keep are named for its
     callers.
     */
    ghost predicate Valid()
      reads this, window, endpoint, set r | r in window.toCpu3 + window.toLinux,
            set r | r in window.toCpu3 + window.toLinux :: r.slot
    {
      && Linked()
      && |states| == |acts| + 1 && Probed(states[0]) && Trace(states, acts) && states[|acts|] == View()
      && Sound(View()) && Accounted(View())
    }

    constructor (window: Shared, imageSize: nat)
      requires window.Valid() && imageSize > 0
      ensures Valid() && this.window == window && fresh(endpoint) && acts == []
    {
      this.window, this.imageSize := window, imageSize;
      endpoint := new E.Endpoint();
      phase, imageWritten, affinitySeenOn, cpuOnAttempted, cpuOnRet := Unarmed, 0, false, false, EAGAIN;
      sessionGeneration, peerGeneration, sessionResult := 0, 0, EAGAIN;
      stopRequestSequence, stopReplyType, stopResult, stopNotifyResult := 0, 0, EAGAIN, EAGAIN;
      openCount, readerCount, files, rxGeneration := 0, [0, 0, 0, 0], map[], [0, 0, 0, 0];
      acts := [];
      new;
      states := [View()];
      FreshHolds(View());
    }

    /** Enters a locked region, or what CPU3 did meanwhile, into the history. */
    ghost method Record(a: Act)
      requires Linked() && |states| == |acts| + 1 && Probed(states[0]) && Trace(states, acts)
      requires View() == Step(states[|acts|], a) && Sound(states[|acts|]) && Accounted(states[|acts|])
      modifies this`states, this`acts
      ensures Valid() && View() == old(View()) && acts == old(acts) + [a] && states == old(states) + [View()]
    {
      hide Step, Rings, Shared.Valid, E.Endpoint.Valid, Sound, Accounted;
      StepKeepsSound(states[|acts|], a);
      StepKeepsAccounted(states[|acts|], a);
      TraceGrows(states, acts, a);
      states, acts := states + [View()], acts + [a];
    }

    /** Sends through the endpoint, in the driver's terms. */
    method Enqueue(p: priority, kind: u32, payload: seq<byte>, notify: int) returns (r: Outcome, sequence: u32)
      requires Linked() && endpoint.shared != null
      modifies endpoint, window.toCpu3[p], window.toCpu3[p].slot
      ensures Linked() && endpoint.shared != null
      ensures (View(), r, sequence) == Transmit(old(View()), p, kind, payload, notify)
    {
      hide SendSpec, R.Ring.Contents;
      var result;
      ghost var before := Rings(window.toCpu3);
      r, result := endpoint.Send(p, kind, Some(payload), |payload|, notify);
      assert Rings(window.toCpu3) == before[p := window.toCpu3[p].Contents()];
      sequence := if result.Some? then result.value.sequence else 0;
    }

    method Dequeue(p: priority) returns (r: Outcome, message: Option<Slot>)
      requires Linked() && endpoint.shared != null
      modifies endpoint, window.toLinux[p]
      ensures Linked() && endpoint.shared != null
      ensures (View(), message, r) == Receive(old(View()), p)
    {
      hide ReceiveSpec, R.Ring.Contents;
      ghost var before := Rings(window.toLinux);
      r, message := endpoint.Receive(p);
      assert Rings(window.toLinux) == before[p := window.toLinux[p].Contents()];
    }

    /** Every reader is made to look again. */
    method WakeReaders()
      requires Linked()
      modifies this`rxGeneration
      ensures Linked() && View() == old(View()).(rxGeneration := AllBumped(old(rxGeneration)))
    {
      hide Rings;
      for p := 0 to PRIORITY_COUNT
        invariant forall q: priority :: rxGeneration[q] == old(rxGeneration)[q] + if q < p then 1 else 0
        invariant View() == old(View()).(rxGeneration := rxGeneration)
      {
        rxGeneration := rxGeneration[p := rxGeneration[p] + 1];
      }
    }

    method MarkOffline()
      requires Linked()
      modifies this`phase, this`rxGeneration
      ensures Linked() && View() == Device.MarkOffline(old(View()))
    {
      hide Rings;
      if phase != Starting && phase != StartTimeout && phase != Active && phase != Stopping && phase != StopTimeout {
        return;
      }
      phase := Offline;
      WakeReaders();
    }

    method RefreshAffinity(state: Affinity)
      requires Linked()
      modifies this`affinitySeenOn, this`phase, this`rxGeneration
      ensures Linked() && View() == Refresh(old(View()), state)
      ensures affinitySeenOn == (old(affinitySeenOn) || state == AffinityOn || state == AffinityOnPending)
      ensures var live := old(phase) != Unarmed && old(phase) != Offline;
              phase == if live && cpuOnRet == 0 && affinitySeenOn && state == AffinityOff then Offline else old(phase)
    {
      hide Rings;
      if state == AffinityOn || state == AffinityOnPending {
        affinitySeenOn := true;
      }
      if cpuOnRet == 0 && affinitySeenOn && state == AffinityOff {
        MarkOffline();
      }
    }

    method SetTimeout()
      requires Linked()
      modifies this`phase, this`sessionResult, this`stopResult, this`rxGeneration
      ensures Linked() && View() == Device.SetTimeout(old(View()))
    {
      hide Rings;
      if phase == Starting {
        sessionResult := ETIMEDOUT;
        phase := StartTimeout;
      } else if phase == Stopping {
        stopResult := ETIMEDOUT;
        phase := StopTimeout;
      }
      WakeReaders();
    }

    method AffinityWorkLocked(state: Affinity) returns (drain: bool, again: bool)
      requires Linked()
      modifies this`affinitySeenOn, this`phase, this`rxGeneration
      ensures Linked() && View() == AffinitySpec(old(View()), state)
      ensures drain == Pending?(phase) && again == Live(phase)
    {
      hide Rings;
      if phase == Unarmed || phase == Offline {
        return false, false;
      }
      RefreshAffinity(state);
      drain := phase == Starting || phase == Stopping;
      again := phase != Offline;
    }

    method TimeoutWorkLocked(expired: bool, state: Affinity)
      requires Linked()
      modifies this`affinitySeenOn, this`phase, this`sessionResult, this`stopResult, this`rxGeneration
      ensures Linked() && View() == TimeoutSpec(old(View()), expired, state)
    {
      hide Rings;
      if (phase != Starting && phase != Stopping) || !expired {
        return;
      }
      if phase == Stopping && stopReplyType == MSG_STOP_READY {
        RefreshAffinity(state);
        if phase == Offline {
          return;
        }
      }
      SetTimeout();
    }

    method NoteError(r: Outcome)
      requires Linked()
      modifies this`sessionResult, this`stopResult
      ensures Linked() && View() == Device.NoteError(old(View()), r)
    {
      hide Rings, Errno;
      if phase == Starting {
        sessionResult := Errno(r);
      } else {
        stopResult := Errno(r);
      }
    }

    /**
     One current frame in the hands of the lifecycle plane; done when it was the one waited for, and STOP_READY extends
     the deadline.
     */
    method Digest(f: Frame) returns (done: bool, extended: bool)
      requires Linked() && (phase == Starting || phase == Stopping)
      modifies this`phase, this`peerGeneration, this`sessionResult, this`affinitySeenOn, this`stopReplyType,
               this`stopResult
      ensures Linked() && done == Device.Digest(old(View()), f).Some?
      ensures View() == if done then Device.Digest(old(View()), f).value else old(View())
      ensures extended <==> done && phase == Stopping
      ensures extended ==> stopReplyType == MSG_STOP_READY && f.kind == MSG_STOP_READY
    {
      hide Rings, ReadyFor, StopReplyTo;
      if phase == Starting {
        if !ReadyFor(f, sessionGeneration) {
          return false, false;
        }
        peerGeneration := sessionGeneration;
        sessionResult := 0;
        affinitySeenOn := true;
        phase := Active;
        return true, false;
      }
      if !StopReplyTo(f, stopRequestSequence) {
        return false, false;
      }
      stopReplyType := f.kind;
      if f.kind == MSG_STOP_READY {
        stopResult := 0;
      } else {
        stopResult := ECANCELED;
        phase := Active;
      }
      done, extended := true, phase == Stopping;
    }

    /** The lifecycle plane's drain of p0; the deadline passes after `ticks` good frames. */
    method ControlWorkLocked(expired: bool, ticks: nat) returns (extended: bool)
      requires Linked()
      modifies this`phase, this`imageWritten, this`affinitySeenOn, this`cpuOnAttempted, this`cpuOnRet,
               this`sessionGeneration
      modifies this`peerGeneration, this`sessionResult, this`stopRequestSequence, this`stopReplyType, this`stopResult
      modifies this`stopNotifyResult, this`rxGeneration, endpoint, window.toLinux[0]
      ensures Linked() && View() == ControlSpec(old(View()), expired, ticks)
      ensures extended == ControlExtends(old(View()), expired, ticks)
    {
      hide Rings, Device.Receive, Device.Digest, Device.SetTimeout, Device.NoteError;
      extended := false;
      if phase != Starting && phase != Stopping {
        return;
      }
      if expired {
        SetTimeout();
        return;
      }
      var left := ticks;
      var done := false;
      while !done
        invariant Linked() && (!done ==> phase == Starting || phase == Stopping)
        invariant ControlDrain(old(View()), ticks) == if done then View() else ControlDrain(View(), left)
        invariant DrainExtends(old(View()), ticks) == if done then extended else DrainExtends(View(), left)
        decreases !done, |View().reverse[0]|
      {
        left, done, extended := ControlTurn(left);
      }
    }

    /** One turn of the drain. */
    method ControlTurn(ticks: nat) returns (left: nat, done: bool, extended: bool)
      requires Linked() && (phase == Starting || phase == Stopping)
      modifies this`phase, this`imageWritten, this`affinitySeenOn, this`cpuOnAttempted, this`cpuOnRet,
               this`sessionGeneration
      modifies this`peerGeneration, this`sessionResult, this`stopRequestSequence, this`stopReplyType, this`stopResult
      modifies this`stopNotifyResult, this`rxGeneration, endpoint, window.toLinux[0]
      ensures Linked() && (!done ==> phase == Starting || phase == Stopping)
      ensures ControlDrain(old(View()), ticks) == if done then View() else ControlDrain(View(), left)
      ensures !done ==> |View().reverse[0]| < |old(View()).reverse[0]|
      ensures DrainExtends(old(View()), ticks) == if done then extended else DrainExtends(View(), left)
    {
      hide Device.Receive, Device.Digest, Device.SetTimeout, ControlDrain, DrainExtends, Rings;
      left, done, extended := ticks, false, false;
      ControlDrainTurn(View(), ticks);
      var r, message := Dequeue(0);
      if r == RingError(RingEmpty) || r == RingError(RingIncomplete) {
        done := true;
      } else if r == StaleFrame {
        return;
      } else if r != Ok {
        NoteError(r);
        done := !r.RingError?;
      } else if left == 0 {
        SetTimeout();
        done := true;
      } else {
        left := left - 1;
        done, extended := Digest(message.value.frame);
      }
    }

    method ImageWriteLocked(off: nat, count: nat) returns (r: int)
      requires Linked()
      modifies this`imageWritten
      ensures Linked() && (View(), r) == ImageWriteSpec(old(View()), off, count)
    {
      hide Rings;
      if cpuOnAttempted {
        return EBUSY;
      }
      if off != imageWritten {
        return ESPIPE;
      }
      if imageWritten + count > imageSize {
        return EFBIG;
      }
      imageWritten := imageWritten + count;
      r := 0;
    }

    method RearmLocked(state: Affinity, doorbellPending: bool) returns (r: int)
      requires Linked()
      modifies this`phase, this`imageWritten, this`affinitySeenOn, this`cpuOnAttempted, this`cpuOnRet,
               this`sessionGeneration
      modifies this`peerGeneration, this`sessionResult, this`stopRequestSequence, this`stopReplyType, this`stopResult
      modifies this`stopNotifyResult, this`rxGeneration, endpoint
      ensures Linked() && (View(), r) == RearmSpec(old(View()), state, doorbellPending)
    {
      hide Rings;
      if !cpuOnAttempted {
        return EINVAL;
      }
      if openCount != 0 {
        return EBUSY;
      }
      RefreshAffinity(state);
      if state != AffinityOff || doorbellPending {
        return EBUSY;
      }
      Disarm();
      r := 0;
    }

    method Disarm()
      requires Linked()
      modifies this`phase, this`imageWritten, this`affinitySeenOn, this`cpuOnAttempted, this`cpuOnRet,
               this`sessionGeneration
      modifies this`peerGeneration, this`sessionResult, this`stopRequestSequence, this`stopReplyType, this`stopResult
      modifies this`stopNotifyResult, this`rxGeneration, endpoint
      ensures Linked()
      ensures View() == old(View()).(endpoint := FreshCore(0), imageWritten := 0, attempted := false,
                        cpuOnRet := EAGAIN, seenOn := false,
                        phase := Unarmed, peer := 0, sessionResult := EAGAIN,
                        stopSequence := 0, stopReply := 0, stopResult := EAGAIN, stopNotify := EAGAIN)
    {
      hide Rings, Shared.Valid, E.Endpoint.Valid;
      Unbind();
      ForgetPeer(EAGAIN);
      NoteCpuOn(false, EAGAIN);
      ClearStop(EAGAIN);
    }

    method Unbind()
      requires Linked()
      modifies this`phase, this`imageWritten, endpoint
      ensures Linked() && View() == old(View()).(endpoint := FreshCore(0), imageWritten := 0, phase := Unarmed)
    {
      hide Rings, Shared.Valid, Shared.Disjoint;
      phase := Unarmed;
      endpoint.Forget();
      imageWritten := 0;
    }

    /** Opens a session; `cpuOn` is what CPU_ON answers. */
    method StartLocked(state: Affinity, cpuOn: int) returns (r: int)
      requires Linked()
      modifies this`phase, this`imageWritten, this`affinitySeenOn, this`cpuOnAttempted, this`cpuOnRet,
               this`sessionGeneration
      modifies this`peerGeneration, this`sessionResult, this`stopRequestSequence, this`stopReplyType, this`stopResult
      modifies this`stopNotifyResult, this`rxGeneration, endpoint, window, set x | x in window.toCpu3 + window.toLinux,
               set x | x in window.toCpu3 + window.toLinux :: x.slot
      ensures Linked() && (View(), r) == StartSpec(old(View()), state, cpuOn)
    {
      hide Rings;
      if cpuOnAttempted {
        return EALREADY;
      }
      if imageWritten != imageSize {
        return ENODATA;
      }
      RefreshAffinity(state);
      if state != AffinityOff {
        return EBUSY;
      }
      sessionGeneration := NextSequence(sessionGeneration);
      FormatWindow();
      Launch(cpuOn);
      r := cpuOn;
    }

    /** The session is marked as starting before CPU_ON is asked for. */
    method Launch(cpuOn: int)
      requires Linked() && endpoint.shared == window
      modifies this`phase, this`imageWritten, this`affinitySeenOn, this`cpuOnAttempted, this`cpuOnRet,
               this`sessionGeneration
      modifies this`peerGeneration, this`sessionResult, this`stopRequestSequence, this`stopReplyType, this`stopResult
      modifies this`stopNotifyResult, this`rxGeneration
      ensures Linked()
      ensures View() == old(View()).(peer := 0, stopSequence := 0, stopReply := 0, stopResult := EAGAIN,
                        stopNotify := EAGAIN,
                        seenOn := false, attempted := true, cpuOnRet := cpuOn,
                        phase := if cpuOn == 0 then Starting else Unarmed,
                        sessionResult := if cpuOn == 0 then EINPROGRESS else cpuOn)
    {
      hide Rings, Shared.Valid, E.Endpoint.Valid;
      ForgetPeer(EINPROGRESS);
      ClearStop(EAGAIN);
      phase := Starting;
      NoteCpuOn(true, cpuOn);
      if cpuOnRet != 0 {
        phase, sessionResult := Unarmed, cpuOnRet;
      }
    }

    method NoteCpuOn(attempted: bool, result: int)
      requires Linked()
      modifies this`affinitySeenOn, this`cpuOnAttempted, this`cpuOnRet
      ensures Linked() && View() == old(View()).(seenOn := false, attempted := attempted, cpuOnRet := result)
    {
      hide Rings, Shared.Valid, E.Endpoint.Valid;
      affinitySeenOn, cpuOnAttempted, cpuOnRet := false, attempted, result;
    }

    method ForgetPeer(result: int)
      requires Linked()
      modifies this`peerGeneration, this`sessionResult
      ensures Linked() && View() == old(View()).(peer := 0, sessionResult := result)
    {
      hide Rings, Shared.Valid, E.Endpoint.Valid;
      peerGeneration, sessionResult := 0, result;
    }

    method ClearStop(result: int)
      requires Linked()
      modifies this`stopRequestSequence, this`stopReplyType, this`stopResult, this`stopNotifyResult
      ensures Linked()
      ensures View() == old(View()).(stopSequence := 0, stopReply := 0, stopResult := result, stopNotify := result)
    {
      hide Rings, Shared.Valid, E.Endpoint.Valid;
      ForgetStop();
      stopResult, stopNotifyResult := result, result;
    }

    method ForgetStop()
      requires Linked()
      modifies this`stopRequestSequence, this`stopReplyType
      ensures Linked() && View() == old(View()).(stopSequence := 0, stopReply := 0)
    {
      hide Rings, Shared.Valid, E.Endpoint.Valid;
      stopRequestSequence, stopReplyType := 0, 0;
    }

    /** Zeroes the shared window, heads it with this session, and binds the endpoint to it. */
    method FormatWindow()
      requires Linked() && sessionGeneration != 0
      modifies endpoint, window, set x | x in window.toCpu3 + window.toLinux,
               set x | x in window.toCpu3 + window.toLinux :: x.slot
      ensures Linked() && endpoint.shared == window
      ensures View() == old(View()).(header := Header(PROTOCOL_MAGIC, PROTOCOL_VERSION, sessionGeneration),
                        endpoint := FreshCore(sessionGeneration), forward := [[], [], [], []],
                        reverse := [[], [], [], []])
    {
      window.Format(PROTOCOL_MAGIC, PROTOCOL_VERSION, sessionGeneration);
      var bound := endpoint.Bind(window, true);
    }

    /** A controlled stop: the state is closed first, then the request is committed. */
    method StopLocked(notify: int) returns (r: int)
      requires Linked()
      modifies this`phase, this`imageWritten, this`affinitySeenOn, this`cpuOnAttempted, this`cpuOnRet,
               this`sessionGeneration
      modifies this`peerGeneration, this`sessionResult, this`stopRequestSequence, this`stopReplyType, this`stopResult
      modifies this`stopNotifyResult, this`rxGeneration, endpoint, window.toCpu3[0], window.toCpu3[0].slot
      ensures Linked() && (View(), r) == StopSpec(old(View()), notify)
    {
      hide Rings, Transmit, Errno;
      if phase == Offline {
        return ENOLINK;
      }
      if phase != Active {
        return EBUSY;
      }
      r := StopPreflight();
      if r != 0 {
        return;
      }
      BeginStop();
      var queued, sequence := Enqueue(0, MSG_STOP_REQUEST, [], notify);
      r := EndStop(queued, sequence, notify);
    }

    method BeginStop()
      requires Linked() && endpoint.shared != null
      modifies this`phase, this`imageWritten, this`affinitySeenOn, this`cpuOnAttempted, this`cpuOnRet,
               this`sessionGeneration
      modifies this`peerGeneration, this`sessionResult, this`stopRequestSequence, this`stopReplyType, this`stopResult
      modifies this`stopNotifyResult, this`rxGeneration
      ensures Linked() && endpoint.shared != null
      ensures View() == old(View()).(phase := Stopping, stopSequence := 0, stopReply := 0, stopResult := EINPROGRESS,
                        stopNotify := EINPROGRESS)
    {
      hide Rings, Shared.Valid, E.Endpoint.Valid;
      phase := Stopping;
      ClearStop(EINPROGRESS);
    }

    /** Reopens the data plane when nothing was committed; otherwise keeps the number the answer must echo. */
    method EndStop(queued: Outcome, sequence: u32, notify: int) returns (r: int)
      requires Linked() && endpoint.shared != null
      modifies this`phase, this`imageWritten, this`affinitySeenOn, this`cpuOnAttempted, this`cpuOnRet,
               this`sessionGeneration
      modifies this`peerGeneration, this`sessionResult, this`stopRequestSequence, this`stopReplyType, this`stopResult
      modifies this`stopNotifyResult, this`rxGeneration
      ensures Linked()
      ensures View() == if queued != Ok then old(View()).(phase := Active, stopResult := Errno(queued))
                        else old(View()).(stopSequence := sequence, stopNotify := notify)
      ensures r == if queued != Ok then Errno(queued) else if notify < 0 then notify else 0
    {
      hide Rings, Errno;
      if queued != Ok {
        phase := Active;
        stopResult := Errno(queued);
        return stopResult;
      }
      stopRequestSequence := sequence;
      stopNotifyResult := notify;
      r := if notify < 0 then notify else 0;
    }

    /** The first priority's answer is never EMPTY, so the scan ends there. */
    method StopPreflight() returns (r: int)
      requires Linked()
      ensures r == PreflightSpec(View())
    {
      if openCount != 0 {
        return EBUSY;
      }
      var data := endpoint.HasReceived(0);
      r := if data.None? then EPROTO else if data.value then EBUSY else 0;
    }

    method OpenLocked(fd: nat, p: priority) returns (r: int)
      requires Linked() && fd !in files
      modifies this`openCount, this`files
      ensures Linked() && (View(), r) == OpenSpec(old(View()), fd, p)
    {
      hide Rings;
      r := Gate(phase);
      if r != 0 {
        return;
      }
      openCount := openCount + 1;
      files := files[fd := File(p, false)];
    }

    method ReleaseLocked(fd: nat)
      requires Linked() && fd in files
      modifies this`openCount, this`files, this`readerCount
      ensures Linked() && View() == ReleaseSpec(old(View()), fd)
    {
      hide Rings;
      var f := files[fd];
      if f.claimed {
        readerCount := readerCount[f.p := readerCount[f.p] - 1];
      }
      openCount := openCount - 1;
      files := files - {fd};
    }

    method ClaimReaderLocked(fd: nat) returns (r: int)
      requires Linked() && fd in files
      modifies this`files, this`readerCount
      ensures Linked() && (View(), r) == ClaimSpec(old(View()), fd)
    {
      hide Rings;
      var f := files[fd];
      r := 0;
      if !f.claimed {
        if readerCount[f.p] != 0 {
          r := EBUSY;
        } else {
          readerCount := readerCount[f.p := readerCount[f.p] + 1];
          files := files[fd := f.(claimed := true)];
        }
      }
    }

    /** One turn of a read under the lock. */
    method ReadLocked(p: priority) returns (turn: Turn)
      requires Linked()
      modifies endpoint, window.toLinux[p]
      ensures Linked() && (View(), turn) == ReadSpec(old(View()), p)
    {
      hide Rings, Device.Receive, Errno;
      var gate := Gate(phase);
      if gate != 0 {
        return Failed(if gate == EAGAIN || gate == ENOLINK || gate == ESHUTDOWN then gate else EIO);
      }
      var r, message := Dequeue(p);
      if r == Ok && message.Some? {
        return Got(message.value);
      }
      turn := if r == RingError(RingEmpty) then WouldBlock else Failed(Errno(r));
    }

    method WriteLocked(p: priority, to: u32, kind: u32, payload: seq<byte>, notify: int) returns (r: int)
      requires Linked()
      modifies endpoint, window.toCpu3[p], window.toCpu3[p].slot
      ensures Linked() && (View(), r) == WriteSpec(old(View()), p, to, kind, payload, notify)
    {
      hide Rings, Transmit, Errno;
      if to != p || |payload| > PAYLOAD_BYTES {
        return EINVAL;
      }
      var gate := Gate(phase);
      if gate != 0 {
        return if gate == EAGAIN || gate == ENOLINK || gate == ESHUTDOWN then gate else EIO;
      }
      var queued, sequence := Enqueue(p, kind, payload, notify);
      r := Errno(queued);
    }

    method PingLocked(p: priority, value: u32, notify: int) returns (r: int)
      requires Linked()
      modifies endpoint, window.toCpu3[p], window.toCpu3[p].slot
      ensures Linked() && (View(), r) == PingSpec(old(View()), p, value, notify)
    {
      hide Rings, Transmit, Errno, StoreU32;
      r := Gate(phase);
      if r != 0 {
        return;
      }
      var queued, sequence := Enqueue(p, MSG_PING, StoreU32(value), notify);
      r := Errno(queued);
    }

    /** The test hooks push past the endpoint, with its next number but without its statistics. */
    method InjectLocked(p: priority, value: u32, damage: bool) returns (r: int)
      requires Linked()
      modifies endpoint, window.toCpu3[p], window.toCpu3[p].slot
      ensures Linked() && (View(), r) == InjectSpec(old(View()), p, value, damage)
    {
      hide Rings, Damage, Seal, StoreU32;
      r := Gate(phase);
      if r != 0 {
        return;
      }
      if window.magic != PROTOCOL_MAGIC || window.version != PROTOCOL_VERSION
         || window.generation != endpoint.generation {
        return EPROTO;
      }
      var sequence := endpoint.DrawSequence();
      var f := Frame(endpoint.generation, MSG_PING, sequence, 4, StoreU32(value) + seq(24, _ => 0));
      var queued := InjectFrame(p, f, damage);
      r := if queued == RingOk then 0 else if queued == RingFull then ENOSPC else EINVAL;
    }

    method InjectFrame(p: priority, f: Frame, damage: bool) returns (queued: RingResult)
      requires Linked()
      modifies window.toCpu3[p], window.toCpu3[p].slot
      ensures Linked()
      ensures var q := old(View()).forward;
              && queued == PushSpec(q[p], f).0
              && View() == if queued != RingOk then old(View())
                           else old(View()).(forward := q[p := q[p] + [if damage then Damage(Seal(f)) else Seal(f)]])
    {
      hide PushSpec, Damage, Seal, R.Ring.Contents;
      ghost var before := Rings(window.toCpu3);
      queued := window.toCpu3[p].Inject(f, damage);
      assert Rings(window.toCpu3) == before[p := window.toCpu3[p].Contents()];
    }

    /** The response file: every priority in turn, until it is empty or blocked. */
    method ResponseShowLocked()
      requires Linked()
      modifies endpoint, set x | x in window.toLinux
      ensures Linked() && View() == ResponseSpec(old(View()))
    {
      hide Rings, DrainSpec;
      if phase != Active {
        return;
      }
      DrainPriority(0);
      DrainPriority(1);
      DrainPriority(2);
      DrainPriority(3);
    }

    method DrainPriority(p: priority)
      requires Linked() && endpoint.shared != null
      modifies endpoint, window.toLinux[p]
      ensures Linked() && endpoint.shared != null && View() == DrainSpec(old(View()), p)
    {
      hide Rings, Device.Receive;
      var done := false;
      while !done
        invariant Linked() && endpoint.shared != null
        invariant DrainSpec(old(View()), p) == if done then View() else DrainSpec(View(), p)
        decreases !done, |View().reverse[p]|
      {
        ReceiveConsumes(View(), p);
        var r, message := Dequeue(p);
        done := r == RingError(RingEmpty) || r == RingError(RingIncomplete) || (!r.RingError? && r != Ok);
      }
    }

    method CountArrival(p: priority) returns (drain: bool)
      requires Linked()
      modifies this`rxGeneration
      ensures Linked() && View() == CallbackSpec(old(View()), p)
      ensures drain == Pending?(phase)
    {
      hide Rings;
      drain := phase == Starting || phase == Stopping;
      rxGeneration := rxGeneration[p := rxGeneration[p] + 1];
    }

    // ---- The entry points: each takes the lock, does one region, and is one act of the history

    method ImageWrite(off: nat, count: nat) returns (r: int)
      requires Valid()
      modifies this
      ensures Valid() && acts == old(acts) + [Act.ImageWrite(off, count)]
      ensures (View(), r) == ImageWriteSpec(old(View()), off, count)
      ensures Code(r) == Returned(old(View()), Act.ImageWrite(off, count))
    {
      hide Rings, Trace, Sound, Accounted, ImageWriteSpec;
      r := ImageWriteLocked(off, count);
      Record(Act.ImageWrite(off, count));
    }

    /** Opens a session; `cpuOn` is what CPU_ON answers. */
    method Start(state: Affinity, cpuOn: int) returns (r: int)
      requires Valid()
      modifies this, endpoint, window, set x | x in window.toCpu3 + window.toLinux,
               set x | x in window.toCpu3 + window.toLinux :: x.slot
      ensures Valid() && acts == old(acts) + [Act.Start(state, cpuOn)]
      ensures (View(), r) == StartSpec(old(View()), state, cpuOn)
      ensures Code(r) == Returned(old(View()), Act.Start(state, cpuOn))
    {
      hide Rings, Trace, Sound, Accounted, StartSpec;
      r := StartLocked(state, cpuOn);
      Record(Act.Start(state, cpuOn));
    }

    method Rearm(state: Affinity, doorbellPending: bool) returns (r: int)
      requires Valid()
      modifies this, endpoint
      ensures Valid() && acts == old(acts) + [Act.Rearm(state, doorbellPending)]
      ensures (View(), r) == RearmSpec(old(View()), state, doorbellPending)
      ensures Code(r) == Returned(old(View()), Act.Rearm(state, doorbellPending))
    {
      hide Rings, Trace, Sound, Accounted, RearmSpec;
      r := RearmLocked(state, doorbellPending);
      Record(Act.Rearm(state, doorbellPending));
    }

    /** The lifecycle plane's drain of p0; STOP_READY gives the core a deadline of its own to go off. */
    method ControlWork(expired: bool, ticks: nat) returns (extended: bool)
      requires Valid()
      modifies this, endpoint, window.toLinux[0]
      ensures Valid() && acts == old(acts) + [Act.Control(expired, ticks)]
      ensures View() == ControlSpec(old(View()), expired, ticks)
      ensures extended == ControlExtends(old(View()), expired, ticks)
    {
      hide Rings, Trace, Sound, Accounted, ControlSpec, ControlExtends;
      extended := ControlWorkLocked(expired, ticks);
      Record(Act.Control(expired, ticks));
    }

    method TimeoutWork(expired: bool, state: Affinity)
      requires Valid()
      modifies this
      ensures Valid() && acts == old(acts) + [Act.Timeout(expired, state)]
      ensures View() == TimeoutSpec(old(View()), expired, state)
      ensures if expired && Pending?(old(phase)) then Regions.TimedOut(old(View()), View(), state)
              else View() == old(View())
    {
      hide Rings, Trace, Sound, Accounted, TimeoutSpec, Regions.TimedOut;
      Regions.TimeoutDecides(View(), expired, state);
      TimeoutWorkLocked(expired, state);
      Record(Act.Timeout(expired, state));
    }

    /**
     The periodic sampler: it has p0 drained while the lifecycle plane owns it, and samples again while the session
     lives.
     */
    method AffinityWork(state: Affinity) returns (drain: bool, again: bool)
      requires Valid()
      modifies this
      ensures Valid() && acts == old(acts) + [Act.AffinityWork(state)]
      ensures View() == AffinitySpec(old(View()), state)
      ensures drain == Pending?(phase) && again == Live(phase)
      ensures old(phase) != Unarmed && old(phase) != Offline ==> Regions.Sampled(old(View()), View(), state)
    {
      hide Rings, Trace, Sound, Accounted, AffinitySpec, Regions.Sampled;
      if phase != Unarmed && phase != Offline {
        Regions.SampleDecides(View(), state);
      }
      drain, again := AffinityWorkLocked(state);
      Record(Act.AffinityWork(state));
    }

    method AffinityShow(state: Affinity)
      requires Valid()
      modifies this
      ensures Valid() && acts == old(acts) + [Act.AffinityShow(state)]
      ensures View() == Refresh(old(View()), state)
      ensures old(phase) != Unarmed && old(phase) != Offline ==> Regions.Sampled(old(View()), View(), state)
    {
      hide Rings, Trace, Sound, Accounted, Refresh, Regions.Sampled;
      if phase != Unarmed && phase != Offline {
        Regions.SampleDecides(View(), state);
      }
      RefreshAffinity(state);
      Record(Act.AffinityShow(state));
    }

    method Stop(notify: int) returns (r: int)
      requires Valid()
      modifies this, endpoint, window.toCpu3[0], window.toCpu3[0].slot
      ensures Valid() && acts == old(acts) + [Act.Stop(notify)]
      ensures (View(), r) == StopSpec(old(View()), notify)
      ensures Code(r) == Returned(old(View()), Act.Stop(notify))
    {
      hide Rings, Trace, Sound, Accounted, StopSpec;
      r := StopLocked(notify);
      Record(Act.Stop(notify));
    }

    method Open(fd: nat, p: priority) returns (r: int)
      requires Valid() && fd !in files
      modifies this
      ensures Valid() && acts == old(acts) + [Act.Open(fd, p)]
      ensures (View(), r) == OpenSpec(old(View()), fd, p)
      ensures Code(r) == Returned(old(View()), Act.Open(fd, p))
    {
      hide Rings, Trace, Sound, Accounted, OpenSpec;
      r := OpenLocked(fd, p);
      Record(Act.Open(fd, p));
    }

    /** The counters are taken down without a test, and never pass zero. */
    method Release(fd: nat)
      requires Valid() && fd in files
      modifies this
      ensures Valid() && acts == old(acts) + [Act.Release(fd)]
      ensures View() == ReleaseSpec(old(View()), fd)
      ensures openCount >= 0 && forall p: priority :: readerCount[p] >= 0
    {
      hide Rings, Trace, Sound, Accounted, ReleaseSpec;
      ReleaseLocked(fd);
      CountsStayPositive(old(View()), fd);
      Record(Act.Release(fd));
    }

    method ClaimReader(fd: nat) returns (r: int)
      requires Valid() && fd in files
      modifies this
      ensures Valid() && acts == old(acts) + [Act.Claim(fd)]
      ensures (View(), r) == ClaimSpec(old(View()), fd)
      ensures Code(r) == Returned(old(View()), Act.Claim(fd))
    {
      hide Rings, Trace, Sound, Accounted, ClaimSpec;
      r := ClaimReaderLocked(fd);
      Record(Act.Claim(fd));
    }

    /** One turn of a read under the lock. */
    method ReadTurn(fd: nat) returns (turn: Turn)
      requires Valid() && fd in files && files[fd].claimed
      modifies this, endpoint, window.toLinux[files[fd].p]
      ensures Valid() && acts == old(acts) + [Act.Read(fd)]
      ensures (View(), turn) == ReadSpec(old(View()), old(files)[fd].p)
      ensures Regions.Reads(old(View()), View(), old(files)[fd].p, ReportOf(turn))
    {
      hide Rings, Trace, Sound, Accounted, ReadSpec, Regions.Reads;
      Regions.ReadIsExact(View(), fd);
      turn := ReadLocked(files[fd].p);
      Record(Act.Read(fd));
    }

    method Write(fd: nat, to: u32, kind: u32, payload: seq<byte>, notify: int) returns (r: int)
      requires Valid() && fd in files
      modifies this, endpoint, window.toCpu3[files[fd].p], window.toCpu3[files[fd].p].slot
      ensures Valid() && acts == old(acts) + [Act.Write(fd, to, kind, payload, notify)]
      ensures (View(), r) == WriteSpec(old(View()), old(files)[fd].p, to, kind, payload, notify)
      ensures Regions.Writes(old(View()), View(), old(files)[fd].p, to, kind, payload, r)
    {
      hide Rings, Trace, Sound, Accounted, WriteSpec, Regions.Writes;
      Regions.WriteIsExact(View(), fd, to, kind, payload, notify);
      r := WriteLocked(files[fd].p, to, kind, payload, notify);
      Record(Act.Write(fd, to, kind, payload, notify));
    }

    method Ping(p: priority, value: u32, notify: int) returns (r: int)
      requires Valid()
      modifies this, endpoint, window.toCpu3[p], window.toCpu3[p].slot
      ensures Valid() && acts == old(acts) + [Act.Ping(p, value, notify)]
      ensures (View(), r) == PingSpec(old(View()), p, value, notify)
      ensures Regions.Pings(old(View()), View(), p, value, r)
    {
      hide Rings, Trace, Sound, Accounted, PingSpec, Regions.Pings;
      Regions.PingIsExact(View(), p, value, notify);
      r := PingLocked(p, value, notify);
      Record(Act.Ping(p, value, notify));
    }

    /** The test hooks; only the corruption hook rings the doorbell, and only for a frame it committed. */
    method Inject(p: priority, value: u32, damage: bool) returns (r: int, ring: bool)
      requires Valid()
      modifies this, endpoint, window.toCpu3[p], window.toCpu3[p].slot
      ensures Valid() && acts == old(acts) + [Act.Inject(p, value, damage)]
      ensures (View(), r) == InjectSpec(old(View()), p, value, damage)
      ensures Regions.Injected(old(View()), View(), p, value, damage, r)
      ensures ring <==> damage && r == 0
    {
      hide Rings, Trace, Sound, Accounted, InjectSpec, Regions.Injected;
      Regions.InjectIsExact(View(), p, value, damage);
      r := InjectLocked(p, value, damage);
      ring := damage && r == 0;
      Record(Act.Inject(p, value, damage));
    }

    method ResponseShow()
      requires Valid()
      modifies this, endpoint, set x | x in window.toLinux
      ensures Valid() && acts == old(acts) + [Act.Response]
      ensures View() == ResponseSpec(old(View()))
    {
      hide Rings, Trace, Sound, Accounted, ResponseSpec;
      ResponseShowLocked();
      Record(Act.Response);
    }

    /** The mailbox interrupt: a frame arrived for p, and the lifecycle plane is called while it owns p0. */
    method Callback(p: priority) returns (drain: bool)
      requires Valid()
      modifies this
      ensures Valid() && acts == old(acts) + [Act.Callback(p)]
      ensures View() == CallbackSpec(old(View()), p)
      ensures drain == Pending?(phase)
    {
      hide Rings, Trace, Sound, Accounted, CallbackSpec;
      drain := CountArrival(p);
      Record(Act.Callback(p));
    }

    /** CPU3 between two regions: it takes from forward rings and puts anything at all into reverse rings. */
    method PeerActs()
      requires Valid()
      modifies this`states, this`acts, set x | x in window.toCpu3 + window.toLinux,
               set x | x in window.toCpu3 + window.toLinux :: x.slot
      ensures Valid() && acts == old(acts) + [Act.Peer(View().forward, View().reverse)]
      ensures View() == old(View()).(forward := View().forward, reverse := View().reverse)
    {
      hide Rings, Trace, Sound, Accounted;
      PeerRuns();
      Record(Act.Peer(View().forward, View().reverse));
    }

    method PeerRuns()
      requires Linked()
      modifies set x | x in window.toCpu3 + window.toLinux, set x | x in window.toCpu3 + window.toLinux :: x.slot
      ensures Linked() && View() == old(View()).(forward := View().forward, reverse := View().reverse)
    {
      hide Rings;
      var moves: nat :| true;
      while moves > 0
        invariant Linked() && View() == old(View()).(forward := View().forward, reverse := View().reverse)
      {
        var p: priority :| true;
        PeerMoves(p);
        moves := moves - 1;
      }
    }

    method PeerMoves(p: priority)
      requires Linked()
      modifies window.toCpu3[p], window.toLinux[p], window.toLinux[p].slot
      ensures Linked() && View() == old(View()).(forward := View().forward, reverse := View().reverse)
    {
      hide Rings, PushSpec, PopSpec, R.Ring.Contents;
      if * {
        var popped, message := window.toCpu3[p].Pop();
      } else {
        var f: Frame :| true;
        var queued := window.toLinux[p].Push(f);
      }
    }
  }

  /** An open driver is bound and confirmed under one number, with its image frozen. */
  lemma OpenDriverIsConfirmed(v: Driver)
    requires v.Valid() && Lifecycle.Open?(v.phase)
    ensures v.peerGeneration == v.sessionGeneration == v.endpoint.generation == v.window.generation != 0
    ensures v.sessionResult == 0 && v.cpuOnRet == 0 && v.imageWritten == v.imageSize && v.cpuOnAttempted
  {
  }

  /**
   And one that was ever given up has since been rearmed, started under a new number, and confirmed under that number.
   */
  lemma RevivedDriverWasRestarted(v: Driver, i: nat) returns (a: nat, b: nat, c: nat)
    requires v.Valid() && i < |v.states| && Dead?(v.states[i].phase) && v.phase == Active
    ensures i <= a < b < c < |v.acts| && Rearms(v.states, v.acts, a)
    ensures StartedAt(v.states, v.acts, b, c) && OpenedAt(v.states, v.acts, c, |v.acts|)
            && v.sessionGeneration == v.states[b + 1].session
  {
    hide Trace, Sound, Accounted, StartedAt, OpenedAt, Rearms;
    a, b, c := ReopensOnlyThroughANewSession(v.states, v.acts, i, |v.acts|);
  }

  lemma CountsStayPositive(d: Dev, fd: nat)
    requires Accounted(d) && fd in d.files
    ensures ReleaseSpec(d, fd).openCount >= 0 && forall p: priority :: ReleaseSpec(d, fd).readers[p] >= 0
  {
    ReleaseKeeps(d, fd);
  }
}
