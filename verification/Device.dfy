/** What each lock-protected region of the Linux driver does to the driver's state and to the shared rings. */
module Device {
  import opened Words
  import opened Frames
  import opened Endpoint

  const EIO := -5
  const EAGAIN := -11
  const EBUSY := -16
  const EINVAL := -22
  const EFBIG := -27
  const ENOSPC := -28
  const ESPIPE := -29
  const ENODATA := -61
  const ENOLINK := -67
  const EPROTO := -71
  const EBADMSG := -74
  const ESHUTDOWN := -108
  const ETIMEDOUT := -110
  const EALREADY := -114
  const EINPROGRESS := -115
  const ESTALE := -116
  const ECANCELED := -125

  datatype Phase = Unarmed | Starting | StartTimeout | Active | Stopping | StopTimeout | Offline
  datatype Affinity = AffinityOn | AffinityOnPending | AffinityOff | AffinityError

  type Rings = r: seq<seq<Slot>> | |r| == 4 witness seq(4, _ => [])
  type Counts = r: seq<nat> | |r| == 4 witness seq(4, _ => 0)
  type Tallies = r: seq<int> | |r| == 4 witness seq(4, _ => 0)

  /** An open descriptor of one priority's device, and whether it has claimed the reader. */
  datatype File = File(p: priority, claimed: bool)

  datatype Dev = Dev(
    phase: Phase, imageSize: nat, imageWritten: nat,
    seenOn: bool, attempted: bool, cpuOnRet: int,
    session: u32, peer: u32, sessionResult: int,
    stopSequence: u32, stopReply: u32, stopResult: int, stopNotify: int,
    header: Header, endpoint: Core, forward: Rings, reverse: Rings,
    openCount: int, readers: Tallies, files: map<nat, File>, rxGeneration: Counts)

  function Errno(r: Outcome): int
  {
    match r
    case Ok => 0
    case RingError(RingOk) => 0
    case RingError(RingEmpty) => ENODATA
    case RingError(RingFull) => ENOSPC
    case RingError(RingIncomplete) => EAGAIN
    case RingError(RingBadCrc) => EBADMSG
    case RingError(RingInvalid) => EPROTO
    case BadArgument => EINVAL
    case ProtocolMismatch => EPROTO
    case StaleSession => ESTALE
    case StaleFrame => ESTALE
  }

  function Gate(phase: Phase): int
  {
    match phase
    case Active => 0
    case Starting => EAGAIN
    case StartTimeout => ETIMEDOUT
    case Stopping => ESHUTDOWN
    case StopTimeout => ETIMEDOUT
    case Offline => ENOLINK
    case Unarmed => ENOLINK
  }

  predicate Live(phase: Phase) { phase != Unarmed && phase != Offline }

  function AllBumped(c: Counts): Counts { [c[0] + 1, c[1] + 1, c[2] + 1, c[3] + 1] }

  function Session(d: Dev): Outcome { SessionOf(d.header, d.endpoint) }

  function Transmit(d: Dev, p: priority, kind: u32, payload: seq<byte>, notify: int): (Dev, Outcome, u32)
  {
    var (core, q, result, r) :=
      SendSpec(d.endpoint, Session(d), d.forward[p], p, kind, Some(payload), |payload|, notify);
    (d.(endpoint := core, forward := d.forward[p := q]), r, if result.Some? then result.value.sequence else 0)
  }

  function Receive(d: Dev, p: priority): (Dev, Option<Slot>, Outcome)
  {
    var (core, q, message, r) := ReceiveSpec(d.endpoint, Session(d), d.reverse[p], p);
    (d.(endpoint := core, reverse := d.reverse[p := q]), message, r)
  }

  predicate Consumed(r: Outcome)
  {
    r == Ok || r == StaleFrame || r == RingError(RingBadCrc) || r == RingError(RingInvalid)
  }

  lemma ReceiveConsumes(d: Dev, p: priority)
    ensures var (t, message, r) := Receive(d, p);
            && t == d.(endpoint := t.endpoint, reverse := t.reverse) && t.endpoint.generation == d.endpoint.generation
            && t.endpoint.nextSequence == d.endpoint.nextSequence
            && (Consumed(r) <==>
                Session(d) == Ok && d.reverse[p] != [] && d.reverse[p][0].commit == d.reverse[p][0].frame.sequence)
            && (Consumed(r) ==> message == Some(d.reverse[p][0]) && t.reverse == d.reverse[p := d.reverse[p][1..]])
            && (!Consumed(r) ==> message == None && t.reverse == d.reverse)
            && (r == Ok ==> message.Some? && message.value.frame.generation == d.endpoint.generation)
            && (Session(d) != Ok <==> r == BadArgument || r == ProtocolMismatch || r == StaleSession)
            && (Session(d) == Ok && !Consumed(r) ==> r == RingError(RingEmpty) || r == RingError(RingIncomplete))
  {
    hide Judge;
    assert d.reverse[p := d.reverse[p]] == d.reverse;
    JudgeVerdicts();
  }

  function MarkOffline(d: Dev): Dev
  {
    if !Live(d.phase) then d else d.(phase := Offline, rxGeneration := AllBumped(d.rxGeneration))
  }

  function Refresh(d: Dev, a: Affinity): Dev
  {
    var t := d.(seenOn := d.seenOn || a == AffinityOn || a == AffinityOnPending);
    if t.cpuOnRet == 0 && t.seenOn && a == AffinityOff then MarkOffline(t) else t
  }

  function SetTimeout(d: Dev): Dev
  {
    var t := if d.phase == Starting then d.(sessionResult := ETIMEDOUT, phase := StartTimeout)
             else if d.phase == Stopping then d.(stopResult := ETIMEDOUT, phase := StopTimeout) else d;
    t.(rxGeneration := AllBumped(t.rxGeneration))
  }

  predicate ReadyFor(f: Frame, session: u32)
  {
    && f.kind == MSG_SESSION_READY && f.length >= 8
    && LoadU32(f.payload) == session && LoadU32(f.payload[4..]) == PROTOCOL_VERSION
  }

  predicate StopReplyTo(f: Frame, sequence: u32)
  {
    && (f.kind == MSG_STOP_READY || f.kind == MSG_STOP_REFUSED) && f.length >= 8
    && LoadU32(f.payload) == sequence
  }

  /** What the lifecycle plane does with one current frame from p0: None means keep draining. */
  function Digest(d: Dev, f: Frame): Option<Dev>
  {
    if d.phase == Starting then
      if ReadyFor(f, d.session) then Some(d.(peer := d.session, sessionResult := 0, seenOn := true, phase := Active))
      else None
    else if !StopReplyTo(f, d.stopSequence) then None
    else if f.kind == MSG_STOP_READY then Some(d.(stopReply := f.kind, stopResult := 0))
    else Some(d.(stopReply := f.kind, stopResult := ECANCELED, phase := Active))
  }

  function NoteError(d: Dev, r: Outcome): Dev
  {
    if d.phase == Starting then d.(sessionResult := Errno(r)) else d.(stopResult := Errno(r))
  }

  /** The drain of p0; the deadline passes after `ticks` further good frames. */
  function ControlDrain(d: Dev, ticks: nat): Dev
    decreases |d.reverse[0]|
  {
    ReceiveConsumes(d, 0);
    var (t, message, r) := Receive(d, 0);
    if r == RingError(RingEmpty) || r == RingError(RingIncomplete) then t
    else if r == StaleFrame then ControlDrain(t, ticks)
    else if r != Ok then if Consumed(r) then ControlDrain(NoteError(t, r), ticks) else NoteError(t, r)
    else if ticks == 0 then SetTimeout(t)
    else
      var done := Digest(t, message.value.frame);
      if done.Some? then done.value else ControlDrain(t, ticks - 1)
  }

  /**
   Whether the drain ends on STOP_READY for the current stop, which gives the core a deadline of its own to go off.
   */
  function DrainExtends(d: Dev, ticks: nat): bool
    decreases |d.reverse[0]|
  {
    ReceiveConsumes(d, 0);
    var (t, message, r) := Receive(d, 0);
    if r == RingError(RingEmpty) || r == RingError(RingIncomplete) then false
    else if r == StaleFrame then DrainExtends(t, ticks)
    else if r != Ok then Consumed(r) && DrainExtends(NoteError(t, r), ticks)
    else if ticks == 0 then false
    else
      var done := Digest(t, message.value.frame);
      if done.Some? then done.value.phase == Stopping else DrainExtends(t, ticks - 1)
  }

  function ControlExtends(d: Dev, expired: bool, ticks: nat): bool
  {
    (d.phase == Starting || d.phase == Stopping) && !expired && DrainExtends(d, ticks)
  }

  function ControlSpec(d: Dev, expired: bool, ticks: nat): Dev
  {
    if d.phase != Starting && d.phase != Stopping then d
    else if expired then SetTimeout(d)
    else ControlDrain(d, ticks)
  }

  function TimeoutSpec(d: Dev, expired: bool, a: Affinity): Dev
  {
    if (d.phase != Starting && d.phase != Stopping) || !expired then d
    else
      var t := if d.phase == Stopping && d.stopReply == MSG_STOP_READY then Refresh(d, a) else d;
      if t.phase == Offline then t else SetTimeout(t)
  }

  function AffinitySpec(d: Dev, a: Affinity): Dev { if Live(d.phase) then Refresh(d, a) else d }

  function ImageWriteSpec(d: Dev, off: nat, count: nat): (Dev, int)
  {
    if d.attempted then (d, EBUSY)
    else if off != d.imageWritten then (d, ESPIPE)
    else if d.imageWritten + count > d.imageSize then (d, EFBIG)
    else (d.(imageWritten := d.imageWritten + count), 0)
  }

  function StartSpec(d: Dev, a: Affinity, cpuOn: int): (Dev, int)
  {
    if d.attempted then (d, EALREADY)
    else if d.imageWritten != d.imageSize then (d, ENODATA)
    else
      var t := Refresh(d, a);
      if a != AffinityOff then (t, EBUSY)
      else
        var generation := NextSequence(t.session);
        (t.(session := generation, header := Header(PROTOCOL_MAGIC, PROTOCOL_VERSION, generation),
         endpoint := FreshCore(generation), forward := [[], [], [], []], reverse := [[], [], [], []],
         peer := 0, stopSequence := 0, stopReply := 0, stopResult := EAGAIN, stopNotify := EAGAIN,
         seenOn := false, attempted := true, cpuOnRet := cpuOn,
         phase := if cpuOn == 0 then Starting else Unarmed,
         sessionResult := if cpuOn == 0 then EINPROGRESS else cpuOn),
         cpuOn)
  }

  function RearmSpec(d: Dev, a: Affinity, doorbellPending: bool): (Dev, int)
  {
    if !d.attempted then (d, EINVAL)
    else if d.openCount != 0 then (d, EBUSY)
    else
      var t := Refresh(d, a);
      if a != AffinityOff || doorbellPending then (t, EBUSY)
      else (t.(endpoint := FreshCore(0), imageWritten := 0, attempted := false, cpuOnRet := EAGAIN, seenOn := false,
            phase := Unarmed, peer := 0, sessionResult := EAGAIN,
            stopSequence := 0, stopReply := 0, stopResult := EAGAIN, stopNotify := EAGAIN), 0)
  }

  /** What the preflight compares with EMPTY is 0 or 1, so it ends on p0's reverse ring and looks at nothing else. */
  function PreflightSpec(d: Dev): int
  {
    if d.openCount != 0 then EBUSY
    else if Session(d) != Ok then EPROTO
    else if d.reverse[0] != [] then EBUSY
    else 0
  }

  function StopSpec(d: Dev, notify: int): (Dev, int)
  {
    if d.phase == Offline then (d, ENOLINK)
    else if d.phase != Active then (d, EBUSY)
    else if PreflightSpec(d) != 0 then (d, PreflightSpec(d))
    else
      var closing := d.(phase := Stopping, stopSequence := 0, stopReply := 0, stopResult := EINPROGRESS,
                     stopNotify := EINPROGRESS);
      var (t, r, sequence) := Transmit(closing, 0, MSG_STOP_REQUEST, [], notify);
      if r != Ok then (t.(phase := Active, stopResult := Errno(r)), Errno(r))
      else (t.(stopSequence := sequence, stopNotify := notify), if notify < 0 then notify else 0)
  }

  function OpenSpec(d: Dev, fd: nat, p: priority): (Dev, int)
    requires fd !in d.files
  {
    if Gate(d.phase) != 0 then (d, Gate(d.phase))
    else (d.(openCount := d.openCount + 1, files := d.files[fd := File(p, false)]), 0)
  }

  /** Signed counters, taken down without a test: that they never pass zero is a property of the runs. */
  function ReleaseSpec(d: Dev, fd: nat): Dev
    requires fd in d.files
  {
    var f := d.files[fd];
    d.(readers := if f.claimed then d.readers[f.p := d.readers[f.p] - 1] else d.readers,
    openCount := d.openCount - 1, files := d.files - {fd})
  }

  function ClaimSpec(d: Dev, fd: nat): (Dev, int)
    requires fd in d.files
  {
    var f := d.files[fd];
    if f.claimed then (d, 0)
    else if d.readers[f.p] != 0 then (d, EBUSY)
    else (d.(readers := d.readers[f.p := d.readers[f.p] + 1], files := d.files[fd := f.(claimed := true)]), 0)
  }

  /** One turn of the read loop under the lock, the reader already claimed; a turn that finds nothing would block. */
  datatype Turn = Got(s: Slot) | Failed(code: int) | WouldBlock

  function ReadSpec(d: Dev, p: priority): (Dev, Turn)
  {
    if Gate(d.phase) != 0 then
      (d, Failed(if d.phase == StartTimeout || d.phase == StopTimeout then EIO else Gate(d.phase)))
    else
      var (t, message, r) := Receive(d, p);
      (t, if r == Ok && message.Some? then Got(message.value)
       else if r == RingError(RingEmpty) then WouldBlock
       else Failed(Errno(r)))
  }

  /** A user's frame names a priority of its own, which must be the device's. */
  function WriteSpec(d: Dev, p: priority, to: u32, kind: u32, payload: seq<byte>, notify: int): (Dev, int)
  {
    if to != p || |payload| > PAYLOAD_BYTES then (d, EINVAL)
    else if Gate(d.phase) != 0 then
      (d, if d.phase == StartTimeout || d.phase == StopTimeout then EIO else Gate(d.phase))
    else
      var (t, r, sequence) := Transmit(d, p, kind, payload, notify);
      (t, Errno(r))
  }

  function PingSpec(d: Dev, p: priority, value: u32, notify: int): (Dev, int)
  {
    if Gate(d.phase) != 0 then (d, Gate(d.phase))
    else
      var (t, r, sequence) := Transmit(d, p, MSG_PING, StoreU32(value), notify);
      (t, Errno(r))
  }

  /** The sysfs test hooks: a frame pushed past the endpoint's statistics, damaged on request. */
  function InjectSpec(d: Dev, p: priority, value: u32, damage: bool): (Dev, int)
  {
    if Gate(d.phase) != 0 then (d, Gate(d.phase))
    else if d.header.magic != PROTOCOL_MAGIC || d.header.version != PROTOCOL_VERSION
            || d.header.generation != d.endpoint.generation
    then (d, EPROTO)
    else
      var n := NextSequence(d.endpoint.nextSequence);
      var f := Frame(d.endpoint.generation, MSG_PING, n, 4, StoreU32(value) + seq(24, _ => 0));
      var t := d.(endpoint := d.endpoint.(nextSequence := n));
      var (r, q) := PushSpec(d.forward[p], f);
      if r != RingOk then (t, if r == RingFull then ENOSPC else EINVAL)
      else (t.(forward := d.forward[p := d.forward[p] + [if damage then Damage(Seal(f)) else Seal(f)]]), 0)
  }

  /** The sysfs response file drains one priority until it is empty or stuck, or has met a stale frame. */
  function DrainSpec(d: Dev, p: priority): Dev
    decreases |d.reverse[p]|
  {
    ReceiveConsumes(d, p);
    var (t, message, r) := Receive(d, p);
    if Consumed(r) && r != StaleFrame then DrainSpec(t, p) else t
  }

  function ResponseSpec(d: Dev): Dev
  {
    if Gate(d.phase) != 0 then d else DrainSpec(DrainSpec(DrainSpec(DrainSpec(d, 0), 1), 2), 3)
  }

  /** The mailbox interrupt's callback; it takes no lock. */
  function CallbackSpec(d: Dev, p: priority): Dev
  {
    d.(rxGeneration := d.rxGeneration[p := d.rxGeneration[p] + 1])
  }
}
