/**
 The Linux driver, the eight rings and CPU3 together: the handshake that opens a session and the one that stops it.
 */
module Sessions {
  import opened Words
  import opened Frames
  import opened Endpoint
  import opened Device
  import opened Lifecycle
  import opened Answers
  import opened Sequences

  /** CPU3's own flags, and the replies its worker still owes for the frame in hand. */
  datatype Image = Image(core: Core, committed: bool, published: bool, p: priority, owed: seq<Reply>)

  /** After CPU_ON succeeds CPU3 is booting, and PSCI may still report OFF until it runs. */
  datatype Cpu = Off | Booting | Running(image: Image) | Parked

  /**
   Driver, CPU3, and the session's history: how many numbers Linux drew, what was committed under each, the draw of the
   current stop, the frames CPU3 took, and the frames CPU3 committed.
   */
  datatype Joint = Joint(d: Dev, cpu: Cpu, stopControl: bool,
                         draws: nat, commits: map<nat, Slot>, stopDraw: nat, taken: set<Slot>, sent: seq<Frame>)

  datatype Event =
    | Linux(a: Act)
    | Boot
    | Announce(notify: int)
    | Take(p: priority)
    | Respond(notify: int)
    | PowerOff

  /**
   PSCI tells the truth: OFF is reported only of a core that does not run, and CPU_ON succeeds only on a core that is
   off.
   */
  predicate Honest(j: Joint, a: Act)
  {
    match a
    case Start(aff, cpuOn) => (aff == AffinityOff ==> j.cpu == Off || j.cpu == Booting) && (cpuOn == 0 ==> j.cpu == Off)
    case Rearm(aff, _) => aff == AffinityOff ==> j.cpu == Off || j.cpu == Booting
    case Timeout(_, aff) => aff == AffinityOff ==> j.cpu == Off || j.cpu == Booting
    case AffinityWork(aff) => aff == AffinityOff ==> j.cpu == Off || j.cpu == Booting
    case AffinityShow(aff) => aff == AffinityOff ==> j.cpu == Off || j.cpu == Booting
    case Peer(_, _) => false
    case _ => true
  }

  /** What a driver step added to a forward ring, if anything. */
  function Grown(d: Dev, t: Dev): Option<Slot>
  {
    if |t.forward[0]| > |d.forward[0]| then Some(t.forward[0][|t.forward[0]| - 1])
    else if |t.forward[1]| > |d.forward[1]| then Some(t.forward[1][|t.forward[1]| - 1])
    else if |t.forward[2]| > |d.forward[2]| then Some(t.forward[2][|t.forward[2]| - 1])
    else if |t.forward[3]| > |d.forward[3]| then Some(t.forward[3][|t.forward[3]| - 1])
    else None
  }

  function LinuxStep(j: Joint, a: Act): Joint
  {
    var t := Step(j.d, a);
    if t.session != j.d.session then
      j.(d := t, cpu := if t.phase == Starting then Booting else j.cpu,
      draws := 0, commits := map[], stopDraw := 0, taken := {}, sent := [])
    else if a.Rearm? || t.endpoint.nextSequence == j.d.endpoint.nextSequence then j.(d := t)
    else
      var n := j.draws + 1;
      var next := j.(d := t, draws := n,
                  stopDraw := if j.d.phase == Active && t.phase == Stopping then n else j.stopDraw);
      match Grown(j.d, t)
      case None => next
      case Some(s) => next.(commits := j.commits[n := s])
  }

  function Send(j: Joint, image: Image, p: priority, r: Reply, notify: int): (Joint, Core, bool, bool)
  {
    var (core, q, result, outcome) :=
      SendReply(image.core, SessionOf(j.d.header, image.core), j.d.reverse[p], p, r, notify);
    var t := j.(d := j.d.(reverse := j.d.reverse[p := q]),
             sent := if |q| > |j.d.reverse[p]| then j.sent + [q[|q| - 1].frame] else j.sent);
    (t, core, outcome == Ok, outcome == Ok && NotifyAccepted(notify))
  }

  function BootStep(j: Joint): Joint
  {
    if j.cpu != Booting then j
    else if j.d.header.magic != PROTOCOL_MAGIC || j.d.header.version != PROTOCOL_VERSION || j.d.header.generation == 0
    then j.(cpu := Parked)
    else j.(cpu := Running(Image(FreshCore(j.d.header.generation), false, false, 0, [])))
  }

  /** The main loop's turn: commit READY once, then retry only its doorbell. */
  function AnnounceStep(j: Joint, notify: int): Joint
  {
    if !j.cpu.Running? || j.cpu.image.published then j
    else if j.cpu.image.committed then j.(cpu := Running(j.cpu.image.(published := NotifyAccepted(notify))))
    else
      var (t, core, committed, accepted) := Send(j, j.cpu.image, 0, ReadyReply(j.cpu.image.core.generation), notify);
      t.(cpu := Running(j.cpu.image.(core := core, committed := committed, published := accepted)))
  }

  function TakeStep(j: Joint, p: priority): Joint
  {
    if !j.cpu.Running? || !j.cpu.image.published || j.cpu.image.owed != [] then j
    else
      var i := j.cpu.image;
      var (core, q, message, verdict) := ReceiveSpec(i.core, SessionOf(j.d.header, i.core), j.d.forward[p], p);
      j.(d := j.d.(forward := j.d.forward[p := q]),
      taken := if message.Some? then j.taken + {message.value} else j.taken,
      cpu := Running(i.(core := core, p := p, owed := Replies(j.stopControl, p, verdict, message))))
  }

  /** One reply; STOP_READY both committed and rung takes the core offline. */
  function RespondStep(j: Joint, notify: int): Joint
  {
    if !j.cpu.Running? || j.cpu.image.owed == [] then j
    else
      var i := j.cpu.image;
      var (t, core, committed, accepted) := Send(j, i, i.p, i.owed[0], notify);
      t.(cpu := if i.owed[0].kind == MSG_STOP_READY && accepted then Parked
      else Running(i.(core := core, owed := i.owed[1..])))
  }

  function Next(j: Joint, e: Event): Joint
  {
    match e
    case Linux(a) => LinuxStep(j, a)
    case Boot => BootStep(j)
    case Announce(notify) => AnnounceStep(j, notify)
    case Take(p) => TakeStep(j, p)
    case Respond(notify) => RespondStep(j, notify)
    case PowerOff => j.(cpu := Off)
  }

  /** CPU3 belongs to the session in the window, none runs before the first, and READY goes first and only once. */
  ghost predicate Announced(j: Joint)
  {
    && (j.sent != [] ==> j.sent[0].kind == MSG_SESSION_READY)
    && (forall i | 0 < i < |j.sent| :: j.sent[i].kind != MSG_SESSION_READY)
    && (j.cpu == Booting ==> j.sent == [])
    && (j.cpu.Running? ==> Belongs(j, j.cpu.image))
    && (j.d.session == 0 ==> j.cpu == Off)
  }

  ghost predicate Belongs(j: Joint, i: Image)
  {
    && i.core.generation != 0 && SessionOf(j.d.header, i.core) == Ok
    && (i.committed <==> j.sent != []) && (i.published ==> i.committed)
    && (!i.published ==> i.owed == [] && |j.sent| <= 1)
    && (forall r | r in i.owed :: |r.payload| <= 8 && r.kind != MSG_SESSION_READY)
  }

  /** Until the session opens, nothing but READY is under way; once it is open, READY is not. */
  ghost predicate Opening(j: Joint)
  {
    && (j.d.phase == Starting || j.d.phase == StartTimeout ==>
          && j.d.forward == [[], [], [], []] && |j.sent| <= 1
          && j.d.reverse[1] == j.d.reverse[2] == j.d.reverse[3] == [] && |j.d.reverse[0]| <= |j.sent|
          && (j.cpu.Running? ==> j.cpu.image.owed == []))
    && (Open?(j.d.phase) ==>
          j.sent != [] && forall p: priority, s | s in j.d.reverse[p] :: s.frame.kind != MSG_SESSION_READY)
  }

  /** A stop reply answers a stop request that CPU3 took: same number, and the kind that request deserves. */
  ghost predicate Echoes(j: Joint, kind: u32, payload: Payload)
  {
    exists t | t in j.taken :: t.frame.kind == MSG_STOP_REQUEST && LoadU32(payload) == t.frame.sequence
                               && kind == StopReply(j.stopControl, t.frame).kind
  }

  ghost predicate Owes(j: Joint, r: Reply)
  {
    exists t | t in j.taken :: t.frame.kind == MSG_STOP_REQUEST && r == StopReply(j.stopControl, t.frame)
  }

  /** Every number in circulation was drawn once, and under it lies what was committed. */
  ghost predicate Numbered(j: Joint)
  {
    && (j.d.phase != Unarmed ==> j.d.endpoint.nextSequence == Draw(j.draws))
    && (forall k | k in j.commits :: 0 < k <= j.draws && j.commits[k].frame.sequence == Draw(k))
  }

  ghost predicate Circulates(forward: Rings, commits: map<nat, Slot>)
  {
    forall p: priority, s | s in forward[p] :: s in commits.Values
  }

  /**
   Every stop reply sent or owed echoes a request that was taken; before the first session the rings may hold anything.
   */
  ghost predicate Echoed(j: Joint)
  {
    && (j.d.session != 0 ==>
          forall p: priority, s | s in j.d.reverse[p] ::
            StopKind?(s.frame.kind) ==> Echoes(j, s.frame.kind, s.frame.payload))
    && (j.cpu.Running? ==> forall r | r in j.cpu.image.owed :: StopKind?(r.kind) ==> Owes(j, r))
  }

  ghost predicate Correlated(j: Joint)
  {
    && Numbered(j) && Echoed(j)
    && (j.d.session != 0 ==> Circulates(j.d.forward, j.commits)) && j.taken <= j.commits.Values
  }

  /** While a stop is under way its request is the last number drawn. */
  ghost predicate Pinned(j: Joint)
  {
    j.d.phase == Stopping || j.d.phase == StopTimeout ==>
      && j.stopDraw == j.draws && j.draws in j.commits && j.d.stopSequence == j.commits[j.draws].frame.sequence
      && j.commits[j.draws].frame.kind == MSG_STOP_REQUEST && j.commits[j.draws].frame.length == 0
  }

  ghost predicate Inv(j: Joint) { Sound(j.d) && Announced(j) && Opening(j) && Correlated(j) && Pinned(j) }

  // ---- What a driver step does to the rings and the numbers

  ghost predicate Shrinks(q: Rings, r: Rings) { forall p: priority :: SuffixOf(r[p], q[p]) }

  /** A frame committed on p under the number just drawn. */
  ghost predicate Commits(d: Dev, t: Dev, p: priority, s: Slot)
  {
    t.forward == d.forward[p := d.forward[p] + [s]] && s.frame.sequence == t.endpoint.nextSequence
  }

  ghost predicate Quiet(d: Dev, t: Dev) { t.forward == d.forward && t.endpoint.nextSequence == d.endpoint.nextSequence }

  ghost predicate Draws(d: Dev, t: Dev)
  {
    && d.phase == Active && t.endpoint.nextSequence == NextSequence(d.endpoint.nextSequence) && t.reverse == d.reverse
    && (t.phase == Active || t.phase == Stopping)
    && if Grown(d, t).None? then t.phase == Active && t.forward == d.forward
       else exists p: priority :: Commits(d, t, p, Grown(d, t).value)
  }

  /** A step inside a session, with no restart. */
  ghost predicate Within(d: Dev, t: Dev)
  {
    && t.session == d.session && t.header == d.header
    && (Quiet(d, t) || Draws(d, t))
    && Shrinks(d.reverse, t.reverse)
  }

  ghost predicate Restarts(d: Dev, t: Dev)
  {
    && (t.phase == Starting || t.phase == Unarmed) && t.session != d.session && t.session != 0
    && t.header == Header(PROTOCOL_MAGIC, PROTOCOL_VERSION, t.session) && t.endpoint == FreshCore(t.session)
    && t.forward == t.reverse == [[], [], [], []]
  }

  lemma GrownIs(d: Dev, t: Dev, p: priority, s: Slot)
    requires t.forward == d.forward[p := d.forward[p] + [s]]
    ensures Grown(d, t) == Some(s)
  {
    assert t.forward[p] == d.forward[p] + [s];
  }

  lemma TransmitDraws(d: Dev, p: priority, kind: u32, payload: seq<byte>, notify: int)
    requires Session(d) == Ok && |payload| <= PAYLOAD_BYTES
    ensures var (t, r, n) := Transmit(d, p, kind, payload, notify);
            && t.endpoint.nextSequence == NextSequence(d.endpoint.nextSequence) && t.reverse == d.reverse
            && (r != Ok ==> t.forward == d.forward && Grown(d, t).None?)
            && (r == Ok ==> n == t.endpoint.nextSequence && Grown(d, t).Some? && Commits(d, t, p, Grown(d, t).value)
                            && Grown(d, t).value.frame.kind == kind && Grown(d, t).value.frame.length == |payload|)
  {
    hide Seal, NextSequence, PayloadOf, CountNotify;
      var (t, r, n) := Transmit(d, p, kind, payload, notify);
    SealCommits();
    SequenceMeansCommitted(d.endpoint, Ok, d.forward[p], p, kind, Some(payload), |payload|, notify);
    assert d.forward[p := d.forward[p]] == d.forward;
    if r == Ok {
      GrownIs(d, t, p, t.forward[p][|d.forward[p]|]);
    }
  }

  /** Every step of the driver, as far as rings and numbers are concerned. */
  lemma DriverEffect(d: Dev, a: Act)
    requires Sound(d) && !a.Peer?
    ensures var t := Step(d, a);
            && (t.session != d.session ==> a.Start? && Restarts(d, t))
            && (a.Rearm? ==>
                  t.session == d.session && t.header == d.header && t.forward == d.forward && t.reverse == d.reverse)
            && (!a.Rearm? && t.session == d.session ==> Within(d, t))
  {
    if Traffic?(a) {
      TrafficEffect(d, a);
    } else {
      LifecycleEffect(d, a);
    }
    hide Step, Within, Restarts;
  }

  lemma TrafficEffect(d: Dev, a: Act)
    requires Sound(d) && Traffic?(a) && !a.Peer?
    ensures Within(d, Step(d, a))
  {
    hide Sound, Transmit, ReadSpec, ResponseSpec, InjectSpec, StoreU32, Draws, Within;
    assert Within(d, d) by { StayingIsWithin(d); }
    match a {
      case Inject(p, value, damage) => InjectEffect(d, p, value, damage);
      case Read(fd) => if fd in d.files { ReadEffect(d, d.files[fd].p); }
      case Write(fd, to, kind, payload, notify) =>
        if fd in d.files && |payload| <= PAYLOAD_BYTES && d.phase == Active {
          SendEffect(d, d.files[fd].p, kind, payload, notify);
        }
      case Ping(p, value, notify) =>
        if d.phase == Active {
          SendEffect(d, p, MSG_PING, StoreU32(value), notify);
        }
      case Response => ResponseEffect(d);
      case _ => FilesEffect(d, a);
    }
  }

  /** Opening, closing and claiming touch no ring and no number. */
  lemma FilesEffect(d: Dev, a: Act)
    requires Traffic?(a) && !a.Peer? && !a.Inject? && !a.Read? && !a.Write? && !a.Ping? && !a.Response?
    ensures Within(d, Step(d, a))
  {
    hide Draws;
  }

  lemma StayingIsWithin(d: Dev)
    ensures Within(d, d)
  {
    hide Draws;
  }

  lemma ReadEffect(d: Dev, p: priority)
    ensures Within(d, ReadSpec(d, p).0)
  {
    hide Receive, Draws;
    ReceiveConsumes(d, p);
  }

  lemma ResponseEffect(d: Dev)
    ensures Within(d, ResponseSpec(d))
  {
    hide ResponseSpec, Draws;
    ResponseTakesHeads(d);
  }

  lemma SendEffect(d: Dev, p: priority, kind: u32, payload: seq<byte>, notify: int)
    requires Sound(d) && d.phase == Active && |payload| <= PAYLOAD_BYTES
    ensures Within(d, Transmit(d, p, kind, payload, notify).0)
  {
    hide Transmit, NextSequence;
    TransmitIsTraffic(d, p, kind, payload, notify);
    TransmitDraws(d, p, kind, payload, notify);
  }

  lemma InjectEffect(d: Dev, p: priority, value: u32, damage: bool)
    requires Sound(d)
    ensures Within(d, InjectSpec(d, p, value, damage).0)
  {
    hide Seal, StoreU32, NextSequence;
    SealCommits();
    var t := InjectSpec(d, p, value, damage).0;
    if d.phase == Active && |t.forward[p]| > |d.forward[p]| {
      var s := t.forward[p][|d.forward[p]|];
      GrownIs(d, t, p, s);
      assert Commits(d, t, p, s);
    } else {
      assert t.forward == d.forward;
    }
  }

  lemma LifecycleEffect(d: Dev, a: Act)
    requires Sound(d) && !Traffic?(a)
    ensures var t := Step(d, a);
            && (t.session != d.session ==> a.Start? && Restarts(d, t))
            && (a.Rearm? ==>
                  t.session == d.session && t.header == d.header && t.forward == d.forward && t.reverse == d.reverse)
            && (!a.Rearm? && t.session == d.session ==> Within(d, t))
  {
    if a.Control? {
      ControlEffect(d, a.expired, a.ticks);
      hide ControlSpec, Within;
    } else if a.Stop? {
      StopEffect(d, a.notify);
      hide StopSpec, Within;
    } else if a.Start? {
      StartEffect(d, a.a, a.cpuOn);
      hide StartSpec, Within, Restarts;
    } else if a.Rearm? {
      hide Draws, Refresh;
      RefreshKeepsSound(d, a.a);
    } else {
      hide Draws, Restarts;
    }
  }

  lemma StartEffect(d: Dev, a: Affinity, cpuOn: int)
    requires Sound(d)
    ensures var t := StartSpec(d, a, cpuOn).0;
            if t.session != d.session then Restarts(d, t) else Within(d, t)
  {
    hide Draws, Refresh;
    RefreshKeepsSound(d, a);
  }

  lemma ControlEffect(d: Dev, expired: bool, ticks: nat)
    ensures Within(d, ControlSpec(d, expired, ticks))
  {
    hide ReadyFor, StopReplyTo, ControlDrain, Draws;
    if d.phase == Starting || d.phase == Stopping {
      ControlReaches(d, expired, ticks);
      hide ControlSpec;
    }
  }

  lemma StopEffect(d: Dev, notify: int)
    requires Sound(d)
    ensures Within(d, StopSpec(d, notify).0)
    ensures var t := StopSpec(d, notify).0;
            d.phase == Active && t.phase == Stopping ==>
              && Draws(d, t) && Grown(d, t).Some? && t.stopSequence == t.endpoint.nextSequence
              && Grown(d, t).value.frame.kind == MSG_STOP_REQUEST && Grown(d, t).value.frame.length == 0
  {
    hide Transmit, NextSequence;
    var closing := d.(phase := Stopping, stopSequence := 0, stopReply := 0, stopResult := EINPROGRESS,
    stopNotify := EINPROGRESS);
    if d.phase == Active && PreflightSpec(d) == 0 {
      TransmitIsTraffic(closing, 0, MSG_STOP_REQUEST, [], notify);
      TransmitDraws(closing, 0, MSG_STOP_REQUEST, [], notify);
      var t, u := StopSpec(d, notify).0, Transmit(closing, 0, MSG_STOP_REQUEST, [], notify).0;
      if Grown(closing, u).Some? {
        assert Commits(closing, u, 0, Grown(closing, u).value);
        assert Commits(d, t, 0, Grown(d, t).value);
      }
    }
  }

  /** Where a step inside a session can lead. */
  ghost predicate Phases(d: Dev, t: Dev)
  {
    && (t.phase == Starting || t.phase == StartTimeout ==> d.phase == Starting || d.phase == StartTimeout)
    && (Open?(t.phase) ==>
          Open?(d.phase) || (d.phase == Starting && t.phase == Active && |t.reverse[0]| < |d.reverse[0]|))
    && (t.phase != Unarmed ==> d.phase != Unarmed)
  }

  /** How a stop begins and goes on, and where an opening step leaves p0. */
  ghost predicate WaysInto(d: Dev, t: Dev, a: Act)
  {
    && (t.phase == Stopping || t.phase == StopTimeout ==>
          || ((d.phase == Stopping || d.phase == StopTimeout) && t.stopSequence == d.stopSequence)
          || (d.phase == Active && t.phase == Stopping && a.Stop?))
    && (!a.Rearm? && t.session == d.session ==> Phases(d, t))
  }

  lemma WaysIn(d: Dev, a: Act)
    requires Sound(d) && !a.Peer?
    ensures WaysInto(d, Step(d, a), a)
  {
    if Traffic?(a) {
      TrafficLeavesLifecycle(d, a);
      hide Step;
    } else if a.Control? {
      ControlWays(d, a.expired, a.ticks);
      hide ControlSpec, WaysInto;
    } else {
      hide Transmit;
    }
  }

  lemma ControlWays(d: Dev, expired: bool, ticks: nat)
    ensures WaysInto(d, ControlSpec(d, expired, ticks), Control(expired, ticks))
  {
    hide SuffixOf, ReadyFor, StopReplyTo;
    if d.phase == Starting || d.phase == Stopping {
      ControlReaches(d, expired, ticks);
      hide ControlSpec;
    }
  }

  lemma RestartKeeps(j: Joint, a: Act)
    requires Inv(j) && Honest(j, a) && Step(j.d, a).session != j.d.session
    ensures Inv(LinuxStep(j, a))
  {
    StepKeepsSound(j.d, a);
    DriverEffect(j.d, a);
    RestartNeedsOff(j.d, a);
    hide Step, Sound;
  }

  lemma RestartNeedsOff(d: Dev, a: Act)
    requires a.Start? && Step(d, a).session != d.session
    ensures a.a == AffinityOff && (Step(d, a).phase == Starting <==> a.cpuOn == 0)
  {
  }

  lemma RearmKeeps(j: Joint, a: Act)
    requires Inv(j) && Honest(j, a) && a.Rearm?
    ensures Inv(LinuxStep(j, a))
  {
    StepKeepsSound(j.d, a);
    DriverEffect(j.d, a);
    RearmPhases(j.d, a);
    hide Step, Sound;
  }

  lemma RearmPhases(d: Dev, a: Act)
    requires Sound(d) && a.Rearm?
    ensures var t := Step(d, a);
            || (t.phase == d.phase && t == d) || t.phase == Unarmed
            || (t.endpoint == d.endpoint && t.phase == Offline)
            || (t.endpoint == d.endpoint && t.phase == d.phase && t.stopSequence == d.stopSequence)
  {
  }

  lemma WithinKeeps(j: Joint, a: Act)
    requires Inv(j) && Honest(j, a) && !a.Rearm? && Step(j.d, a).session == j.d.session
    ensures Inv(LinuxStep(j, a))
  {
    hide Step, Sound, Announced, Opening, Correlated, Numbered, Circulates, Echoed, Pinned, Within, Phases;
    StepKeepsSound(j.d, a);
    DriverEffect(j.d, a);
    WaysIn(j.d, a);
    ActiveInSession(j.d);
    WithinKeepsAnnounced(j, a);
    WithinKeepsOpening(j, a);
    WithinKeepsCorrelated(j, a);
    WithinKeepsPinned(j, a);
  }

  lemma ActiveInSession(d: Dev)
    requires Sound(d)
    ensures d.phase == Active || d.phase == Stopping ==> d.session != 0
  {
  }

  lemma WithinKeepsAnnounced(j: Joint, a: Act)
    requires Announced(j) && Within(j.d, Step(j.d, a))
    ensures Announced(LinuxStep(j, a))
  {
    hide Step, Draws;
  }

  lemma ShrinksInto(q: Rings, r: Rings)
    requires Shrinks(q, r)
    ensures forall p: priority :: |r[p]| <= |q[p]| && forall s | s in r[p] :: s in q[p]
  {
  }

  lemma WithinKeepsOpening(j: Joint, a: Act)
    requires Opening(j) && Within(j.d, Step(j.d, a)) && Phases(j.d, Step(j.d, a))
    ensures Opening(LinuxStep(j, a))
  {
    hide Step, Shrinks, Grown, Commits;
    ShrinksInto(j.d.reverse, Step(j.d, a).reverse);
  }

  lemma ValuesGrow(m: map<nat, Slot>, n: nat, s: Slot)
    requires n !in m
    ensures m[n := s].Values == m.Values + {s}
  {
    forall x | x in m.Values ensures x in m[n := s].Values {
      var k :| k in m && m[k] == x;
      assert m[n := s][k] == x;
    }
    assert m[n := s][n] == s;
  }

  lemma CommitCirculates(d: Dev, t: Dev, p: priority, s: Slot, commits: map<nat, Slot>, n: nat)
    requires Circulates(d.forward, commits) && n !in commits && Commits(d, t, p, s)
    ensures Circulates(t.forward, commits[n := s])
  {
    ValuesGrow(commits, n, s);
    forall q: priority, x | x in t.forward[q] ensures x in commits[n := s].Values {
      assert x in d.forward[q] || x == s;
    }
  }

  lemma WithinKeepsCorrelated(j: Joint, a: Act)
    requires Correlated(j) && Within(j.d, Step(j.d, a)) && Phases(j.d, Step(j.d, a)) && !a.Rearm?
    requires j.d.phase == Active ==> j.d.session != 0
    ensures Correlated(LinuxStep(j, a))
  {
    hide Step, Numbered, Circulates, Echoed, Draws, Quiet, Shrinks;
    ShrinkKeepsEchoed(j, LinuxStep(j, a)) by { StepKeepsHistory(j, a); }
    if Draws(j.d, Step(j.d, a)) {
      assert j.d.session != 0 by { DrawsWhenActive(j.d, Step(j.d, a)); }
      DrawKeepsNumbered(j, a);
    } else {
      QuietKeepsNumbered(j, a);
    }
    hide LinuxStep;
  }

  lemma StepKeepsHistory(j: Joint, a: Act)
    requires Step(j.d, a).session == j.d.session
    ensures var u := LinuxStep(j, a);
            u.d == Step(j.d, a) && u.taken == j.taken && u.cpu == j.cpu && u.stopControl == j.stopControl
  {
    hide Step;
  }

  lemma DrawsWhenActive(d: Dev, t: Dev)
    requires Draws(d, t)
    ensures d.phase == Active
  {
  }

  lemma QuietKeepsNumbered(j: Joint, a: Act)
    requires Numbered(j) && Quiet(j.d, Step(j.d, a)) && Phases(j.d, Step(j.d, a))
    requires Step(j.d, a).session == j.d.session && !a.Rearm?
    ensures var u := LinuxStep(j, a); Numbered(u) && u.d.forward == j.d.forward && u.commits == j.commits
  {
    hide Step;
  }

  lemma ShrinkKeepsEchoed(j: Joint, u: Joint)
    requires Echoed(j) && Shrinks(j.d.reverse, u.d.reverse) && u.d.session == j.d.session
    requires u.taken == j.taken && u.cpu == j.cpu && u.stopControl == j.stopControl
    ensures Echoed(u)
  {
    hide StopReply, LoadU32, Shrinks;
    ShrinksInto(j.d.reverse, u.d.reverse);
    assert forall kind, payload: Payload | Echoes(j, kind, payload) :: Echoes(u, kind, payload);
    assert forall r | Owes(j, r) :: Owes(u, r);
  }

  lemma DrawKeepsNumbered(j: Joint, a: Act)
    requires Numbered(j) && Circulates(j.d.forward, j.commits) && j.taken <= j.commits.Values
    requires Draws(j.d, Step(j.d, a)) && Step(j.d, a).session == j.d.session && !a.Rearm?
    ensures var u := LinuxStep(j, a); Numbered(u) && Circulates(u.d.forward, u.commits) && u.taken <= u.commits.Values
  {
    hide Step;
    var t, n := Step(j.d, a), j.draws + 1;
    assert Draw(n) == NextSequence(Draw(j.draws));
    if Grown(j.d, t).Some? {
      var s := Grown(j.d, t).value;
      ValuesGrow(j.commits, n, s);
      var p: priority :| Commits(j.d, t, p, s);
      CommitCirculates(j.d, t, p, s, j.commits, n);
    }
  }

  lemma WithinKeepsPinned(j: Joint, a: Act)
    requires Correlated(j) && Pinned(j) && Within(j.d, Step(j.d, a)) && !a.Rearm? && !a.Peer? && Sound(j.d)
    ensures Pinned(LinuxStep(j, a))
  {
    hide Step, Sound, Circulates, Echoed;
    WaysIn(j.d, a);
    if a.Stop? {
      StopBegins(j.d, a.notify);
    }
  }

  lemma StopBegins(d: Dev, notify: int)
    requires Sound(d)
    ensures var t := Step(d, Stop(notify));
            d.phase == Active && t.phase == Stopping ==>
              && Draws(d, t) && Grown(d, t).Some? && t.stopSequence == t.endpoint.nextSequence
              && Grown(d, t).value.frame.kind == MSG_STOP_REQUEST && Grown(d, t).value.frame.length == 0
  {
    StopEffect(d, notify);
    hide StopSpec;
  }

  // ---- What CPU3's steps do

  /** The slot that carries reply r. */
  ghost predicate Carries(s: Slot, r: Reply)
    requires |r.payload| <= 8
  {
    s.frame.kind == r.kind && s.frame.payload == PayloadOf(r.payload, |r.payload|)
  }

  ghost predicate Appended(j: Joint, t: Joint, p: priority, s: Slot)
  {
    t == j.(d := j.d.(reverse := j.d.reverse[p := j.d.reverse[p] + [s]]), sent := j.sent + [s.frame])
  }

  lemma SendAppends(j: Joint, i: Image, p: priority, r: Reply, notify: int) returns (s: Slot)
    requires |r.payload| <= 8 && i.core.generation != 0 && SessionOf(j.d.header, i.core) == Ok
    ensures var (t, core, committed, accepted) := Send(j, i, p, r, notify);
            && core.generation == i.core.generation && (accepted <==> committed && NotifyAccepted(notify))
            && (committed ==> Carries(s, r) && Appended(j, t, p, s)
                              && s == Seal(s.frame) && WellFormed(s.frame) && s.frame.generation == i.core.generation
                              && s.frame.length == |r.payload|)
            && (committed <==> |j.d.reverse[p]| < CAPACITY)
            && (!committed ==> t == j)
  {
    hide Seal, NextSequence, PayloadOf, CountNotify;
    SealCommits();
    var (core, q, result, outcome) := SendReply(i.core, SessionOf(j.d.header, i.core), j.d.reverse[p], p, r, notify);
    SequenceMeansCommitted(i.core, Ok, j.d.reverse[p], p, r.kind, Some(r.payload), |r.payload|, notify);
    assert j.d.reverse[p := j.d.reverse[p]] == j.d.reverse;
    s := if outcome == Ok then q[|q| - 1] else Seal(Frame(0, 0, 0, 0, seq(28, _ => 0)));
  }

  lemma AnnounceKeeps(j: Joint, notify: int)
    requires Inv(j)
    ensures Inv(AnnounceStep(j, notify))
  {
    hide Sound, PayloadOf, StopReply, Numbered, Circulates, Send, StoreU32, Seal, WellFormed, SessionSpec, LoadU32;
    if j.cpu.Running? && !j.cpu.image.published && !j.cpu.image.committed {
      var i := j.cpu.image;
      var s := SendAppends(j, i, 0, ReadyReply(i.core.generation), notify);
    }
    RingsCarrySound(j, AnnounceStep(j, notify));
  }

  /** CPU3's steps leave everything of the driver's but the rings. */
  ghost predicate RingsOnly(j: Joint, t: Joint)
  {
    && t.d == j.d.(forward := t.d.forward, reverse := t.d.reverse)
    && t.draws == j.draws && t.commits == j.commits && t.stopDraw == j.stopDraw && t.stopControl == j.stopControl
  }

  lemma RingsCarrySound(j: Joint, t: Joint)
    requires Sound(j.d) && Pinned(j) && Numbered(j) && RingsOnly(j, t)
    ensures Sound(t.d) && Pinned(t) && Numbered(t)
  {
  }

  lemma TakeKeeps(j: Joint, p: priority)
    requires Inv(j)
    ensures Inv(TakeStep(j, p))
  {
    hide Sound, Pinned, Numbered, Replies, ReceiveSpec;
    RingsCarrySound(j, TakeStep(j, p));
    if j.cpu.Running? && j.cpu.image.published && j.cpu.image.owed == [] {
      TakeKeepsCorrelated(j, p);
      TakeKeepsAnnounced(j, p);
      TakeKeepsOpening(j, p);
      hide Correlated, Opening, Announced;
    }
  }

  lemma TakeKeepsAnnounced(j: Joint, p: priority)
    requires Announced(j) && j.cpu.Running? && j.cpu.image.published && j.cpu.image.owed == []
    ensures Announced(TakeStep(j, p))
  {
    hide Replies, ReceiveSpec;
    var i := j.cpu.image;
    var (core, q, message, verdict) := ReceiveSpec(i.core, SessionOf(j.d.header, i.core), j.d.forward[p], p);
    StopRepliesEcho(j.stopControl, p, verdict, message);
    TakenWasThere(j, p);
  }

  lemma TakeKeepsOpening(j: Joint, p: priority)
    requires Opening(j) && j.cpu.Running? && j.cpu.image.published && j.cpu.image.owed == []
    ensures Opening(TakeStep(j, p))
  {
    hide Replies, ReceiveSpec;
    if j.d.phase == Starting || j.d.phase == StartTimeout {
      TakesNothing(j, p);
      hide TakeStep;
    }
  }

  lemma TakesNothing(j: Joint, p: priority)
    requires j.cpu.Running? && j.cpu.image.published && j.cpu.image.owed == [] && j.d.forward[p] == []
    ensures var t := TakeStep(j, p); t.d == j.d && t.sent == j.sent && t.cpu.Running? && t.cpu.image.owed == []
  {
    hide Replies, ReceiveSpec;
    var i := j.cpu.image;
    var (core, q, message, verdict) := ReceiveSpec(i.core, SessionOf(j.d.header, i.core), j.d.forward[p], p);
    ReceiveTakesHead(i.core, SessionOf(j.d.header, i.core), j.d.forward[p], p);
    NothingOwed(j.stopControl, p, verdict);
    assert message.None?;
    assert j.d.forward[p := j.d.forward[p]] == j.d.forward;
  }

  lemma NothingOwed(stopControl: bool, p: priority, verdict: Outcome)
    ensures Replies(stopControl, p, verdict, None) == []
  {
  }

  lemma TakenWasThere(j: Joint, p: priority)
    requires j.cpu.Running?
    ensures var i := j.cpu.image;
            var (core, q, message, verdict) := ReceiveSpec(i.core, SessionOf(j.d.header, i.core), j.d.forward[p], p);
            && SuffixOf(q, j.d.forward[p]) && core.generation == i.core.generation
            && (message.Some? ==> message.value in j.d.forward[p])
  {
    hide ReceiveSpec, SessionSpec;
    var i := j.cpu.image;
    ReceiveTakesHead(i.core, SessionOf(j.d.header, i.core), j.d.forward[p], p);
    var (core, q, message, verdict) := ReceiveSpec(i.core, SessionOf(j.d.header, i.core), j.d.forward[p], p);
    assert core.generation == i.core.generation;
    assert SuffixOf(q, j.d.forward[p]);
    assert message.Some? ==> message.value in j.d.forward[p];
  }

  lemma OwedForTaken(j: Joint, p: priority, verdict: Outcome, message: Option<Slot>)
    ensures forall r | r in Replies(j.stopControl, p, verdict, message) ::
              StopKind?(r.kind) ==>
                && message.Some? && message.value.frame.kind == MSG_STOP_REQUEST
                && r == StopReply(j.stopControl, message.value.frame)
  {
    StopRepliesEcho(j.stopControl, p, verdict, message);
    hide Replies, StopReply;
  }

  lemma TakeKeepsCorrelated(j: Joint, p: priority)
    requires Correlated(j) && j.cpu.Running? && j.cpu.image.published && j.cpu.image.owed == [] && j.d.session != 0
    ensures Correlated(TakeStep(j, p))
  {
    hide Replies, StopReply, ReceiveSpec, LoadU32;
    var i := j.cpu.image;
    var (core, q, message, verdict) := ReceiveSpec(i.core, SessionOf(j.d.header, i.core), j.d.forward[p], p);
    TakenWasThere(j, p);
    OwedForTaken(j, p, verdict, message);
    var u := TakeStep(j, p);
    assert forall kind, payload: Payload | Echoes(j, kind, payload) :: Echoes(u, kind, payload);
    forall r | r in u.cpu.image.owed && StopKind?(r.kind) ensures Owes(u, r) {
      assert message.value in u.taken;
    }
  }

  lemma RespondKeeps(j: Joint, notify: int)
    requires Inv(j)
    ensures Inv(RespondStep(j, notify))
  {
    hide Sound, Pinned, Numbered, Circulates, Send, StopReply, PayloadOf, LoadU32;
    if j.cpu.Running? && j.cpu.image.owed != [] {
      var i := j.cpu.image;
      var s := SendAppends(j, i, i.p, i.owed[0], notify);
      RespondKeepsEchoed(j, notify, s);
      hide Echoed;
    }
    RingsCarrySound(j, RespondStep(j, notify));
  }

  lemma RespondKeepsEchoed(j: Joint, notify: int, s: Slot)
    requires Echoed(j) && j.cpu.Running? && j.cpu.image.owed != [] && |j.cpu.image.owed[0].payload| <= 8
    requires var i := j.cpu.image;
             var (t, core, committed, accepted) := Send(j, i, i.p, i.owed[0], notify);
             if committed then Carries(s, i.owed[0]) && Appended(j, t, i.p, s) else t == j
    ensures Echoed(RespondStep(j, notify))
  {
    hide Send, StopReply, LoadU32, PayloadOf;
    var i, u := j.cpu.image, RespondStep(j, notify);
    assert forall kind, payload: Payload | Echoes(j, kind, payload) :: Echoes(u, kind, payload);
    assert forall r | Owes(j, r) :: Owes(u, r);
    if StopKind?(i.owed[0].kind) {
      EchoCarried(j, i.owed[0], s);
    }
  }

  lemma EchoCarried(j: Joint, r: Reply, s: Slot)
    requires Owes(j, r) && |r.payload| <= 8
    ensures Carries(s, r) ==> Echoes(j, s.frame.kind, s.frame.payload)
  {
    hide LoadU32, StoreU32, PayloadOf;
    var t :| t in j.taken && t.frame.kind == MSG_STOP_REQUEST && r == StopReply(j.stopControl, t.frame);
    EchoReads(r.kind, t.frame.sequence,
              if t.frame.length != 0 then STOP_REFUSED_INVALID_REQUEST else if j.stopControl then 0
              else STOP_REFUSED_BUSY);
  }

  lemma NextKeeps(j: Joint, e: Event)
    requires Inv(j) && (e.Linux? ==> Honest(j, e.a))
    ensures Inv(Next(j, e))
  {
    match e {
      case Linux(a) =>
        if Step(j.d, a).session != j.d.session { RestartKeeps(j, a); }
        else if a.Rearm? { RearmKeeps(j, a); }
        else { WithinKeeps(j, a); }
        hide Inv, LinuxStep, Step;
      case Announce(notify) => AnnounceKeeps(j, notify); hide Inv, AnnounceStep;
      case Take(p) => TakeKeeps(j, p); hide Inv, TakeStep;
      case Respond(notify) => RespondKeeps(j, notify); hide Inv, RespondStep;
      case Boot => BootKeeps(j); hide Inv, BootStep;
      case PowerOff => RingsCarrySound(j, Next(j, e)); hide Sound, Pinned, Numbered, Circulates;
    }
  }

  lemma BootKeeps(j: Joint)
    requires Inv(j)
    ensures Inv(BootStep(j))
  {
    hide Sound, Pinned, Numbered, Circulates;
    RingsCarrySound(j, BootStep(j));
  }

  // ---- Over whole runs

  /** A probed device: the eight rings may hold whatever lay in memory. */
  ghost predicate Fresh(j: Joint)
  {
    && Probed(j.d) && j.cpu == Off && j.draws == j.stopDraw == 0 && j.commits == map[] && j.taken == {} && j.sent == []
  }

  ghost predicate Run(js: seq<Joint>, es: seq<Event>)
  {
    && |js| == |es| + 1 && Fresh(js[0])
    && forall i | 0 <= i < |es| :: (es[i].Linux? ==> Honest(js[i], es[i].a)) && js[i + 1] == Next(js[i], es[i])
  }

  lemma {:induction false} RunKeeps(js: seq<Joint>, es: seq<Event>, n: nat)
    requires Run(js, es) && n < |js|
    ensures Inv(js[n])
  {
    if n > 0 {
      RunKeeps(js, es, n - 1);
      NextKeeps(js[n - 1], es[n - 1]);
      hide Inv, Next;
    }
  }

  /** In every session CPU3 commits READY at most once, whatever the doorbells answer, and nothing before it. */
  lemma ReadyIsFirstAndOnce(js: seq<Joint>, es: seq<Event>, n: nat)
    requires Run(js, es) && n < |js|
    ensures forall i | 0 <= i < |js[n].sent| :: js[n].sent[i].kind == MSG_SESSION_READY <==> i == 0
  {
    RunKeeps(js, es, n);
  }

  /** At the step that opens the data plane all eight rings are empty. */
  lemma OpensOnEmptyRings(js: seq<Joint>, es: seq<Event>, n: nat)
    requires Run(js, es) && n < |es| && js[n].d.phase == Starting && js[n + 1].d.phase == Active
    ensures js[n + 1].d.forward == js[n + 1].d.reverse == [[], [], [], []]
  {
    RunKeeps(js, es, n);
    var d, t := js[n].d, js[n + 1].d;
    CpuKeepsPhase(js[n], es[n]);
    var a := es[n].a;
    DriverEffect(d, a);
    WaysIn(d, a);
    WaysOut(d, a);
    hide Step, Sound, Draws;
    ShrinksInto(d.reverse, t.reverse);
    hide Shrinks;
    assert !Draws(d, t) by { NoDrawWhenClosed(d, t); }
    assert t.reverse == [t.reverse[0], t.reverse[1], t.reverse[2], t.reverse[3]];
  }

  lemma NoDrawWhenClosed(d: Dev, t: Dev)
    ensures d.phase != Active ==> !Draws(d, t)
  {
  }

  lemma CpuKeepsPhase(j: Joint, e: Event)
    ensures e.Linux? ==> Next(j, e).d == Step(j.d, e.a)
    ensures !e.Linux? ==>
              Next(j, e).d.phase == j.d.phase && Next(j, e).draws == j.draws && Next(j, e).commits == j.commits
  {
    hide Step, Send, ReceiveSpec, Replies;
    if !e.Linux? {
      CpuTouchesRingsOnly(j, e);
      hide Next;
    }
  }

  lemma CpuTouchesRingsOnly(j: Joint, e: Event)
    requires !e.Linux?
    ensures RingsOnly(j, Next(j, e))
  {
    hide SendReply, ReceiveSpec, Replies, LinuxStep, Send;
    match e {
      case Announce(notify) => SendTouchesRings(j, notify); hide TakeStep, RespondStep, BootStep;
      case Respond(notify) => SendTouchesRings(j, notify); hide TakeStep, AnnounceStep, BootStep;
      case Take(p) => hide RespondStep, AnnounceStep, BootStep;
      case _ => hide RespondStep, AnnounceStep, TakeStep;
    }
  }

  lemma SendTouchesRings(j: Joint, notify: int)
    ensures forall i: Image, p: priority, r: Reply :: RingsOnly(j, Send(j, i, p, r, notify).0)
  {
    hide SendReply;
  }

  /** No read through a descriptor ever returns SESSION_READY. */
  lemma UsersNeverReadReady(js: seq<Joint>, es: seq<Event>, n: nat, p: priority)
    requires Run(js, es) && n < |js|
    ensures var turn := ReadSpec(js[n].d, p).1; turn.Got? ==> turn.s.frame.kind != MSG_SESSION_READY
  {
    RunKeeps(js, es, n);
    ReceiveConsumes(js[n].d, p);
    hide Receive, Announced, Correlated, Pinned, Sound;
  }

  /** Outside ACTIVE no frame is committed to any forward ring, by any entry point, within a session. */
  lemma NoCommitOutsideActive(js: seq<Joint>, es: seq<Event>, n: nat)
    requires Run(js, es) && n < |es| && js[n].d.phase != Active && js[n + 1].d.session == js[n].d.session
    ensures js[n + 1].draws == js[n].draws && js[n + 1].commits == js[n].commits
    ensures Shrinks(js[n].d.forward, js[n + 1].d.forward)
  {
    RunKeeps(js, es, n);
    var j, e := js[n], es[n];
    CpuKeepsPhase(j, e);
    if e.Linux? {
      DriverEffect(j.d, e.a);
      NoDrawWhenClosed(j.d, Step(j.d, e.a));
      hide Step, Sound, Draws;
    } else if e.Take? {
      CpuTakesHeads(j, e.p);
      hide TakeStep, Inv;
    } else {
      CpuLeavesForward(j, e);
      hide Next, Inv;
    }
  }

  lemma CpuTakesHeads(j: Joint, p: priority)
    ensures Shrinks(j.d.forward, TakeStep(j, p).d.forward)
  {
    hide ReceiveSpec, Replies;
    if j.cpu.Running? {
      TakenWasThere(j, p);
    }
  }

  lemma CpuLeavesForward(j: Joint, e: Event)
    requires !e.Linux? && !e.Take?
    ensures Next(j, e).d.forward == j.d.forward
  {
    hide SendReply;
  }

  lemma StaysInSession(js: seq<Joint>, es: seq<Event>, n: nat)
    requires Run(js, es) && n < |es| && js[n].d.phase != Unarmed
    ensures js[n + 1].d.session == js[n].d.session
  {
    RunKeeps(js, es, n);
    CpuKeepsPhase(js[n], es[n]);
    if es[n].Linux? {
      DriverEffect(js[n].d, es[n].a);
      if es[n].a.Start? {
        StartNeedsUnarmed(js[n].d, es[n].a);
      }
      hide Step, Sound, Within;
    } else {
      CpuTouchesRingsOnly(js[n], es[n]);
      hide Next, Sound;
    }
  }

  lemma StartNeedsUnarmed(d: Dev, a: Act)
    requires Sound(d) && a.Start? && d.phase != Unarmed
    ensures Step(d, a).session == d.session
  {
  }

  lemma {:induction false} FrozenDuringStop(js: seq<Joint>, es: seq<Event>, i: nat, n: nat)
    requires Run(js, es) && i <= n < |js| && forall k | i <= k <= n :: js[k].d.phase == Stopping
    ensures js[n].draws == js[i].draws && js[n].commits == js[i].commits
  {
    hide Next, Honest, Fresh;
    if i < n {
      FrozenDuringStop(js, es, i, n - 1);
      StaysInSession(js, es, n - 1);
      NoCommitOutsideActive(js, es, n - 1);
    }
  }

  /** How a stop begins: its request is committed under a number drawn just now. */
  lemma StopCommits(js: seq<Joint>, es: seq<Event>, i: nat)
    requires Run(js, es) && i < |es| && js[i].d.phase == Active && js[i + 1].d.phase == Stopping
    ensures js[i + 1].draws == js[i].draws + 1 && js[i].draws + 1 !in js[i].commits
    ensures js[i + 1].draws in js[i + 1].commits
            && js[i + 1].commits == js[i].commits[js[i + 1].draws := js[i + 1].commits[js[i + 1].draws]]
    ensures js[i + 1].commits[js[i + 1].draws].frame.kind == MSG_STOP_REQUEST
    ensures js[i + 1].d.stopSequence == js[i + 1].commits[js[i + 1].draws].frame.sequence != 0
  {
    hide Step, Sound, Announced, Opening, Circulates, Echoed, Phases, Fresh;
    RunKeeps(js, es, i);
    CpuKeepsPhase(js[i], es[i]);
    WaysIn(js[i].d, es[i].a);
    StaysInSession(js, es, i);
    StopBegins(js[i].d, es[i].a.notify);
    DrawsRepeatExactlyByCycle(js[i].draws + 1, js[i].draws + 1);
  }

  /** A run of STOPPING that ends in ACTIVE. */
  ghost predicate RefusedStop(js: seq<Joint>, es: seq<Event>, i: nat, n: nat)
    requires Run(js, es)
  {
    && i < n < |es| && js[i].d.phase == Active && js[n + 1].d.phase == Active
    && forall k | i < k <= n :: js[k].d.phase == Stopping
  }

  /**
    * STOPPING goes back to ACTIVE only because CPU3 took this stop's own request and refused it: the request is the one
    * commit since ACTIVE was left, it was not there before, and an image built to stop never refuses it.
    */
  lemma RefusalAnswersThisStop(js: seq<Joint>, es: seq<Event>, i: nat, n: nat)
    requires Run(js, es) && RefusedStop(js, es, i, n) && js[n].draws <= CYCLE
    ensures var own := js[i].draws + 1;
            && own !in js[i].commits && own in js[n].commits
            && js[n].commits == js[i].commits[own := js[n].commits[own]]
            && js[n].draws == own && js[n].commits[own].frame.kind == MSG_STOP_REQUEST
            && js[n].d.stopSequence == js[n].commits[own].frame.sequence != 0
            && js[n].commits[own] in js[n].taken
            && !js[n].stopControl
            && exists s | s in js[n].d.reverse[0] ::
                 s.frame.kind == MSG_STOP_REFUSED && LoadU32(s.frame.payload) == js[n].d.stopSequence
  {
    StopCommits(js, es, i);
    FrozenDuringStop(js, es, i + 1, n);
    RunKeeps(js, es, n);
    var j := js[n];
    var s := RefusalFound(js, es, n);
    EchoNamesTheStop(j, s);
  }

  lemma RefusalFound(js: seq<Joint>, es: seq<Event>, n: nat) returns (s: Slot)
    requires Run(js, es) && n < |es| && js[n].d.phase == Stopping && js[n + 1].d.phase == Active
    ensures s in js[n].d.reverse[0] && StopReplyTo(s.frame, js[n].d.stopSequence) && s.frame.kind == MSG_STOP_REFUSED
  {
    CpuKeepsPhase(js[n], es[n]);
    var d, a := js[n].d, es[n].a;
    RunKeeps(js, es, n);
    OnlyControlReopens(d, a);
    hide StopReplyTo, ReadyFor, SuffixOf;
    ControlReaches(d, a.expired, a.ticks);
    s :| s in d.reverse[0] && StopReplyTo(s.frame, d.stopSequence) && s.frame.kind == MSG_STOP_REFUSED;
  }

  lemma OnlyControlReopens(d: Dev, a: Act)
    requires Sound(d) && d.phase == Stopping && Step(d, a).phase == Active
    ensures a.Control?
  {
    if Traffic?(a) {
      TrafficLeavesLifecycle(d, a);
      hide Step;
    } else {
      hide ControlSpec, Transmit;
    }
  }

  lemma EchoNamesTheStop(j: Joint, s: Slot)
    requires Inv(j) && j.d.phase == Stopping && j.draws <= CYCLE
    requires s in j.d.reverse[0] && s.frame.kind == MSG_STOP_REFUSED && LoadU32(s.frame.payload) == j.d.stopSequence
    ensures j.commits[j.draws] in j.taken && !j.stopControl
  {
    hide LoadU32, StoreU32, StopReply, Sound, Announced, Opening, Circulates, Echoed, Draw;
    ActiveInSession(j.d);
    var k := EchoedRequest(j, s);
    DrawsRepeatExactlyByCycle(k, j.draws);
    BusyOnly(j.stopControl, j.commits[j.draws].frame);
  }

  lemma BusyOnly(stopControl: bool, f: Frame)
    requires f.length == 0
    ensures StopReply(stopControl, f).kind == MSG_STOP_REFUSED <==> !stopControl
  {
  }

  lemma EchoedRequest(j: Joint, s: Slot) returns (k: nat)
    requires Echoed(j) && Numbered(j) && j.taken <= j.commits.Values && j.d.session != 0
    requires s in j.d.reverse[0] && s.frame.kind == MSG_STOP_REFUSED
    ensures 0 < k <= j.draws && k in j.commits && j.commits[k] in j.taken
    ensures LoadU32(s.frame.payload) == Draw(k) && StopReply(j.stopControl, j.commits[k].frame).kind == MSG_STOP_REFUSED
  {
    hide LoadU32, StopReply, Draw;
    assert Echoes(j, s.frame.kind, s.frame.payload);
    var t :| t in j.taken && t.frame.kind == MSG_STOP_REQUEST && LoadU32(s.frame.payload) == t.frame.sequence
             && s.frame.kind == StopReply(j.stopControl, t.frame).kind;
    k :| k in j.commits && j.commits[k] == t;
  }

  /**
   Injected corruption from sysfs to CPU3's answer: the hook commits one damaged frame under a fresh number, and when
   its turn comes CPU3 rejects it, releases it, and names that number and the reason, or on an unreliable priority
   stays silent.
   */
  lemma InjectionIsRefused(d: Dev, p: priority, value: u32, core: Core, behind: seq<Slot>, stopControl: bool)
    requires Sound(d) && d.phase == Active && |d.forward[p]| < CAPACITY && core.generation != 0
    ensures var (t, code) := InjectSpec(d, p, value, true);
            && code == 0 && |t.forward[p]| == |d.forward[p]| + 1 && t.forward[p][..|d.forward[p]|] == d.forward[p]
            && var damaged := t.forward[p][|d.forward[p]|];
            var (after, q, message, verdict) := ReceiveSpec(core, Ok, [damaged] + behind, p);
            && damaged.frame.sequence == t.endpoint.nextSequence != 0
            && q == behind && verdict == RingError(RingBadCrc) && message == Some(damaged)
            && Replies(stopControl, p, verdict, message)
               == (if Reliable(p) then [Feedback(MSG_NACK, t.endpoint.nextSequence, NACK_BAD_CRC)] else [])
  {
    hide Seal, StoreU32, ReceiveSpec, Replies, Damage;
    var n := NextSequence(d.endpoint.nextSequence);
    var f := Frame(d.endpoint.generation, MSG_PING, n, 4, StoreU32(value) + seq(24, _ => 0));
    InjectedDamageIsRefused(core, p, f, behind, stopControl);
  }

  // ---- A run in which all this happens

  lemma ControlAccepts(d: Dev, s: Slot)
    requires d.reverse[0] == [s] && s == Seal(s.frame) && WellFormed(s.frame) && Session(d) == Ok
             && s.frame.generation == d.endpoint.generation
    requires Digest(d, s.frame).Some? && (d.phase == Starting || d.phase == Stopping)
    ensures ControlSpec(d, false, 1) == Digest(Receive(d, 0).0, s.frame).value
    ensures Receive(d, 0).0 == d.(endpoint := Receive(d, 0).0.endpoint, reverse := d.reverse[0 := []])
    ensures Receive(d, 0).0.endpoint.generation == d.endpoint.generation
    ensures Receive(d, 0).0.endpoint.nextSequence == d.endpoint.nextSequence
  {
    hide Seal, ReadyFor, StopReplyTo;
    SealCommits();
    ReceiveConsumes(d, 0);
    PopAfterPush(s.frame);
  }

  /** STARTING, with this READY in p0 and nothing else under way. */
  ghost predicate AwaitsReady(j: Joint, s: Slot)
  {
    && j.d.phase == Starting && j.d.session == 1 && Session(j.d) == Ok && j.d.endpoint.generation == 1
    && j.d.openCount == 0
    && j.draws == 0
    && j.d.forward == [[], [], [], []] && j.d.reverse == [[s], [], [], []] && s == Seal(s.frame) && WellFormed(s.frame)
    && s.frame.generation == 1 && s.frame.kind == MSG_SESSION_READY && s.frame.length == 8
    && s.frame.payload == PayloadOf(ReadyReply(1).payload, 8)
    && j.cpu.Running? && j.cpu.image.published && j.cpu.image.owed == [] && j.cpu.image.core.generation == 1
  }

  /** ACTIVE, nothing under way, and a CPU3 that serves. */
  ghost predicate Serving(j: Joint)
  {
    && j.d.phase == Active && Session(j.d) == Ok && j.d.openCount == 0 && j.d.forward == j.d.reverse == [[], [], [], []]
    && j.draws == 0
    && j.cpu.Running? && j.cpu.image.published && j.cpu.image.owed == [] && !j.stopControl
    && SessionOf(j.d.header, j.cpu.image.core) == Ok && j.cpu.image.core.generation == j.d.endpoint.generation
  }

  /** The image, CPU_ON, boot, READY: the driver sits in STARTING with READY before it. */
  lemma ReadyArrives(j0: Joint) returns (i0: Joint, j1: Joint, j2: Joint, j3: Joint, s: Slot)
    requires Fresh(j0)
    ensures i0 == Next(j0, Linux(ImageWrite(0, j0.d.imageSize))) && i0.cpu == Off
    ensures j1 == Next(i0, Linux(Start(AffinityOff, 0))) && j2 == Next(j1, Boot)
            && j3 == Next(j2, Announce(NOTIFY_SENT))
    ensures AwaitsReady(j3, s) && j3.stopControl == j0.stopControl
  {
    hide Send, PayloadOf, StoreU32, Seal;
    i0 := ImageLoaded(j0);
    j1 := LinuxStep(i0, Start(AffinityOff, 0));
    assert j1.d.phase == Starting && j1.d.session == 1 && Session(j1.d) == Ok && j1.cpu == Booting
           && j1.stopControl == j0.stopControl;
    j2 := BootStep(j1);
    s := SendAppends(j2, j2.cpu.image, 0, ReadyReply(1), NOTIFY_SENT);
    j3 := AnnounceStep(j2, NOTIFY_SENT);
    assert j2.d.reverse == [[], [], [], []];
    assert j3.d.reverse == j2.d.reverse[0 := [] + [s]];
    assert [] + [s] == [s];
  }

  lemma ImageLoaded(j0: Joint) returns (i0: Joint)
    requires Fresh(j0)
    ensures i0 == Next(j0, Linux(ImageWrite(0, j0.d.imageSize)))
    ensures i0 == j0.(d := j0.d.(imageWritten := j0.d.imageSize))
  {
    i0 := LinuxStep(j0, ImageWrite(0, j0.d.imageSize));
  }

  /** READY is taken: the data plane opens. */
  lemma ReadyOpens(j3: Joint, s: Slot) returns (j4: Joint)
    requires AwaitsReady(j3, s)
    ensures j4 == Next(j3, Linux(Control(false, 1)))
    ensures !j3.stopControl ==> Serving(j4)
  {
    hide Seal, StoreU32, LoadU32, PayloadOf, ControlSpec, Receive;
    EchoReads(MSG_SESSION_READY, 1, PROTOCOL_VERSION);
    assert ReadyReply(1) == Feedback(MSG_SESSION_READY, 1, PROTOCOL_VERSION);
    ControlAccepts(j3.d, s);
    j4 := LinuxStep(j3, Control(false, 1));
  }

  /** A stop is asked for and taken. */
  lemma StopIsTaken(j4: Joint) returns (j5: Joint, j6: Joint, n: u32)
    requires Serving(j4)
    ensures j5 == Next(j4, Linux(Stop(NOTIFY_SENT))) && j6 == Next(j5, Take(0))
    ensures j5.d.phase == j6.d.phase == Stopping && Session(j6.d) == Ok && j6.d.stopSequence == n
            && j6.d.reverse[0] == []
    ensures j6.d.header == j4.d.header && j6.d.endpoint.generation == j4.d.endpoint.generation
    ensures j6.cpu.Running? && j6.cpu.image.p == 0 && j6.cpu.image.core.generation == j6.d.endpoint.generation
    ensures j6.cpu.image.owed == [Feedback(MSG_STOP_REFUSED, n, STOP_REFUSED_BUSY)]
  {
    hide Seal, StoreU32, Transmit, ReceiveSpec, NextSequence;
    var d := j4.d;
    var closing := d.(phase := Stopping, stopSequence := 0, stopReply := 0, stopResult := EINPROGRESS,
    stopNotify := EINPROGRESS);
    var f := StopRequestSent(closing);
    n := f.sequence;
    j5 := LinuxStep(j4, Stop(NOTIFY_SENT));
    assert j5.d.phase == Stopping && j5.d.forward[0] == [Seal(f)] && j5.d.stopSequence == n && j5.cpu == j4.cpu;
    StopTaken(j5.cpu.image.core, f);
    j6 := TakeStep(j5, 0);
  }

  lemma StopRequestSent(d: Dev) returns (f: Frame)
    requires Session(d) == Ok && d.forward[0] == []
    ensures var (t, r, n) := Transmit(d, 0, MSG_STOP_REQUEST, [], NOTIFY_SENT);
            && r == Ok && n == f.sequence && t == d.(endpoint := t.endpoint, forward := d.forward[0 := [Seal(f)]])
            && t.endpoint.generation == d.endpoint.generation
    ensures WellFormed(f) && f.kind == MSG_STOP_REQUEST && f.length == 0 && f.generation == d.endpoint.generation
  {
    hide Seal, PayloadOf, CountNotify;
    f := Frame(d.endpoint.generation, MSG_STOP_REQUEST, NextSequence(d.endpoint.nextSequence), 0, PayloadOf([], 0));
    SequenceMeansCommitted(d.endpoint, Session(d), d.forward[0], 0, MSG_STOP_REQUEST, Some([]), 0, NOTIFY_SENT);
    assert d.forward[0] + [Seal(f)] == [Seal(f)];
  }

  lemma StopTaken(core: Core, f: Frame)
    requires WellFormed(f) && f.kind == MSG_STOP_REQUEST && f.length == 0 && f.generation == core.generation
    ensures var (after, q, message, verdict) := ReceiveSpec(core, Ok, [Seal(f)], 0);
            && q == [] && after.generation == core.generation
            && Replies(false, 0, verdict, message) == [Feedback(MSG_STOP_REFUSED, f.sequence, STOP_REFUSED_BUSY)]
  {
    hide Seal, StoreU32;
    PopAfterPush(f);
    SealCommits();
  }

  /** The refusal comes back, and the data plane reopens. */
  lemma RefusalReopens(j6: Joint, n: u32) returns (j7: Joint, j8: Joint)
    requires j6.d.phase == Stopping && Session(j6.d) == Ok && j6.d.stopSequence == n && j6.d.reverse[0] == []
    requires j6.cpu.Running? && j6.cpu.image.p == 0 && j6.cpu.image.core.generation == j6.d.endpoint.generation
    requires j6.cpu.image.owed == [Feedback(MSG_STOP_REFUSED, n, STOP_REFUSED_BUSY)]
    ensures j7 == Next(j6, Respond(NOTIFY_SENT)) && j8 == Next(j7, Linux(Control(false, 1)))
    ensures j7.d.phase == Stopping && j8.d.phase == Active
  {
    hide Seal, StoreU32, LoadU32, PayloadOf, ControlSpec, Receive, Send;
    var i := j6.cpu.image;
    var s := SendAppends(j6, i, 0, i.owed[0], NOTIFY_SENT);
    EchoReads(MSG_STOP_REFUSED, n, STOP_REFUSED_BUSY);
    j7 := RespondStep(j6, NOTIFY_SENT);
    assert j7.d.reverse[0] == [s];
    ControlAccepts(j7.d, s);
    j8 := LinuxStep(j7, Control(false, 1));
  }

  lemma ReadyArrivesInSomeRun(j0: Joint) returns (js: seq<Joint>, es: seq<Event>, s: Slot)
    requires Fresh(j0)
    ensures Run(js, es) && |es| == 4 && |js| == 5 && js[0] == j0 && AwaitsReady(js[4], s)
            && js[4].stopControl == j0.stopControl
  {
    RunStarts(j0);
    var i0, j1, j2, j3, ready := ReadyArrives(j0);
    s := ready;
    QuietlyHonest(j0);
    assert Honest(i0, Start(AffinityOff, 0));
    hide Run, Next, Fresh, Honest, AwaitsReady;
    js, es := RunSnoc([j0], [], Linux(ImageWrite(0, j0.d.imageSize)));
    js, es := RunSnoc(js, es, Linux(Start(AffinityOff, 0)));
    js, es := RunSnoc(js, es, Boot);
    js, es := RunSnoc(js, es, Announce(NOTIFY_SENT));
  }

  lemma SessionOpensInSomeRun(j0: Joint) returns (js: seq<Joint>, es: seq<Event>)
    requires Fresh(j0) && !j0.stopControl
    ensures Run(js, es) && |es| == 5 && |js| == 6 && js[0] == j0 && Serving(js[5])
  {
    hide Run, Next, Fresh, Honest, AwaitsReady, Serving;
    var s;
    js, es, s := ReadyArrivesInSomeRun(j0);
    var j4 := ReadyOpens(js[4], s);
    QuietlyHonest(js[4]);
    js, es := RunSnoc(js, es, Linux(Control(false, 1)));
  }

  /** None of this is empty talk: a session opens, a stop is refused, and the session is open again. */
  lemma StopIsRefusedInSomeRun(j0: Joint) returns (js: seq<Joint>, es: seq<Event>)
    requires Fresh(j0) && !j0.stopControl
    ensures Run(js, es) && js[0] == j0 && RefusedStop(js, es, 5, 8)
  {
    hide Run, Next, Fresh, Honest, Seal, PayloadOf;
    js, es := SessionOpensInSomeRun(j0);
    var j4 := js[5];
    var j5, j6, n := StopIsTaken(j4);
    var j7, j8 := RefusalReopens(j6, n);
    QuietlyHonest(j4);
    QuietlyHonest(j7);
    hide Serving, Session, SessionOf, Feedback;
    js, es := RunSnoc(js, es, Linux(Stop(NOTIFY_SENT)));
    js, es := RunSnoc(js, es, Take(0));
    js, es := RunSnoc(js, es, Respond(NOTIFY_SENT));
    js, es := RunSnoc(js, es, Linux(Control(false, 1)));
    assert js[5..] == [j4, j5, j6, j7, j8];
  }

  // ---- And a run in which a stop begins over undrained rings

  lemma PingSent(d: Dev, value: u32) returns (f: Frame, t: Dev)
    requires d.phase == Active && Session(d) == Ok && d.forward[1] == []
    ensures t == Step(d, Ping(1, value, NOTIFY_SENT))
            && t == d.(endpoint := t.endpoint, forward := d.forward[1 := [Seal(f)]])
    ensures Session(t) == Ok && t.endpoint.generation == d.endpoint.generation
            && t.endpoint.nextSequence != d.endpoint.nextSequence
    ensures WellFormed(f) && f.kind == MSG_PING && f.length == 4 && f.generation == d.endpoint.generation
    ensures f.payload == PayloadOf(StoreU32(value), 4) && f.sequence == t.endpoint.nextSequence
  {
    hide Seal, PayloadOf, CountNotify, StoreU32;
    f := Frame(d.endpoint.generation, MSG_PING, NextSequence(d.endpoint.nextSequence), 4,
               PayloadOf(StoreU32(value), 4));
    SequenceMeansCommitted(d.endpoint, Session(d), d.forward[1], 1, MSG_PING, Some(StoreU32(value)), 4, NOTIFY_SENT);
    assert d.forward[1] + [Seal(f)] == [Seal(f)];
    t := PingSpec(d, 1, value, NOTIFY_SENT).0;
  }

  /** What a PING taken by CPU3 makes it owe. */
  lemma PingTaken(core: Core, f: Frame)
    requires WellFormed(f) && f.kind == MSG_PING && f.generation == core.generation
    ensures var (after, q, message, verdict) := ReceiveSpec(core, Ok, [Seal(f)], 1);
            && q == [] && after.generation == core.generation && message == Some(Seal(f))
            && Replies(false, 1, verdict, message) == [Feedback(MSG_ACK, f.sequence, 0), Pong(f)]
  {
    hide Seal, StoreU32, LoadU32;
    PopAfterPush(f);
    SealCommits();
  }

  lemma PingIsTaken(j4: Joint, value: u32) returns (j5: Joint, j6: Joint, f: Frame)
    requires Serving(j4)
    ensures j5 == Next(j4, Linux(Ping(1, value, NOTIFY_SENT))) && j6 == Next(j5, Take(1))
    ensures f.kind == MSG_PING && f.payload == PayloadOf(StoreU32(value), 4)
    ensures Answering(j6, 1, [Feedback(MSG_ACK, f.sequence, 0), Pong(f)]) && j6.sent == j4.sent
    ensures j6.d == j4.d.(endpoint := j6.d.endpoint) && Session(j6.d) == Ok
  {
    hide Seal, StoreU32, LoadU32, PayloadOf, PingSpec, ReceiveSpec, Send;
    var t;
    f, t := PingSent(j4.d, value);
    j5 := LinuxStep(j4, Ping(1, value, NOTIFY_SENT));
    assert j5.d == t && j5.cpu == j4.cpu && j5.sent == j4.sent;
    PingTaken(j5.cpu.image.core, f);
    j6 := TakeStep(j5, 1);
    assert j4.d.forward[1 := []] == j4.d.forward;
  }

  /** CPU3 in the middle of its answers. */
  ghost predicate Answering(j: Joint, p: priority, owed: seq<Reply>)
  {
    && j.cpu.Running? && j.cpu.image.p == p && j.cpu.image.owed == owed
    && j.cpu.image.core.generation != 0 && SessionOf(j.d.header, j.cpu.image.core) == Ok
  }

  lemma Answered(j: Joint, p: priority, owed: seq<Reply>) returns (t: Joint, s: Slot)
    requires owed != [] && Answering(j, p, owed) && |owed[0].payload| <= 8 && owed[0].kind != MSG_STOP_READY
    requires |j.d.reverse[p]| < CAPACITY
    ensures t == Next(j, Respond(NOTIFY_SENT)) && Answering(t, p, owed[1..]) && Carries(s, owed[0])
    ensures t.d == j.d.(reverse := j.d.reverse[p := j.d.reverse[p] + [s]]) && t.sent == j.sent + [s.frame]
  {
    hide Seal, StoreU32, PayloadOf, Send;
    s := SendAppends(j, j.cpu.image, p, owed[0], NOTIFY_SENT);
    t := RespondStep(j, NOTIFY_SENT);
  }

  /** A PING and CPU3's two answers to it, which nobody reads. */
  lemma PingIsAnswered(j4: Joint, value: u32)
    returns (j5: Joint, j6: Joint, j7: Joint, j8: Joint, f: Frame, ack: Slot, pong: Slot)
    requires Serving(j4)
    ensures j5 == Next(j4, Linux(Ping(1, value, NOTIFY_SENT))) && j6 == Next(j5, Take(1))
    ensures j7 == Next(j6, Respond(NOTIFY_SENT)) && j8 == Next(j7, Respond(NOTIFY_SENT))
    ensures j8.d.phase == Active && Session(j8.d) == Ok && j8.d.openCount == 0
    ensures j8.d.forward == [[], [], [], []] && j8.d.reverse == [[], [ack, pong], [], []]
    ensures f.kind == MSG_PING && f.payload == PayloadOf(StoreU32(value), 4)
    ensures Carries(ack, Feedback(MSG_ACK, f.sequence, 0)) && Carries(pong, Pong(f))
            && j8.sent == j4.sent + [ack.frame, pong.frame]
  {
    hide Next, StoreU32, LoadU32, PayloadOf, Answering, Carries;
    j5, j6, f := PingIsTaken(j4, value);
    var owed := [Feedback(MSG_ACK, f.sequence, 0), Pong(f)];
    j7, ack := Answered(j6, 1, owed);
    assert owed[1..] == [Pong(f)] && j7.d.reverse[1] == [ack];
    j8, pong := Answered(j7, 1, [Pong(f)]);
    assert j8.d.reverse[1] == [ack, pong];
  }

  lemma StopOverTraffic(j9: Joint) returns (j10: Joint)
    requires j9.d.phase == Active && Session(j9.d) == Ok && j9.d.openCount == 0
             && j9.d.forward[0] == [] == j9.d.reverse[0]
    ensures j10 == Next(j9, Linux(Stop(NOTIFY_SENT))) && j10.d.phase == Stopping
    ensures j10.d.forward[1] == j9.d.forward[1] && j10.d.reverse == j9.d.reverse
  {
    hide Seal, Transmit;
    var closing := j9.d.(phase := Stopping, stopSequence := 0, stopReply := 0, stopResult := EINPROGRESS,
    stopNotify := EINPROGRESS);
    var f := StopRequestSent(closing);
    j10 := LinuxStep(j9, Stop(NOTIFY_SENT));
  }

  /**
   The promise that a stop begins only on drained rings is not kept. In this run a client pings p1, leaves CPU3's ACK
   and PONG unread, pings again, and the stop goes ahead over the second request and both answers.
   */
  lemma StopsOverUndrainedRings(j0: Joint, value: u32) returns (js: seq<Joint>, es: seq<Event>)
    requires Fresh(j0) && !j0.stopControl
    ensures Run(js, es) && js[0] == j0 && |es| == 11 && es[10] == Linux(Stop(NOTIFY_SENT))
    ensures js[10].d.phase == Active && js[11].d.phase == Stopping && js[11].d.reverse == js[10].d.reverse
    ensures |js[11].d.forward[1]| == 1 && js[11].d.forward[1][0].frame.kind == MSG_PING
    ensures |js[11].d.reverse[1]| == 2 && js[11].d.reverse[1][0].frame.kind == MSG_ACK
            && js[11].d.reverse[1][1].frame.kind == MSG_PONG
    ensures LoadU32(js[11].d.reverse[1][1].frame.payload) == Inc(value)
  {
    hide Run, Next, Fresh, Honest, Seal, PayloadOf, StoreU32, LoadU32;
    js, es := SessionOpensInSomeRun(j0);
    var j4 := js[5];
    var j5, j6, j7, j8, f, ack, pong := PingIsAnswered(j4, value);
    var g, t := PingSent(j8.d, value);
    var j9 := NextPing(j8, value, t);
    var j10 := StopOverTraffic(j9);
    PongCarries(f, value, pong);
    SealCommits();
    QuietlyPing(j4, value);
    QuietlyPing(j8, value);
    QuietlyHonest(j9);
    hide Serving, Session, Feedback, Pong, Carries;
    js, es := RunSnoc(js, es, Linux(Ping(1, value, NOTIFY_SENT)));
    js, es := RunSnoc(js, es, Take(1));
    js, es := RunSnoc(js, es, Respond(NOTIFY_SENT));
    js, es := RunSnoc(js, es, Respond(NOTIFY_SENT));
    js, es := RunSnoc(js, es, Linux(Ping(1, value, NOTIFY_SENT)));
    js, es := RunSnoc(js, es, Linux(Stop(NOTIFY_SENT)));
  }

  lemma NextPing(j8: Joint, value: u32, t: Dev) returns (j9: Joint)
    requires t == Step(j8.d, Ping(1, value, NOTIFY_SENT))
    ensures j9 == Next(j8, Linux(Ping(1, value, NOTIFY_SENT))) && j9.d == t
  {
    hide Step;
    j9 := LinuxStep(j8, Ping(1, value, NOTIFY_SENT));
  }

  lemma PongCarries(f: Frame, value: u32, pong: Slot)
    requires f.kind == MSG_PING && f.payload == PayloadOf(StoreU32(value), 4) && Carries(pong, Pong(f))
    ensures pong.frame.kind == MSG_PONG && LoadU32(pong.frame.payload) == Inc(value)
  {
    hide StoreU32, LoadU32;
    PongReads(f);
    LoadAfterStore(value, seq(PAYLOAD_BYTES - 4, _ => 0));
    assert StoreU32(value)[..4] == StoreU32(value);
  }

  lemma QuietlyPing(j: Joint, value: u32)
    ensures Honest(j, Ping(1, value, NOTIFY_SENT))
  {
  }

  lemma RunStarts(j0: Joint)
    requires Fresh(j0)
    ensures Run([j0], [])
  {
  }

  lemma RunSnoc(js: seq<Joint>, es: seq<Event>, e: Event) returns (js1: seq<Joint>, es1: seq<Event>)
    requires |js| == |es| + 1 && Run(js, es) && (e.Linux? ==> Honest(js[|es|], e.a))
    ensures |js1| == |es1| + 1 && Run(js1, es1) && js1 == js + [Next(js[|es|], e)] && es1 == es + [e]
  {
    hide Next, Fresh, Honest;
    js1, es1 := js + [Next(js[|es|], e)], es + [e];
  }

  lemma QuietlyHonest(j: Joint)
    ensures Honest(j, Control(false, 1)) && Honest(j, Stop(NOTIFY_SENT)) && Honest(j, ImageWrite(0, j.d.imageSize))
  {
  }
}
