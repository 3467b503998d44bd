/**
 What the driver's entry points promise their callers, in terms of the state before and after: which call is admitted
 and what it is answered, what lies in which ring behind it, and where a sample of the core's state leads.
 */
module Regions {
  import opened Words
  import opened Frames
  import opened Endpoint
  import opened Device
  import opened Lifecycle
  import R = Ring

  /** The number drawn next. */
  function NumberAfter(n: u32): u32 { if n == 0xffff_ffff then 1 else n + 1 }

  // ---- Samples of the core's state

  /**
   A sample x of a session in one of its live phases: OFF ends it if the core was ever seen on, and nothing else does.
   */
  ghost predicate Sampled(d: Dev, t: Dev, x: Affinity)
  {
    var gone := x == AffinityOff && d.seenOn;
    t == d.(seenOn := d.seenOn || x == AffinityOn || x == AffinityOnPending,
                      phase := if gone then Offline else d.phase,
                      rxGeneration := if gone then seq(4, p requires 0 <= p < 4 => d.rxGeneration[p] + 1)
                      else d.rxGeneration)
  }

  /** The periodic sampler and a user's read alike. */
  lemma SampleDecides(d: Dev, x: Affinity)
    requires Sound(d) && d.phase != Unarmed && d.phase != Offline
    ensures Sampled(d, Step(d, Act.AffinityWork(x)), x) && Sampled(d, Step(d, Act.AffinityShow(x)), x)
  {
    assert seq(4, p requires 0 <= p < 4 => d.rxGeneration[p] + 1)
        == [d.rxGeneration[0] + 1, d.rxGeneration[1] + 1, d.rxGeneration[2] + 1, d.rxGeneration[3] + 1];
  }

  /** In UNARMED and OFFLINE the sampler does nothing, and a user's read takes note of ON at most. */
  lemma SampleOfNoSession(d: Dev, x: Affinity)
    requires Sound(d) && (d.phase == Unarmed || d.phase == Offline)
    ensures Step(d, Act.AffinityWork(x)) == d
    ensures Step(d, Act.AffinityShow(x)) == d.(seenOn := d.seenOn || x == AffinityOn || x == AffinityOnPending)
  {
  }

  /** A deadline passed: the waiting phases time out, but for a stop that was answered READY by a core now seen off. */
  ghost predicate TimedOut(d: Dev, t: Dev, x: Affinity)
  {
    && t.rxGeneration == seq(4, p requires 0 <= p < 4 => d.rxGeneration[p] + 1)
    && if d.phase == Starting then
         t == d.(phase := StartTimeout, sessionResult := ETIMEDOUT, rxGeneration := t.rxGeneration)
       else if d.stopReply == MSG_STOP_READY && x == AffinityOff && d.seenOn then
         t == d.(phase := Offline, rxGeneration := t.rxGeneration)
       else
         t == d.(phase := StopTimeout, stopResult := ETIMEDOUT, rxGeneration := t.rxGeneration,
         seenOn := d.seenOn || (d.stopReply == MSG_STOP_READY && (x == AffinityOn || x == AffinityOnPending)))
  }

  lemma TimeoutDecides(d: Dev, expired: bool, x: Affinity)
    requires Sound(d)
    ensures var t := Step(d, Act.Timeout(expired, x));
            if expired && (d.phase == Starting || d.phase == Stopping) then TimedOut(d, t, x) else t == d
  {
    assert seq(4, p requires 0 <= p < 4 => d.rxGeneration[p] + 1)
        == [d.rxGeneration[0] + 1, d.rxGeneration[1] + 1, d.rxGeneration[2] + 1, d.rxGeneration[3] + 1];
  }

  // ---- Frames on their way to CPU3

  /**
   Behind everything in p's forward ring lies one frame more, sealed: this kind, these bytes, the number just drawn.
   */
  ghost predicate Delivers(d: Dev, t: Dev, p: priority, kind: u32, bytes: seq<byte>)
  {
    var n := |d.forward[p]|;
    && t.reverse == d.reverse && (forall q: priority | q != p :: t.forward[q] == d.forward[q])
    && |t.forward[p]| == n + 1 && t.forward[p][..n] == d.forward[p]
    && var s := t.forward[p][n];
    && R.CarriesAsBytes(s, s.frame)
    && s.frame.generation == d.session && s.frame.kind == kind
    && s.frame.sequence == t.endpoint.nextSequence == NumberAfter(d.endpoint.nextSequence)
    && s.frame.length == |bytes| <= 28 && s.frame.payload[..|bytes|] == bytes
    && forall i | |bytes| <= i < 28 :: s.frame.payload[i] == 0
  }

  /** A send leaves the rings alone but for what it delivers, and everything else but the endpoint. */
  ghost predicate Silent(d: Dev, t: Dev)
  {
    t == d.(endpoint := t.endpoint) && t.endpoint.generation == d.endpoint.generation
  }

  lemma TransmitDelivers(d: Dev, p: priority, kind: u32, bytes: seq<byte>, notify: int)
    requires Sound(d) && d.phase == Active && |bytes| <= 28
    ensures var (t, r, n) := Transmit(d, p, kind, bytes, notify);
            && t == d.(endpoint := t.endpoint, forward := t.forward)
            && (|d.forward[p]| < CAPACITY ==> r == Ok && Delivers(d, t, p, kind, bytes) && n == t.endpoint.nextSequence)
            && (|d.forward[p]| >= CAPACITY ==> r == RingError(RingFull) && Silent(d, t))
  {
    hide Seal, CountNotify, R.CarriesAsBytes;
    assert d.forward[p := d.forward[p]] == d.forward;
    SealCommits();
    forall f ensures R.CarriesAsBytes(Seal(f), f) { R.SealCarries(f); }
    var t := Transmit(d, p, kind, bytes, notify).0;
    if |d.forward[p]| < CAPACITY {
      assert t.forward[p][..|d.forward[p]|] == d.forward[p];
    }
  }

  /** What a user's write is answered, and what it leaves. */
  ghost predicate Writes(d: Dev, t: Dev, p: priority, to: u32, kind: u32, payload: seq<byte>, code: int)
  {
    if to == p && |payload| <= 28 && d.phase == Active && |d.forward[p]| < 7 then
      code == 0 && Delivers(d, t, p, kind, payload) && t == d.(endpoint := t.endpoint, forward := t.forward)
    else
      && Silent(d, t)
      && code == if to != p || |payload| > 28 then -22
                 else match d.phase
                      case Active => -28
                      case Starting => -11
                      case Stopping => -108
                      case StartTimeout => -5
                      case StopTimeout => -5
                      case Offline => -67
                      case Unarmed => -67
  }

  lemma WriteIsExact(d: Dev, fd: nat, to: u32, kind: u32, payload: seq<byte>, notify: int)
    requires Sound(d) && fd in d.files
    ensures var a := Act.Write(fd, to, kind, payload, notify);
            var r := Returned(d, a);
            r.Code? && Writes(d, Step(d, a), d.files[fd].p, to, kind, payload, r.code)
  {
    hide Transmit, Sound, Delivers;
    if |payload| <= 28 && d.phase == Active {
      TransmitDelivers(d, d.files[fd].p, kind, payload, notify);
    }
  }

  /** In every run: a user's write appends exactly the user's frame to its own ring, or changes no ring at all. */
  lemma WritesLandAsGiven(states: seq<Dev>, acts: seq<Act>, i: nat)
    requires Trace(states, acts) && Probed(states[0]) && i < |acts| && acts[i].Write? && acts[i].fd in states[i].files
    ensures var a, r := acts[i], Returned(states[i], acts[i]);
            r.Code? && Writes(states[i], states[i + 1], states[i].files[a.fd].p, a.to, a.kind, a.payload, r.code)
  {
    TraceIsSound(states, acts, i);
    WriteIsExact(states[i], acts[i].fd, acts[i].to, acts[i].kind, acts[i].payload, acts[i].notify);
    hide Step, Writes, Sound;
  }

  /** The sysfs request: a PING with the value, on any priority. */
  ghost predicate Pings(d: Dev, t: Dev, p: priority, value: u32, code: int)
  {
    if d.phase == Active && |d.forward[p]| < 7 then
      && code == 0 && t == d.(endpoint := t.endpoint, forward := t.forward)
      && exists bytes :: Delivers(d, t, p, 1, bytes) && |bytes| == 4 && LoadU32(bytes) == value
    else
      && Silent(d, t)
      && code == match d.phase
                 case Active => -28
                 case Starting => -11
                 case Stopping => -108
                 case StartTimeout => -110
                 case StopTimeout => -110
                 case Offline => -67
                 case Unarmed => -67
  }

  lemma PingIsExact(d: Dev, p: priority, value: u32, notify: int)
    requires Sound(d)
    ensures var r := Returned(d, Act.Ping(p, value, notify));
            r.Code? && Pings(d, Step(d, Act.Ping(p, value, notify)), p, value, r.code)
  {
    hide Transmit, Sound, Delivers, StoreU32, LoadU32;
    LoadAfterStore(value, []);
    assert StoreU32(value) + [] == StoreU32(value);
    if d.phase == Active {
      TransmitDelivers(d, p, MSG_PING, StoreU32(value), notify);
    }
  }

  /** With the damage taken back: the first payload byte inverted again. */
  function Repaired(t: Dev, p: priority): Dev
  {
    if t.forward[p] == [] then t
    else
      var n := |t.forward[p]| - 1;
      var s := t.forward[p][n];
      var payload := s.frame.payload[0 := 255 - s.frame.payload[0]];
      t.(forward := t.forward[p := t.forward[p][n := s.(frame := s.frame.(payload := payload))]])
  }

  /**
   The test hooks: a PING as any other, but for its first payload byte if damage is asked for, and past the statistics.
   */
  ghost predicate Injected(d: Dev, t: Dev, p: priority, value: u32, damage: bool, code: int)
  {
    && t.endpoint.stats == d.endpoint.stats
    && if d.phase == Active && |d.forward[p]| < 7 then
         && code == 0 && t == d.(endpoint := t.endpoint, forward := t.forward)
         && exists bytes ::
              Delivers(d, if damage then Repaired(t, p) else t, p, 1, bytes) && |bytes| == 4 && LoadU32(bytes) == value
       else
         && Silent(d, t)
         && code == match d.phase
                    case Active => -28
                    case Starting => -11
                    case Stopping => -108
                    case StartTimeout => -110
                    case StopTimeout => -110
                    case Offline => -67
                    case Unarmed => -67
  }

  lemma InjectIsExact(d: Dev, p: priority, value: u32, damage: bool)
    requires Sound(d)
    ensures var r := Returned(d, Act.Inject(p, value, damage));
            r.Code? && Injected(d, Step(d, Act.Inject(p, value, damage)), p, value, damage, r.code)
  {
    hide StoreU32, LoadU32, Seal, Delivers;
    LoadAfterStore(value, []);
    assert StoreU32(value) + [] == StoreU32(value);
    if d.phase == Active && |d.forward[p]| < 7 {
      InjectDelivers(d, p, value, damage);
    }
  }

  lemma InjectDelivers(d: Dev, p: priority, value: u32, damage: bool)
    requires Sound(d) && d.phase == Active && |d.forward[p]| < 7
    ensures var t := Step(d, Act.Inject(p, value, damage));
            Delivers(d, if damage then Repaired(t, p) else t, p, 1, StoreU32(value))
  {
    hide StoreU32, LoadU32, Seal, R.CarriesAsBytes;
    SealCommits();
    forall f ensures R.CarriesAsBytes(Seal(f), f) { R.SealCarries(f); }
    var n := NextSequence(d.endpoint.nextSequence);
    var f := Frame(d.endpoint.generation, MSG_PING, n, 4, StoreU32(value) + seq(24, _ => 0));
    var t := Step(d, Act.Inject(p, value, damage));
    var k := |d.forward[p]|;
    var u := if damage then Repaired(t, p) else t;
    assert f.payload[0 := 255 - f.payload[0]][0 := f.payload[0]] == f.payload;
    assert u.forward[p][k] == Seal(f);
    assert u.forward[p][..k] == d.forward[p];
  }

  // ---- Frames from CPU3

  /** A slot whose number is also its commit word, and one that besides is whole and of this session. */
  predicate Finished(s: Slot) { s.commit == s.frame.sequence }
  predicate Current(d: Dev, s: Slot) { Finished(s) && Judge(s) == RingOk && s.frame.generation == d.session }

  /** One locked turn of a read hands over the head of the ring if it is current, and takes it if it is finished. */
  ghost predicate Reads(d: Dev, t: Dev, p: priority, r: Report)
  {
    var q := d.reverse[p];
    var takes := d.phase == Active && q != [] && Finished(q[0]);
    && t == d.(endpoint := t.endpoint, reverse := if takes then d.reverse[p := q[1..]] else d.reverse)
    && t.endpoint.generation == d.endpoint.generation && t.endpoint.nextSequence == d.endpoint.nextSequence
    && r == match d.phase
            case Active =>
              if q == [] then Blocks
              else if !Finished(q[0]) then Code(-11)
              else if Current(d, q[0]) then Handed(q[0])
              else Code(match Judge(q[0])
                        case RingBadCrc => -74
                        case RingInvalid => -71
                        case _ => -116)
            case Starting => Code(-11)
            case Stopping => Code(-108)
            case StartTimeout => Code(-5)
            case StopTimeout => Code(-5)
            case Offline => Code(-67)
            case Unarmed => Code(-67)
  }

  lemma ReadIsExact(d: Dev, fd: nat)
    requires Sound(d) && fd in d.files && d.files[fd].claimed
    ensures Reads(d, Step(d, Act.Read(fd)), d.files[fd].p, Returned(d, Act.Read(fd)))
  {
    hide Judge, CountReceive;
    JudgeVerdicts();
    assert d.reverse[d.files[fd].p := d.reverse[d.files[fd].p]] == d.reverse;
  }

  /** What the lifecycle plane waits for: READY of this session, or an answer to this stop. */
  predicate Awaited(d: Dev, f: Frame)
  {
    && f.length >= 8
    && if d.phase == Starting then f.kind == 8 && LoadU32(f.payload) == d.session && LoadU32(f.payload[4..]) == 6
       else (f.kind == 6 || f.kind == 7) && LoadU32(f.payload) == d.stopSequence
  }

  function CurrentIn(d: Dev, q: seq<Slot>): nat
  {
    if q == [] then 0 else CurrentIn(d, q[..|q| - 1]) + if Current(d, q[|q| - 1]) then 1 else 0
  }

  /** The first k slots of p0 are finished, and none of them is the frame waited for. */
  ghost predicate PassedOver(d: Dev, k: nat)
  {
    && k <= |d.reverse[0]|
    && forall i | 0 <= i < k ::
         Finished(d.reverse[0][i]) && !(Current(d, d.reverse[0][i]) && Awaited(d, d.reverse[0][i].frame))
  }

  /** The error of the last damaged or malformed slot, if there is one. */
  function Noted(q: seq<Slot>, result: int): int
  {
    if q == [] then result
    else match Judge(q[|q| - 1])
         case RingBadCrc => -74
         case RingInvalid => -71
         case _ => Noted(q[..|q| - 1], result)
  }

  lemma {:induction false} NotedFurther(a: seq<Slot>, b: seq<Slot>, result: int)
    ensures Noted(a + b, result) == Noted(b, Noted(a, result))
    decreases |b|
  {
    hide Judge;
    if b == [] {
      assert a + b == a;
    } else {
      assert (a + b)[..|a + b| - 1] == a + b[..|b| - 1];
      NotedFurther(a, b[..|b| - 1], result);
    }
  }

  /**
   p0 without its first k slots; the endpoint's counters have moved with them, and the last error among them is noted.
   */
  ghost predicate Skipped(d: Dev, u: Dev, k: nat)
  {
    && k <= |d.reverse[0]|
    && u == d.(endpoint := u.endpoint, reverse := d.reverse[0 := d.reverse[0][k..]],
            sessionResult := u.sessionResult, stopResult := u.stopResult)
    && u.endpoint.generation == d.endpoint.generation && u.endpoint.nextSequence == d.endpoint.nextSequence
    && u.sessionResult == (if d.phase == Starting then Noted(d.reverse[0][..k], d.sessionResult) else d.sessionResult)
    && u.stopResult == if d.phase == Starting then d.stopResult else Noted(d.reverse[0][..k], d.stopResult)
  }

  lemma DrainTurn(d: Dev, ticks: nat) returns (u: Dev)
    requires Sound(d) && (d.phase == Starting || d.phase == Stopping) && PassedOver(d, 1)
    requires Current(d, d.reverse[0][0]) ==> ticks > 0
    ensures Skipped(d, u, 1) && Sound(u)
    ensures ControlDrain(d, ticks) == ControlDrain(u, if Current(d, d.reverse[0][0]) then ticks - 1 else ticks)
  {
    hide Judge, CountReceive, LoadU32;
    JudgeVerdicts();
    var (t, message, r) := Receive(d, 0);
    u := if r == Ok || r == StaleFrame then t else NoteError(t, r);
    NotedOne(d.reverse[0]);
  }

  lemma NotedOne(q: seq<Slot>)
    requires q != []
    ensures forall result ::
              Noted(q[..1], result)
              == match Judge(q[0])
                 case RingBadCrc => -74
                 case RingInvalid => -71
                 case _ => result
  {
    hide Judge;
    assert q[..1][..0] == [] && q[..1][0] == q[0];
  }

  lemma CurrentPeels(d: Dev, q: seq<Slot>)
    requires q != []
    ensures CurrentIn(d, q) == CurrentIn(d, q[1..]) + if Current(d, q[0]) then 1 else 0
  {
    var n := |q| - 1;
    if n == 0 {
      assert q[..0] == [] && q[1..] == [];
    } else {
      CurrentPeels(d, q[..n]);
      assert q[..n][1..] == q[1..][..n - 1];
    }
  }

  lemma CurrentElsewhere(d: Dev, u: Dev, q: seq<Slot>)
    requires u.session == d.session
    ensures CurrentIn(u, q) == CurrentIn(d, q)
  {
  }

  /** The drain passes over what it does not wait for, one tick a current frame. */
  lemma {:induction false} DrainPasses(d: Dev, ticks: nat, k: nat) returns (u: Dev)
    requires Sound(d) && (d.phase == Starting || d.phase == Stopping) && PassedOver(d, k)
    requires CurrentIn(d, d.reverse[0][..k]) <= ticks
    ensures Skipped(d, u, k) && Sound(u)
    ensures ControlDrain(d, ticks) == ControlDrain(u, ticks - CurrentIn(d, d.reverse[0][..k]))
    decreases k
  {
    hide ControlDrain, Sound, Current, Awaited, Finished, Skipped, CurrentIn;
    var q := d.reverse[0];
    if k == 0 {
      u := d;
      SkippedNone(d);
    } else {
      CurrentPeels(d, q[..k]);
      assert q[..k][1..] == q[1..][..k - 1];
      var v := DrainTurn(d, ticks);
      SkippedOnce(d, v, k);
      CurrentElsewhere(d, v, q[1..][..k - 1]);
      u := DrainPasses(v, if Current(d, q[0]) then ticks - 1 else ticks, k - 1);
      SkippedTwice(d, v, u, 1, k - 1);
    }
  }

  lemma SkippedNone(d: Dev)
    ensures Skipped(d, d, 0) && CurrentIn(d, d.reverse[0][..0]) == 0
  {
    assert d.reverse[0][0..] == d.reverse[0] && d.reverse[0 := d.reverse[0]] == d.reverse && d.reverse[0][..0] == [];
  }

  lemma SkippedOnce(d: Dev, v: Dev, k: nat)
    requires PassedOver(d, k) && k > 0 && Skipped(d, v, 1)
    ensures PassedOver(v, k - 1) && v.reverse[0] == d.reverse[0][1..] && v.session == d.session && v.phase == d.phase
  {
    hide LoadU32, Judge;
    forall i | 0 <= i < k - 1
      ensures Finished(v.reverse[0][i]) && !(Current(v, v.reverse[0][i]) && Awaited(v, v.reverse[0][i].frame))
    {
      assert v.reverse[0][i] == d.reverse[0][i + 1];
    }
  }

  /** What the frame waited for does: READY opens, a refusal reopens, STOP_READY is noted. */
  ghost predicate Taken(u: Dev, t: Dev, f: Frame)
  {
    && t.reverse == u.reverse && t.endpoint == u.endpoint
    && if u.phase == Starting then t == u.(peer := u.session, sessionResult := 0, seenOn := true, phase := Active)
       else if f.kind == 6 then t == u.(stopReply := 6, stopResult := 0)
       else t == u.(stopReply := 7, stopResult := -125, phase := Active)
  }

  lemma DrainMeets(u: Dev, ticks: nat)
    requires Sound(u) && (u.phase == Starting || u.phase == Stopping)
    requires u.reverse[0] != [] && Current(u, u.reverse[0][0])
    ensures ticks > 0 && Awaited(u, u.reverse[0][0].frame) ==>
              exists v :: Skipped(u, v, 1) && Taken(v, ControlDrain(u, ticks), u.reverse[0][0].frame)
    ensures ticks == 0 ==> exists v :: Skipped(u, v, 1) && ControlDrain(u, 0) == SetTimeout(v)
  {
    hide CountReceive, LoadU32;
    hide Judge;
    var v := Receive(u, 0).0;
    NotedOne(u.reverse[0]);
    assert Skipped(u, v, 1);
    if ticks > 0 && Awaited(u, u.reverse[0][0].frame) {
      assert Taken(v, ControlDrain(u, ticks), u.reverse[0][0].frame);
    }
  }

  lemma DrainStops(u: Dev, ticks: nat)
    requires Sound(u) && (u.phase == Starting || u.phase == Stopping)
    requires u.reverse[0] == [] || !Finished(u.reverse[0][0])
    ensures Skipped(u, ControlDrain(u, ticks), 0)
  {
    hide CountReceive;
    assert u.reverse[0][..0] == [];
    assert u.reverse[0][0..] == u.reverse[0] && u.reverse[0 := u.reverse[0]] == u.reverse;
  }

  /** How a drain of p0 can end. */
  ghost predicate DrainEnds(d: Dev, t: Dev, ticks: nat, k: nat)
    requires k <= |d.reverse[0]|
  {
    var q := d.reverse[0];
    var n := CurrentIn(d, q[..k]);
    if k == |q| || !Finished(q[k]) then n <= ticks ==> Skipped(d, t, k)
    else if Current(d, q[k]) && n == ticks then
      exists v :: Skipped(d, v, k + 1)
                  && t == (if d.phase == Starting
                           then v.(phase := StartTimeout, sessionResult := -110, rxGeneration := t.rxGeneration)
                           else v.(phase := StopTimeout, stopResult := -110,
                             rxGeneration := t.rxGeneration))
    else if Current(d, q[k]) && Awaited(d, q[k].frame) && n < ticks then
      exists v :: Skipped(d, v, k + 1) && Taken(v, t, q[k].frame)
    else true
  }

  /**
   The lifecycle plane's drain, whatever lies in p0: everything before the first frame it waits for is taken and passed
   over, that frame is taken and obeyed, and what lies behind stays; without one it empties the ring up to the first
   unfinished slot, or times out on the first current frame after the deadline, which is lost.
   */
  lemma DrainTakesTheFirst(d: Dev, ticks: nat, k: nat)
    requires Sound(d) && (d.phase == Starting || d.phase == Stopping) && PassedOver(d, k)
    ensures DrainEnds(d, Step(d, Act.Control(false, ticks)), ticks, k)
  {
    hide ControlDrain, Sound, Current, Awaited, Finished, Skipped, Taken, DrainEnds;
    var n := CurrentIn(d, d.reverse[0][..k]);
    if n <= ticks {
      var u := DrainPasses(d, ticks, k);
      DrainEndsBehind(d, u, ticks, k);
    } else {
      LateIsFree(d, ControlDrain(d, ticks), ticks, k);
    }
  }

  lemma LateIsFree(d: Dev, t: Dev, ticks: nat, k: nat)
    requires k <= |d.reverse[0]| && CurrentIn(d, d.reverse[0][..k]) > ticks
    ensures DrainEnds(d, t, ticks, k)
  {
    hide Skipped, Taken, Current, Finished, Awaited, CurrentIn;
  }

  /** What becomes of a drain that has come as far as slot k. */
  lemma DrainEndsBehind(d: Dev, u: Dev, ticks: nat, k: nat)
    requires k <= |d.reverse[0]| && Skipped(d, u, k) && Sound(u) && (d.phase == Starting || d.phase == Stopping)
    requires CurrentIn(d, d.reverse[0][..k]) <= ticks
    ensures DrainEnds(d, ControlDrain(u, ticks - CurrentIn(d, d.reverse[0][..k])), ticks, k)
  {
    hide ControlDrain, Sound, Current, Awaited, Finished, CurrentIn, SetTimeout, Taken, Skipped;
    var q := d.reverse[0];
    var n := CurrentIn(d, q[..k]);
    SkippedRest(d, u, k);
    if k == |q| || !Finished(q[k]) {
      DrainStops(u, ticks - n);
      SkippedTwice(d, u, ControlDrain(u, ticks - n), k, 0);
    } else if Current(d, q[k]) {
      AtTheHead(d, u, k);
      DrainMeets(u, ticks - n);
      if n == ticks {
        var v :| Skipped(u, v, 1) && ControlDrain(u, 0) == SetTimeout(v);
        SkippedTwice(d, u, v, k, 1);
        SkippedRest(u, v, 1);
        TimeoutSays(v);
      } else if Awaited(d, q[k].frame) {
        var v :| Skipped(u, v, 1) && Taken(v, ControlDrain(u, ticks - n), q[k].frame);
        SkippedTwice(d, u, v, k, 1);
      }
    }
  }

  lemma SkippedRest(d: Dev, u: Dev, k: nat)
    requires Skipped(d, u, k)
    ensures k <= |d.reverse[0]| && u.reverse[0] == d.reverse[0][k..] && u.phase == d.phase
  {
  }

  /** A drain that begins behind its deadline looks at nothing, and none begins outside STARTING and STOPPING. */
  lemma DrainTooLate(d: Dev, expired: bool, ticks: nat)
    requires expired || (d.phase != Starting && d.phase != Stopping)
    ensures var t := Step(d, Act.Control(expired, ticks));
            if d.phase == Starting then
              t == d.(phase := StartTimeout, sessionResult := -110, rxGeneration := t.rxGeneration)
            else if d.phase == Stopping then
              t == d.(phase := StopTimeout, stopResult := -110, rxGeneration := t.rxGeneration)
            else t == d
    ensures var t := Step(d, Act.Control(expired, ticks));
            t.phase != d.phase ==> forall p: priority :: t.rxGeneration[p] == d.rxGeneration[p] + 1
  {
  }

  lemma AtTheHead(d: Dev, u: Dev, k: nat)
    requires Skipped(d, u, k) && k < |d.reverse[0]|
    ensures u.reverse[0] != [] && u.reverse[0][0] == d.reverse[0][k] && u.phase == d.phase
    ensures Current(u, u.reverse[0][0]) <==> Current(d, d.reverse[0][k])
    ensures Awaited(u, u.reverse[0][0].frame) <==> Awaited(d, d.reverse[0][k].frame)
  {
    hide LoadU32, Judge;
  }

  lemma TimeoutSays(v: Dev)
    ensures v.phase == Starting ==>
              SetTimeout(v) == v.(phase := StartTimeout, sessionResult := -110,
              rxGeneration := SetTimeout(v).rxGeneration)
    ensures v.phase == Stopping ==>
              SetTimeout(v) == v.(phase := StopTimeout, stopResult := -110, rxGeneration := SetTimeout(v).rxGeneration)
  {
  }

  lemma SkippedTwice(d: Dev, u: Dev, v: Dev, k: nat, j: nat)
    requires Skipped(d, u, k) && Skipped(u, v, j)
    ensures Skipped(d, v, k + j)
  {
    hide Noted;
    var q := d.reverse[0];
    NotedFurther(q[..k], q[k..][..j], d.sessionResult);
    NotedFurther(q[..k], q[k..][..j], d.stopResult);
    assert q[..k] + q[k..][..j] == q[..k + j];
    assert d.reverse[0][k..][j..] == d.reverse[0][k + j..];
    assert d.reverse[0 := d.reverse[0][k..]][0 := d.reverse[0][k + j..]] == d.reverse[0 := d.reverse[0][k + j..]];
  }

  /** Where the sysfs response file stops in one ring: at its end, at an unfinished slot, or behind a stale frame. */
  ghost predicate StopsAt(d: Dev, q: seq<Slot>, k: nat)
  {
    && k <= |q| && (forall i | 0 <= i < k :: Finished(q[i]))
    && (forall i | 0 <= i < k - 1 :: !Foreign(d, q[i]))
    && (k == |q| || !Finished(q[k]) || (k > 0 && Foreign(d, q[k - 1])))
  }

  predicate Foreign(d: Dev, s: Slot) { Judge(s) == RingOk && s.frame.generation != d.session }

  /** One ring drained: its first k slots are gone, and nothing else but the endpoint's counters has changed. */
  ghost predicate Emptied(d: Dev, t: Dev, p: priority, k: nat)
  {
    && k <= |d.reverse[p]|
    && t == d.(endpoint := t.endpoint, reverse := d.reverse[p := d.reverse[p][k..]])
    && t.endpoint.generation == d.endpoint.generation && t.endpoint.nextSequence == d.endpoint.nextSequence
  }

  /** One turn of that drain. */
  lemma DrainEmptiesOne(d: Dev, p: priority)
    requires d.endpoint.generation == d.session && Session(d) == Ok && d.reverse[p] != [] && Finished(d.reverse[p][0])
    ensures var t := Receive(d, p).0;
            && Emptied(d, t, p, 1)
            && DrainSpec(d, p) == if Foreign(d, d.reverse[p][0]) then t else DrainSpec(t, p)
  {
    hide Judge, CountReceive;
    JudgeVerdicts();
    ReceiveConsumes(d, p);
  }

  lemma DrainEmptiesNone(d: Dev, p: priority)
    requires d.endpoint.generation == d.session && Session(d) == Ok
    requires d.reverse[p] == [] || !Finished(d.reverse[p][0])
    ensures Emptied(d, DrainSpec(d, p), p, 0)
  {
    hide Judge, CountReceive;
    JudgeVerdicts();
    assert d.reverse[p][0..] == d.reverse[p] && d.reverse[p := d.reverse[p]] == d.reverse;
  }

  lemma StopsBehind(d: Dev, t: Dev, p: priority, k: nat)
    requires StopsAt(d, d.reverse[p], k) && k > 0 && t.session == d.session && t.reverse[p] == d.reverse[p][1..]
    ensures !Foreign(d, d.reverse[p][0]) ==> StopsAt(t, t.reverse[p], k - 1)
    ensures Foreign(d, d.reverse[p][0]) ==> k == 1
  {
    hide Judge;
    forall i | 0 <= i < k - 1
      ensures Finished(t.reverse[p][i]) && (i < k - 2 ==> !Foreign(t, t.reverse[p][i]))
    {
      assert t.reverse[p][i] == d.reverse[p][i + 1];
    }
  }

  lemma EmptiedTwice(d: Dev, u: Dev, v: Dev, p: priority, k: nat, j: nat)
    requires Emptied(d, u, p, k) && Emptied(u, v, p, j)
    ensures Emptied(d, v, p, k + j)
  {
    var q := d.reverse[p];
    assert q[k..][j..] == q[k + j..] && d.reverse[p := q[k..]][p := q[k + j..]] == d.reverse[p := q[k + j..]];
  }

  lemma {:induction false} DrainEmpties(d: Dev, p: priority, k: nat)
    requires d.endpoint.generation == d.session && Session(d) == Ok && StopsAt(d, d.reverse[p], k)
    ensures Emptied(d, DrainSpec(d, p), p, k)
    decreases k
  {
    hide DrainSpec, Foreign;
    if k == 0 {
      DrainEmptiesNone(d, p);
    } else {
      DrainEmptiesOne(d, p);
      var t := Receive(d, p).0;
      StopsBehind(d, t, p, k);
      hide Receive, StopsAt;
      if !Foreign(d, d.reverse[p][0]) {
        DrainEmpties(t, p, k - 1);
        EmptiedTwice(d, t, DrainSpec(t, p), p, 1, k - 1);
      }
    }
  }

  lemma DrainStopsSomewhere(d: Dev, q: seq<Slot>) returns (k: nat)
    ensures StopsAt(d, q, k)
  {
    hide Judge;
    k := 0;
    while k < |q| && Finished(q[k]) && !Foreign(d, q[k])
      invariant k <= |q| && forall i | 0 <= i < k :: Finished(q[i]) && !Foreign(d, q[i])
    {
      k := k + 1;
    }
    if k < |q| && Finished(q[k]) {
      k := k + 1;
    }
  }

  /** The response file takes from each reverse ring up to where it stops, in ACTIVE, and otherwise nothing. */
  lemma ResponseEmpties(d: Dev, ks: seq<nat>)
    requires Sound(d) && |ks| == 4 && forall p: priority :: StopsAt(d, d.reverse[p], ks[p])
    ensures var t := Step(d, Act.Response);
            if d.phase != Active then t == d
            else
              && t == d.(endpoint := t.endpoint, reverse := t.reverse)
              && forall p: priority :: ks[p] <= |d.reverse[p]| && t.reverse[p] == d.reverse[p][ks[p]..]
  {
    hide StopsAt, DrainSpec;
    if d.phase == Active {
      var d1 := DrainSpec(d, 0);
      DrainEmpties(d, 0, ks[0]);
      var d2 := DrainSpec(d1, 1);
      StopsAlike(d, d1, 1, ks[1]);
      DrainEmpties(d1, 1, ks[1]);
      var d3 := DrainSpec(d2, 2);
      StopsAlike(d, d2, 2, ks[2]);
      DrainEmpties(d2, 2, ks[2]);
      StopsAlike(d, d3, 3, ks[3]);
      DrainEmpties(d3, 3, ks[3]);
    }
  }

  lemma StopsAlike(d: Dev, u: Dev, p: priority, k: nat)
    requires StopsAt(d, d.reverse[p], k) && u.session == d.session && u.reverse[p] == d.reverse[p]
    ensures StopsAt(u, u.reverse[p], k)
  {
    hide Judge;
  }

  // ---- The life of a session

  /** An image goes in order, within its size, and not behind a start. */
  lemma ImageGrows(d: Dev, off: nat, count: nat)
    requires Sound(d)
    ensures var a := Act.ImageWrite(off, count);
            var fits := d.phase == Unarmed && !d.attempted && off == d.imageWritten && off + count <= d.imageSize;
            && Step(d, a) == (if fits then d.(imageWritten := off + count) else d)
            && (Returned(d, a) == Code(0) <==> fits)
            && (!fits ==>
                  Returned(d, a) == Code(if d.attempted then -16 else if off != d.imageWritten then -29 else -27))
  {
  }

  /** What a start needs, what it makes of the whole window and the driver, and what it says otherwise. */
  lemma StartIsExact(d: Dev, x: Affinity, cpuOn: int)
    requires Sound(d)
    ensures var a := Act.Start(x, cpuOn);
            var t := Step(d, a);
            var n := NumberAfter(d.session);
            if d.phase == Unarmed && !d.attempted && d.imageWritten == d.imageSize && x == AffinityOff then
              && Returned(d, a) == Code(cpuOn) && t.attempted && t.cpuOnRet == cpuOn && !t.seenOn
              && t.session == n != 0 && t.header == Header(0x4d4d5347, 6, n) && t.endpoint == FreshCore(n)
              && (forall p: priority :: t.forward[p] == [] && t.reverse[p] == [])
              && t.phase == (if cpuOn == 0 then Starting else Unarmed)
              && t.sessionResult == (if cpuOn == 0 then -115 else cpuOn)
              && t.peer == t.stopSequence == t.stopReply == 0 && t.stopResult == t.stopNotify == -11
              && t == d.(session := t.session, header := t.header, endpoint := t.endpoint, forward := t.forward,
                      reverse := t.reverse, peer := t.peer, stopSequence := t.stopSequence, stopReply := t.stopReply,
                      stopResult := t.stopResult, stopNotify := t.stopNotify, seenOn := t.seenOn,
                      attempted := t.attempted, cpuOnRet := t.cpuOnRet, phase := t.phase,
                      sessionResult := t.sessionResult)
            else
              && t == d.(seenOn := t.seenOn)
              && Returned(d, a) == Code(if d.attempted then -114 else if d.imageWritten != d.imageSize then -61
                                        else -16)
  {
  }

  /** What a rearm needs, what it clears, and what it says otherwise; a sample of OFF may still end the session. */
  lemma RearmIsExact(d: Dev, x: Affinity, doorbellPending: bool)
    requires Sound(d)
    ensures var a := Act.Rearm(x, doorbellPending);
            var t := Step(d, a);
            if d.attempted && d.openCount == 0 && x == AffinityOff && !doorbellPending then
              && Returned(d, a) == Code(0)
              && t.phase == Unarmed && !t.attempted && !t.seenOn && t.imageWritten == 0 && t.cpuOnRet == -11
              && t.endpoint == FreshCore(0) && t.peer == t.stopSequence == t.stopReply == 0
              && t.sessionResult == t.stopResult == t.stopNotify == -11
              && t.session == d.session && t.header == d.header && t.forward == d.forward && t.reverse == d.reverse
              && t.imageSize == d.imageSize && t.openCount == d.openCount && t.files == d.files
              && t.readers == d.readers
            else
              && Returned(d, a) == Code(if !d.attempted then -22 else -16)
              && (!d.attempted || d.openCount != 0 ==> t == d)
              && (d.attempted && d.openCount == 0 ==>
                    if d.phase == Unarmed || d.phase == Offline
                    then t == d.(seenOn := d.seenOn || x == AffinityOn || x == AffinityOnPending)
                    else Sampled(d, t, x))
  {
    assert seq(4, p requires 0 <= p < 4 => d.rxGeneration[p] + 1)
        == [d.rxGeneration[0] + 1, d.rxGeneration[1] + 1, d.rxGeneration[2] + 1, d.rxGeneration[3] + 1];
  }

  /** A stop sends one empty request on p0 and waits; when it is turned away, or its request is, nothing is sent. */
  lemma StopIsExact(d: Dev, notify: int)
    requires Sound(d)
    ensures var a := Act.Stop(notify);
            var t := Step(d, a);
            var admitted := d.phase == Active && d.openCount == 0 && d.reverse[0] == [];
            if admitted && |d.forward[0]| < 7 then
              && Returned(d, a) == Code(if notify < 0 then notify else 0)
              && Delivers(d, t, 0, 5, [])
              && t == d.(phase := Stopping, stopSequence := t.endpoint.nextSequence, stopReply := 0, stopResult := -115,
                      stopNotify := notify, endpoint := t.endpoint, forward := t.forward)
            else if admitted then
              && Returned(d, a) == Code(-28)
              && t == d.(stopSequence := 0, stopReply := 0, stopResult := -28, stopNotify := -115,
                      endpoint := t.endpoint)
            else t == d && Returned(d, a) == Code(if d.phase == Offline then -67 else -16)
  {
    hide Transmit, Sound, Delivers;
    ActiveIsOk(d);
    if d.phase == Active && d.openCount == 0 && d.reverse[0] == [] {
      var closing := d.(phase := Stopping, stopSequence := 0, stopReply := 0, stopResult := EINPROGRESS,
      stopNotify := EINPROGRESS);
      StopTransmits(d, closing, notify);
      DeliversAlike(d, Transmit(closing, 0, MSG_STOP_REQUEST, [], notify).0, Step(d, Act.Stop(notify)), 0, 5, []);
    }
  }

  lemma ActiveIsOk(d: Dev)
    requires Sound(d)
    ensures d.phase == Active ==> Session(d) == Ok
  {
  }

  lemma DeliversAlike(d: Dev, t: Dev, u: Dev, p: priority, kind: u32, bytes: seq<byte>)
    requires u.forward == t.forward && u.reverse == t.reverse && u.endpoint == t.endpoint
    ensures Delivers(d, t, p, kind, bytes) ==> Delivers(d, u, p, kind, bytes)
  {
  }

  lemma StopTransmits(d: Dev, closing: Dev, notify: int)
    requires Sound(d) && d.phase == Active
    requires closing == d.(phase := Stopping, stopSequence := 0, stopReply := 0, stopResult := EINPROGRESS,
                        stopNotify := EINPROGRESS)
    ensures Session(d) == Ok && Session(closing) == Ok
    ensures var (t, r, n) := Transmit(closing, 0, MSG_STOP_REQUEST, [], notify);
            && t == closing.(endpoint := t.endpoint, forward := t.forward)
            && (|d.forward[0]| < CAPACITY ==> r == Ok && Delivers(d, t, 0, 5, []) && n == t.endpoint.nextSequence)
            && (|d.forward[0]| >= CAPACITY ==> r == RingError(RingFull) && t.forward == d.forward)
  {
    TransmitDelivers(d, 0, MSG_STOP_REQUEST, [], notify);
    hide SendSpec, R.CarriesAsBytes;
  }

  /** Descriptors: who may open, who reads, and what a close gives back. */
  lemma FilesAreExact(d: Dev, fd: nat, p: priority)
    requires Sound(d)
    ensures fd !in d.files ==>
              var a := Act.Open(fd, p);
              if d.phase == Active then
                && Returned(d, a) == Code(0)
                && Step(d, a) == d.(openCount := d.openCount + 1, files := d.files[fd := File(p, false)])
              else
                && Step(d, a) == d
                && Returned(d, a) == Code(match d.phase
                                          case Starting => -11
                                          case Stopping => -108
                                          case StartTimeout => -110
                                          case StopTimeout => -110
                                          case _ => -67)
    ensures fd in d.files ==>
              var f, a := d.files[fd], Act.Claim(fd);
              if f.claimed then Step(d, a) == d && Returned(d, a) == Code(0)
              else if d.readers[f.p] != 0 then Step(d, a) == d && Returned(d, a) == Code(-16)
              else
                && Returned(d, a) == Code(0)
                && Step(d, a) == d.(readers := d.readers[f.p := d.readers[f.p] + 1],
                                 files := d.files[fd := File(f.p, true)])
    ensures fd in d.files ==>
              var f, t := d.files[fd], Step(d, Act.Release(fd));
              t == d.(openCount := d.openCount - 1, files := d.files - {fd},
              readers := if f.claimed then d.readers[f.p := d.readers[f.p] - 1] else d.readers)
  {
  }

  /** The mailbox interrupt moves one count, by one. */
  lemma CallbackCounts(d: Dev, p: priority)
    ensures var t := Step(d, Act.Callback(p));
            && t == d.(rxGeneration := t.rxGeneration)
            && forall q: priority :: t.rxGeneration[q] == d.rxGeneration[q] + if q == p then 1 else 0
  {
  }
}
