/**
 A blocking read in steps, between the driver's locked regions, CPU3's pushes and doorbells, and the mailbox interrupt.
 */
module Reader {
  import opened Words
  import opened Frames
  import opened Endpoint
  import opened Device
  import opened Lifecycle
  import opened OpenFiles

  /** Where one read call stands; the count it sampled is what its sleep compares with. */
  datatype Pc = Outside | Sampled(seen: nat) | Asleep(seen: nat)

  /**
   The sets say, per priority, how far CPU3's latest notice has come: not yet rung, standing in the mailbox, in the
   interrupt's hands.
   */
  datatype World = World(d: Dev, fd: nat, pc: Pc, unrung: set<priority>, standing: set<priority>, inIrq: set<priority>)

  datatype Move =
    | Drive(a: Act)
    | Consume(forward: Rings)
    | Push(p: priority, s: Slot)
    | Ring(p: priority)
    | Clear(p: priority)
    | Call(p: priority)
    | Sample
    | Turn
    | Wake
    | Interrupt

  /** CPU3 and the interrupt act through their own moves, and the descriptor of a running read is not released. */
  predicate Allowed(w: World, m: Move)
  {
    match m
    case Drive(a) => !a.Peer? && !a.Callback? && (w.pc != Outside ==> a != Release(w.fd))
    case Ring(p) => p in w.unrung
    case Clear(p) => p in w.standing
    case Call(p) => p in w.inIrq
    case Sample => w.pc == Outside && w.fd in w.d.files && w.d.files[w.fd].claimed
    case Turn => w.pc.Sampled? && w.fd in w.d.files
    case Wake => w.pc.Asleep? && w.fd in w.d.files && w.d.rxGeneration[w.d.files[w.fd].p] != w.pc.seen
    case Interrupt => w.pc.Asleep?
    case _ => true
  }

  function Next(w: World, m: Move): World
    requires Allowed(w, m)
  {
    match m
    case Drive(a) => w.(d := Step(w.d, a))
    case Consume(forward) => w.(d := w.d.(forward := forward))
    case Push(p, s) => w.(d := w.d.(reverse := w.d.reverse[p := w.d.reverse[p] + [s]]), unrung := w.unrung + {p})
    case Ring(p) => w.(unrung := w.unrung - {p}, standing := w.standing + {p})
    case Clear(p) => w.(standing := w.standing - {p}, inIrq := w.inIrq + {p})
    case Call(p) => w.(d := CallbackSpec(w.d, p), inIrq := w.inIrq - {p})
    case Sample => w.(pc := Sampled(w.d.rxGeneration[w.d.files[w.fd].p]))
    case Turn =>
      var (t, turn) := ReadSpec(w.d, w.d.files[w.fd].p);
      w.(d := t, pc := if turn == WouldBlock then Asleep(w.pc.seen) else Outside)
    case Wake => w.(pc := Sampled(w.d.rxGeneration[w.d.files[w.fd].p]))
    case Interrupt => w.(pc := Outside)
  }

  /** A sleeper whose count has not moved: its session is open, and what lies in its ring is about to be announced. */
  ghost predicate Rightly(w: World)
    requires w.fd in w.d.files && w.pc.Asleep?
  {
    var p := w.d.files[w.fd].p;
    && w.pc.seen <= w.d.rxGeneration[p]
    && (w.pc.seen == w.d.rxGeneration[p] ==>
          w.d.phase == Active && (w.d.reverse[p] == [] || p in w.unrung + w.standing + w.inIrq))
  }

  ghost predicate Inv(w: World)
  {
    && Sound(w.d) && Accounted(w.d)
    && (w.pc != Outside ==> w.fd in w.d.files)
    && (w.pc.Sampled? ==> w.pc.seen <= w.d.rxGeneration[w.d.files[w.fd].p])
    && (w.pc.Asleep? ==> Rightly(w))
  }

  /** What the driver's own steps cannot do: put a frame into a reverse ring, or leave ACTIVE quietly. */
  ghost predicate Quietly(d: Dev, t: Dev)
  {
    && (forall p: priority :: |t.reverse[p]| <= |d.reverse[p]| && t.rxGeneration[p] >= d.rxGeneration[p])
    && (d.phase == Active && d.files != map[] && t.phase != Active ==>
          forall p: priority :: t.rxGeneration[p] > d.rxGeneration[p])
  }

  lemma TrafficIsQuiet(d: Dev, a: Act)
    requires Traffic?(a) && !a.Peer?
    ensures Quietly(d, Step(d, a))
  {
    hide Transmit, Device.Receive, ResponseSpec, InjectSpec, StoreU32;
    match a {
      case Inject(p, value, damage) => InjectIsTraffic(d, p, value, damage);
      case Read(fd) => if fd in d.files { ReceiveConsumes(d, d.files[fd].p); }
      case Write(fd, to, kind, payload, notify) =>
        if fd in d.files { TransmitIsTraffic(d, d.files[fd].p, kind, payload, notify); }
      case Ping(p, value, notify) => TransmitIsTraffic(d, p, MSG_PING, StoreU32(value), notify);
      case Response => ResponseTakesHeads(d);
      case _ =>
    }
  }

  lemma LifecycleIsQuiet(d: Dev, a: Act)
    requires Sound(d) && Accounted(d) && !Traffic?(a)
    ensures Quietly(d, Step(d, a))
  {
    LifecycleKeepsSound(d, a);
    OpenFilesAreCounted(d);
    if a.Control? {
      if d.phase == Starting || d.phase == Stopping {
        ControlReaches(d, a.expired, a.ticks);
      }
      hide ControlDrain, Sound, Accounted;
    } else if a.Stop? {
      StopIsQuiet(d, a.notify);
      hide Step, Sound, Accounted;
    } else {
      hide Sound, Accounted;
    }
  }

  lemma OpenFilesAreCounted(d: Dev)
    requires Accounted(d)
    ensures d.files != map[] ==> d.openCount != 0
  {
  }

  lemma StopIsQuiet(d: Dev, notify: int)
    requires Accounted(d)
    ensures Quietly(d, Step(d, Stop(notify)))
  {
    hide Transmit;
    TransmitIsTraffic(d.(phase := Stopping, stopSequence := 0, stopReply := 0, stopResult := EINPROGRESS,
                      stopNotify := EINPROGRESS),
                      0, MSG_STOP_REQUEST, [], notify);
  }

  lemma DriveKeeps(w: World, a: Act)
    requires Inv(w) && Allowed(w, Drive(a))
    ensures Inv(Next(w, Drive(a)))
  {
    StepKeepsSound(w.d, a);
    StepKeepsAccounted(w.d, a);
    if Traffic?(a) { TrafficIsQuiet(w.d, a); } else { LifecycleIsQuiet(w.d, a); }
    if w.pc != Outside { DescriptorStays(w.d, a, w.fd); }
    hide Step, Sound, Accounted;
  }

  /** Only its own release takes a descriptor away or changes its priority. */
  lemma DescriptorStays(d: Dev, a: Act, fd: nat)
    requires Sound(d) && Accounted(d) && fd in d.files && a != Release(fd)
    ensures var t := Step(d, a); fd in t.files && t.files[fd].p == d.files[fd].p
  {
    if !a.Open? && !a.Release? && !a.Claim? {
      FilesUntouched(d, a);
      hide Step;
    }
  }

  lemma MoveKeeps(w: World, m: Move)
    requires Inv(w) && Allowed(w, m)
    ensures Inv(Next(w, m))
  {
    match m {
      case Drive(a) => DriveKeeps(w, a);
      case Turn => TurnKeeps(w);
      case _ =>
        AccountedCarries(w.d, Next(w, m).d);
        hide Accounted;
    }
  }

  lemma TurnKeeps(w: World)
    requires Inv(w) && Allowed(w, Turn)
    ensures Inv(Next(w, Turn))
  {
    var p := w.d.files[w.fd].p;
    ReceiveConsumes(w.d, p);
    AccountedCarries(w.d, Next(w, Turn).d);
    hide Device.Receive, Accounted;
  }

  /** A run of the whole, from a fresh driver. */
  ghost predicate Run(worlds: seq<World>, moves: seq<Move>)
  {
    && |worlds| == |moves| + 1
    && Probed(worlds[0].d) && worlds[0].pc == Outside
    && forall i | 0 <= i < |moves| :: Allowed(worlds[i], moves[i]) && worlds[i + 1] == Next(worlds[i], moves[i])
  }

  lemma {:induction false} RunKeeps(worlds: seq<World>, moves: seq<Move>, n: nat)
    requires Run(worlds, moves) && n < |worlds|
    ensures Inv(worlds[n])
  {
    if n == 0 {
      var d := worlds[0].d;
      assert Trace([d], []);
      TraceIsAccounted([d], [], 0);
    } else {
      RunKeeps(worlds, moves, n - 1);
      MoveKeeps(worlds[n - 1], moves[n - 1]);
      hide Next, Allowed, Inv;
    }
  }

  /**
    * No reader sleeps through a shutdown, and none sleeps over a frame: asleep on an unchanged count, its session is
    * ACTIVE, and any frame in its ring has a doorbell still to ring, standing, or in the interrupt's hands.
    */
  lemma NobodySleepsThroughShutdown(worlds: seq<World>, moves: seq<Move>, n: nat)
    requires Run(worlds, moves) && n < |worlds| && worlds[n].pc.Asleep?
    ensures var w := worlds[n];
            && w.fd in w.d.files && Rightly(w)
            && (w.d.phase != Active ==> Allowed(w, Wake))
            && (w.d.reverse[w.d.files[w.fd].p] != [] && w.unrung == w.standing == w.inIrq == {} ==> Allowed(w, Wake))
  {
    RunKeeps(worlds, moves, n);
  }
}
