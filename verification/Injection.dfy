/**
 Over runs of the joint system: every committed frame is taken at most once, and a damaged one is refused exactly once.
 */
module Injection {
  import opened Words
  import opened Frames
  import opened Endpoint
  import opened Device
  import opened Lifecycle
  import opened Answers
  import opened Sequences
  import opened Sessions

  /** A number, as a frame in a forward ring carries it. */
  ghost predicate Carried(forward: Rings, p: priority, i: nat, n: u32)
  {
    i < |forward[p]| && forward[p][i].frame.sequence == n
  }

  /** No two frames under way carry one number, and none under way carries the number of one already taken. */
  ghost predicate Distinct(forward: Rings, taken: set<Slot>)
  {
    && (forall p: priority, i: nat, q: priority, k: nat, n: u32 ::
          Carried(forward, p, i, n) && Carried(forward, q, k, n) ==> p == q && i == k)
    && (forall p: priority, i: nat, n: u32, t | t in taken && Carried(forward, p, i, n) :: t.frame.sequence != n)
  }

  ghost predicate Unique(j: Joint) { j.d.session != 0 && j.draws <= CYCLE ==> Distinct(j.d.forward, j.taken) }

  lemma DistinctAfterTake(forward: Rings, taken: set<Slot>, p: priority)
    requires Distinct(forward, taken) && forward[p] != []
    ensures Distinct(forward[p := forward[p][1..]], taken + {forward[p][0]})
  {
    var after := forward[p := forward[p][1..]];
    forall q: priority, i: nat, n: u32 | Carried(after, q, i, n)
      ensures Carried(forward, q, if q == p then i + 1 else i, n)
    {
    }
    assert Carried(forward, p, 0, forward[p][0].frame.sequence);
  }

  /** The numbers under way, and those taken, were all drawn before n. */
  ghost predicate Older(j: Joint, n: u32)
  {
    && (forall p: priority, i: nat :: !Carried(j.d.forward, p, i, n))
    && (forall t | t in j.taken :: t.frame.sequence != n)
  }

  lemma FreshNumber(j: Joint)
    requires Numbered(j) && Circulates(j.d.forward, j.commits) && j.taken <= j.commits.Values && j.draws < CYCLE
    ensures Older(j, Draw(j.draws + 1))
  {
    hide Draw;
    forall s | s in j.commits.Values ensures s.frame.sequence != Draw(j.draws + 1) {
      var k :| k in j.commits && j.commits[k] == s;
      DrawsRepeatExactlyByCycle(k, j.draws + 1);
    }
  }

  lemma DistinctAfterCommit(forward: Rings, taken: set<Slot>, p: priority, s: Slot)
    requires Distinct(forward, taken)
    requires forall q: priority, i: nat :: !Carried(forward, q, i, s.frame.sequence)
    requires forall t | t in taken :: t.frame.sequence != s.frame.sequence
    ensures Distinct(forward[p := forward[p] + [s]], taken)
  {
    var after := forward[p := forward[p] + [s]];
    forall q: priority, i: nat, n: u32 | Carried(after, q, i, n)
      ensures Carried(forward, q, i, n) || (q == p && i == |forward[p]| && n == s.frame.sequence)
    {
    }
  }

  lemma UniqueKeeps(j: Joint, e: Event)
    requires Inv(j) && Unique(j) && (e.Linux? ==> Honest(j, e.a))
    ensures Unique(Next(j, e))
  {
    hide Distinct, Sound, Announced, Opening, Echoed, Pinned;
    match e {
      case Linux(a) => LinuxKeepsUnique(j, a);
      case Take(p) => TakeKeepsUnique(j, p);
      case _ =>
        CpuTouchesRingsOnly(j, e);
        CpuLeavesForward(j, e);
        assert Next(j, e).taken == j.taken by { CpuLeavesTaken(j, e); }
    }
    hide Next, Inv;
  }

  lemma CpuLeavesTaken(j: Joint, e: Event)
    requires !e.Linux? && !e.Take?
    ensures Next(j, e).taken == j.taken
  {
    hide SendReply;
  }

  lemma LinuxKeepsUnique(j: Joint, a: Act)
    requires Inv(j) && Unique(j) && Honest(j, a)
    ensures Unique(LinuxStep(j, a))
  {
    hide Distinct, Sound, Announced, Opening, Echoed, Pinned, Step;
    var t := Step(j.d, a);
    DriverEffect(j.d, a);
    if t.session != j.d.session {
      EmptyIsDistinct(t.forward);
    } else if !a.Rearm? && Draws(j.d, t) && j.draws < CYCLE {
      hide Draws;
      assert j.d.session != 0 by { ActiveInSession(j.d); }
      DrawKeepsUnique(j, a);
      hide LinuxStep, Within, Restarts;
    }
  }

  lemma EmptyIsDistinct(forward: Rings)
    ensures forward == [[], [], [], []] ==> Distinct(forward, {})
  {
  }

  lemma DrawKeepsUnique(j: Joint, a: Act)
    requires Numbered(j) && Circulates(j.d.forward, j.commits) && j.taken <= j.commits.Values && Unique(j)
             && j.draws < CYCLE
    requires j.d.session != 0
    requires Draws(j.d, Step(j.d, a)) && Step(j.d, a).session == j.d.session && !a.Rearm?
    ensures Unique(LinuxStep(j, a))
  {
    hide Distinct, Step;
    var t := Step(j.d, a);
    if Grown(j.d, t).Some? {
      var s := Grown(j.d, t).value;
      assert Draw(j.draws + 1) == NextSequence(Draw(j.draws));
      FreshNumber(j);
      var p: priority :| Commits(j.d, t, p, s);
      DistinctAfterCommit(j.d.forward, j.taken, p, s);
    }
  }

  lemma TakeKeepsUnique(j: Joint, p: priority)
    requires Unique(j)
    ensures Unique(TakeStep(j, p))
  {
    hide Distinct, ReceiveSpec, Replies;
    if j.cpu.Running? && j.cpu.image.published && j.cpu.image.owed == [] {
      var i := j.cpu.image;
      ReceiveTakesHead(i.core, SessionOf(j.d.header, i.core), j.d.forward[p], p);
      var (core, q, message, verdict) := ReceiveSpec(i.core, SessionOf(j.d.header, i.core), j.d.forward[p], p);
      if message.Some? {
        if j.d.session != 0 && j.draws <= CYCLE {
          DistinctAfterTake(j.d.forward, j.taken, p);
        }
      } else {
        assert j.d.forward[p := j.d.forward[p]] == j.d.forward;
      }
    }
  }

  lemma {:induction false} RunIsUnique(js: seq<Joint>, es: seq<Event>, n: nat)
    requires Run(js, es) && n < |js|
    ensures Unique(js[n]) && Inv(js[n])
  {
    hide Unique, Inv, Next, Honest;
    RunKeeps(js, es, n);
    if n > 0 {
      RunIsUnique(js, es, n - 1);
      UniqueKeeps(js[n - 1], es[n - 1]);
    } else {
      FreshIsUnique(js[0]);
    }
  }

  lemma FreshIsUnique(j: Joint)
    requires Fresh(j)
    ensures Unique(j)
  {
  }

  // ---- Taking

  /** CPU3's step k takes slot s from the forward ring of p. */
  ghost predicate Takes(js: seq<Joint>, es: seq<Event>, k: nat, p: priority, s: Slot)
    requires |js| == |es| + 1
  {
    k < |es| && es[k] == Take(p) && TakesFrom(js[k], p, s)
  }

  ghost predicate TakesFrom(j: Joint, p: priority, s: Slot)
  {
    && j.cpu.Running? && j.cpu.image.published && j.cpu.image.owed == []
    && ReceiveSpec(j.cpu.image.core, SessionOf(j.d.header, j.cpu.image.core), j.d.forward[p], p).2 == Some(s)
  }

  ghost predicate OneSession(js: seq<Joint>, i: nat, k: nat)
  {
    k < |js| && forall m | i <= m <= k :: js[m].d.session == js[i].d.session
  }

  lemma TakenFromHead(j: Joint, p: priority, s: Slot)
    requires TakesFrom(j, p, s)
    ensures j.d.forward[p] != [] && j.d.forward[p][0] == s
    ensures var t := TakeStep(j, p); s in t.taken && t.d.forward == j.d.forward[p := j.d.forward[p][1..]]
  {
    hide ReceiveSpec, Replies;
    ReceiveTakesHead(j.cpu.image.core, SessionOf(j.d.header, j.cpu.image.core), j.d.forward[p], p);
  }

  /** Within a session a frame under way stays in its ring until it is taken, and stays taken. */
  lemma Progress(j: Joint, e: Event, p: priority, s: Slot)
    requires Inv(j) && (e.Linux? ==> Honest(j, e.a)) && Next(j, e).d.session == j.d.session
    ensures s in j.taken ==> s in Next(j, e).taken
    ensures s in j.d.forward[p] ==> s in Next(j, e).d.forward[p] || s in Next(j, e).taken
  {
    hide Sound, Announced, Opening, Correlated, Pinned;
    match e {
      case Linux(a) =>
        DriverEffect(j.d, a);
        LinuxKeepsForward(j, a, p);
        hide Step, Within, Restarts;
      case Take(q) => TakeMoves(j, q, p, s); hide TakeStep;
      case _ =>
        CpuLeavesForward(j, e);
        CpuLeavesTaken(j, e);
        hide Next;
    }
  }

  lemma LinuxKeepsForward(j: Joint, a: Act, p: priority)
    requires Inv(j) && Honest(j, a) && LinuxStep(j, a).d.session == j.d.session
    ensures LinuxStep(j, a).taken == j.taken
    ensures forall s | s in j.d.forward[p] :: s in LinuxStep(j, a).d.forward[p]
  {
    hide Step, Sound, Announced, Opening, Correlated, Pinned;
    var t := Step(j.d, a);
    DriverEffect(j.d, a);
    if !a.Rearm? && Draws(j.d, t) && Grown(j.d, t).Some? {
      var s := Grown(j.d, t).value;
      var q: priority :| Commits(j.d, t, q, s);
      assert forall x | x in j.d.forward[p] :: x in j.d.forward[q := j.d.forward[q] + [s]][p];
    }
    hide Grown, Commits;
  }

  lemma TakeMoves(j: Joint, q: priority, p: priority, s: Slot)
    ensures s in j.taken ==> s in TakeStep(j, q).taken
    ensures s in j.d.forward[p] ==> s in TakeStep(j, q).d.forward[p] || s in TakeStep(j, q).taken
  {
    hide ReceiveSpec, Replies;
    if j.cpu.Running? && j.cpu.image.published && j.cpu.image.owed == [] {
      var i := j.cpu.image;
      ReceiveTakesHead(i.core, SessionOf(j.d.header, i.core), j.d.forward[q], q);
      var (core, rest, message, verdict) := ReceiveSpec(i.core, SessionOf(j.d.header, i.core), j.d.forward[q], q);
      if message.Some? {
        assert j.d.forward[q] == [message.value] + rest;
      }
    }
  }

  lemma {:induction false} StaysOrIsTaken(js: seq<Joint>, es: seq<Event>, i: nat, k: nat, p: priority, s: Slot)
    requires Run(js, es) && i <= k && OneSession(js, i, k)
    ensures s in js[i].taken ==> s in js[k].taken
    ensures s in js[i].d.forward[p] || s in js[i].taken ==> s in js[k].d.forward[p] || s in js[k].taken
    decreases k - i
  {
    hide Run, OneSession, Inv, Sessions.Next, Honest;
    OneSessionShort(js, i, k);
    if i < k {
      RunStep(js, es, k - 1);
      StaysOrIsTaken(js, es, i, k - 1, p, s);
      RunKeeps(js, es, k - 1);
      Progress(js[k - 1], es[k - 1], p, s);
    }
  }

  lemma OneSessionShort(js: seq<Joint>, i: nat, k: nat)
    requires i <= k && OneSession(js, i, k)
    ensures k < |js| && (i < k ==> OneSession(js, i, k - 1) && js[k - 1].d.session == js[k].d.session)
  {
  }

  lemma RunStep(js: seq<Joint>, es: seq<Event>, k: nat)
    requires Run(js, es) && k + 1 < |js|
    ensures |js| == |es| + 1 && js[k + 1] == Sessions.Next(js[k], es[k]) && (es[k].Linux? ==> Honest(js[k], es[k].a))
  {
    hide Sessions.Next, Honest, Fresh;
  }

  lemma TakenIsNew(j: Joint, p: priority, s: Slot)
    requires Unique(j) && j.d.session != 0 && j.draws <= CYCLE && TakesFrom(j, p, s)
    ensures s !in j.taken
    ensures forall q: priority | s in j.d.forward[q] :: q == p
  {
    TakenFromHead(j, p, s);
    hide TakesFrom;
    assert Carried(j.d.forward, p, 0, s.frame.sequence);
    forall q: priority | s in j.d.forward[q] ensures q == p {
      var i: nat :| i < |j.d.forward[q]| && j.d.forward[q][i] == s;
      assert Carried(j.d.forward, q, i, s.frame.sequence);
    }
  }

  /** Every committed frame is taken at most once in its session, whatever runs between. */
  lemma TakenAtMostOnce(js: seq<Joint>, es: seq<Event>, k: nat, p: priority, m: nat, q: priority, s: Slot)
    requires Run(js, es) && k <= m && Takes(js, es, k, p, s) && Takes(js, es, m, q, s)
    requires OneSession(js, k, m) && js[m].draws <= CYCLE
    ensures k == m && p == q
  {
    hide TakesFrom, Unique, Inv;
    if k < m {
      TakenFromHead(js[k], p, s);
      assert js[k + 1] == Next(js[k], es[k]);
      StaysOrIsTaken(js, es, k + 1, m, p, s);
      RunIsUnique(js, es, m);
      TakerRuns(js[m], q, s);
      TakenIsNew(js[m], q, s);
    }
  }

  // ---- Injection

  /** The hook's step i commits the damaged slot s on p. */
  ghost predicate Injects(js: seq<Joint>, es: seq<Event>, i: nat, p: priority, value: u32, s: Slot)
    requires |js| == |es| + 1
  {
    && i < |es| && es[i] == Linux(Inject(p, value, true)) && js[i].d.phase == Active && |js[i].d.forward[p]| < CAPACITY
    && js[i + 1].d.forward[p] == js[i].d.forward[p] + [s]
  }

  lemma InjectedSlot(js: seq<Joint>, es: seq<Event>, i: nat, p: priority, value: u32, s: Slot) returns (f: Frame)
    requires Run(js, es) && Injects(js, es, i, p, value, s)
    ensures WellFormed(f) && s == Damage(Seal(f)) && s.frame.sequence == f.sequence == js[i + 1].d.endpoint.nextSequence
    ensures s in js[i + 1].d.forward[p]
  {
    hide Seal, StoreU32, Damage, NextSequence;
    RunKeeps(js, es, i);
    CpuKeepsPhase(js[i], es[i]);
    f := InjectedFrame(js[i].d, p, value);
    hide Sessions.Next, Inv, Step;
    assert s == js[i + 1].d.forward[p][|js[i].d.forward[p]|];
    DamageKeepsNumber(f);
  }

  lemma InjectedFrame(d: Dev, p: priority, value: u32) returns (f: Frame)
    requires Sound(d) && d.phase == Active && |d.forward[p]| < CAPACITY
    ensures var t := Step(d, Inject(p, value, true));
            && WellFormed(f) && f.sequence == t.endpoint.nextSequence
            && t.forward[p] == d.forward[p] + [Damage(Seal(f))]
  {
    hide Seal, StoreU32, Damage;
    f := Frame(d.endpoint.generation, MSG_PING, NextSequence(d.endpoint.nextSequence), 4,
               StoreU32(value) + seq(24, _ => 0));
  }

  lemma DamageKeepsNumber(f: Frame)
    ensures Damage(Seal(f)).frame.sequence == f.sequence
  {
    hide Seal;
    SealCommits();
  }

  /** What a step that takes a damaged frame makes CPU3 owe. */
  lemma DamagedIsRefused(j: Joint, p: priority, f: Frame)
    requires j.cpu.Running? && Belongs(j, j.cpu.image) && TakesFrom(j, p, Damage(Seal(f))) && WellFormed(f)
    ensures var t := TakeStep(j, p);
            && t.cpu.Running? && t.d.forward == j.d.forward[p := j.d.forward[p][1..]]
            && t.cpu.image.owed == (if Reliable(p) then [Feedback(MSG_NACK, f.sequence, NACK_BAD_CRC)] else [])
  {
    hide Seal, StoreU32, Damage, ReceiveSpec, Replies, SessionSpec;
    TakenFromHead(j, p, Damage(Seal(f)));
    var behind := j.d.forward[p][1..];
    assert j.d.forward[p] == [Damage(Seal(f))] + behind;
    InjectedDamageIsRefused(j.cpu.image.core, p, f, behind, j.stopControl);
  }

  /**
   An injected frame is taken at most once in its session, from the ring it was put into; its slot is released, no PONG
   is owed for it, and on p0 and p1 one NACK that names its number and reason 1.
   */
  lemma InjectedIsRefusedOnce(js: seq<Joint>, es: seq<Event>, i: nat, p: priority, value: u32, s: Slot, k: nat,
                              q: priority)
    requires Run(js, es) && Injects(js, es, i, p, value, s) && i < k && Takes(js, es, k, q, s)
    requires OneSession(js, i + 1, k) && js[k].draws <= CYCLE
    ensures q == p && js[k + 1].d.forward[p] == js[k].d.forward[p][1..] && js[k + 1].cpu.Running?
    ensures js[k + 1].cpu.image.owed == if Reliable(p) then [Feedback(MSG_NACK, s.frame.sequence, NACK_BAD_CRC)] else []
    ensures forall m: nat, x: priority | k < m && OneSession(js, k, m) && js[m].draws <= CYCLE ::
              !Takes(js, es, m, x, s)
  {
    hide TakesFrom, Unique, Seal, Damage, Sound, Opening, Correlated, Pinned, Belongs, Feedback;
    var f := InjectedSlot(js, es, i, p, value, s);
    StaysOrIsTaken(js, es, i + 1, k, p, s);
    RunIsUnique(js, es, k);
    TakerRuns(js[k], q, s);
    TakenIsNew(js[k], q, s);
    DamagedIsRefused(js[k], q, f);
    assert js[k + 1] == Sessions.Next(js[k], es[k]);
    forall m: nat, x: priority | k < m && OneSession(js, k, m) && js[m].draws <= CYCLE ensures !Takes(js, es, m, x, s) {
      if Takes(js, es, m, x, s) {
        TakenAtMostOnce(js, es, k, q, m, x, s);
      }
    }
  }

  lemma TakesTheDamaged(j: Joint, p: priority, f: Frame)
    requires j.cpu.Running? && j.cpu.image.published && j.cpu.image.owed == [] && j.cpu.image.core.generation != 0
    requires SessionOf(j.d.header, j.cpu.image.core) == Ok && j.d.forward[p] == [Damage(Seal(f))] && WellFormed(f)
    ensures TakesFrom(j, p, Damage(Seal(f)))
  {
    hide Seal, Damage, ReceiveSpec, Replies, SessionSpec;
    var behind := j.d.forward[p][1..];
    assert j.d.forward[p] == [Damage(Seal(f))] + behind;
    InjectedDamageIsRefused(j.cpu.image.core, p, f, behind, j.stopControl);
  }

  /** On an idle open session the hook commits its frame, and CPU3 takes it next. */
  lemma InjectedNext(j: Joint, p: priority, value: u32) returns (t: Joint, s: Slot)
    requires Serving(j) && Inv(j)
    ensures t == Next(j, Linux(Inject(p, value, true))) && j.d.phase == Active && |j.d.forward[p]| < CAPACITY
    ensures t.d.forward[p] == j.d.forward[p] + [s] && TakesFrom(t, p, s) && t.draws <= CYCLE
  {
    hide Seal, Damage, StoreU32, NextSequence, TakesFrom, Announced, Opening, Correlated, Pinned;
    var f := InjectedFrame(j.d, p, value);
    t, s := LinuxStep(j, Inject(p, value, true)), Damage(Seal(f));
    assert t.d.forward[p] == [s];
    TakesTheDamaged(t, p, f);
  }

  /**
   Such a run exists on every priority: a session opens, the hook commits its frame, and CPU3 takes and refuses it.
   */
  lemma InjectedIsRefusedInSomeRun(j0: Joint, p: priority, value: u32)
    returns (js: seq<Joint>, es: seq<Event>, s: Slot)
    requires Fresh(j0) && !j0.stopControl
    ensures Run(js, es) && |es| == 7 && |js| == 8 && js[0] == j0
    ensures Injects(js, es, 5, p, value, s) && Takes(js, es, 6, p, s)
    ensures OneSession(js, 6, 6) && js[6].draws <= CYCLE && js[7].cpu.Running?
    ensures js[7].cpu.image.owed
         == if Reliable(p) then [Feedback(MSG_NACK, s.frame.sequence, NACK_BAD_CRC)] else []
  {
    hide Run, Fresh, Next, TakesFrom, Feedback, Inv, Honest, Serving;
    js, es := SessionOpensInSomeRun(j0);
    RunKeeps(js, es, 5);
    var j5;
    j5, s := InjectedNext(js[5], p, value);
    QuietlyInject(js[5], p, value);
    js, es := RunSnoc(js, es, Linux(Inject(p, value, true)));
    js, es := RunSnoc(js, es, Take(p));
    InjectedIsRefusedOnce(js, es, 5, p, value, s, 6, p);
  }

  lemma QuietlyInject(j: Joint, p: priority, value: u32)
    ensures Honest(j, Inject(p, value, true))
  {
  }

  /** A NACK names a frame only where that frame was taken. */
  lemma NackNamesItsFrame(js: seq<Joint>, es: seq<Event>, k: nat, p: priority, s: Slot, m: nat, q: priority, t: Slot,
                          reason: u32)
    requires Run(js, es) && Takes(js, es, k, p, s) && Takes(js, es, m, q, t)
    requires var a, b := if k < m then k else m, if k < m then m else k; OneSession(js, a, b) && js[b].draws <= CYCLE
    requires js[m + 1].cpu.Running? && Feedback(MSG_NACK, s.frame.sequence, reason) in js[m + 1].cpu.image.owed
    ensures m == k && q == p
  {
    hide TakesFrom, Inv, Feedback;
    var b := if k < m then m else k;
    OwedNamesTaken(js[m], q, t, s.frame.sequence, reason);
    assert js[k + 1] == Sessions.Next(js[k], es[k]) && js[m + 1] == Sessions.Next(js[m], es[m]);
    TakenFromHead(js[k], p, s);
    TakenFromHead(js[m], q, t);
    RunKeeps(js, es, b + 1);
    if k < m {
      StaysOrIsTaken(js, es, k + 1, m, p, s);
      TakeMoves(js[m], q, p, s);
    } else if m < k {
      StaysOrIsTaken(js, es, m + 1, k, q, t);
      TakeMoves(js[k], p, q, t);
    }
    NumberNamesSlot(js[b + 1], s, t);
    if k < m {
      TakenAtMostOnce(js, es, k, p, m, q, s);
    } else {
      TakenAtMostOnce(js, es, m, q, k, p, s);
    }
  }

  lemma OwedNamesTaken(j: Joint, q: priority, t: Slot, n: u32, reason: u32)
    requires TakesFrom(j, q, t)
    ensures var u := TakeStep(j, q);
            u.cpu.Running? && u.draws == j.draws
            && (Feedback(MSG_NACK, n, reason) in u.cpu.image.owed ==> t.frame.sequence == n)
  {
    hide ReceiveSpec, StoreU32, LoadU32, PayloadOf;
    EchoReads(MSG_NACK, n, reason);
    EchoReads(MSG_NACK, t.frame.sequence, NACK_BAD_CRC);
    EchoReads(MSG_NACK, t.frame.sequence, NACK_INVALID_FRAME);
  }

  lemma NumberNamesSlot(j: Joint, s: Slot, t: Slot)
    requires Inv(j) && s in j.taken && t in j.taken && s.frame.sequence == t.frame.sequence && j.draws <= CYCLE
    ensures s == t
  {
    hide Sound, Announced, Opening, Pinned, Echoed, Circulates, Draw;
    var k :| k in j.commits && j.commits[k] == s;
    var m :| m in j.commits && j.commits[m] == t;
    if k <= m {
      DrawsRepeatExactlyByCycle(k, m);
    } else {
      DrawsRepeatExactlyByCycle(m, k);
    }
  }

  lemma TakerRuns(j: Joint, p: priority, s: Slot)
    requires TakesFrom(j, p, s)
    ensures j.cpu.Running? && (Inv(j) ==> j.d.session != 0)
  {
  }
}
