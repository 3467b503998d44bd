/**
 One client of one priority: a window of requests in flight, the worker that answers each with an ACK (where the
 priority is reliable) and a PONG, and the two seven-slot rings between them.
 */
module Window {
  import opened Words
  import opened Frames
  import opened Endpoint
  import opened Sequences
  import A = Answers

  /** A PING by its two payload words: the number its send drew and the value it carries. */
  datatype Request = Request(sequence: u32, value: u32)
  datatype Response = Ack(sequence: u32) | Pong(value: u32)

  /** Each response is a send of its own, and a full reverse ring drops it. */
  datatype WorkerPc = Ready | SendingAck(r: Request) | SendingPong(r: Request)

  /**
   `drawn` counts the numbers the client's endpoint has drawn. The history keeps what was accepted, what the client has
   read, and what found a ring full.
   */
  datatype State = State(
    reliable: bool, window: nat,
    forward: seq<Request>, reverse: seq<Response>, worker: WorkerPc, outstanding: nat, drawn: nat,
    accepted: seq<Request>, read: seq<Response>, dropped: seq<Response>, refused: seq<Request>)

  datatype Act = Write(value: u32) | Take | Answer | Read

  function Fanout(reliable: bool): nat { if reliable then 2 else 1 }

  function Answers(reliable: bool, r: Request): (a: seq<Response>)
    ensures |a| == Fanout(reliable)
  {
    if reliable then [Ack(r.sequence), Pong(Inc(r.value))] else [Pong(Inc(r.value))]
  }

  /** What the client is owed: in the order of its requests, one PONG of value + 1 each, behind its ACK. */
  function Owed(reliable: bool, rs: seq<Request>): (a: seq<Response>)
    ensures |a| == Fanout(reliable) * |rs|
  {
    if rs == [] then [] else Owed(reliable, rs[..|rs| - 1]) + Answers(reliable, rs[|rs| - 1])
  }

  function Pongs(rs: seq<Response>): nat
  {
    if rs == [] then 0 else Pongs(rs[..|rs| - 1]) + if rs[|rs| - 1].Pong? then 1 else 0
  }

  function Respond(s: State, a: Response, next: WorkerPc): State
  {
    if |s.reverse| < CAPACITY then s.(reverse := s.reverse + [a], worker := next)
    else s.(dropped := s.dropped + [a], worker := next)
  }

  function Step(s: State, a: Act): State
  {
    match a
    case Write(value) =>
      var r := Request(Draw(s.drawn + 1), value);
      if s.outstanding >= s.window then s
      else if |s.forward| >= CAPACITY then s.(refused := s.refused + [r], drawn := s.drawn + 1)
      else s.(forward := s.forward + [r], accepted := s.accepted + [r], outstanding := s.outstanding + 1,
           drawn := s.drawn + 1)
    case Take =>
      if s.worker != Ready || s.forward == [] then s
      else s.(forward := s.forward[1..],
           worker := if s.reliable then SendingAck(s.forward[0]) else SendingPong(s.forward[0]))
    case Answer =>
      (match s.worker
       case Ready => s
       case SendingAck(r) => Respond(s, Ack(r.sequence), SendingPong(r))
       case SendingPong(r) => Respond(s, Pong(Inc(r.value)), Ready))
    case Read =>
      if s.reverse == [] then s
      else s.(reverse := s.reverse[1..], read := s.read + [s.reverse[0]],
           outstanding := if s.reverse[0].Pong? && s.outstanding > 0 then s.outstanding - 1 else s.outstanding)
  }

  function Start(reliable: bool, window: nat): State
  {
    State(reliable, window, [], [], Ready, 0, 0, [], [], [], [])
  }

  function Run(s: State, acts: seq<Act>): State
    decreases |acts|
  {
    if acts == [] then s else Run(Step(s, acts[0]), acts[1..])
  }

  /** The request the worker holds, and what it has already sent for it. */
  function Held(w: WorkerPc): seq<Request> { if w.Ready? then [] else [w.r] }

  function Partial(reliable: bool, w: WorkerPc): seq<Response>
  {
    if w.SendingPong? && reliable then [Ack(w.r.sequence)] else []
  }

  ghost predicate Fits(reliable: bool, window: nat) { Fanout(reliable) * window <= CAPACITY }

  function Waiting(s: State): nat { |s.forward| + |Held(s.worker)| }

  /** The requests whose last answer has been sent. */
  function Served(s: State): seq<Request>
    requires Waiting(s) <= |s.accepted|
  {
    s.accepted[..|s.accepted| - Waiting(s)]
  }

  ghost predicate Inv(s: State)
  {
    && Waiting(s) <= |s.accepted|
    && s.accepted == Served(s) + Held(s.worker) + s.forward
    && s.read + s.reverse == Owed(s.reliable, Served(s)) + Partial(s.reliable, s.worker)
    && (s.worker.SendingAck? ==> s.reliable)
    && s.outstanding + Pongs(s.read) == |s.accepted| && s.outstanding <= s.window
    && s.dropped == [] && s.refused == []
  }

  lemma OwedSnoc(reliable: bool, rs: seq<Request>, r: Request)
    ensures Owed(reliable, rs + [r]) == Owed(reliable, rs) + Answers(reliable, r)
  {
    assert (rs + [r])[..|rs|] == rs;
  }

  lemma PongsSnoc(rs: seq<Response>, a: Response)
    ensures Pongs(rs + [a]) == Pongs(rs) + if a.Pong? then 1 else 0
  {
    assert (rs + [a])[..|rs|] == rs;
  }

  /** ACK and PONG take turns where both are sent. */
  ghost predicate Alternates(reliable: bool, rs: seq<Response>)
  {
    forall i | 0 <= i < |rs| :: rs[i].Pong? <==> !reliable || i % 2 == 1
  }

  lemma {:induction false} OwedAlternates(reliable: bool, rs: seq<Request>)
    ensures Alternates(reliable, Owed(reliable, rs))
  {
    if rs != [] {
      OwedAlternates(reliable, rs[..|rs| - 1]);
    }
  }

  lemma {:induction false} PongsOfAlternating(reliable: bool, rs: seq<Response>)
    requires Alternates(reliable, rs)
    ensures Pongs(rs) == if reliable then |rs| / 2 else |rs|
    decreases |rs|
  {
    if rs != [] {
      var init := rs[..|rs| - 1];
      assert forall i | 0 <= i < |init| :: init[i] == rs[i];
      PongsOfAlternating(reliable, init);
    }
  }

  /** The client has read as many PONGs as the length of what it has read says. */
  lemma PongsRead(s: State)
    requires Inv(s)
    ensures Alternates(s.reliable, s.read + s.reverse)
    ensures Pongs(s.read) == if s.reliable then |s.read| / 2 else |s.read|
  {
    OwedAlternates(s.reliable, Served(s));
    assert Alternates(s.reliable, s.read + s.reverse);
    assert forall i | 0 <= i < |s.read| :: s.read[i] == (s.read + s.reverse)[i];
    PongsOfAlternating(s.reliable, s.read);
  }

  lemma WindowBounds(s: State)
    requires Inv(s) && Fits(s.reliable, s.window)
    ensures s.worker != Ready ==> |s.reverse| < CAPACITY
    ensures s.outstanding < s.window ==> |s.forward| < CAPACITY
  {
    hide Owed, Pongs, Served;
    PongsRead(s);
    OwedLength(s);
    assert |Served(s)| + Waiting(s) == |s.accepted| by { ServedLength(s); }
    if s.reliable {
      assert Fanout(true) * s.window == 2 * s.window;
    } else {
      assert Fanout(false) * s.window == s.window;
    }
  }

  lemma ServedLength(s: State)
    requires Inv(s)
    ensures |Served(s)| + Waiting(s) == |s.accepted|
  {
  }

  lemma OwedLength(s: State)
    requires Inv(s)
    ensures |s.read| + |s.reverse|
         == (if s.reliable then 2 * |Served(s)| else |Served(s)|) + |Partial(s.reliable, s.worker)|
  {
    hide Served;
    var owed := Owed(s.reliable, Served(s));
    assert |owed| == Fanout(s.reliable) * |Served(s)|;
    assert |s.read + s.reverse| == |owed| + |Partial(s.reliable, s.worker)|;
  }

  lemma WriteKeeps(s: State, value: u32)
    requires Inv(s) && Fits(s.reliable, s.window)
    ensures Inv(Step(s, Write(value)))
  {
    hide Owed, Pongs, Draw;
    WindowBounds(s);
    var t := Step(s, Write(value));
    if t != s {
      assert t.accepted == Served(s) + Held(s.worker) + t.forward;
      assert Served(t) == Served(s);
    }
  }

  lemma TakenStillWaits(all: seq<Request>, served: seq<Request>, forward: seq<Request>)
    requires forward != [] && all == served + [] + forward
    ensures all == served + [forward[0]] + forward[1..]
  {
  }

  lemma TakeKeeps(s: State)
    requires Inv(s)
    ensures Inv(Step(s, Take))
  {
    hide Owed, Pongs;
    var t := Step(s, Take);
    if t != s {
      assert Waiting(t) == Waiting(s);
      TakenStillWaits(s.accepted, Served(s), s.forward);
      assert Partial(t.reliable, t.worker) == [] == Partial(s.reliable, s.worker);
    }
  }

  lemma AnswerKeeps(s: State)
    requires Inv(s) && Fits(s.reliable, s.window)
    ensures Inv(Step(s, Answer))
  {
    match s.worker {
      case Ready =>
      case SendingAck(r) => AckKeeps(s, r); hide Inv;
      case SendingPong(r) => PongKeeps(s, r); hide Inv;
    }
  }

  lemma AckKeeps(s: State, r: Request)
    requires Inv(s) && Fits(s.reliable, s.window) && s.worker == SendingAck(r)
    ensures Inv(Step(s, Answer))
  {
    hide Owed, Pongs;
    WindowBounds(s);
    var t := Step(s, Answer);
    assert Served(t) == Served(s);
    assert t.read + t.reverse == s.read + s.reverse + [Ack(r.sequence)];
  }

  lemma PongKeeps(s: State, r: Request)
    requires Inv(s) && Fits(s.reliable, s.window) && s.worker == SendingPong(r)
    ensures Inv(Step(s, Answer))
  {
    hide Owed, Pongs;
    WindowBounds(s);
    var t := Step(s, Answer);
    assert Served(t) == Served(s) + [r];
    OwedSnoc(s.reliable, Served(s), r);
    assert t.read + t.reverse == s.read + s.reverse + [Pong(Inc(r.value))];
  }

  lemma ReadKeeps(s: State)
    requires Inv(s)
    ensures Inv(Step(s, Read))
  {
    if s.reverse != [] {
      hide Owed, Pongs, Served, Partial, Held;
      var t := Step(s, Read);
      PongsSnoc(s.read, s.reverse[0]);
      assert t.read + t.reverse == s.read + s.reverse;
      assert Served(t) == Served(s) by { SameServed(s, t); }
      if s.reverse[0].Pong? {
        OnePongIsOut(s);
      }
    }
  }

  lemma SameServed(s: State, t: State)
    requires Waiting(s) <= |s.accepted|
    requires t.accepted == s.accepted && t.forward == s.forward && t.worker == s.worker
    ensures Waiting(t) == Waiting(s) && Served(t) == Served(s) && Held(t.worker) == Held(s.worker)
  {
  }

  /** A PONG the client has not read yet is one it still waits for. */
  lemma OnePongIsOut(s: State)
    requires Inv(s) && s.reverse != [] && s.reverse[0].Pong?
    ensures s.outstanding > 0
  {
    hide Owed;
    PongsRead(s);
    OwedLength(s);
    assert s.reverse[0] == (s.read + s.reverse)[|s.read|];
  }

  lemma StepKeepsWindow(s: State, a: Act)
    ensures Step(s, a).reliable == s.reliable && Step(s, a).window == s.window
  {
  }

  lemma StepKeeps(s: State, a: Act)
    requires Inv(s) && Fits(s.reliable, s.window)
    ensures Inv(Step(s, a)) && Step(s, a).reliable == s.reliable && Step(s, a).window == s.window
  {
    hide Inv, Fits, Step;
    assert Step(s, a).reliable == s.reliable && Step(s, a).window == s.window by { StepKeepsWindow(s, a); }
    match a {
      case Write(value) => WriteKeeps(s, value);
      case Take => TakeKeeps(s);
      case Answer => AnswerKeeps(s);
      case Read => ReadKeeps(s);
    }
  }

  lemma {:induction false} RunKeeps(s: State, acts: seq<Act>)
    requires Inv(s) && Fits(s.reliable, s.window)
    ensures Inv(Run(s, acts)) && Run(s, acts).reliable == s.reliable
    decreases |acts|
  {
    if acts != [] {
      StepKeeps(s, acts[0]);
      RunKeeps(Step(s, acts[0]), acts[1..]);
    }
  }

  /**
   While the answers to a whole window fit a ring, neither ring is ever found full, and the client reads exactly what
   it is owed: in order, each PONG once, and all of it by the time nothing is under way.
   */
  lemma EveryRequestIsAnswered(reliable: bool, window: nat, acts: seq<Act>)
    requires Fits(reliable, window)
    ensures var t := Run(Start(reliable, window), acts);
            && t.dropped == [] && t.refused == []
            && t.read <= Owed(reliable, t.accepted)
            && (t.forward == [] && t.reverse == [] && t.worker == Ready ==>
                  t.read == Owed(reliable, t.accepted) && t.outstanding == 0)
  {
    var s := Start(reliable, window);
    RunKeeps(s, acts);
    var t := Run(s, acts);
    SentIsOwed(t);
    if t.forward == [] && t.reverse == [] && t.worker == Ready {
      assert t.read + [] == t.read && Served(t) == t.accepted;
      PongsRead(t);
    }
  }

  lemma SentIsOwed(s: State)
    requires Inv(s)
    ensures s.read <= Owed(s.reliable, s.accepted)
  {
    hide Owed;
    OwedPrefix(s.reliable, Served(s), s.accepted);
    if s.worker.SendingPong? {
      var r := s.worker.r;
      OwedSnoc(s.reliable, Served(s), r);
      OwedPrefix(s.reliable, Served(s) + [r], s.accepted);
    }
    assert s.read <= s.read + s.reverse;
  }

  lemma {:induction false} OwedPrefix(reliable: bool, rs: seq<Request>, all: seq<Request>)
    requires rs <= all
    ensures Owed(reliable, rs) <= Owed(reliable, all)
    decreases |all|
  {
    if |rs| < |all| {
      OwedPrefix(reliable, rs, all[..|all| - 1]);
    } else {
      assert rs == all;
    }
  }

  lemma {:induction false} RunAppend(s: State, xs: seq<Act>, ys: seq<Act>)
    ensures Run(s, xs + ys) == Run(Run(s, xs), ys)
    decreases |xs|
  {
    if xs == [] {
      assert xs + ys == ys;
    } else {
      assert (xs + ys)[1..] == xs[1..] + ys;
      RunAppend(Step(s, xs[0]), xs[1..], ys);
    }
  }

  /** Written and served before the client reads anything. */
  function Round(reliable: bool, value: u32): seq<Act>
  {
    [Write(value), Take, Answer] + if reliable then [Answer] else []
  }

  lemma RunRound(s: State, value: u32)
    ensures Run(s, Round(s.reliable, value)) ==
            var t := Step(Step(Step(s, Write(value)), Take), Answer);
            if s.reliable then Step(t, Answer) else t
  {
    hide Step;
    var s1 := Step(s, Write(value));
    var s2 := Step(s1, Take);
    var s3 := Step(s2, Answer);
    if s.reliable {
      assert Round(true, value)[1..] == [Take, Answer, Answer];
      assert [Take, Answer, Answer][1..] == [Answer, Answer] && [Answer, Answer][1..] == [Answer];
      assert Run(s3, [Answer]) == Run(Step(s3, Answer), []);
    } else {
      assert Round(false, value)[1..] == [Take, Answer];
      assert [Take, Answer][1..] == [Answer];
      assert Run(s2, [Answer]) == Run(s3, []);
    }
  }

  /** What one round does while its answers fit. */
  lemma RoundAnswers(s: State, value: u32)
    requires s.worker == Ready && s.forward == [] && s.outstanding < s.window
    ensures var t := Run(s, Round(s.reliable, value));
            && t.reliable == s.reliable && t.window == s.window && t.worker == Ready && t.forward == []
            && t.outstanding == s.outstanding + 1 && t.drawn == s.drawn + 1
            && t.accepted == s.accepted + [Request(Draw(s.drawn + 1), value)]
            && (|s.reverse| + Fanout(s.reliable) <= CAPACITY ==>
                  |t.reverse| == |s.reverse| + Fanout(s.reliable) && t.dropped == s.dropped)
            && (|s.reverse| + Fanout(s.reliable) == CAPACITY + 1 ==> t.dropped == s.dropped + [Pong(Inc(value))])
  {
    hide Draw;
    RunRound(s, value);
  }

  /** n rounds without a read leave the answers of n requests in the reverse ring, as long as they fit. */
  lemma {:induction false} RoundsPileUp(reliable: bool, window: nat, n: nat) returns (acts: seq<Act>)
    requires n <= window && Fanout(reliable) * n <= CAPACITY
    ensures var t := Run(Start(reliable, window), acts);
            && t.reliable == reliable && t.window == window && t.worker == Ready && t.forward == []
            && t.outstanding == t.drawn == |t.accepted| == n && |t.reverse| == Fanout(reliable) * n && t.dropped == []
            && forall i | 0 <= i < n :: t.accepted[i] == Request(Draw(i + 1), i + 1)
  {
    if n == 0 {
      acts := [];
    } else {
      hide Draw;
      var prefix := RoundsPileUp(reliable, window, n - 1);
      acts := prefix + Round(reliable, n);
      RunAppend(Start(reliable, window), prefix, Round(reliable, n));
      var s := Run(Start(reliable, window), prefix);
      RoundAnswers(s, n);
    }
  }

  /**
   With one request more in flight than fits, a run of differently numbered requests exists that loses the last PONG.
   */
  lemma TooWideAWindowLosesAPong(reliable: bool, window: nat) returns (acts: seq<Act>)
    requires !Fits(reliable, window)
    ensures var n := if reliable then 4 else 8;
            var t := Run(Start(reliable, window), acts);
            && t.dropped == [Pong(n + 1)] && |t.accepted| == n
            && (forall i | 0 <= i < n :: t.accepted[i] == Request(Draw(i + 1), i + 1))
            && (forall i, j | 0 <= i < j < n :: t.accepted[i].sequence != t.accepted[j].sequence)
  {
    hide Draw;
    var n := if reliable then 3 else 7;
    var prefix := RoundsPileUp(reliable, window, n);
    acts := prefix + Round(reliable, n + 1);
    RunAppend(Start(reliable, window), prefix, Round(reliable, n + 1));
    RoundAnswers(Run(Start(reliable, window), prefix), n + 1);
    var t := Run(Start(reliable, window), acts);
    forall i, j | 0 <= i < j < n + 1 ensures t.accepted[i].sequence != t.accepted[j].sequence {
      DrawsRepeatExactlyByCycle(i + 1, j + 1);
    }
  }

  /** So a window is safe exactly when its answers fit: 3 on the reliable priorities, 7 on the others. */
  lemma WindowIsSafeExactlyWhenItFits(reliable: bool, window: nat)
    ensures (forall acts :: Run(Start(reliable, window), acts).dropped == []) <==> Fits(reliable, window)
    ensures Fits(reliable, window) <==> window <= (if reliable then 3 else 7)
  {
    if Fits(reliable, window) {
      forall acts ensures Run(Start(reliable, window), acts).dropped == [] {
        EveryRequestIsAnswered(reliable, window, acts);
      }
    } else {
      var acts := TooWideAWindowLosesAPong(reliable, window);
    }
  }

  /** The frame a reply becomes, read as a response. */
  predicate ReadsAs(reply: A.Reply, response: Response)
    requires 4 <= |reply.payload| <= 8
  {
    match response
    case Ack(sequence) => reply.kind == MSG_ACK && LoadU32(PayloadOf(reply.payload, |reply.payload|)) == sequence
    case Pong(value) => reply.kind == MSG_PONG && LoadU32(PayloadOf(reply.payload, |reply.payload|)) == value
  }

  /** These are the answers CPU3's service gives: to a whole PING, its replies, one for one and in order. */
  lemma AnswersAreReplies(stopControl: bool, p: priority, s: Slot)
    requires s.frame.kind == MSG_PING
    ensures var replies := A.Replies(stopControl, p, Ok, Some(s));
            var answers := Answers(Reliable(p), Request(s.frame.sequence, LoadU32(s.frame.payload)));
            && |replies| == |answers|
            && forall i | 0 <= i < |answers| :: 4 <= |replies[i].payload| <= 8 && ReadsAs(replies[i], answers[i])
  {
    hide LoadU32, StoreU32, PayloadOf;
    A.EchoReads(MSG_ACK, s.frame.sequence, 0);
    A.PongReads(s.frame);
  }
}
