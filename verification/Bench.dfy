/** The window bench: a client that keeps up to `window` requests in flight and accounts for every answer. */
module Bench {
  import opened Words
  import opened Frames

  datatype Request = Request(value: u32, start: nat, active: bool)

  /** A frame as a read hands it over. */
  datatype Message = Message(kind: u32, length: u32, payload: Payload)

  datatype WriteResult = Written | NoSpace | TryAgain | WriteFailed

  /** A readable device yields these frames, read after read, and then has no more or fails. */
  datatype PollResult =
    | Nothing
    | Interrupted
    | PollFailed
    | Ready(readable: bool, error: bool, frames: seq<Message>, drained: bool)

  /** How the kernel answers the k-th write and the k-th poll. */
  datatype Kernel = Kernel(write: nat -> WriteResult, poll: nat -> PollResult)

  function Writes(write: nat -> WriteResult, n: nat, r: WriteResult): nat
  {
    if n == 0 then 0 else Writes(write, n - 1, r) + if write(n - 1) == r then 1 else 0
  }

  /** What a client makes of a frame before it looks for the request. */
  datatype Sort = Acknowledgement | Refusal | Answer | Stray

  function SortOf(m: Message): Sort
  {
    if m.kind == MSG_ACK then Acknowledgement
    else if m.kind == MSG_NACK then Refusal
    else if m.kind == MSG_PONG && m.length >= 4 && LoadU32(m.payload) != 0 then Answer
    else Stray
  }

  function CountOf(frames: seq<Message>, sort: Sort): nat
  {
    if frames == [] then 0
    else CountOf(frames[..|frames| - 1], sort) + if SortOf(frames[|frames| - 1]) == sort then 1 else 0
  }

  lemma CountOne(frames: seq<Message>, m: Message)
    ensures forall sort :: CountOf(frames + [m], sort) == CountOf(frames, sort) + if SortOf(m) == sort then 1 else 0
  {
    assert (frames + [m])[..|frames|] == frames;
  }

  /** The value whose request a frame answers, if it is an answer. */
  function Closes(m: Message): multiset<u32>
  {
    if SortOf(m) == Answer then multiset{LoadU32(m.payload) - 1} else multiset{}
  }

  lemma Sorted(m: Message)
    ensures var value := LoadU32(m.payload);
            if m.kind == MSG_ACK then SortOf(m) == Acknowledgement && Closes(m) == multiset{}
            else if m.kind == MSG_NACK then SortOf(m) == Refusal && Closes(m) == multiset{}
            else if m.kind == MSG_PONG && m.length >= 4 && value != 0
            then SortOf(m) == Answer && Closes(m) == multiset{value - 1}
            else SortOf(m) == Stray && Closes(m) == multiset{}
  {
    hide LoadU32;
  }

  function Answered(frames: seq<Message>): multiset<u32>
  {
    if frames == [] then multiset{} else Answered(frames[..|frames| - 1]) + Closes(frames[|frames| - 1])
  }

  lemma AnsweredOne(frames: seq<Message>, m: Message)
    ensures Answered(frames + [m]) == Answered(frames) + Closes(m)
  {
    hide Closes;
    assert (frames + [m])[..|frames|] == frames;
  }

  /** What one slot has in flight, and what all have. */
  function Carries(r: Request): multiset<u32> { if r.active then multiset{r.value} else multiset{} }

  function InFlight(s: seq<Request>): multiset<u32>
  {
    if s == [] then multiset{} else InFlight(s[..|s| - 1]) + Carries(s[|s| - 1])
  }

  lemma Swapped(x: multiset<u32>, y: multiset<u32>, z: multiset<u32>)
    ensures x + y + z == x + z + y
  {
  }

  lemma {:induction false} InFlightUpdate(s: seq<Request>, i: nat, r: Request)
    requires i < |s|
    ensures InFlight(s[i := r]) + Carries(s[i]) == InFlight(s) + Carries(r)
  {
    hide Carries;
    var n := |s| - 1;
    if i == n {
      assert s[i := r][..n] == s[..n];
      Swapped(InFlight(s[..n]), Carries(r), Carries(s[n]));
    } else {
      var t := s[..n][i := r];
      assert s[i := r][..n] == t;
      InFlightUpdate(s[..n], i, r);
      Swapped(InFlight(t), Carries(s[n]), Carries(s[i]));
      Swapped(InFlight(s[..n]), Carries(r), Carries(s[n]));
    }
  }

  lemma {:induction false} InFlightSize(s: seq<Request>)
    ensures |InFlight(s)| == |ActiveIn(s)|
  {
    if s != [] {
      hide InFlight;
      var n := |s| - 1;
      InFlightSize(s[..n]);
      InFlightLast(s);
      ActiveLast(s);
    } else {
      NoneInFlight(s);
      assert ActiveIn(s) == {};
    }
  }

  lemma ActiveLast(s: seq<Request>)
    requires s != []
    ensures |ActiveIn(s)| == |ActiveIn(s[..|s| - 1])| + if s[|s| - 1].active then 1 else 0
  {
    var n := |s| - 1;
    assert ActiveIn(s) == if s[n].active then ActiveIn(s[..n]) + {n} else ActiveIn(s[..n]);
  }

  lemma {:induction false} InFlightHolds(s: seq<Request>, value: u32)
    ensures Holds(s, value) <==> value in InFlight(s)
  {
    if s != [] {
      hide InFlight;
      var n := |s| - 1;
      InFlightHolds(s[..n], value);
      InFlightLast(s);
      assert Holds(s, value) <==> Holds(s[..n], value) || (s[n].active && s[n].value == value) by {
        assert forall i | 0 <= i < n :: s[..n][i] == s[i];
      }
    }
  }

  lemma {:induction false} NoneInFlight(s: seq<Request>)
    requires forall i | 0 <= i < |s| :: !s[i].active
    ensures InFlight(s) == multiset{}
  {
    if s != [] {
      NoneInFlight(s[..|s| - 1]);
    }
  }

  lemma InFlightLast(s: seq<Request>)
    requires s != []
    ensures InFlight(s) == InFlight(s[..|s| - 1]) + Carries(s[|s| - 1])
  {
  }

  /** n values, counting up from the first. */
  function Values(first: u32, n: nat): multiset<u32>
  {
    if n == 0 then multiset{} else Values(first, n - 1) + multiset{(first + n - 1) % MODULUS}
  }

  // ---- What a bench does with a kernel's answers

  /**
   Where a bench stands: writes and polls made, the values in flight and the next one, the frames read, the failures.
   */
  datatype Stand =
    | Stand(attempts: nat, polls: nat, inFlight: multiset<u32>, next: u32, heard: seq<Message>, errors: nat)

  /** How many of the writes from a up to b were accepted, if only the last can have been turned away. */
  function Accepted(k: Kernel, a: nat, b: nat): nat
    requires a <= b
  {
    if a == b || k.write(b - 1) == Written then b - a else b - a - 1
  }

  predicate Broke(k: Kernel, a: nat, b: nat) { a < b && k.write(b - 1) == WriteFailed }

  /** Writes as long as the window has room and the kernel accepts them, and no longer. */
  ghost predicate Fills(k: Kernel, window: nat, s: Stand, t: Stand)
  {
    && s.attempts <= t.attempts
    && (forall i | s.attempts <= i < t.attempts - 1 :: k.write(i) == Written)
    && var n := Accepted(k, s.attempts, t.attempts);
    && t == s.(attempts := t.attempts, inFlight := s.inFlight + Values(s.next, n), next := (s.next + n) % MODULUS)
    && |s.inFlight| + n <= window
    && (|s.inFlight| + n == window || (s.attempts < t.attempts && k.write(t.attempts - 1) != Written))
  }

  /** So far n writes, all accepted. */
  ghost predicate Filling(k: Kernel, s: Stand, t: Stand, n: nat)
  {
    && t == s.(attempts := s.attempts + n, inFlight := s.inFlight + Values(s.next, n), next := (s.next + n) % MODULUS)
    && forall i | s.attempts <= i < t.attempts :: k.write(i) == Written
  }

  lemma FillingStarts(k: Kernel, s: Stand)
    ensures Filling(k, s, s, 0)
  {
  }

  lemma FillingGoesOn(k: Kernel, window: nat, s: Stand, t: Stand, u: Stand, n: nat)
    requires Filling(k, s, t, n) && |s.inFlight| + n < window
    requires u == if k.write(t.attempts) != Written then t.(attempts := t.attempts + 1)
                  else t.(attempts := t.attempts + 1, inFlight := t.inFlight + multiset{t.next}, next := Inc(t.next))
    ensures if k.write(t.attempts) == Written then Filling(k, s, u, n + 1)
            else Fills(k, window, s, u) && Broke(k, s.attempts, u.attempts) == (k.write(t.attempts) == WriteFailed)
  {
    hide Values;
    NextValue(s.next, n);
  }

  lemma FillingEnds(k: Kernel, window: nat, s: Stand, t: Stand, n: nat)
    requires Filling(k, s, t, n) && |s.inFlight| + n == window
    ensures Fills(k, window, s, t) && !Broke(k, s.attempts, t.attempts)
  {
    hide Values;
  }

  /** Reads what is offered, all of it, and closes the requests it answers. */
  function Hears(s: Stand, frames: seq<Message>, drained: bool): Stand
  {
    s.(inFlight := s.inFlight - Answered(frames), heard := s.heard + frames,
    errors := s.errors + if drained then 0 else 1)
  }

  /** One round of the measurement: fill the window, poll, and read if there is something to read and nothing wrong. */
  ghost predicate Round(k: Kernel, window: nat, s: Stand, t: Stand)
  {
    exists f: Stand :: Fills(k, window, s, f) && t == if Broke(k, s.attempts, f.attempts) then f else Polled(k, f)
  }

  function Polled(k: Kernel, f: Stand): Stand
  {
    var g, a := f.(polls := f.polls + 1), k.poll(f.polls);
    if a.PollFailed? || (a.Ready? && a.error) then g.(errors := g.errors + 1)
    else if a.Ready? && a.readable then Hears(g, a.frames, a.drained)
    else g
  }

  /** The device failed in that round, and the measurement ends. */
  predicate Failed(k: Kernel, s: Stand, t: Stand)
  {
    Broke(k, s.attempts, t.attempts) || t.errors > s.errors
  }

  /** The measurement: as many rounds as begin before the deadline, or up to the first failure. */
  ghost predicate Measured(k: Kernel, window: nat, ticks: nat, stands: seq<Stand>)
  {
    && 0 < |stands| <= ticks + 1
    && (forall i | 0 <= i < |stands| - 1 :: Round(k, window, stands[i], stands[i + 1]))
    && (forall i | 0 <= i < |stands| - 2 :: !Failed(k, stands[i], stands[i + 1]))
    && (|stands| == ticks + 1 || (|stands| > 1 && Failed(k, stands[|stands| - 2], stands[|stands| - 1])))
  }

  /** One turn of the grace period. */
  function Graced(k: Kernel, s: Stand): Stand
  {
    var g, a := s.(polls := s.polls + 1), k.poll(s.polls);
    if a.Ready? && a.readable then Hears(g, a.frames, a.drained) else g
  }

  predicate HangsUp(k: Kernel, s: Stand) { k.poll(s.polls).Ready? && !k.poll(s.polls).readable }

  /** The grace period: it goes on while something is in flight, there is time, and the device does not hang up. */
  ghost predicate Collected(k: Kernel, grace: nat, stands: seq<Stand>)
  {
    && 0 < |stands| <= grace + 1
    && (forall i | 0 <= i < |stands| - 1 :: stands[i].inFlight != multiset{} && stands[i + 1] == Graced(k, stands[i]))
    && (forall i | 0 <= i < |stands| - 2 :: !HangsUp(k, stands[i]))
    && var last := |stands| - 1;
    last == grace || stands[last].inFlight == multiset{} || (last > 0 && HangsUp(k, stands[last - 1]))
  }

  /** Rounds without a failure. */
  ghost predicate Unbroken(k: Kernel, window: nat, stands: seq<Stand>)
  {
    && 0 < |stands|
    && (forall i | 0 <= i < |stands| - 1 ::
          Round(k, window, stands[i], stands[i + 1]) && !Failed(k, stands[i], stands[i + 1]))
  }

  lemma UnbrokenStart(k: Kernel, window: nat, s: Stand)
    ensures Unbroken(k, window, [s]) && Waiting(k, [s])
  {
  }

  lemma MeasuredOne(k: Kernel, window: nat, ticks: nat, stands: seq<Stand>, t: Stand)
    requires Unbroken(k, window, stands) && Round(k, window, stands[|stands| - 1], t) && |stands| <= ticks
    ensures Failed(k, stands[|stands| - 1], t) ==> Measured(k, window, ticks, stands + [t])
    ensures !Failed(k, stands[|stands| - 1], t) ==> Unbroken(k, window, stands + [t])
  {
    hide Round, Failed;
  }

  lemma MeasuredAll(k: Kernel, window: nat, ticks: nat, stands: seq<Stand>)
    requires Unbroken(k, window, stands) && |stands| == ticks + 1
    ensures Measured(k, window, ticks, stands)
  {
    hide Round, Failed;
  }

  /** Turns of the grace period with something in flight before each, and no hang-up. */
  ghost predicate Waiting(k: Kernel, stands: seq<Stand>)
  {
    && 0 < |stands|
    && (forall i | 0 <= i < |stands| - 1 ::
          stands[i].inFlight != multiset{} && stands[i + 1] == Graced(k, stands[i]) && !HangsUp(k, stands[i]))
  }

  lemma CollectedOne(k: Kernel, grace: nat, stands: seq<Stand>, t: Stand)
    requires Waiting(k, stands) && t == Graced(k, stands[|stands| - 1]) && |stands| <= grace
    requires |stands[|stands| - 1].inFlight| > 0
    ensures HangsUp(k, stands[|stands| - 1]) ==> Collected(k, grace, stands + [t])
    ensures !HangsUp(k, stands[|stands| - 1]) ==> Waiting(k, stands + [t])
  {
    hide Graced, HangsUp;
  }

  lemma CollectedAll(k: Kernel, grace: nat, stands: seq<Stand>)
    requires Waiting(k, stands) && |stands| <= grace + 1
    requires |stands| == grace + 1 || |stands[|stands| - 1].inFlight| == 0
    ensures Collected(k, grace, stands)
  {
    hide Graced, HangsUp;
  }

  lemma HearsNothing(s: Stand, frames: seq<Message>)
    ensures Hears(s, frames[..0], true) == s
  {
    assert frames[..0] == [] && s.heard + [] == s.heard;
  }

  lemma HearsOne(s: Stand, frames: seq<Message>, i: nat)
    requires i < |frames|
    ensures var t, m := Hears(s, frames[..i], true), frames[i];
            Hears(s, frames[..i + 1], true) == t.(heard := t.heard + [m], inFlight := t.inFlight - Closes(m))
  {
    hide Closes, Answered;
    AnsweredOne(frames[..i], frames[i]);
    MinusTwice(s.inFlight, Answered(frames[..i]), Closes(frames[i]));
    assert frames[..i + 1] == frames[..i] + [frames[i]];
    assert s.heard + (frames[..i] + [frames[i]]) == (s.heard + frames[..i]) + [frames[i]];
  }

  lemma MinusNothing(x: multiset<u32>)
    ensures x - multiset{} == x
  {
  }

  lemma MinusTwice(x: multiset<u32>, y: multiset<u32>, z: multiset<u32>)
    ensures x - (y + z) == x - y - z
  {
  }

  lemma HearsAll(s: Stand, frames: seq<Message>)
    ensures Hears(s, frames, false) == Hears(s, frames, true).(errors := s.errors + 1)
    ensures Hears(s, frames, true).errors == s.errors
  {
  }

  function ActiveIn(s: seq<Request>): set<nat> { set i | 0 <= i < |s| && s[i].active }

  /** At most all slots are active, and all of them exactly when none is free. */
  lemma {:induction false} ActiveAreFew(s: seq<Request>)
    ensures |ActiveIn(s)| <= |s|
    ensures |ActiveIn(s)| == |s| <==> forall i | 0 <= i < |s| :: s[i].active
  {
    if s != [] {
      var n := |s| - 1;
      ActiveAreFew(s[..n]);
      assert ActiveIn(s) == if s[n].active then ActiveIn(s[..n]) + {n} else ActiveIn(s[..n]);
      assert forall i | 0 <= i < n :: s[..n][i] == s[i];
    }
  }

  lemma Activated(s: seq<Request>, i: nat, r: Request)
    requires i < |s| && !s[i].active && r.active
    ensures |ActiveIn(s[i := r])| == |ActiveIn(s)| + 1
  {
    assert ActiveIn(s[i := r]) == ActiveIn(s) + {i};
  }

  lemma Deactivated(s: seq<Request>, i: nat)
    requires i < |s| && s[i].active
    ensures |ActiveIn(s[i := s[i].(active := false)])| == |ActiveIn(s)| - 1
  {
    assert ActiveIn(s[i := s[i].(active := false)]) == ActiveIn(s) - {i};
  }

  /** Active slots hold the values of different written requests, numbered in the order of writing. */
  ghost predicate Ticketed(s: seq<Request>, ticket: seq<nat>, written: nat, base: u32)
    requires |ticket| == |s|
  {
    && (forall i | 0 <= i < |s| && s[i].active :: ticket[i] < written && s[i].value == (base + ticket[i]) % MODULUS)
    && (forall i, j | 0 <= i < j < |s| && s[i].active && s[j].active :: ticket[i] != ticket[j])
  }

  lemma TicketTaken(s: seq<Request>, ticket: seq<nat>, written: nat, base: u32, i: nat, start: nat)
    requires |ticket| == |s| && i < |s| && Ticketed(s, ticket, written, base) && !s[i].active
    ensures Ticketed(s[i := Request((base + written) % MODULUS, start, true)], ticket[i := written], written + 1, base)
  {
  }

  lemma TicketReturned(s: seq<Request>, ticket: seq<nat>, written: nat, base: u32, i: nat)
    requires |ticket| == |s| && i < |s| && Ticketed(s, ticket, written, base)
    ensures Ticketed(s[i := s[i].(active := false)], ticket, written, base)
  {
  }

  ghost predicate Holds(s: seq<Request>, value: u32)
  {
    exists i | 0 <= i < |s| :: s[i].active && s[i].value == value
  }

  /** One request that carried the value is closed, and nothing else changed. */
  ghost predicate Released(before: seq<Request>, after: seq<Request>, value: u32)
  {
    exists i | 0 <= i < |before| ::
      before[i].active && before[i].value == value && after == before[i := before[i].(active := false)]
  }

  /** The books on the slots: what is in flight, what was written and answered, and which request each slot holds. */
  ghost predicate Books(s: seq<Request>, ticket: seq<nat>, base: u32, next: u32, written: nat, answered: nat, high: nat,
                        outstanding: nat)
  {
    && |ticket| == |s| && Ticketed(s, ticket, written, base) && next == (base + written) % MODULUS
    && outstanding == |ActiveIn(s)| == |InFlight(s)| == written - answered && outstanding <= high <= |s|
  }

  lemma BooksBegin(s: seq<Request>, ticket: seq<nat>, base: u32)
    requires |ticket| == |s| && forall i | 0 <= i < |s| :: !s[i].active
    ensures Books(s, ticket, base, base, 0, 0, 0, 0) && InFlight(s) == multiset{}
  {
    hide InFlight;
    assert ActiveIn(s) == {};
    NoneInFlight(s);
  }

  lemma BooksOpened(s: seq<Request>, ticket: seq<nat>, base: u32, next: u32, written: nat, answered: nat, high: nat,
                    outstanding: nat, i: nat, start: nat)
    requires Books(s, ticket, base, next, written, answered, high, outstanding) && i < |s| && !s[i].active
    ensures var t := s[i := Request(next, start, true)];
            && Books(t, ticket[i := written], base, Inc(next), written + 1, answered,
                     if outstanding + 1 > high then outstanding + 1 else high, outstanding + 1)
            && InFlight(t) == InFlight(s) + multiset{next}
  {
    hide Ticketed, ActiveIn, InFlight;
    var r := Request(next, start, true);
    Activated(s, i, r);
    TicketTaken(s, ticket, written, base, i, start);
    InFlightUpdate(s, i, r);
    InFlightSize(s[i := r]);
    IncOfSum(base, written, next);
    ActiveAreFew(s[i := r]);
  }

  lemma BooksClosed(s: seq<Request>, ticket: seq<nat>, base: u32, next: u32, written: nat, answered: nat, high: nat,
                    outstanding: nat, i: nat)
    requires Books(s, ticket, base, next, written, answered, high, outstanding) && i < |s| && s[i].active
    ensures var t := s[i := s[i].(active := false)];
            && outstanding > 0 && Books(t, ticket, base, next, written, answered + 1, high, outstanding - 1)
            && InFlight(t) == InFlight(s) - multiset{s[i].value}
  {
    hide Ticketed, ActiveIn, InFlight;
    Deactivated(s, i);
    TicketReturned(s, ticket, written, base, i);
    var r := s[i].(active := false);
    InFlightUpdate(s, i, r);
    InFlightSize(s[i := r]);
    assert InFlight(s) == InFlight(s[i := r]) + multiset{s[i].value};
  }

  /** With fewer requests in flight than slots, one is free. */
  lemma BooksSay(s: seq<Request>, ticket: seq<nat>, base: u32, next: u32, written: nat, answered: nat, high: nat,
                 outstanding: nat)
    requires Books(s, ticket, base, next, written, answered, high, outstanding)
    ensures outstanding == |ActiveIn(s)| == |InFlight(s)| == written - answered && outstanding <= high <= |s|
    ensures |ticket| == |s|
    ensures outstanding < |s| ==> exists i :: 0 <= i < |s| && !s[i].active
  {
    ActiveAreFew(s);
  }

  datatype Counts = Counts(writeOk: nat, enospc: nat, eagain: nat, writeOther: nat,
                           ack: nat, nack: nat, unknown: nat, answers: nat)

  /** Every write is counted by its answer, and every frame read by what it is. */
  ghost predicate Tallied(k: Kernel, attempts: nat, heard: seq<Message>, c: Counts)
  {
    && c.writeOk == Writes(k.write, attempts, Written) && c.enospc == Writes(k.write, attempts, NoSpace)
    && c.eagain == Writes(k.write, attempts, TryAgain) && c.writeOther == Writes(k.write, attempts, WriteFailed)
    && c.ack == CountOf(heard, Acknowledgement) && c.nack == CountOf(heard, Refusal)
    && c.unknown == CountOf(heard, Stray) && c.answers == CountOf(heard, Answer)
  }

  lemma TallyBegins(k: Kernel, heard: seq<Message>)
    requires heard == []
    ensures Tallied(k, 0, heard, Counts(0, 0, 0, 0, 0, 0, 0, 0))
  {
  }

  lemma TallyWrite(k: Kernel, attempts: nat, heard: seq<Message>, c: Counts)
    requires Tallied(k, attempts, heard, c)
    ensures Tallied(k, attempts + 1, heard,
                    match k.write(attempts)
                    case Written => c.(writeOk := c.writeOk + 1)
                    case NoSpace => c.(enospc := c.enospc + 1)
                    case TryAgain => c.(eagain := c.eagain + 1)
                    case WriteFailed => c.(writeOther := c.writeOther + 1))
  {
    hide CountOf;
  }

  lemma TallyRead(k: Kernel, attempts: nat, heard: seq<Message>, c: Counts, m: Message)
    requires Tallied(k, attempts, heard, c)
    ensures Tallied(k, attempts, heard + [m],
                    match SortOf(m)
                    case Acknowledgement => c.(ack := c.ack + 1)
                    case Refusal => c.(nack := c.nack + 1)
                    case Answer => c.(answers := c.answers + 1)
                    case Stray => c.(unknown := c.unknown + 1))
  {
    hide Writes, SortOf;
    CountOne(heard, m);
  }

  /** The index a percentile reads in the sorted latencies. */
  function PercentileIndex(count: nat, percentile: nat): nat
  {
    if count == 0 then 0
    else
      var rank := (count * percentile + 99) / 100;
      if rank == 0 then 0 else rank - 1
  }

  /** It is inside, and the least index that leaves the asked percentage of the samples at or before it. */
  lemma PercentileIsTheLeastRank(count: nat, percentile: nat, i: nat)
    requires count > 0 && percentile <= 100
    ensures PercentileIndex(count, percentile) < count
    ensures 100 * (PercentileIndex(count, percentile) + 1) >= count * percentile
    ensures 100 * (i + 1) >= count * percentile ==> PercentileIndex(count, percentile) <= i
  {
    var n := count * percentile;
    assert n <= 100 * count;
    RankRounds(n, i);
    RankRounds(n, count - 1);
  }

  lemma RankRounds(n: nat, i: nat)
    ensures 100 * ((n + 99) / 100) >= n && (100 * (i + 1) >= n ==> (n + 99) / 100 <= i + 1)
  {
  }

  class Bench {
    const slots: array<Request>
    const priority: priority
    const base: u32
    const kernel: Kernel
    var nextValue: u32
    var attempts: nat
    var polls: nat
    var writeOk: nat
    var enospc: nat
    var eagain: nat
    var writeOther: nat
    var ack: nat
    var nack: nat
    var pong: nat
    var duplicate: nat
    var unknown: nat
    var readError: nat
    var outstanding: nat
    var maxInflight: nat
    var timeouts: nat
    var latencies: seq<nat>
    /** Which of the written requests each slot held last. */
    ghost var ticket: seq<nat>
    /** Every frame read, in order. */
    ghost var heard: seq<Message>

    ghost predicate Valid()
      reads this, slots
    {
      && Books(slots[..], ticket, base, nextValue, writeOk, pong, maxInflight, outstanding) && |latencies| == pong
      && Tallied(kernel, attempts, heard, Counted())
    }

    ghost function Counted(): Counts
      reads this
    {
      Counts(writeOk, enospc, eagain, writeOther, ack, nack, unknown, pong + duplicate)
    }

    ghost function Here(): Stand
      reads this, slots
    {
      Stand(attempts, polls, InFlight(slots[..]), nextValue, heard, readError)
    }

    constructor (window: nat, priority: priority, base: u32, kernel: Kernel)
      ensures Valid() && fresh(slots) && slots.Length == window && outstanding == 0 && this.base == base
              && this.priority == priority && this.kernel == kernel
      ensures Here() == Stand(0, 0, multiset{}, base, [], 0)
    {
      slots := new Request[window](_ => Request(0, 0, false));
      this.priority, this.base, this.kernel, nextValue := priority, base, kernel, base;
      attempts, polls, writeOk, enospc, eagain, writeOther := 0, 0, 0, 0, 0, 0;
      ack, nack, pong, duplicate, unknown, readError := 0, 0, 0, 0, 0, 0;
      outstanding, maxInflight, timeouts, latencies := 0, 0, 0, [];
      ticket, heard := seq(window, _ => 0), [];
      new;
      BooksBegin(slots[..], ticket, base);
      TallyBegins(kernel, heard);
      hide Books, Tallied, InFlight;
    }

    method FindFree() returns (free: Option<nat>)
      ensures free.None? ==> forall i | 0 <= i < slots.Length :: slots[i].active
      ensures free.Some? ==> free.value < slots.Length && !slots[free.value].active
                             && forall i | 0 <= i < free.value :: slots[i].active
    {
      for index := 0 to slots.Length
        invariant forall i | 0 <= i < index :: slots[i].active
      {
        if !slots[index].active {
          return Some(index);
        }
      }
      free := None;
    }

    method FindValue(value: u32) returns (found: Option<nat>)
      ensures found.None? ==> forall i | 0 <= i < slots.Length :: !(slots[i].active && slots[i].value == value)
      ensures found.Some? ==>
                found.value < slots.Length && slots[found.value].active && slots[found.value].value == value
    {
      for index := 0 to slots.Length
        invariant forall i | 0 <= i < index :: !(slots[i].active && slots[i].value == value)
      {
        if slots[index].active && slots[index].value == value {
          return Some(index);
        }
      }
      found := None;
    }

    /** A slot is found whenever fewer than the window are in flight. */
    method FillOne() returns (answer: WriteResult)
      requires Valid() && outstanding < slots.Length
      modifies this`nextValue, this`attempts, this`writeOk, this`enospc, this`eagain, this`writeOther, this`outstanding,
               this`maxInflight, this`ticket, slots
      ensures Valid() && answer == kernel.write(old(attempts)) && attempts == old(attempts) + 1
      ensures answer == Written ==>
                && outstanding == old(outstanding) + 1 && nextValue == Inc(old(nextValue))
                && maxInflight == (if outstanding > old(maxInflight) then outstanding else old(maxInflight))
                && InFlight(slots[..]) == InFlight(old(slots[..])) + multiset{old(nextValue)}
                && exists i | 0 <= i < slots.Length ::
                     !old(slots[i].active) && slots[i].active && slots[i].value == old(nextValue)
                     && slots[..] == old(slots[..])[i := slots[i]]
      ensures answer != Written ==>
                outstanding == old(outstanding) && slots[..] == old(slots[..])
                && nextValue == old(nextValue) && maxInflight == old(maxInflight)
    {
      hide Books, Tallied, InFlight;
      var free := FindFree();
      BooksSay(slots[..], ticket, base, nextValue, writeOk, pong, maxInflight, outstanding);
      TallyWrite(kernel, attempts, heard, Counted());
      answer := kernel.write(attempts);
      attempts := attempts + 1;
      if answer == NoSpace {
        enospc := enospc + 1;
      } else if answer == TryAgain {
        eagain := eagain + 1;
      } else if answer == WriteFailed {
        writeOther := writeOther + 1;
      } else {
        Occupy(free.value);
      }
    }

    method Occupy(i: nat)
      requires i < slots.Length && !slots[i].active
      requires Books(slots[..], ticket, base, nextValue, writeOk, pong, maxInflight, outstanding)
      modifies this`nextValue, this`writeOk, this`outstanding, this`maxInflight, this`ticket, slots
      ensures Books(slots[..], ticket, base, nextValue, writeOk, pong, maxInflight, outstanding)
      ensures nextValue == Inc(old(nextValue)) && outstanding == old(outstanding) + 1 && writeOk == old(writeOk) + 1
      ensures maxInflight == (if outstanding > old(maxInflight) then outstanding else old(maxInflight))
      ensures slots[i].active && slots[i].value == old(nextValue) && slots[..] == old(slots[..])[i := slots[i]]
      ensures InFlight(slots[..]) == InFlight(old(slots[..])) + multiset{old(nextValue)}
    {
      hide Books, InFlight;
      var start: nat :| true;
      BooksOpened(slots[..], ticket, base, nextValue, writeOk, pong, maxInflight, outstanding, i, start);
      BooksSay(slots[..], ticket, base, nextValue, writeOk, pong, maxInflight, outstanding);
      ticket := ticket[i := writeOk];
      slots[i] := Request(nextValue, start, true);
      assert slots[..] == old(slots[..])[i := slots[i]];
      nextValue := Inc(nextValue);
      writeOk := writeOk + 1;
      outstanding := outstanding + 1;
      if outstanding > maxInflight {
        maxInflight := outstanding;
      }
    }

    /** What one frame read from the device does to the account. */
    method Account(m: Message)
      requires Valid()
      modifies this`ack, this`nack, this`pong, this`duplicate, this`unknown, this`outstanding, this`latencies,
               this`heard, slots
      ensures Valid() && heard == old(heard) + [m]
      ensures ack == old(ack) + if m.kind == MSG_ACK then 1 else 0
      ensures nack == old(nack) + if m.kind == MSG_NACK then 1 else 0
      ensures var answers := m.kind == MSG_PONG && m.length >= 4 && LoadU32(m.payload) != 0;
              var held := Holds(old(slots[..]), (LoadU32(m.payload) - 1) % MODULUS);
              && unknown == old(unknown) + (if m.kind != MSG_ACK && m.kind != MSG_NACK && !answers then 1 else 0)
              && duplicate == old(duplicate) + (if answers && !held then 1 else 0)
              && pong == old(pong) + (if answers && held then 1 else 0)
              && (answers && held ==>
                    outstanding == old(outstanding) - 1
                    && Released(old(slots[..]), slots[..], (LoadU32(m.payload) - 1) % MODULUS))
              && (!(answers && held) ==> outstanding == old(outstanding) && slots[..] == old(slots[..]))
      ensures InFlight(slots[..]) == InFlight(old(slots[..])) - Closes(m)
    {
      hide LoadU32, Books, Tallied, Holds, Released, InFlight, SortOf, Closes;
      Sorted(m);
      MinusNothing(InFlight(slots[..]));
      var value := Classify(m);
      if value.Some? {
        assert (LoadU32(m.payload) - 1) % MODULUS == value.value;
        Settle(value.value);
      }
    }

    /** Counts a frame that answers no request, and otherwise says which value it answers. */
    method Classify(m: Message) returns (value: Option<u32>)
      requires Tallied(kernel, attempts, heard, Counted())
      modifies this`ack, this`nack, this`unknown, this`heard
      ensures heard == old(heard) + [m]
      ensures value == if m.kind == MSG_PONG && m.length >= 4 && LoadU32(m.payload) != 0
                       then Some(LoadU32(m.payload) - 1) else None
      ensures ack == old(ack) + if m.kind == MSG_ACK then 1 else 0
      ensures nack == old(nack) + if m.kind == MSG_NACK then 1 else 0
      ensures unknown == old(unknown) + if m.kind != MSG_ACK && m.kind != MSG_NACK && value == None then 1 else 0
      ensures Tallied(kernel, attempts, heard, Counted().(answers := pong + duplicate + if value.Some? then 1 else 0))
    {
      hide LoadU32, Tallied, SortOf, Closes;
      Sorted(m);
      TallyRead(kernel, attempts, heard, Counted(), m);
      heard := heard + [m];
      if m.kind == MSG_ACK {
        ack := ack + 1;
        return None;
      }
      if m.kind == MSG_NACK {
        nack := nack + 1;
        return None;
      }
      if m.kind != MSG_PONG || m.length < 4 {
        unknown := unknown + 1;
        return None;
      }
      var v := LoadU32(m.payload);
      if v == 0 {
        unknown := unknown + 1;
        return None;
      }
      value := Some(v - 1);
    }

    /** An answer to the request that carried `value`. */
    method Settle(value: u32)
      requires Books(slots[..], ticket, base, nextValue, writeOk, pong, maxInflight, outstanding)
      modifies this`pong, this`duplicate, this`outstanding, this`latencies, slots
      ensures Books(slots[..], ticket, base, nextValue, writeOk, pong, maxInflight, outstanding)
      ensures var held := Holds(old(slots[..]), value);
              && duplicate == old(duplicate) + (if held then 0 else 1) && pong == old(pong) + (if held then 1 else 0)
              && |latencies| == |old(latencies)| + (if held then 1 else 0)
              && (held ==> outstanding == old(outstanding) - 1 && Released(old(slots[..]), slots[..], value))
              && (!held ==> outstanding == old(outstanding) && slots[..] == old(slots[..]))
      ensures InFlight(slots[..]) == InFlight(old(slots[..])) - multiset{value}
    {
      hide Books, ActiveIn, InFlight;
      InFlightHolds(slots[..], value);
      var found := FindValue(value);
      if found.None? {
        duplicate := duplicate + 1;
        return;
      }
      var i := found.value;
      BooksClosed(slots[..], ticket, base, nextValue, writeOk, pong, maxInflight, outstanding, i);
      var now: nat :| true;
      latencies := latencies + [if now > slots[i].start then now - slots[i].start else 0];
      slots[i] := slots[i].(active := false);
      assert slots[..] == old(slots[..])[i := old(slots[i]).(active := false)];
      outstanding := outstanding - 1;
      pong := pong + 1;
    }

    method WriteOne() returns (answer: WriteResult)
      requires Valid() && outstanding < slots.Length
      modifies this`nextValue, this`attempts, this`writeOk, this`enospc, this`eagain, this`writeOther, this`outstanding,
               this`maxInflight, this`ticket, slots
      ensures Valid() && answer == kernel.write(old(attempts))
      ensures outstanding == old(outstanding) + if answer == Written then 1 else 0
      ensures var s := old(Here()).(attempts := old(attempts) + 1);
              Here() == if answer != Written then s
              else s.(inFlight := s.inFlight + multiset{s.next}, next := Inc(s.next))
    {
      hide Books, Tallied, InFlight;
      answer := FillOne();
    }

    /** One round of sending: up to the window, or until the kernel turns a write away; false for a failed write. */
    method Fill() returns (healthy: bool)
      requires Valid()
      modifies this`nextValue, this`attempts, this`writeOk, this`enospc, this`eagain, this`writeOther, this`outstanding,
               this`maxInflight, this`ticket, slots
      ensures Valid() && Fills(kernel, slots.Length, old(Here()), Here())
      ensures healthy <==> !Broke(kernel, old(attempts), attempts)
    {
      hide Books, Tallied, InFlight, Filling, Fills;
      ghost var s := Here();
      ghost var n := 0;
      BooksSay(slots[..], ticket, base, nextValue, writeOk, pong, maxInflight, outstanding);
      FillingStarts(kernel, s);
      while outstanding < slots.Length
        invariant Valid() && outstanding == |s.inFlight| + n <= slots.Length && Filling(kernel, s, Here(), n)
        decreases slots.Length - outstanding
      {
        ghost var t := Here();
        var answer := WriteOne();
        FillingGoesOn(kernel, slots.Length, s, t, Here(), n);
        if answer != Written {
          return answer != WriteFailed;
        }
        n := n + 1;
      }
      FillingEnds(kernel, slots.Length, s, Here(), n);
      healthy := true;
    }

    method ReadOne(m: Message)
      requires Valid()
      modifies this`ack, this`nack, this`pong, this`duplicate, this`unknown, this`outstanding, this`latencies,
               this`heard, slots
      ensures Valid() && Here() == old(Here()).(heard := old(heard) + [m], inFlight := old(Here()).inFlight - Closes(m))
    {
      hide Books, Tallied, InFlight, Holds, Released, LoadU32, Closes;
      Account(m);
    }

    /** Reads until the device is drained or a read fails. */
    method ReadAll(frames: seq<Message>, drained: bool)
      requires Valid()
      modifies this`ack, this`nack, this`pong, this`duplicate, this`unknown, this`outstanding, this`latencies,
               this`heard, this`readError, slots
      ensures Valid() && Here() == Hears(old(Here()), frames, drained)
    {
      hide Books, Tallied, InFlight, Hears, Closes;
      ghost var s := Here();
      HearsNothing(s, frames);
      for i := 0 to |frames|
        invariant Valid() && Here() == Hears(s, frames[..i], true)
      {
        HearsOne(s, frames, i);
        ReadOne(frames[i]);
      }
      assert frames[..|frames|] == frames;
      HearsAll(s, frames);
      if !drained {
        readError := readError + 1;
      }
    }

    /** The measurement, `ticks` rounds long: fill, poll, read; it ends early when the device fails. */
    method Measure(ticks: nat) returns (ghost stands: seq<Stand>)
      requires Valid()
      modifies this, slots
      ensures Valid() && timeouts == old(timeouts)
      ensures Measured(kernel, slots.Length, ticks, stands)
      ensures stands[0] == old(Here()) && stands[|stands| - 1] == Here()
    {
      hide Books, Tallied, InFlight, Round, Failed, Unbroken, Measured;
      stands := [Here()];
      UnbrokenStart(kernel, slots.Length, Here());
      var left := ticks;
      while left > 0
        invariant Valid() && timeouts == old(timeouts) && 0 <= left <= ticks && |stands| == ticks - left + 1
        invariant Unbroken(kernel, slots.Length, stands) && stands[0] == old(Here()) && stands[|stands| - 1] == Here()
      {
        left := left - 1;
        var healthy := OneRound();
        MeasuredOne(kernel, slots.Length, ticks, stands, Here());
        stands := stands + [Here()];
        if !healthy {
          return;
        }
      }
      MeasuredAll(kernel, slots.Length, ticks, stands);
    }

    method OneRound() returns (healthy: bool)
      requires Valid()
      modifies this`nextValue, this`attempts, this`polls, this`writeOk, this`enospc, this`eagain, this`writeOther,
               this`outstanding, this`maxInflight, this`ticket, slots
      modifies this`ack, this`nack, this`pong, this`duplicate, this`unknown, this`latencies, this`heard, this`readError
      ensures Valid() && Round(kernel, slots.Length, old(Here()), Here())
      ensures healthy <==> !Failed(kernel, old(Here()), Here())
    {
      hide Books, Tallied, InFlight, Values, Answered, Fills;
      healthy := Fill();
      if !healthy {
        return;
      }
      var answer := kernel.poll(polls);
      polls := polls + 1;
      if answer.PollFailed? || (answer.Ready? && answer.error) {
        readError := readError + 1;
        return false;
      }
      if answer.Ready? && answer.readable {
        ReadAll(answer.frames, answer.drained);
        healthy := answer.drained;
      }
    }

    /** The grace period: reads what still comes, and sends nothing. */
    method Collect(grace: nat) returns (ghost stands: seq<Stand>)
      requires Valid()
      modifies this`polls, this`ack, this`nack, this`pong, this`duplicate, this`unknown, this`outstanding,
               this`latencies, this`heard, this`readError, slots
      ensures Valid() && Collected(kernel, grace, stands)
      ensures stands[0] == old(Here()) && stands[|stands| - 1] == Here()
    {
      hide Books, Tallied, InFlight, Graced, Waiting, Collected;
      stands := [Here()];
      var left := grace;
      BooksSay(slots[..], ticket, base, nextValue, writeOk, pong, maxInflight, outstanding);
      UnbrokenStart(kernel, 0, Here());
      while outstanding > 0 && left > 0
        decreases left
        invariant Valid() && outstanding == |Here().inFlight| && 0 <= left <= grace && |stands| == grace - left + 1
        invariant Waiting(kernel, stands) && stands[0] == old(Here()) && stands[|stands| - 1] == Here()
      {
        left := left - 1;
        var answer := OneGrace();
        CollectedOne(kernel, grace, stands, Here());
        stands := stands + [Here()];
        if answer.Ready? && !answer.readable {
          return;
        }
        BooksSay(slots[..], ticket, base, nextValue, writeOk, pong, maxInflight, outstanding);
      }
      CollectedAll(kernel, grace, stands);
    }

    method OneGrace() returns (answer: PollResult)
      requires Valid()
      modifies this`polls, this`ack, this`nack, this`pong, this`duplicate, this`unknown, this`outstanding,
               this`latencies, this`heard, this`readError, slots
      ensures Valid() && answer == kernel.poll(old(polls)) && Here() == Graced(kernel, old(Here()))
    {
      hide Books, Tallied, InFlight, Answered;
      answer := kernel.poll(polls);
      polls := polls + 1;
      if answer.Ready? && answer.readable {
        ReadAll(answer.frames, answer.drained);
      }
    }

    /**
     The whole run, for any answers of the kernel: the rounds of the measurement, then the grace period, then the
     report. What is lost is what timed out; success means that nothing went wrong and, on a reliable priority, that
     every request was acknowledged and answered.
     */
    method Run(ticks: nat, grace: nat)
      returns (lost: nat, code: nat, ghost measured: seq<Stand>, ghost collected: seq<Stand>)
      requires Valid()
      modifies this, slots
      ensures Valid() && timeouts == outstanding == lost == writeOk - pong == |ActiveIn(slots[..])|
      ensures Measured(kernel, slots.Length, ticks, measured) && measured[0] == old(Here())
      ensures Collected(kernel, grace, collected) && collected[0] == measured[|measured| - 1]
      ensures collected[|collected| - 1] == Here()
      ensures ticks > 0 && old(outstanding) < slots.Length ==> attempts > old(attempts)
      ensures maxInflight <= slots.Length && |latencies| == pong
      ensures code == 0 || code == 1
      ensures code == 0 <==>
              && eagain == writeOther == readError == nack == duplicate == unknown == 0
              && (Reliable(priority) ==> timeouts == 0 && ack == pong == writeOk)
    {
      hide Books, Tallied, Measured, Collected, InFlight;
      BooksSay(slots[..], ticket, base, nextValue, writeOk, pong, maxInflight, outstanding);
      measured := Measure(ticks);
      MeasurementWrites(kernel, slots.Length, ticks, measured);
      collected := Collect(grace);
      GraceWritesNothing(kernel, grace, collected);
      BooksSay(slots[..], ticket, base, nextValue, writeOk, pong, maxInflight, outstanding);
      timeouts := outstanding;
      lost := if writeOk > pong then writeOk - pong else 0;
      code := 0;
      if eagain > 0 || writeOther > 0 || readError > 0 || nack > 0 || duplicate > 0 || unknown > 0 {
        code := 1;
        return;
      }
      if Reliable(priority) && (timeouts > 0 || ack != writeOk || pong != writeOk) {
        code := 1;
      }
    }
  }

  lemma NextValue(first: u32, n: nat)
    ensures (first + (n + 1)) % MODULUS == Inc((first + n) % MODULUS)
    ensures Values(first, n + 1) == Values(first, n) + multiset{(first + n) % MODULUS}
  {
    IncOfSum(first, n, (first + n) % MODULUS);
  }

  lemma IncOfSum(base: u32, n: nat, v: u32)
    requires v == (base + n) % MODULUS
    ensures Inc(v) == (base + (n + 1)) % MODULUS
  {
    var b: int := base;
    var q := (b + n) / MODULUS;
    assert b + n == q * MODULUS + v;
    if v + 1 == MODULUS {
      assert b + n + 1 == (q + 1) * MODULUS;
    }
  }

  /**
   As long as the values have not come round, a value in flight names one request: its PONG closes that one and no
   other.
   */
  lemma ActiveValuesDiffer(s: seq<Request>, ticket: seq<nat>, written: nat, base: u32, i: nat, j: nat)
    requires |ticket| == |s| && Ticketed(s, ticket, written, base) && written <= MODULUS
    requires i < |s| && j < |s| && i != j && s[i].active && s[j].active
    ensures s[i].value != s[j].value
  {
    if s[i].value == s[j].value {
      SameValue(base, ticket[i], ticket[j]);
    }
  }

  lemma SameValue(base: u32, a: nat, b: nat)
    requires a < MODULUS && b < MODULUS && (base + a) % MODULUS == (base + b) % MODULUS
    ensures a == b
  {
    var c: int := base;
    var q, r := (c + a) / MODULUS, (c + b) / MODULUS;
    assert c + a - q * MODULUS == c + b - r * MODULUS;
    assert a - b == (q - r) * MODULUS;
  }

  /**
   Which PONG a client recognises: the answer to a value in flight closes its request exactly when the value is not the
   last 32-bit one, whose answer wraps to zero and is counted as unknown.
   */
  lemma AnswerIsRecognised(value: u32, payload: Payload)
    requires LoadU32(payload) == Inc(value)
    ensures LoadU32(payload) != 0 <==> value != 0xffff_ffff
    ensures value != 0xffff_ffff ==> (LoadU32(payload) - 1) % MODULUS == value
  {
    hide LoadU32;
  }

  // ---- What follows for whole runs

  /** A measurement that begins before its deadline with room in the window writes in its first round. */
  lemma MeasurementWrites(k: Kernel, window: nat, ticks: nat, stands: seq<Stand>)
    requires Measured(k, window, ticks, stands)
    ensures |stands| > 0
    ensures ticks > 0 && |stands[0].inFlight| < window ==>
              && |stands| > 1 && stands[1].attempts > stands[0].attempts
              && stands[|stands| - 1].attempts > stands[0].attempts
  {
    if ticks > 0 {
      assert Round(k, window, stands[0], stands[0 + 1]);
      FirstWrite(k, window, stands[0], stands[1]);
      hide Round, Failed;
      AttemptsGrow(k, window, ticks, stands, |stands| - 1);
    }
  }

  lemma FirstWrite(k: Kernel, window: nat, s: Stand, t: Stand)
    requires Round(k, window, s, t)
    ensures t.attempts >= s.attempts && (|s.inFlight| < window ==> t.attempts > s.attempts)
  {
    hide Values, Answered;
  }

  lemma {:induction false} AttemptsGrow(k: Kernel, window: nat, ticks: nat, stands: seq<Stand>, i: nat)
    requires Measured(k, window, ticks, stands) && 0 < i < |stands|
    ensures stands[i].attempts >= stands[1].attempts
  {
    hide Round, Failed;
    if i > 1 {
      AttemptsGrow(k, window, ticks, stands, i - 1);
      assert Round(k, window, stands[i - 1], stands[i - 1 + 1]);
      FirstWrite(k, window, stands[i - 1], stands[i]);
    }
  }

  /** The grace period writes nothing. */
  lemma GraceWritesNothing(k: Kernel, grace: nat, stands: seq<Stand>)
    requires Collected(k, grace, stands)
    ensures |stands| > 0 && stands[|stands| - 1].attempts == stands[0].attempts
  {
    hide Graced, HangsUp;
    GraceKeepsWrites(k, grace, stands, |stands| - 1);
  }

  lemma {:induction false} GraceKeepsWrites(k: Kernel, grace: nat, stands: seq<Stand>, i: nat)
    requires Collected(k, grace, stands) && i < |stands|
    ensures stands[i].attempts == stands[0].attempts && stands[i].next == stands[0].next
  {
    hide HangsUp;
    if i > 0 {
      GraceKeepsWrites(k, grace, stands, i - 1);
      assert stands[i - 1 + 1] == Graced(k, stands[i - 1]);
      hide Answered;
    }
  }

  function AckMessage(): Message { Message(MSG_ACK, 8, seq(28, _ => 0)) }

  function PongMessage(value: u32): Message { Message(MSG_PONG, 4, StoreU32(value) + seq(24, _ => 0)) }

  /** CPU3's answers to n requests, the first with the given value: to each an ACK and a PONG of its value plus one. */
  function Replies(first: u32, n: nat): seq<Message>
    requires first + n < 0xffff_ffff
  {
    if n == 0 then [] else Replies(first, n - 1) + [AckMessage()] + [PongMessage(first + n)]
  }

  lemma ReplySorts(value: u32)
    requires value > 0
    ensures SortOf(AckMessage()) == Acknowledgement && Closes(AckMessage()) == multiset{}
    ensures SortOf(PongMessage(value)) == Answer && Closes(PongMessage(value)) == multiset{value - 1}
  {
    hide StoreU32, LoadU32, SortOf, Closes;
    LoadAfterStore(value, seq(24, _ => 0));
    Sorted(AckMessage());
    Sorted(PongMessage(value));
  }

  /** These frames close those requests, and count as so many acknowledgements and answers and nothing else. */
  ghost predicate Answering(frames: seq<Message>, values: multiset<u32>, n: nat)
  {
    && Answered(frames) == values
    && CountOf(frames, Acknowledgement) == CountOf(frames, Answer) == n
    && CountOf(frames, Refusal) == CountOf(frames, Stray) == 0
  }

  lemma AnsweringOne(frames: seq<Message>, values: multiset<u32>, n: nat, value: u32)
    requires Answering(frames, values, n) && value > 0
    ensures Answering(frames + [AckMessage()] + [PongMessage(value)], values + multiset{value - 1}, n + 1)
  {
    var m, p := AckMessage(), PongMessage(value);
    ReplySorts(value);
    hide SortOf, Closes, PongMessage, CountOf, Answered;
    AnsweredOne(frames, m);
    AnsweredOne(frames + [m], p);
    CountOne(frames, m);
    CountOne(frames + [m], p);
  }

  lemma NothingAnswers(frames: seq<Message>, first: u32)
    requires frames == []
    ensures Answering(frames, Values(first, 0), 0)
  {
  }

  lemma {:induction false} RepliesAnswer(first: u32, n: nat)
    requires first + n < 0xffff_ffff
    ensures Answering(Replies(first, n), Values(first, n), n)
  {
    hide Answering, AckMessage, PongMessage;
    if n == 0 {
      NothingAnswers(Replies(first, n), first);
    } else {
      RepliesAnswer(first, n - 1);
      AnsweringOne(Replies(first, n - 1), Values(first, n - 1), n - 1, first + n);
      assert (first + n - 1) % MODULUS == first + n - 1;
    }
  }

  /** A kernel that accepts every write, and a CPU3 that answers the i-th round's requests before its poll. */
  ghost predicate Perfect(k: Kernel, window: nat, base: u32, ticks: nat)
  {
    && base + ticks * window < 0xffff_ffff && (forall i: nat :: k.write(i) == Written)
    && forall i: nat | i < ticks :: AnswersRound(k, window, base, ticks, i)
  }

  ghost predicate AnswersRound(k: Kernel, window: nat, base: u32, ticks: nat, i: nat)
    requires i < ticks && base + ticks * window < 0xffff_ffff
  {
    WithinRun(window, ticks, i);
    k.poll(i) == Ready(true, false, Replies(base + i * window, window), true)
  }

  lemma WithinRun(window: nat, ticks: nat, i: nat)
    requires i < ticks
    ensures i * window + window == (i + 1) * window <= ticks * window
  {
    var rest: nat := ticks - i - 1;
    Distributes(i, 1, window);
    Distributes(i + 1, rest, window);
    assert i + 1 + rest == ticks;
  }

  lemma Distributes(a: nat, b: nat, c: nat)
    ensures (a + b) * c == a * c + b * c && b * c >= 0
  {
  }

  /** Everything written so far is acknowledged and answered. */
  ghost predicate Settled(s: Stand, window: nat, base: u32, i: nat)
  {
    && s.attempts == i * window && s.polls == i && s.inFlight == multiset{} && s.next == base + i * window
    && s.errors == 0
    && CountOf(s.heard, Acknowledgement) == CountOf(s.heard, Answer) == s.attempts
    && CountOf(s.heard, Refusal) == CountOf(s.heard, Stray) == 0
  }

  lemma {:induction false} CountBoth(a: seq<Message>, b: seq<Message>, sort: Sort)
    ensures CountOf(a + b, sort) == CountOf(a, sort) + CountOf(b, sort)
    decreases |b|
  {
    if b == [] {
      assert a + b == a;
    } else {
      assert (a + b)[..|a + b| - 1] == a + b[..|b| - 1];
      CountBoth(a, b[..|b| - 1], sort);
    }
  }

  lemma PerfectFill(k: Kernel, window: nat, s: Stand, f: Stand)
    requires (forall i: nat :: k.write(i) == Written) && Fills(k, window, s, f) && s.inFlight == multiset{}
    ensures f == s.(attempts := s.attempts + window, inFlight := Values(s.next, window),
                 next := (s.next + window) % MODULUS)
    ensures !Broke(k, s.attempts, f.attempts)
  {
    hide Values;
    assert multiset{} + Values(s.next, window) == Values(s.next, window);
  }

  lemma HearsAnswers(s: Stand, frames: seq<Message>, window: nat, base: u32, i: nat)
    requires Answering(frames, s.inFlight, window) && s.attempts == i * window + window && s.polls == i + 1
    requires s.next == base + i * window + window && s.errors == 0 && i * window + window == (i + 1) * window
    requires CountOf(s.heard, Acknowledgement) == CountOf(s.heard, Answer) == i * window
    requires CountOf(s.heard, Refusal) == CountOf(s.heard, Stray) == 0
    ensures Settled(Hears(s, frames, true), window, base, i + 1)
  {
    hide CountOf, Answered;
    CountBoth(s.heard, frames, Acknowledgement);
    CountBoth(s.heard, frames, Answer);
    CountBoth(s.heard, frames, Refusal);
    CountBoth(s.heard, frames, Stray);
  }

  lemma PolledReady(k: Kernel, f: Stand, frames: seq<Message>)
    requires k.poll(f.polls) == Ready(true, false, frames, true)
    ensures Polled(k, f) == Hears(f.(polls := f.polls + 1), frames, true)
    ensures Polled(k, f).attempts == f.attempts && Polled(k, f).errors == f.errors
  {
    hide Answered;
  }

  /** What a perfect kernel makes of a round. */
  lemma PerfectRound(k: Kernel, window: nat, s: Stand, t: Stand, frames: seq<Message>)
    requires (forall i: nat :: k.write(i) == Written) && k.poll(s.polls) == Ready(true, false, frames, true)
    requires s.inFlight == multiset{} && Round(k, window, s, t)
    ensures var f := s.(attempts := s.attempts + window, inFlight := Values(s.next, window),
                     next := (s.next + window) % MODULUS, polls := s.polls + 1);
            t == Hears(f, frames, true) && t.attempts == f.attempts && t.errors == s.errors
  {
    hide Values, Hears, Fills, Broke, Polled;
    var f: Stand :| Fills(k, window, s, f) && t == if Broke(k, s.attempts, f.attempts) then f else Polled(k, f);
    PerfectFill(k, window, s, f);
    PolledReady(k, f, frames);
  }

  lemma PerfectSays(k: Kernel, window: nat, base: u32, ticks: nat, i: nat)
    requires Perfect(k, window, base, ticks) && i < ticks
    ensures i * window + window == (i + 1) * window && base + i * window + window < 0xffff_ffff
    ensures (forall j: nat :: k.write(j) == Written)
    ensures k.poll(i) == Ready(true, false, Replies(base + i * window, window), true)
  {
    hide Replies;
    WithinRun(window, ticks, i);
    assert AnswersRound(k, window, base, ticks, i);
  }

  lemma SettledRound(k: Kernel, window: nat, base: u32, ticks: nat, s: Stand, t: Stand, i: nat)
    requires Perfect(k, window, base, ticks) && i < ticks && Settled(s, window, base, i) && Round(k, window, s, t)
    ensures Settled(t, window, base, i + 1) && !Failed(k, s, t)
  {
    hide Replies, Values, CountOf, Answered, Answering, Hears, Settled, Perfect, Round;
    PerfectSays(k, window, base, ticks, i);
    SettledSays(s, window, base, i);
    var first := base + i * window;
    var frames := Replies(first, window);
    RepliesAnswer(first, window);
    PerfectRound(k, window, s, t, frames);
    var f := s.(attempts := s.attempts + window, inFlight := Values(first, window), next := first + window,
    polls := s.polls + 1);
    HearsAnswers(f, frames, window, base, i);
  }

  lemma SettledSays(s: Stand, window: nat, base: u32, i: nat)
    requires Settled(s, window, base, i)
    ensures s.attempts == i * window && s.polls == i && s.inFlight == multiset{} && s.next == base + i * window
    ensures s.errors == 0 && CountOf(s.heard, Acknowledgement) == CountOf(s.heard, Answer) == i * window
    ensures CountOf(s.heard, Refusal) == CountOf(s.heard, Stray) == 0
  {
  }

  lemma {:induction false} SettledRounds(k: Kernel, window: nat, base: u32, ticks: nat, stands: seq<Stand>, i: nat)
    requires Perfect(k, window, base, ticks) && Measured(k, window, ticks, stands) && i < |stands|
    requires stands[0] == Stand(0, 0, multiset{}, base, [], 0)
    ensures Settled(stands[i], window, base, i) && (i > 0 ==> !Failed(k, stands[i - 1], stands[i]))
  {
    hide Perfect, Round, Failed;
    if i > 0 {
      SettledRounds(k, window, base, ticks, stands, i - 1);
      assert Round(k, window, stands[i - 1], stands[i - 1 + 1]);
      SettledRound(k, window, base, ticks, stands[i - 1], stands[i], i - 1);
    }
  }

  /**
   The success the bench is made for: with a kernel that accepts every write and a CPU3 that answers, every round
   writes a whole window and has it answered, nothing is left for the grace period, and no counter of a failure moves.
   */
  lemma PerfectRunSettles(k: Kernel, window: nat, base: u32, ticks: nat, grace: nat, measured: seq<Stand>,
                          collected: seq<Stand>)
    requires Perfect(k, window, base, ticks) && Measured(k, window, ticks, measured)
    requires measured[0] == Stand(0, 0, multiset{}, base, [], 0)
    requires Collected(k, grace, collected) && collected[0] == measured[|measured| - 1]
    ensures |measured| == ticks + 1 && |collected| == 1
    ensures Settled(collected[0], window, base, ticks)
            && Writes(k.write, collected[0].attempts, Written) == ticks * window
  {
    hide Perfect, Round, Failed, Graced;
    var n := |measured| - 1;
    SettledRounds(k, window, base, ticks, measured, n);
    AllWritten(k, window, base, ticks, collected[0].attempts);
  }

  lemma {:induction false} AllWritten(k: Kernel, window: nat, base: u32, ticks: nat, n: nat)
    requires Perfect(k, window, base, ticks)
    ensures Writes(k.write, n, Written) == n
  {
    if n > 0 {
      AllWritten(k, window, base, ticks, n - 1);
    }
  }
}
