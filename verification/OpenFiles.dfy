/**
 Open descriptors over whole runs: the counts are exact, there is one reader per priority, and no descriptor outlives
 its gate.
 */
module OpenFiles {
  import opened Words
  import opened Frames
  import opened Endpoint
  import opened Device
  import opened Lifecycle

  ghost function Claimed(d: Dev, p: priority): set<nat>
  {
    set fd | fd in d.files && d.files[fd] == File(p, true)
  }

  /** The counters count, no priority has two readers, and open files keep the session from moving on. */
  ghost predicate Accounted(d: Dev)
  {
    && d.openCount == |d.files|
    && (forall p: priority :: d.readers[p] == |Claimed(d, p)| <= 1)
    && (d.files != map[] ==> d.phase == Active || d.phase == Offline)
  }

  lemma AccountedCarries(d: Dev, t: Dev)
    requires Accounted(d) && SameFiles(d, t)
    requires d.files != map[] ==> t.phase == Active || t.phase == Offline
    ensures Accounted(t)
  {
    forall p: priority ensures Claimed(t, p) == Claimed(d, p) {
    }
  }

  lemma OpenKeeps(d: Dev, fd: nat, p: priority)
    requires Accounted(d) && fd !in d.files
    ensures Accounted(OpenSpec(d, fd, p).0)
  {
    var t := OpenSpec(d, fd, p).0;
    if Gate(d.phase) == 0 {
      assert t.files.Keys == d.files.Keys + {fd};
      assert |t.files| == |t.files.Keys| && |d.files| == |d.files.Keys|;
      forall q: priority ensures Claimed(t, q) == Claimed(d, q) {
      }
    }
  }

  lemma ReleaseKeeps(d: Dev, fd: nat)
    requires Accounted(d) && fd in d.files
    ensures Accounted(ReleaseSpec(d, fd))
  {
    var t := ReleaseSpec(d, fd);
    var f := d.files[fd];
    assert t.files.Keys == d.files.Keys - {fd};
    assert |t.files| == |t.files.Keys| && |d.files| == |d.files.Keys|;
    forall q: priority ensures t.readers[q] == |Claimed(t, q)| <= 1 {
      if f == File(q, true) {
        assert fd in Claimed(d, q);
        assert Claimed(t, q) == Claimed(d, q) - {fd};
      } else {
        assert Claimed(t, q) == Claimed(d, q);
      }
    }
  }

  lemma ClaimKeeps(d: Dev, fd: nat)
    requires Accounted(d) && fd in d.files
    ensures Accounted(ClaimSpec(d, fd).0)
  {
    var t := ClaimSpec(d, fd).0;
    var f := d.files[fd];
    if !f.claimed && d.readers[f.p] == 0 {
      assert t.files.Keys == d.files.Keys;
      assert |t.files| == |t.files.Keys| && |d.files| == |d.files.Keys|;
      forall q: priority ensures t.readers[q] == |Claimed(t, q)| <= 1 {
        if q == f.p {
          assert Claimed(t, q) == Claimed(d, q) + {fd} && fd !in Claimed(d, q);
        } else {
          assert Claimed(t, q) == Claimed(d, q);
        }
      }
    }
  }

  lemma StepKeepsAccounted(d: Dev, a: Act)
    requires Sound(d) && Accounted(d)
    ensures Accounted(Step(d, a))
  {
    if a.Open? {
      if a.fd !in d.files { OpenKeeps(d, a.fd, a.p); }
    } else if a.Release? {
      if a.fd in d.files { ReleaseKeeps(d, a.fd); }
    } else if a.Claim? {
      if a.fd in d.files { ClaimKeeps(d, a.fd); }
    } else {
      FilesUntouched(d, a);
      AccountedCarries(d, Step(d, a));
    }
  }

  lemma FilesUntouched(d: Dev, a: Act)
    requires Sound(d) && Accounted(d) && !a.Open? && !a.Release? && !a.Claim?
    ensures var t := Step(d, a);
            && SameFiles(d, t)
            && (d.files != map[] ==> t.phase == Active || t.phase == Offline)
  {
    assert d.files != map[] ==> d.openCount > 0 && (d.phase == Active || d.phase == Offline);
    if Traffic?(a) {
      TrafficLeavesLifecycle(d, a);
      hide Step;
    } else {
      LifecycleKeepsSound(d, a);
      hide Step;
    }
  }

  /**
   A claim succeeds exactly when no other descriptor of the priority holds the reader, so closing the holder hands it
   over.
   */
  lemma ClaimIsExclusive(d: Dev, fd: nat)
    requires Accounted(d) && fd in d.files
    ensures var (t, r) := ClaimSpec(d, fd);
            && (r == 0 <==> Claimed(d, d.files[fd].p) <= {fd})
            && (r == 0 ==> Claimed(t, d.files[fd].p) == {fd})
            && (r != 0 ==> r == EBUSY && t == d)
            && Claimed(ReleaseSpec(d, fd), d.files[fd].p) == Claimed(d, d.files[fd].p) - {fd}
  {
    var c := Claimed(d, d.files[fd].p);
    if d.files[fd].claimed {
      assert fd in c;
      assert c == {fd} by {
        forall g | g in c ensures g == fd {
          if g != fd {
            assert {g, fd} <= c;
            SubsetCount({g, fd}, c);
          }
        }
      }
    } else {
      assert fd !in c;
      if c != {} {
        var g :| g in c;
        SubsetCount({g}, c);
      }
    }
  }

  lemma {:induction false} SubsetCount(a: set<nat>, b: set<nat>)
    requires a <= b
    ensures |a| <= |b|
  {
    assert b == a + (b - a);
  }

  datatype PollResult = PollHangup | PollError | PollIn | PollNothing

  /** What poll reports once the reader is claimed. */
  function PollSpec(d: Dev, p: priority): PollResult
  {
    if d.phase == Offline || d.phase == Stopping then PollHangup
    else if d.phase == Starting then PollError
    else if d.phase == Active && Session(d) == Ok && d.reverse[p] != [] then PollIn
    else PollNothing
  }

  lemma {:induction false} TraceIsAccounted(states: seq<Dev>, acts: seq<Act>, n: nat)
    requires Trace(states, acts) && Probed(states[0]) && n < |states|
    ensures Accounted(states[n])
  {
    if n > 0 {
      TraceIsAccounted(states, acts, n - 1);
      TraceIsSound(states, acts, n - 1);
      StepKeepsAccounted(states[n - 1], acts[n - 1]);
    } else {
      forall p: priority ensures Claimed(states[0], p) == {} {
      }
    }
  }

  /**
    * In every run a live descriptor meets an open data plane or a dead link and nothing in between: its gate answers 0
    * or ENOLINK, a read never fails for a lifecycle in progress, and poll hangs up only when CPU3 is gone.
    */
  lemma DescriptorSeesActiveOrOffline(states: seq<Dev>, acts: seq<Act>, n: nat, fd: nat)
    requires Trace(states, acts) && Probed(states[0]) && n < |states| && fd in states[n].files
    ensures var d, p := states[n], states[n].files[fd].p;
            && (Gate(d.phase) == 0 || Gate(d.phase) == ENOLINK)
            && (PollSpec(d, p) == PollHangup <==> d.phase == Offline)
            && PollSpec(d, p) != PollError
            && (ReadSpec(d, p).1 == Failed(ENOLINK) <==> d.phase == Offline)
            && (d.phase == Active ==> Session(d) == Ok && d.peer == d.session)
            && (ReadSpec(d, p).1 == WouldBlock <==> d.phase == Active && d.reverse[p] == [])
            && d.openCount == |d.files| && d.readers[p] == |Claimed(d, p)| <= 1
  {
    TraceIsSound(states, acts, n);
    TraceIsAccounted(states, acts, n);
    ReceiveConsumes(states[n], states[n].files[fd].p);
    hide Sound, Judge;
  }

  predicate Stoppable(d: Dev)
  {
    d.phase == Active && d.files == map[] && d.reverse[0] == [] && |d.forward[0]| < CAPACITY
  }

  /**
   What a stop actually requires of the shared window: no open file, an empty p0 behind it and room on p0 ahead. A
   refused doorbell changes the answer only.
   */
  lemma StopIsAdmittedExactly(states: seq<Dev>, acts: seq<Act>, n: nat, notify: int)
    requires Trace(states, acts) && Probed(states[0]) && n < |states|
    ensures var d := states[n];
            var (t, code) := StopSpec(d, notify);
            && (t.phase == Stopping <==> Stoppable(d) || d.phase == Stopping)
            && (Stoppable(d) ==> code == if notify < 0 then notify else 0)
            && (!Stoppable(d) ==> code != 0)
  {
    TraceIsSound(states, acts, n);
    TraceIsAccounted(states, acts, n);
    var d := states[n];
    if d.phase == Active {
      SequenceMeansCommitted(d.endpoint, Session(d), d.forward[0], 0, MSG_STOP_REQUEST, Some([]), 0, notify);
      hide Seal, PayloadOf, NextSequence;
    }
  }
}
