/** What holds of a process in every run, whatever the order of its goroutines. */
module LifecycleTheorems {
  import opened ProcessState
  import opened Lifecycle

  // ---------------------------------------------------------------------------------------
  // Starting and Running

  lemma StepNeverStarting(l: Life, a: Action)
    requires Enabled(l, a) && l.state != Starting
    ensures Do(l, a).state != Starting
  {
  }

  /** Once a process has left Starting it is never Starting again. */
  lemma {:induction false} NeverStartingAgain(tr: seq<Life>, acts: seq<Action>, i: nat, j: nat)
    requires IsRun(tr, acts) && i <= j < |tr| && tr[i].state != Starting
    ensures tr[j].state != Starting
  {
    if i < j {
      NeverStartingAgain(tr, acts, i, j - 1);
      assert StepAt(tr, acts, j - 1);
      StepNeverStarting(tr[j - 1], acts[j - 1]);
    }
  }

  lemma StepEntersRunning(l: Life, a: Action)
    requires Enabled(l, a) && l.state != Running && Do(l, a).state == Running
    ensures a == ProbeWrites
  {
  }

  lemma StepKeepsProbeDone(l: Life, a: Action)
    requires Enabled(l, a) && StartInv(l) && l.probe == ProbeDone
    ensures Do(l, a).probe == ProbeDone && a != ProbeWrites
  {
  }

  lemma {:induction false} ProbeDoneStays(tr: seq<Life>, acts: seq<Action>, i: nat, j: nat)
    requires IsRun(tr, acts) && i <= j < |tr| && tr[i].probe == ProbeDone
    ensures tr[j].probe == ProbeDone
  {
    if i < j {
      ProbeDoneStays(tr, acts, i, j - 1);
      InvHolds(tr, acts, j - 1);
      assert StepAt(tr, acts, j - 1);
      StepKeepsProbeDone(tr[j - 1], acts[j - 1]);
    }
  }

  /** In any run Running is entered at most once. */
  lemma RunningEnteredOnce(tr: seq<Life>, acts: seq<Action>, m: nat, n: nat)
    requires IsRun(tr, acts) && m <= n < |acts|
    requires tr[m].state != Running && tr[m + 1].state == Running
    requires tr[n].state != Running && tr[n + 1].state == Running
    ensures m == n
  {
    assert StepAt(tr, acts, m) && StepAt(tr, acts, n);
    StepEntersRunning(tr[m], acts[m]);
    StepEntersRunning(tr[n], acts[n]);
    if m < n { ProbeDoneStays(tr, acts, m + 1, n); }
  }

  lemma StepToProbeDone(l: Life, a: Action)
    requires Enabled(l, a) && Do(l, a).probe == ProbeDone && l.probe != ProbeDone
    ensures a == ProbeWrites || a == ProbeChecks
    ensures a == ProbeWrites ==> Do(l, a).state == Running && Do(l, a).h.runnings == l.h.runnings + 1
    ensures a == ProbeChecks ==>
              && Do(l, a).h.runnings == l.h.runnings
              && Do(l, a).stoppers == l.stoppers + if Ended(l.state) then [] else [Called(l.clock)]
  {
  }

  /** In any run, a probe that is through has either written Running, or given up, and then called
      for a stop unless it saw that the process had ended. */
  lemma {:induction false} ProbeEnds(tr: seq<Life>, acts: seq<Action>, n: nat) returns (m: nat)
    requires IsRun(tr, acts) && n < |tr| && tr[n].probe == ProbeDone
    ensures m < n
    ensures if tr[n].h.runnings >= 1 then acts[m] == ProbeWrites && tr[m + 1].state == Running
            else
              && acts[m] == ProbeChecks
              && tr[m + 1].stoppers == tr[m].stoppers + if Ended(tr[m].state) then [] else [Called(tr[m].clock)]
  {
    assert n > 0;
    assert StepAt(tr, acts, n - 1);
    InvHolds(tr, acts, n - 1);
    InvHolds(tr, acts, n);
    if tr[n - 1].probe == ProbeDone {
      m := ProbeEnds(tr, acts, n - 1);
      DoneProbeWritesNoMore(tr[n - 1], acts[n - 1]);
    } else {
      m := n - 1;
      StepToProbeDone(tr[m], acts[m]);
      OpenProbeWroteNothing(tr, acts, m);
    }
  }

  lemma WritingEndsProbe(l: Life, a: Action)
    requires Enabled(l, a) && StartInv(l)
    ensures Do(l, a).h.runnings != l.h.runnings ==> Do(l, a).probe == ProbeDone
    ensures l.probe == ProbeDone ==> Do(l, a).probe == ProbeDone
  {
  }

  lemma {:induction false} OpenProbeWroteNothing(tr: seq<Life>, acts: seq<Action>, n: nat)
    requires IsRun(tr, acts) && n < |tr| && tr[n].probe != ProbeDone
    ensures tr[n].h.runnings == 0
  {
    if n > 0 {
      assert StepAt(tr, acts, n - 1);
      InvHolds(tr, acts, n - 1);
      WritingEndsProbe(tr[n - 1], acts[n - 1]);
      OpenProbeWroteNothing(tr, acts, n - 1);
    }
  }

  lemma DoneProbeWritesNoMore(l: Life, a: Action)
    requires Enabled(l, a) && l.probe == ProbeDone && StartInv(l)
    ensures Do(l, a).h.runnings == l.h.runnings
  {
  }

  // ---------------------------------------------------------------------------------------
  // Is Stopped, or Error, final?

  lemma StepKeepsEnded(l: Life, a: Action)
    requires Enabled(l, a) && StartInv(l) && Ended(l.state) && !ProbePending(l)
    ensures Ended(Do(l, a).state) && !ProbePending(Do(l, a))
  {
  }

  /** With the probe out of the way, an ended process stays ended, even under a stop worker that
      acts on a stale read. */
  lemma {:induction false} EndedStays(tr: seq<Life>, acts: seq<Action>, i: nat, j: nat)
    requires IsRun(tr, acts) && i <= j < |tr| && Ended(tr[i].state) && !ProbePending(tr[i])
    ensures Ended(tr[j].state) && !ProbePending(tr[j])
  {
    if i < j {
      EndedStays(tr, acts, i, j - 1);
      InvHolds(tr, acts, j - 1);
      assert StepAt(tr, acts, j - 1);
      StepKeepsEnded(tr[j - 1], acts[j - 1]);
    }
  }

  lemma PathGrows(tr: seq<Life>, acts: seq<Action>, a: Action) returns (tr': seq<Life>)
    requires IsPath(tr, acts) && Enabled(tr[|tr| - 1], a)
    ensures tr' == tr + [Do(tr[|tr| - 1], a)] && IsPath(tr', acts + [a])
  {
    tr' := tr + [Do(tr[|tr| - 1], a)];
    var acts' := acts + [a];
    forall i | 0 <= i < |acts'| ensures StepAt(tr', acts', i) {
      if i < |acts| { assert StepAt(tr, acts, i); }
    }
  }

  lemma OnePath(l: Life)
    ensures IsPath([l], [])
  {
  }

  /** The condition is exact: as long as the probe may still write, whatever the state, some
      continuation makes the process Running. */
  lemma PendingProbeRevives(l: Life) returns (tr: seq<Life>, acts: seq<Action>)
    requires Inv(l) && ProbePending(l)
    ensures IsPath(tr, acts) && tr[0] == l && tr[|tr| - 1].state == Running
  {
    tr, acts := [l], [];
    OnePath(l);
    if l.start == NotStarted {
      tr := PathGrows(tr, acts, Start(true));
      acts := acts + [Start(true)];
    }
    if tr[|tr| - 1].probe.Probing? {
      tr := PathGrows(tr, acts, ProbeTick(true));
      acts := acts + [ProbeTick(true)];
    }
    tr := PathGrows(tr, acts, ProbeWrites);
    acts := acts + [ProbeWrites];
  }

  /** The process has ended and stays so, whatever happens from here on. */
  ghost predicate EndedForGood(l: Life) {
    forall tr: seq<Life>, acts, j: nat :: IsPath(tr, acts) && tr[0] == l && j < |tr| ==> Ended(tr[j].state)
  }

  lemma {:induction false} EndedAlong(tr: seq<Life>, acts: seq<Action>, j: nat)
    requires IsPath(tr, acts) && j < |tr| && Inv(tr[0]) && Ended(tr[0].state) && !ProbePending(tr[0])
    ensures Inv(tr[j]) && Ended(tr[j].state) && !ProbePending(tr[j])
  {
    if j > 0 {
      EndedAlong(tr, acts, j - 1);
      assert StepAt(tr, acts, j - 1);
      StepKeeps(tr[j - 1], acts[j - 1]);
      StepKeepsEnded(tr[j - 1], acts[j - 1]);
    }
  }

  /** An answer of `IsStopped` is final if and only if it is yes and the probe is through. */
  lemma EndedForGoodIff(l: Life)
    requires Inv(l)
    ensures EndedForGood(l) <==> Ended(l.state) && !ProbePending(l)
  {
    if Ended(l.state) && !ProbePending(l) {
      forall tr: seq<Life>, acts, j: nat | IsPath(tr, acts) && tr[0] == l && j < |tr| ensures Ended(tr[j].state) {
        EndedAlong(tr, acts, j);
      }
    } else if ProbePending(l) {
      var tr, acts := PendingProbeRevives(l);
      assert !Ended(tr[|tr| - 1].state);
    } else {
      OnePath(l);
      assert [l][0] == l;
    }
  }

  /** A stop worker is about to write Stopped on the strength of an earlier read. */
  ghost predicate StaleWriter(l: Life, k: nat) { k < |l.stoppers| && l.stoppers[k] == WriteStopped }

  lemma StepLeavesError(l: Life, a: Action)
    requires Enabled(l, a) && StartInv(l) && l.state == Error
    ensures Do(l, a).state == Error <==> a != ProbeWrites && !a.WorkerWrites?
  {
  }

  lemma StepMakesNoStaleWriter(l: Life, a: Action, k: nat)
    requires Enabled(l, a) && l.state == Error && StaleWriter(Do(l, a), k)
    ensures StaleWriter(l, k)
  {
    if IsStopStep(a) { StopStepIsLocal(l, a); } else { OtherStepsStopNothing(l, a); }
  }

  /** Error itself lasts if no stop worker holds a stale read and the probe is out of the way. */
  lemma {:induction false} ErrorStays(tr: seq<Life>, acts: seq<Action>, i: nat, j: nat)
    requires IsRun(tr, acts) && i <= j < |tr| && tr[i].state == Error && !ProbePending(tr[i])
    requires forall k: nat :: !StaleWriter(tr[i], k)
    ensures tr[j].state == Error && forall k: nat :: !StaleWriter(tr[j], k)
  {
    if i < j {
      ErrorStays(tr, acts, i, j - 1);
      EndedStays(tr, acts, i, j - 1);
      InvHolds(tr, acts, j - 1);
      assert StepAt(tr, acts, j - 1);
      var l, a := tr[j - 1], acts[j - 1];
      if a.WorkerWrites? { assert StaleWriter(l, a.k); }
      StepLeavesError(l, a);
      forall k: nat ensures !StaleWriter(tr[j], k) {
        if StaleWriter(tr[j], k) { StepMakesNoStaleWriter(l, a, k); }
      }
    }
  }

  lemma RunGrows(tr: seq<Life>, acts: seq<Action>, a: Action) returns (tr': seq<Life>, acts': seq<Action>)
    requires IsRun(tr, acts) && Enabled(tr[|tr| - 1], a)
    ensures IsRun(tr', acts') && tr'[|tr'| - 1] == Do(tr[|tr| - 1], a)
    ensures |tr'| == |tr| + 1 && forall i :: 0 <= i < |tr| ==> tr'[i] == tr[i]
  {
    tr' := PathGrows(tr, acts, a);
    acts' := acts + [a];
  }

  /** The condition on stale reads is exact too: a late write turns Error into Stopped. */
  lemma StaleWriterHidesError(l: Life, k: nat)
    requires l.state == Error && StaleWriter(l, k)
    ensures Enabled(l, WorkerWrites(k)) && Do(l, WorkerWrites(k)).state == Stopped
  {
  }

  /** A stop worker whose command has just exited has compared the state with Stopped and Error. */
  lemma StaleReadTaken() returns (tr: seq<Life>, acts: seq<Action>)
    ensures IsRun(tr, acts)
    ensures var l := tr[|tr| - 1];
            && l.state == Stopping && l.run == Exited(true) && l.stoppers == [WriteStopped]
            && l.start == Started && l.probe == ProbeDone
  {
    OnePath(NewLife(false, 0));
    tr, acts := [NewLife(false, 0)], [];
    tr, acts := RunGrows(tr, acts, Start(true));
    tr, acts := RunGrows(tr, acts, ProbeWrites);
    tr, acts := RunGrows(tr, acts, StopEnter);
    tr, acts := RunGrows(tr, acts, StopLock(0));
    tr, acts := StaleReadAfterExit(tr, acts);
  }

  lemma StaleReadAfterExit(tr0: seq<Life>, acts0: seq<Action>) returns (tr: seq<Life>, acts: seq<Action>)
    requires IsRun(tr0, acts0)
    requires var l := tr0[|tr0| - 1];
             && l.state == Stopping && l.run == Executing && l.stoppers == [Decided(true)] && l.cmd
             && l.start == Started && l.probe == ProbeDone
    ensures IsRun(tr, acts)
    ensures var l := tr[|tr| - 1];
            && l.state == Stopping && l.run == Exited(true) && l.stoppers == [WriteStopped]
            && l.start == Started && l.probe == ProbeDone
  {
    tr, acts := RunGrows(tr0, acts0, StopCapture(0));
    tr, acts := RunGrows(tr, acts, Exit(true));
    tr, acts := RunGrows(tr, acts, WorkerLooks(0, false));
    tr, acts := RunGrows(tr, acts, WorkerReads(0));
    tr, acts := RunGrows(tr, acts, WorkerReadsAgain(0));
  }

  /** It happens: a command fails while it is being stopped, the run goroutine writes Error, and
      the stop worker, having looked before, turns it into Stopped; the probe was long through. */
  lemma StaleWriteHidesError() returns (tr: seq<Life>, acts: seq<Action>)
    ensures IsRun(tr, acts) && |tr| >= 2 && tr[|tr| - 2].state == Error && tr[|tr| - 1].state == Stopped
    ensures !ProbePending(tr[|tr| - 2])
  {
    tr, acts := StaleReadTaken();
    tr, acts := RunGrows(tr, acts, RunWrites);
    StaleWriterHidesError(tr[|tr| - 1], 0);
    tr, acts := RunGrows(tr, acts, WorkerWrites(0));
  }

  // ---------------------------------------------------------------------------------------
  // Stop requests and kills

  /** No process is ever sent more than two graceful stop signals, however often it is stopped. */
  lemma AtMostTwoSignals(tr: seq<Life>, acts: seq<Action>, n: nat)
    requires IsRun(tr, acts) && n < |tr|
    ensures tr[n].h.signals <= tr[n].h.stops <= 2
  {
    InvHolds(tr, acts, n);
  }

  /** No kill comes sooner than the grace period after the earliest of the deletion timestamps. */
  lemma KillsWait(tr: seq<Life>, acts: seq<Action>, n: nat, i: nat)
    requires IsRun(tr, acts) && n < |tr| && i < |tr[n].h.kills|
    ensures |tr[n].h.stamps| > 0 && tr[n].h.earliest in tr[n].h.stamps
    ensures forall j :: 0 <= j < |tr[n].h.stamps| ==> tr[n].h.earliest <= tr[n].h.stamps[j]
    ensures tr[n].h.kills[i] >= tr[n].h.earliest + WAIT_INTERVAL * WAIT_COUNT
  {
    InvHolds(tr, acts, n);
    assert tr[n].h.kills[i] >= tr[n].h.earliest + TIMEOUT;
  }

  /** Counted from the first stop that took effect this is so when no later stop that took effect
      read the clock before it. (`KillTiming` says exactly when it is not so.) */
  lemma KillsWaitAfterFirstStop(tr: seq<Life>, acts: seq<Action>, n: nat, i: nat)
    requires IsRun(tr, acts) && n < |tr| && i < |tr[n].h.kills|
    requires forall j :: 0 <= j < |tr[n].h.stamps| ==> tr[n].h.stamps[0] <= tr[n].h.stamps[j]
    ensures |tr[n].h.stamps| > 0 && tr[n].h.kills[i] >= tr[n].h.stamps[0] + WAIT_INTERVAL * WAIT_COUNT
  {
    KillsWait(tr, acts, n, i);
    assert exists j :: 0 <= j < |tr[n].h.stamps| && tr[n].h.stamps[j] == tr[n].h.earliest;
  }
}
