/** When can a process be killed sooner than the grace period after the first stop that took
    effect? Exactly when a state says it may: this is decided here for every reachable state. */
module KillTiming {
  import opened Wrappers
  import opened ProcessState
  import opened Lifecycle
  import opened LifecycleTheorems

  // ---------------------------------------------------------------------------------------
  // More that every action keeps

  /** A stop call that does not count: its timestamp is before the first one. (A kill comes later
      than the timeout, so a millisecond makes no difference.) */
  predicate Before(t: nat, first: nat) { t + 1 < first }

  ghost predicate StampsInOrder(l: Life) {
    && |l.h.stamps| == l.h.stops
    && (l.h.stamps != [] ==> l.deletedAt == Some(l.h.stamps[|l.h.stamps| - 1]))
  }

  /** Pollers have waited since the first timestamp; a stop call that timed out before the grace
      period counted from there was misled by an earlier timestamp. */
  predicate StopperInOrder(pc: StopPc, clock: nat, first: nat, deletedAt: Option<nat>) {
    match pc
    case Waiting(i, wake) => wake >= first + WAIT_INTERVAL * i
    case Decided(false) => clock >= first + TIMEOUT || (deletedAt.Some? && Before(deletedAt.value, first))
    case Captured(false, _) => clock >= first + TIMEOUT || (deletedAt.Some? && Before(deletedAt.value, first))
    case _ => true
  }

  ghost predicate StoppersInOrder(l: Life) {
    l.h.stamps != [] ==>
      forall k :: 0 <= k < |l.stoppers| ==> StopperInOrder(l.stoppers[k], l.clock, l.h.stamps[0], l.deletedAt)
  }

  ghost predicate OrderInv(l: Life) { Inv(l) && StampsInOrder(l) && StoppersInOrder(l) }

  lemma StampsKept(l: Life, a: Action)
    requires StampsInOrder(l) && Enabled(l, a)
    ensures StampsInOrder(Do(l, a))
    ensures l.h.stamps != [] ==> Do(l, a).h.stamps != [] && Do(l, a).h.stamps[0] == l.h.stamps[0]
  {
  }

  /** Two stops have taken effect, so no more will: the timestamp is final. */
  lemma EarlierStampIsLast(l: Life, k: nat)
    requires CountInv(l) && StampsInOrder(l) && Enabled(l, StopLock(k)) && l.h.stamps != []
    requires Before(l.deletedAt.value, l.h.stamps[0])
    ensures Ending(l.state) && !ProbePending(l) && Do(l, StopLock(k)).deletedAt == l.deletedAt
  {
  }

  /** Whatever the action, an earlier timestamp stays and the clock does not go back. */
  lemma OrderPersists(l: Life, a: Action)
    requires CountInv(l) && StampsInOrder(l) && Enabled(l, a) && l.h.stamps != []
    ensures l.clock <= Do(l, a).clock
    ensures Before(l.deletedAt.value, l.h.stamps[0]) ==> Do(l, a).deletedAt == l.deletedAt
  {
    if a.StopLock? {
      if Before(l.deletedAt.value, l.h.stamps[0]) { EarlierStampIsLast(l, a.k); }
    } else if !a.WorkerKills? {
      StampsUntouched(l, a);
    }
  }

  lemma MovedStopperInOrder(l: Life, a: Action)
    requires TimeInv(l) && StampsInOrder(l) && Enabled(l, a) && IsStopStep(a) && l.h.stamps != []
    requires StopperInOrder(l.stoppers[a.k], l.clock, l.h.stamps[0], l.deletedAt)
    ensures var l' := Do(l, a); StopperInOrder(l'.stoppers[a.k], l'.clock, l.h.stamps[0], l'.deletedAt)
  {
    assert StopperFits(l.stoppers[a.k], l.clock, true, l.h.earliest);
    assert l.h.stamps[0] <= l.clock;
  }

  lemma StopperOrderKept(l: Life, a: Action, k: nat)
    requires OrderInv(l) && Enabled(l, a) && l.h.stamps != [] && k < |Do(l, a).stoppers|
    ensures var l' := Do(l, a); StopperInOrder(l'.stoppers[k], l'.clock, l.h.stamps[0], l'.deletedAt)
  {
    OrderPersists(l, a);
    if IsStopStep(a) {
      StopStepIsLocal(l, a);
      assert StopperInOrder(l.stoppers[a.k], l.clock, l.h.stamps[0], l.deletedAt);
      if k == a.k { MovedStopperInOrder(l, a); }
    } else {
      OtherStepsStopNothing(l, a);
    }
  }

  /** Before the first stop nobody polls and nothing has timed out; with it, the stop call that
      took effect is about to signal. */
  lemma FirstStampInOrder(l: Life, a: Action)
    requires Inv(l) && Enabled(l, a) && l.h.stamps == []
    ensures StoppersInOrder(Do(l, a))
  {
    if a.StopLock? {
      StopStepIsLocal(l, a);
      forall k | 0 <= k < |l.stoppers| ensures !Armed(l.stoppers[k]) {
        assert StopperFits(l.stoppers[k], l.clock, false, l.h.earliest);
      }
    } else if !a.WorkerKills? {
      StampsUntouched(l, a);
    }
  }

  lemma OrderKept(l: Life, a: Action)
    requires OrderInv(l) && Enabled(l, a)
    ensures OrderInv(Do(l, a))
  {
    StepKeeps(l, a);
    StampsKept(l, a);
    if l.h.stamps == [] {
      FirstStampInOrder(l, a);
    } else {
      StoppersOrderKept(l, a);
    }
  }

  lemma StoppersOrderKept(l: Life, a: Action)
    requires OrderInv(l) && Enabled(l, a) && l.h.stamps != []
    ensures StoppersInOrder(Do(l, a))
  {
    StampsKept(l, a);
    forall k | 0 <= k < |Do(l, a).stoppers|
      ensures var l' := Do(l, a); StopperInOrder(l'.stoppers[k], l'.clock, l.h.stamps[0], l'.deletedAt)
    {
      StopperOrderKept(l, a, k);
    }
  }

  lemma {:induction false} OrderHolds(tr: seq<Life>, acts: seq<Action>, n: nat)
    requires IsRun(tr, acts) && n < |tr|
    ensures OrderInv(tr[n])
  {
    if n > 0 {
      OrderHolds(tr, acts, n - 1);
      assert StepAt(tr, acts, n - 1);
      OrderKept(tr[n - 1], acts[n - 1]);
    }
  }

  // ---------------------------------------------------------------------------------------
  // The condition

  /** A stop call that has read the clock before the first timestamp and not yet taken the lock. */
  ghost predicate EarlyCall(l: Life, k: nat)
    requires l.h.stamps != []
  {
    k < |l.stoppers| && l.stoppers[k].Called? && Before(l.stoppers[k].now, l.h.stamps[0])
  }

  ghost predicate Killer(l: Life, k: nat) { k < |l.stoppers| && l.stoppers[k] == Killing }

  /** The grace period counted from the first timestamp is not over; and a worker is at the kill,
      or the command runs, or is yet to run, and the timestamp now in force is before the first
      one, or a stop call that would set such a one can still take effect. */
  ghost predicate MayKillEarly(l: Life)
    requires l.h.stamps != []
  {
    && l.clock < l.h.stamps[0] + TIMEOUT
    && ((exists k: nat :: Killer(l, k))
        || ((l.run == Executing || l.start == NotStarted)
            && ((l.deletedAt.Some? && Before(l.deletedAt.value, l.h.stamps[0]))
                || (Potential(l) >= 1 && exists k: nat :: EarlyCall(l, k)))))
  }

  /** `end` has a kill that `l` does not have, within the grace period after the first stop. */
  ghost predicate KilledEarly(l: Life, end: Life) {
    && |end.h.kills| > |l.h.kills| && end.h.stamps != []
    && exists i :: |l.h.kills| <= i < |end.h.kills| && end.h.kills[i] < end.h.stamps[0] + TIMEOUT
  }

  // ---------------------------------------------------------------------------------------
  // If the state does not say so, it does not happen

  lemma NoNewKiller(l: Life, a: Action, k: nat)
    requires OrderInv(l) && Enabled(l, a) && l.h.stamps != [] && Killer(Do(l, a), k)
    ensures Killer(l, k) || Do(l, a).clock >= l.h.stamps[0] + TIMEOUT
            || (l.run == Executing && Before(l.deletedAt.value, l.h.stamps[0]))
  {
    if IsStopStep(a) {
      StopStepIsLocal(l, a);
      assert StopperInOrder(l.stoppers[a.k], l.clock, l.h.stamps[0], l.deletedAt);
      assert StopperFits(l.stoppers[a.k], l.clock, true, l.h.earliest);
    } else {
      OtherStepsStopNothing(l, a);
    }
  }

  lemma StopStepLeavesCall(l: Life, a: Action)
    requires Enabled(l, a) && IsStopStep(a)
    ensures a.k < |Do(l, a).stoppers| && !Do(l, a).stoppers[a.k].Called?
  {
  }

  lemma NoNewEarlyCall(l: Life, a: Action, k: nat)
    requires StampInv(l.h, l.deletedAt, l.clock) && Enabled(l, a) && l.h.stamps != []
    requires Do(l, a).h.stamps != [] && Do(l, a).h.stamps[0] == l.h.stamps[0] && EarlyCall(Do(l, a), k)
    ensures EarlyCall(l, k)
  {
    if IsStopStep(a) {
      StopStepLeavesCall(l, a);
      StopStepIsLocal(l, a);
    } else {
      OtherStepsStopNothing(l, a);
      assert l.h.stamps[0] <= l.clock;
    }
  }

  lemma NoNewEarlyStamp(l: Life, a: Action)
    requires StampsInOrder(l) && Enabled(l, a) && l.h.stamps != []
    requires Do(l, a).deletedAt.Some? && Before(Do(l, a).deletedAt.value, l.h.stamps[0])
    ensures Before(l.deletedAt.value, l.h.stamps[0]) || (Potential(l) >= 1 && exists k: nat :: EarlyCall(l, k))
  {
    if a.StopLock? {
      if !Ending(l.state) { assert EarlyCall(l, a.k); }
    } else if !a.WorkerKills? {
      StampsUntouched(l, a);
    }
  }

  lemma NotRunningAgain(l: Life, a: Action)
    requires Enabled(l, a) && (Do(l, a).run == Executing || Do(l, a).start == NotStarted)
    ensures l.run == Executing || l.start == NotStarted
  {
  }

  lemma StaysSafe(l: Life, a: Action)
    requires OrderInv(l) && Enabled(l, a) && l.h.stamps != [] && !MayKillEarly(l)
    ensures Do(l, a).h.stamps != [] && Do(l, a).h.stamps[0] == l.h.stamps[0] && !MayKillEarly(Do(l, a))
  {
    var l' := Do(l, a);
    StampsKept(l, a);
    OrderPersists(l, a);
    PotentialStep(l, a);
    if MayKillEarly(l') {
      if k: nat :| Killer(l', k) {
        NoNewKiller(l, a, k);
      } else {
        NotRunningAgain(l, a);
        if Before(l'.deletedAt.value, l'.h.stamps[0]) {
          NoNewEarlyStamp(l, a);
        } else {
          var k: nat :| EarlyCall(l', k);
          NoNewEarlyCall(l, a, k);
          MoreStopsPossible(l, a);
        }
      }
    }
  }

  lemma MoreStopsPossible(l: Life, a: Action)
    requires Inv(l) && Enabled(l, a) && Potential(Do(l, a)) >= 1
    ensures Potential(l) >= 1
  {
    PotentialStep(l, a);
  }

  lemma SafeKillIsLate(l: Life, a: Action)
    requires Enabled(l, a) && l.h.stamps != [] && !MayKillEarly(l)
    ensures |Do(l, a).h.kills| >= |l.h.kills| && Do(l, a).h.kills[..|l.h.kills|] == l.h.kills
    ensures forall i :: |l.h.kills| <= i < |Do(l, a).h.kills| ==> Do(l, a).h.kills[i] >= l.h.stamps[0] + TIMEOUT
  {
    if a.WorkerKills? { assert Killer(l, a.k); }
  }

  lemma {:induction false} SafeForGood(tr: seq<Life>, acts: seq<Action>, n: nat)
    requires IsPath(tr, acts) && n < |tr| && OrderInv(tr[0]) && tr[0].h.stamps != [] && !MayKillEarly(tr[0])
    ensures OrderInv(tr[n]) && tr[n].h.stamps != [] && tr[n].h.stamps[0] == tr[0].h.stamps[0]
    ensures !MayKillEarly(tr[n]) && !KilledEarly(tr[0], tr[n])
  {
    if n > 0 {
      SafeForGood(tr, acts, n - 1);
      assert StepAt(tr, acts, n - 1);
      var l, a := tr[n - 1], acts[n - 1];
      OrderKept(l, a);
      StaysSafe(l, a);
      SafeKillIsLate(l, a);
    }
  }

  // ---------------------------------------------------------------------------------------
  // If the state says so, it can happen

  lemma Extend(tr: seq<Life>, acts: seq<Action>, a: Action) returns (tr': seq<Life>, acts': seq<Action>)
    requires IsPath(tr, acts) && Enabled(tr[|tr| - 1], a)
    ensures IsPath(tr', acts') && tr'[0] == tr[0] && tr'[|tr'| - 1] == Do(tr[|tr| - 1], a)
  {
    tr' := PathGrows(tr, acts, a);
    acts' := acts + [a];
  }

  /** A further stop call finds the timestamp timed out, and kills. */
  lemma TimedOutCall(tr0: seq<Life>, acts0: seq<Action>) returns (tr: seq<Life>, acts: seq<Action>)
    requires IsPath(tr0, acts0)
    requires var l := tr0[|tr0| - 1];
             && l.run == Executing && l.cmd && Ending(l.state)
             && l.deletedAt.Some? && l.deletedAt.value + TIMEOUT < l.clock
    ensures IsPath(tr, acts) && tr[0] == tr0[0]
    ensures var l, end := tr0[|tr0| - 1], tr[|tr| - 1];
            end.h.kills == l.h.kills + [l.clock] && end.h.stamps == l.h.stamps
  {
    var k := |tr0[|tr0| - 1].stoppers|;
    tr, acts := Extend(tr0, acts0, StopEnter);
    tr, acts := Extend(tr, acts, StopLock(k));
    tr, acts := Extend(tr, acts, StopCapture(k));
    tr, acts := Extend(tr, acts, WorkerLooks(k, true));
    tr, acts := Extend(tr, acts, WorkerKills(k));
  }

  lemma EarlierStampKills(tr0: seq<Life>, acts0: seq<Action>) returns (tr: seq<Life>, acts: seq<Action>)
    requires IsPath(tr0, acts0)
    requires var l := tr0[|tr0| - 1];
             && StartInv(l) && CountInv(l) && StampsInOrder(l) && l.h.stamps != [] && l.clock < l.h.stamps[0] + TIMEOUT
             && l.run == Executing && Before(l.deletedAt.value, l.h.stamps[0])
    ensures IsPath(tr, acts) && tr[0] == tr0[0] && KilledEarly(tr0[|tr0| - 1], tr[|tr| - 1])
  {
    var l := tr0[|tr0| - 1];
    var due := l.deletedAt.value + TIMEOUT + 1;
    tr, acts := Extend(tr0, acts0, Tick(if l.clock < due then due - l.clock else 0));
    tr, acts := TimedOutCall(tr, acts);
    assert tr[|tr| - 1].h.kills[|l.h.kills|] < l.h.stamps[0] + TIMEOUT;
  }

  /** The process is made not to be stopping, its command running, and nothing else changes that
      matters here. */
  lemma MakeStoppable(l: Life) returns (tr: seq<Life>, acts: seq<Action>)
    requires StartInv(l) && Potential(l) >= 1 && (l.run == Executing || l.start == NotStarted)
    ensures IsPath(tr, acts) && tr[0] == l
    ensures var end := tr[|tr| - 1];
            && !Ending(end.state) && end.run == Executing && end.stoppers == l.stoppers && end.clock == l.clock
            && end.h.kills == l.h.kills && end.h.stamps == l.h.stamps && end.deletedAt == l.deletedAt
  {
    tr, acts := [l], [];
    OnePath(l);
    if l.start == NotStarted {
      tr, acts := Extend(tr, acts, Start(true));
    }
    if Ending(l.state) {
      if tr[|tr| - 1].probe.Probing? {
        tr, acts := Extend(tr, acts, ProbeTick(true));
      }
      tr, acts := Extend(tr, acts, ProbeWrites);
    }
  }

  lemma {:induction false} PathKeepsOrder(tr: seq<Life>, acts: seq<Action>, n: nat)
    requires IsPath(tr, acts) && n < |tr| && OrderInv(tr[0])
    ensures OrderInv(tr[n])
  {
    if n > 0 {
      PathKeepsOrder(tr, acts, n - 1);
      assert StepAt(tr, acts, n - 1);
      OrderKept(tr[n - 1], acts[n - 1]);
    }
  }

  /** The early call takes effect, and its timestamp replaces the first one. */
  lemma EarlyCallStamps(l: Life, k: nat) returns (tr: seq<Life>, acts: seq<Action>)
    requires OrderInv(l) && l.h.stamps != [] && EarlyCall(l, k) && Potential(l) >= 1
    requires l.run == Executing || l.start == NotStarted
    ensures IsPath(tr, acts) && tr[0] == l
    ensures var end := tr[|tr| - 1];
            && OrderInv(end) && end.run == Executing && end.clock == l.clock && end.h.kills == l.h.kills
            && end.h.stamps != [] && end.h.stamps[0] == l.h.stamps[0]
            && end.deletedAt.Some? && Before(end.deletedAt.value, l.h.stamps[0])
  {
    tr, acts := MakeStoppable(l);
    tr, acts := Extend(tr, acts, StopLock(k));
    PathKeepsOrder(tr, acts, |tr| - 1);
  }

  lemma MayKillEarlyDoes(l: Life) returns (tr: seq<Life>, acts: seq<Action>)
    requires OrderInv(l) && l.h.stamps != [] && MayKillEarly(l)
    ensures IsPath(tr, acts) && tr[0] == l && KilledEarly(l, tr[|tr| - 1])
  {
    tr, acts := [l], [];
    OnePath(l);
    if k: nat :| Killer(l, k) {
      tr, acts := Extend(tr, acts, WorkerKills(k));
      assert tr[|tr| - 1].h.kills[|l.h.kills|] == l.clock;
    } else {
      if !Before(l.deletedAt.value, l.h.stamps[0]) {
        var k: nat :| EarlyCall(l, k);
        tr, acts := EarlyCallStamps(l, k);
      }
      tr, acts := EarlierStampKills(tr, acts);
    }
  }

  ghost predicate LeadsTo(l: Life, tr: seq<Life>, acts: seq<Action>) {
    IsPath(tr, acts) && tr[0] == l && KilledEarly(l, tr[|tr| - 1])
  }

  /** In every reachable state after the first stop took effect: a kill can still come sooner than
      the grace period after that stop if and only if the state says so. */
  lemma KilledEarlyIff(run: seq<Life>, done: seq<Action>, n: nat)
    requires IsRun(run, done) && n < |run| && run[n].h.stamps != []
    ensures MayKillEarly(run[n]) <==> exists tr, acts :: LeadsTo(run[n], tr, acts)
  {
    OrderHolds(run, done, n);
    if MayKillEarly(run[n]) {
      var tr, acts := MayKillEarlyDoes(run[n]);
      assert LeadsTo(run[n], tr, acts);
    } else {
      forall tr, acts | LeadsTo(run[n], tr, acts) ensures false {
        SafeForGood(tr, acts, |tr| - 1);
      }
    }
  }

  // ---------------------------------------------------------------------------------------
  // The grace period is not longer than it should be either

  /** A polling worker that wakes on time comes to the kill when its remaining intervals are over. */
  lemma {:induction false} PollsOnTime(tr0: seq<Life>, acts0: seq<Action>, k: nat, i: nat)
    returns (tr: seq<Life>, acts: seq<Action>)
    requires IsPath(tr0, acts0) && i <= WAIT_COUNT
    requires var l := tr0[|tr0| - 1]; k < |l.stoppers| && l.stoppers[k] == Waiting(i, l.clock) && !Ended(l.state)
    ensures IsPath(tr, acts) && tr[0] == tr0[0]
    ensures var l, end := tr0[|tr0| - 1], tr[|tr| - 1];
            end.h.kills == l.h.kills + [l.clock + WAIT_INTERVAL * (WAIT_COUNT - i)]
    decreases WAIT_COUNT - i
  {
    tr, acts := Extend(tr0, acts0, WorkerPolls(k));
    if i == WAIT_COUNT {
      tr, acts := Extend(tr, acts, WorkerKills(k));
    } else {
      tr, acts := Extend(tr, acts, Tick(WAIT_INTERVAL));
      tr, acts := PollsOnTime(tr, acts, k, i + 1);
    }
  }

  /** Whenever a stop call has taken effect on a running command, nothing else happening, it comes
      to a kill exactly 600 intervals of 100 ms later. */
  lemma KillsOnTime(l: Life, k: nat) returns (tr: seq<Life>, acts: seq<Action>)
    requires k < |l.stoppers| && l.stoppers[k] == Decided(true) && l.cmd && l.run == Executing && !Ended(l.state)
    ensures IsPath(tr, acts) && tr[0] == l
    ensures tr[|tr| - 1].h.kills == l.h.kills + [l.clock + WAIT_INTERVAL * WAIT_COUNT]
  {
    tr, acts := [l], [];
    OnePath(l);
    tr, acts := Extend(tr, acts, StopCapture(k));
    tr, acts := Extend(tr, acts, WorkerLooks(k, true));
    tr, acts := PollsOnTime(tr, acts, k, 0);
  }

  // ---------------------------------------------------------------------------------------
  // It happens

  /** Two stop calls of a started process have read the clock, at 0 and at 50 s, and the second
      has taken the lock first. */
  lemma LaterCallFirst() returns (tr: seq<Life>, acts: seq<Action>)
    ensures IsRun(tr, acts)
    ensures var l := tr[|tr| - 1];
            && l.h.stamps == [50000] && l.clock == 50000 && l.run == Executing && l.probe == Answered
            && |l.stoppers| == 2 && l.stoppers[0] == Called(0) && l.h.kills == []
  {
    OnePath(NewLife(false, 0));
    tr, acts := [NewLife(false, 0)], [];
    tr, acts := RunGrows(tr, acts, StopEnter);
    tr, acts := RunGrows(tr, acts, Tick(50000));
    tr, acts := RunGrows(tr, acts, Start(true));
    tr, acts := RunGrows(tr, acts, StopEnter);
    tr, acts := RunGrows(tr, acts, StopLock(1));
  }

  lemma JoinPaths(tr: seq<Life>, acts: seq<Action>, tail: seq<Life>, more: seq<Action>)
    returns (all: seq<Life>, done: seq<Action>)
    requires IsPath(tr, acts) && IsPath(tail, more) && tail[0] == tr[|tr| - 1]
    ensures IsPath(all, done) && all[0] == tr[0] && all[|all| - 1] == tail[|tail| - 1]
  {
    all, done := tr + tail[1..], acts + more;
    forall i | 0 <= i < |done| ensures StepAt(all, done, i) {
      if i < |acts| {
        assert StepAt(tr, acts, i);
      } else {
        assert StepAt(tail, more, i - |acts|);
      }
    }
  }

  /** From there the probe makes the process Running, the first call moves the timestamp back to
      0, and a third call kills as soon as 60 s from then, not from 50 s, are over. */
  lemma KillTooSoonAfterFirstStop() returns (tr: seq<Life>, acts: seq<Action>)
    ensures IsRun(tr, acts)
    ensures var h := tr[|tr| - 1].h;
            |h.stamps| >= 1 && exists i :: 0 <= i < |h.kills| && h.kills[i] < h.stamps[0] + WAIT_INTERVAL * WAIT_COUNT
  {
    tr, acts := LaterCallFirst();
    var l := tr[|tr| - 1];
    OrderHolds(tr, acts, |tr| - 1);
    assert EarlyCall(l, 0);
    var tail, more := MayKillEarlyDoes(l);
    tr, acts := JoinPaths(tr, acts, tail, more);
  }
}
