/** One process: `Start` with its run and probe goroutines, and any number of stop calls with
    their workers, all writing the process's state in any order.

    Each critical section, each unlocked read or write and each wait is one action. Creation and
    exit of the command, whether it is seen running (never after it has returned), and the answers
    of the health check come from the environment. Time is a logical clock in milliseconds. */
module Lifecycle {
  import opened Wrappers
  import opened ProcessState

  const WAIT_INTERVAL: nat := 100
  const TIMEOUT: nat := 60000  // WAIT_INTERVAL * WAIT_COUNT

  datatype StartPc = NotStarted | StartFailed | Started

  /** The goroutine that runs the command. `Exited`: the probe's stop channel is closed. */
  datatype RunPc = NoRun | Executing | Exited(failed: bool) | Wrote

  /** The goroutine that waits for the process to answer. */
  datatype ProbePc =
    | NoProbe
    | Probing(ticks: nat)
    | Answered      // about to write Running
    | GaveUp        // about to look whether the process has ended
    | ProbeDone

  /** A stop call, then its worker. */
  datatype StopPc =
    | Called(now: nat)                            // the clock has been read, the lock not taken
    | Decided(needStop: bool)                     // something is to be done
    | Captured(needStop: bool, cmd: bool)         // the command, if any, has been picked up
    | ReadState                                   // no command running: about to compare the state with Stopped
    | ReadAgain                                   // ... was not Stopped: about to compare it with Error
    | WriteStopped                                // ... was not Error: about to write Stopped
    | Waiting(polls: nat, wake: nat)              // signal sent, polling
    | Killing
    | StopDone

  /** What happened so far: signals sent, stop calls that took effect, times Running was
      written, times of kills, deletion timestamps in the order they were set and the
      smallest of them. */
  datatype History = History(
    signals: nat,
    stops: nat,
    runnings: nat,
    kills: seq<nat>,
    stamps: seq<nat>,
    earliest: nat)

  datatype Life = Life(
    state: ProcState,
    deletedAt: Option<nat>,
    cmd: bool,
    hasPort: bool,
    start: StartPc,
    run: RunPc,
    probe: ProbePc,
    stoppers: seq<StopPc>,
    clock: nat,
    h: History)

  /** A process as `ProcessCreate` and `ProcessReplace` make it. */
  function NewLife(hasPort: bool, clock: nat): (l: Life) {
    Life(Starting, None, false, hasPort, NotStarted, NoRun, NoProbe, [], clock, History(0, 0, 0, [], [], 0))
  }

  datatype Action =
    | Start(ok: bool)
    | Exit(failed: bool)
    | RunWrites
    | ProbeTick(ready: bool)
    | ProbeSeesExit
    | ProbeWrites
    | ProbeChecks
    | StopEnter
    | StopLock(k: nat)
    | StopCapture(k: nat)
    | WorkerLooks(k: nat, running: bool)
    | WorkerReads(k: nat)
    | WorkerReadsAgain(k: nat)
    | WorkerWrites(k: nat)
    | WorkerPolls(k: nat)
    | WorkerKills(k: nat)
    | Tick(ms: nat)

  function Write(l: Life, st: ProcState): (l': Life) {
    l.(state := st)
  }

  function SetStopper(l: Life, k: nat, pc: StopPc): (l': Life)
    requires k < |l.stoppers|
  {
    l.(stoppers := l.stoppers[k := pc])
  }

  predicate Enabled(l: Life, a: Action) {
    match a
    case Start(_) => l.start == NotStarted
    case Exit(_) => l.run == Executing
    case RunWrites => l.run.Exited?
    case ProbeTick(_) => l.probe.Probing?
    case ProbeSeesExit => l.probe.Probing? && (l.run.Exited? || l.run == Wrote)
    case ProbeWrites => l.probe == Answered
    case ProbeChecks => l.probe == GaveUp
    case StopEnter => true
    case StopLock(k) => k < |l.stoppers| && l.stoppers[k].Called?
    case StopCapture(k) => k < |l.stoppers| && l.stoppers[k].Decided?
    case WorkerLooks(k, running) => k < |l.stoppers| && l.stoppers[k].Captured? && (running ==> l.run == Executing)
    case WorkerReads(k) => k < |l.stoppers| && l.stoppers[k] == ReadState
    case WorkerReadsAgain(k) => k < |l.stoppers| && l.stoppers[k] == ReadAgain
    case WorkerWrites(k) => k < |l.stoppers| && l.stoppers[k] == WriteStopped
    case WorkerPolls(k) => k < |l.stoppers| && l.stoppers[k].Waiting? && l.clock >= l.stoppers[k].wake
    case WorkerKills(k) => k < |l.stoppers| && l.stoppers[k] == Killing
    case Tick(_) => true
  }

  function DoStart(l: Life, ok: bool): (l': Life) {
    if !ok then Write(l.(start := StartFailed), Error)
    else l.(start := Started, cmd := true, run := Executing, probe := if l.hasPort then Probing(0) else Answered)
  }

  /** The critical section of a stop call. */
  function DoStopLock(l: Life, k: nat): (l': Life)
    requires Enabled(l, StopLock(k))
  {
    var now := l.stoppers[k].now;
    if !Ending(l.state) then
      var l1 := Write(l.(deletedAt := Some(now)), Stopping);
      var earliest := if l.h.stamps == [] || now < l.h.earliest then now else l.h.earliest;
      var h := l1.h.(stops := l1.h.stops + 1, stamps := l1.h.stamps + [now], earliest := earliest);
      SetStopper(l1.(h := h), k, Decided(true))
    else if l.deletedAt.Some? && l.deletedAt.value + TIMEOUT < now then SetStopper(l, k, Decided(false))
    else SetStopper(l, k, StopDone)
  }

  function DoWorkerLooks(l: Life, k: nat, running: bool): (l': Life)
    requires Enabled(l, WorkerLooks(k, running))
  {
    var Captured(needStop, cmd) := l.stoppers[k];
    if !cmd || !running then SetStopper(l, k, ReadState)
    else if needStop then SetStopper(l.(h := l.h.(signals := l.h.signals + 1)), k, Waiting(0, l.clock))
    else SetStopper(l, k, Killing)
  }

  function DoWorkerPolls(l: Life, k: nat): (l': Life)
    requires Enabled(l, WorkerPolls(k))
  {
    var i := l.stoppers[k].polls;
    if i >= WAIT_COUNT then SetStopper(l, k, Killing)
    else if Ended(l.state) then SetStopper(l, k, StopDone)
    else SetStopper(l, k, Waiting(i + 1, l.clock + WAIT_INTERVAL))
  }

  function Do(l: Life, a: Action): (l': Life)
    requires Enabled(l, a)
  {
    match a
    case Start(ok) => DoStart(l, ok)
    case Exit(failed) => l.(run := Exited(failed))
    case RunWrites => Write(l, if l.run.failed then Error else Stopped).(run := Wrote)
    case ProbeTick(ready) =>
      if ready then l.(probe := Answered)
      else l.(probe := if l.probe.ticks + 1 < WAIT_COUNT then Probing(l.probe.ticks + 1) else GaveUp)
    case ProbeSeesExit => l.(probe := GaveUp)
    case ProbeWrites => Write(l, Running).(probe := ProbeDone, h := l.h.(runnings := l.h.runnings + 1))
    case ProbeChecks =>
      if Ended(l.state) then l.(probe := ProbeDone)
      else l.(probe := ProbeDone, stoppers := l.stoppers + [Called(l.clock)])
    case StopEnter => l.(stoppers := l.stoppers + [Called(l.clock)])
    case StopLock(k) => DoStopLock(l, k)
    case StopCapture(k) => SetStopper(l, k, Captured(l.stoppers[k].needStop, l.cmd))
    case WorkerLooks(k, running) => DoWorkerLooks(l, k, running)
    case WorkerReads(k) => SetStopper(l, k, if l.state == Stopped then StopDone else ReadAgain)
    case WorkerReadsAgain(k) => SetStopper(l, k, if l.state == Error then StopDone else WriteStopped)
    case WorkerWrites(k) => SetStopper(Write(l, Stopped), k, StopDone)
    case WorkerPolls(k) => DoWorkerPolls(l, k)
    case WorkerKills(k) => SetStopper(l.(h := l.h.(kills := l.h.kills + [l.clock])), k, StopDone)
    case Tick(ms) => l.(clock := l.clock + ms)
  }

  // ---------------------------------------------------------------------------------------
  // Runs

  ghost predicate Next(l: Life, a: Action, l': Life) { Enabled(l, a) && l' == Do(l, a) }

  ghost predicate StepAt(tr: seq<Life>, acts: seq<Action>, i: nat)
    requires i < |acts| && |tr| == |acts| + 1
  {
    Next(tr[i], acts[i], tr[i + 1])
  }

  /** A run from any state. */
  ghost predicate IsPath(tr: seq<Life>, acts: seq<Action>) {
    |tr| == |acts| + 1 && forall i :: 0 <= i < |acts| ==> StepAt(tr, acts, i)
  }

  ghost predicate IsRun(tr: seq<Life>, acts: seq<Action>) {
    IsPath(tr, acts) && tr[0] == NewLife(tr[0].hasPort, tr[0].clock)
  }

  // ---------------------------------------------------------------------------------------
  // What every action keeps

  /** The probe may still write Running, now or after a later start. */
  predicate ProbePending(l: Life) { l.start == NotStarted || l.probe.Probing? || l.probe == Answered }

  function Flag(b: bool): nat { if b then 1 else 0 }

  /** How many more stop calls can take effect. */
  function Potential(l: Life): nat { Flag(ProbePending(l)) + Flag(!Ending(l.state)) }

  /** Stop calls that took effect and whose signal has not been sent. */
  function Unsent(stoppers: seq<StopPc>, n: nat): nat
    requires n <= |stoppers|
  {
    if n == 0 then 0 else Unsent(stoppers, n - 1) + Flag(WillSignal(stoppers[n - 1]))
  }

  predicate WillSignal(pc: StopPc) { (pc.Decided? && pc.needStop) || (pc.Captured? && pc.needStop) }

  /** A stop call respects the grace period counted from `t`. */
  predicate Patient(pc: StopPc, clock: nat, t: nat) {
    match pc
    case Called(now) => now <= clock
    case Decided(needStop) => !needStop ==> t + TIMEOUT <= clock
    case Captured(needStop, _) => !needStop ==> t + TIMEOUT <= clock
    case Waiting(i, wake) => i <= WAIT_COUNT && wake >= t + WAIT_INTERVAL * i
    case Killing => t + TIMEOUT <= clock
    case _ => true
  }

  predicate Armed(pc: StopPc) { pc.Decided? || pc.Captured? || pc.Waiting? || pc == Killing }

  predicate StopperFits(pc: StopPc, clock: nat, stamped: bool, t: nat) {
    && (pc.Called? ==> pc.now <= clock)
    && (Armed(pc) ==> stamped && Patient(pc, clock, t))
  }

  ghost predicate StartInv(l: Life) {
    && (l.start != Started ==> l.run == NoRun && l.probe == NoProbe && !l.cmd)
    && (l.start == Started ==> l.run != NoRun && l.probe != NoProbe && l.cmd)
    && (l.probe.Probing? ==> l.probe.ticks < WAIT_COUNT)
    && (l.state == Error ==> l.start == StartFailed || l.run == Wrote)
  }

  ghost predicate CountInv(l: Life) {
    && Potential(l) + l.h.stops <= 2
    && Flag(ProbePending(l)) + l.h.runnings <= 1
    && l.h.signals + Unsent(l.stoppers, |l.stoppers|) <= l.h.stops
  }

  ghost predicate StampInv(h: History, deletedAt: Option<nat>, clock: nat) {
    && (deletedAt.Some? <==> h.stamps != [])
    && (deletedAt.Some? ==> h.earliest <= deletedAt.value && h.earliest in h.stamps)
    && (forall i :: 0 <= i < |h.stamps| ==> h.earliest <= h.stamps[i] <= clock)
    && (forall i :: 0 <= i < |h.kills| ==> h.stamps != [] && h.earliest + TIMEOUT <= h.kills[i])
  }

  ghost predicate TimeInv(l: Life) {
    && StampInv(l.h, l.deletedAt, l.clock)
    && forall k :: 0 <= k < |l.stoppers| ==> StopperFits(l.stoppers[k], l.clock, l.h.stamps != [], l.h.earliest)
  }

  ghost predicate Inv(l: Life) { StartInv(l) && CountInv(l) && TimeInv(l) }

  // ---------------------------------------------------------------------------------------

  lemma StartKept(l: Life, a: Action)
    requires StartInv(l) && Enabled(l, a)
    ensures StartInv(Do(l, a))
  {
  }

  lemma {:induction false} UnsentSame(a: seq<StopPc>, b: seq<StopPc>, n: nat)
    requires n <= |a| && n <= |b| && forall i :: 0 <= i < n ==> (WillSignal(a[i]) <==> WillSignal(b[i]))
    ensures Unsent(a, n) == Unsent(b, n)
  {
    if n > 0 { UnsentSame(a, b, n - 1); }
  }

  lemma {:induction false} UnsentUpdate(s: seq<StopPc>, k: nat, pc: StopPc, n: nat)
    requires k < n <= |s|
    ensures Unsent(s[k := pc], n) == Unsent(s, n) - Flag(WillSignal(s[k])) + Flag(WillSignal(pc))
  {
    if k == n - 1 {
      UnsentSame(s, s[k := pc], n - 1);
    } else {
      UnsentUpdate(s, k, pc, n - 1);
    }
  }

  predicate IsStopStep(a: Action) {
    || a.StopLock? || a.StopCapture? || a.WorkerLooks? || a.WorkerReads? || a.WorkerReadsAgain?
    || a.WorkerWrites? || a.WorkerPolls? || a.WorkerKills?
  }

  lemma StopStepIsLocal(l: Life, a: Action)
    requires Enabled(l, a) && IsStopStep(a)
    ensures |Do(l, a).stoppers| == |l.stoppers| && Do(l, a).stoppers == l.stoppers[a.k := Do(l, a).stoppers[a.k]]
  {
  }

  lemma StopStepCounts(l: Life, a: Action)
    requires Enabled(l, a) && IsStopStep(a)
    ensures |Do(l, a).stoppers| == |l.stoppers|
    ensures Do(l, a).h.signals + Flag(WillSignal(Do(l, a).stoppers[a.k])) + l.h.stops
         == l.h.signals + Flag(WillSignal(l.stoppers[a.k])) + Do(l, a).h.stops - Flag(Forgets(l, a))
  {
  }

  /** The worker found no running command, and will send no signal. */
  predicate Forgets(l: Life, a: Action)
    requires Enabled(l, a)
  {
    a.WorkerLooks? && l.stoppers[a.k].needStop && !(l.stoppers[a.k].cmd && a.running)
  }

  lemma OtherStepsStopNothing(l: Life, a: Action)
    requires Enabled(l, a) && !IsStopStep(a)
    ensures Do(l, a).stoppers == l.stoppers || Do(l, a).stoppers == l.stoppers + [Called(l.clock)]
    ensures Do(l, a).h.signals == l.h.signals && Do(l, a).h.stops == l.h.stops
  {
  }

  lemma SignalsKept(l: Life, a: Action)
    requires Enabled(l, a) && l.h.signals + Unsent(l.stoppers, |l.stoppers|) <= l.h.stops
    ensures Do(l, a).h.signals + Unsent(Do(l, a).stoppers, |Do(l, a).stoppers|) <= Do(l, a).h.stops
  {
    var n := |l.stoppers|;
    if IsStopStep(a) {
      StopStepIsLocal(l, a);
      StopStepCounts(l, a);
      UnsentUpdate(l.stoppers, a.k, Do(l, a).stoppers[a.k], n);
    } else {
      OtherStepsStopNothing(l, a);
      UnsentSame(l.stoppers, l.stoppers + [Called(l.clock)], n);
    }
  }

  /** The potential never rises, and each stop call that takes effect lowers it. */
  lemma PotentialStep(l: Life, a: Action)
    requires StartInv(l) && Enabled(l, a)
    ensures Potential(Do(l, a)) + Do(l, a).h.stops <= Potential(l) + l.h.stops
    ensures Flag(ProbePending(Do(l, a))) + Do(l, a).h.runnings <= Flag(ProbePending(l)) + l.h.runnings
  {
    if IsStopStep(a) {
      StopPotential(l, a);
    } else if a.Start? || a.RunWrites? || a.ProbeWrites? {
      WritePotential(l, a);
    }
  }

  lemma StopPotential(l: Life, a: Action)
    requires Enabled(l, a) && IsStopStep(a)
    ensures ProbePending(Do(l, a)) == ProbePending(l) && Do(l, a).h.runnings == l.h.runnings
    ensures Flag(!Ending(Do(l, a).state)) + Do(l, a).h.stops <= Flag(!Ending(l.state)) + l.h.stops
  {
  }

  lemma WritePotential(l: Life, a: Action)
    requires StartInv(l) && Enabled(l, a) && (a.Start? || a.RunWrites? || a.ProbeWrites?)
    ensures Potential(Do(l, a)) <= Potential(l) && Do(l, a).h.stops == l.h.stops
    ensures Flag(ProbePending(Do(l, a))) + Do(l, a).h.runnings <= Flag(ProbePending(l)) + l.h.runnings
  {
  }

  lemma StampKept(l: Life, a: Action)
    requires TimeInv(l) && Enabled(l, a)
    ensures StampInv(Do(l, a).h, Do(l, a).deletedAt, Do(l, a).clock)
  {
    if a.StopLock? || a.WorkerKills? {
      assert StopperFits(l.stoppers[a.k], l.clock, l.h.stamps != [], l.h.earliest);
    } else {
      StampsUntouched(l, a);
      StampsWait(l.h, Do(l, a).h, l.deletedAt, l.clock, Do(l, a).clock);
    }
  }

  lemma StampsWait(h: History, h': History, deletedAt: Option<nat>, clock: nat, clock': nat)
    requires StampInv(h, deletedAt, clock) && clock <= clock'
    requires h'.stamps == h.stamps && h'.earliest == h.earliest && h'.kills == h.kills
    ensures StampInv(h', deletedAt, clock')
  {
    assert forall i :: 0 <= i < |h'.kills| ==> h'.kills[i] == h.kills[i];
  }

  lemma StampsUntouched(l: Life, a: Action)
    requires Enabled(l, a) && !a.StopLock? && !a.WorkerKills?
    ensures var l' := Do(l, a);
            && l'.h.stamps == l.h.stamps && l'.h.earliest == l.h.earliest && l'.h.kills == l.h.kills
            && l'.deletedAt == l.deletedAt && l.clock <= l'.clock
  {
  }

  /** A stop call left alone stays patient: the clock only rises, the earliest stamp only falls. */
  lemma StopperWaits(pc: StopPc, l: Life, l': Life)
    requires StopperFits(pc, l.clock, l.h.stamps != [], l.h.earliest)
    requires l.clock <= l'.clock && (l.h.stamps != [] ==> l'.h.stamps != [] && l'.h.earliest <= l.h.earliest)
    ensures StopperFits(pc, l'.clock, l'.h.stamps != [], l'.h.earliest)
  {
  }

  lemma TimeOnlyMoves(l: Life, a: Action)
    requires Enabled(l, a)
    ensures l.clock <= Do(l, a).clock
    ensures l.h.stamps != [] ==> Do(l, a).h.stamps != [] && Do(l, a).h.earliest <= l.h.earliest
  {
  }

  lemma StopperMoves(l: Life, a: Action)
    requires TimeInv(l) && Enabled(l, a) && IsStopStep(a)
    ensures var l' := Do(l, a); StopperFits(l'.stoppers[a.k], l'.clock, l'.h.stamps != [], l'.h.earliest)
  {
    assert StopperFits(l.stoppers[a.k], l.clock, l.h.stamps != [], l.h.earliest);
  }

  lemma StoppersKept(l: Life, a: Action, k: nat)
    requires TimeInv(l) && Enabled(l, a) && k < |Do(l, a).stoppers|
    ensures var l' := Do(l, a); StopperFits(l'.stoppers[k], l'.clock, l'.h.stamps != [], l'.h.earliest)
  {
    TimeOnlyMoves(l, a);
    if IsStopStep(a) {
      StopStepIsLocal(l, a);
      if k == a.k { StopperMoves(l, a); } else { StopperWaits(l.stoppers[k], l, Do(l, a)); }
    } else {
      OtherStepsStopNothing(l, a);
      if k < |l.stoppers| { StopperWaits(l.stoppers[k], l, Do(l, a)); }
    }
  }

  lemma StepKeeps(l: Life, a: Action)
    requires Inv(l) && Enabled(l, a)
    ensures Inv(Do(l, a))
  {
    StartKept(l, a);
    SignalsKept(l, a);
    PotentialStep(l, a);
    StampKept(l, a);
    forall k | 0 <= k < |Do(l, a).stoppers|
      ensures var l' := Do(l, a); StopperFits(l'.stoppers[k], l'.clock, l'.h.stamps != [], l'.h.earliest)
    {
      StoppersKept(l, a, k);
    }
  }

  lemma {:induction false} InvHolds(tr: seq<Life>, acts: seq<Action>, i: nat)
    requires IsRun(tr, acts) && i < |tr|
    ensures Inv(tr[i])
  {
    if i > 0 {
      InvHolds(tr, acts, i - 1);
      assert StepAt(tr, acts, i - 1);
      StepKeeps(tr[i - 1], acts[i - 1]);
    }
  }
}
