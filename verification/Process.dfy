/** The process object: its critical sections as methods, and its bounded waiting loops. Each
    method is shown to do what the corresponding action of `Lifecycle` does. */
module Process {
  import opened Wrappers
  import opened ProcessState
  import opened Lifecycle
  import opened LifecycleTheorems

  class Process {
    var state: ProcState
    var deletionTimestamp: Option<nat>
    var cmd: bool
    var portStart: int

    /** The shared fields of this object are those of the lifecycle state `l`. */
    ghost predicate Shows(l: Life)
      reads this
    {
      l.state == state && l.deletedAt == deletionTimestamp && l.cmd == cmd && l.hasPort == (portStart != 0)
    }

    constructor (portStart: int, ghost clock: nat)
      ensures Shows(NewLife(portStart != 0, clock))
    {
      state := Starting;
      deletionTimestamp := None;
      cmd := false;
      this.portStart := portStart;
    }

    /** `newCommand` tells whether the command could be created. */
    method Start(newCommand: bool, ghost l: Life) returns (ok: bool)
      requires Shows(l) && Enabled(l, Action.Start(newCommand))
      modifies this
      ensures ok == newCommand && Shows(Do(l, Action.Start(ok)))
    {
      if !newCommand {
        state := Error;
        return false;
      }
      cmd := true;
      ok := true;
    }

    /** The end of the run goroutine, once the command has returned. */
    method RunReturned(ghost l: Life, failed: bool)
      requires Shows(l) && l.run == Exited(failed)
      modifies this
      ensures Shows(Do(l, RunWrites))
    {
      if failed {
        state := Error;
      } else {
        state := ProcState.Stopped;
      }
    }

    /** The probe's write: it does not look at the state. */
    method ProbeAnswered(ghost l: Life)
      requires Shows(l) && Enabled(l, ProbeWrites)
      modifies this
      ensures Shows(Do(l, ProbeWrites))
    {
      state := Running;
    }

    /** The probe after the health check has given up: whether it calls for a stop. */
    method ProbeGaveUp(ghost l: Life) returns (stop: bool)
      requires Shows(l) && Inv(l) && Enabled(l, ProbeChecks)
      ensures Shows(Do(l, ProbeChecks))
      ensures Do(l, ProbeChecks).stoppers == l.stoppers + if stop then [Called(l.clock)] else []
      ensures stop <==> !Ended(l.state)
    {
      var stopped := IsStopped(l);
      stop := !stopped;
    }

    /** The locked part of `StopWithSignal`, with the time read before the lock was taken. */
    method StopLocked(now: nat, ghost l: Life, ghost k: nat) returns (needStop: bool, needTimeoutKill: bool)
      requires Shows(l) && Enabled(l, StopLock(k)) && l.stoppers[k] == Called(now)
      modifies this
      ensures Shows(Do(l, StopLock(k)))
      ensures Do(l, StopLock(k)).stoppers[k] == if needStop || needTimeoutKill then Decided(needStop) else StopDone
      ensures needStop <==> !Ending(old(state))
      ensures needTimeoutKill ==> !needStop
    {
      needStop, needTimeoutKill := false, false;
      if state != Stopping && state != ProcState.Stopped && state != Error {
        state := Stopping;
        deletionTimestamp := Some(now);
        needStop := true;
      }
      if deletionTimestamp.Some? && !needStop {
        var deleteTimeout := WAIT_INTERVAL * WAIT_COUNT;
        if deletionTimestamp.value + deleteTimeout < now {
          needTimeoutKill := true;
        }
      }
    }

    /** Yes exactly if the process has ended; and it then stays so exactly if its probe is through. */
    method IsStopped(ghost l: Life) returns (r: bool)
      requires Shows(l) && Inv(l)
      ensures r <==> Ended(l.state)
      ensures EndedForGood(l) <==> r && !ProbePending(l)
    {
      EndedForGoodIff(l);
      r := state == ProcState.Stopped || state == Error;
    }

    /** The worker's unlocked write, after its unlocked read said the process had not ended. */
    method MarkStopped(ghost l: Life, ghost k: nat)
      requires Shows(l) && Enabled(l, WorkerWrites(k))
      modifies this
      ensures Shows(Do(l, WorkerWrites(k)))
    {
      state := ProcState.Stopped;
    }
  }

  /** Before its `i`-th round the stop worker's process is in the state `lives(i)`: a round is the
      worker's step, once it has slept, and between rounds anything else may move. */
  ghost predicate Awaited(ended: nat -> bool, lives: nat -> Life, k: nat, i: nat) {
    && ended(i) == Ended(lives(i).state) && k < |lives(i).stoppers| && k < |lives(i + 1).stoppers|
    && (lives(i).stoppers[k].Waiting? ==>
          && Enabled(lives(i), WorkerPolls(k))
          && lives(i + 1).stoppers[k] == Do(lives(i), WorkerPolls(k)).stoppers[k])
  }

  /** The waiting loop of the stop worker; `ended(i)` is the answer of the `i`-th poll. Round by
      round this is the worker of the lifecycle, which after `n` rounds is done, or at the kill. */
  method AwaitEnded(ended: nat -> bool, ghost lives: nat -> Life, ghost k: nat)
    returns (stopped: bool, polls: nat, ghost n: nat)
    requires forall i: nat :: Awaited(ended, lives, k, i)
    requires k < |lives(0).stoppers| && lives(0).stoppers[k].Waiting? && lives(0).stoppers[k].polls == 0
    ensures polls <= WAIT_COUNT && (stopped <==> polls < WAIT_COUNT)
    ensures stopped ==> ended(polls)
    ensures forall i: nat :: i < polls ==> !ended(i)
    ensures n == polls + 1 && k < |lives(n).stoppers| && lives(n).stoppers[k] == if stopped then StopDone else Killing
  {
    polls, n := 0, 0;
    while polls < WAIT_COUNT
      invariant polls == n <= WAIT_COUNT
      invariant forall i: nat :: i < polls ==> !ended(i)
      invariant k < |lives(n).stoppers| && lives(n).stoppers[k].Waiting? && lives(n).stoppers[k].polls == polls
    {
      assert Awaited(ended, lives, k, polls);
      n := n + 1;
      if ended(polls) {
        return true, polls, n;
      }
      polls := polls + 1;
    }
    assert Awaited(ended, lives, k, n);
    n := n + 1;
    stopped := false;
  }

  /** What one round of the health check's `select` delivers. */
  datatype Round = StopClosed | Ticked(ready: bool)

  function ProbeAction(r: Round): Action {
    match r
    case StopClosed => ProbeSeesExit
    case Ticked(ready) => ProbeTick(ready)
  }

  /** Before the `i`-th round the process is in the state `lives(i)`: a round is the probe's step,
      and between rounds anything but the probe may move, such as the command's exit, which
      closes the stop channel. */
  ghost predicate Probed(rounds: nat -> Round, lives: nat -> Life, i: nat) {
    && (rounds(i) == StopClosed ==> lives(i).run.Exited? || lives(i).run == Wrote)
    && (Enabled(lives(i), ProbeAction(rounds(i))) ==> lives(i + 1).probe == Do(lives(i), ProbeAction(rounds(i))).probe)
  }

  /** Waits for the service to answer: true exactly if within the allowed rounds some tick finds
      it ready and all rounds before were ticks that did not. Round by round this is the probe of
      the lifecycle, which after `n` rounds is about to write Running, or about to give up. */
  method WaitForRunning(rounds: nat -> Round, ghost lives: nat -> Life) returns (r: bool, ghost n: nat)
    requires lives(0).probe == Probing(0) && forall i: nat :: Probed(rounds, lives, i)
    ensures r <==>
            exists i: nat ::
              i < WAIT_COUNT && rounds(i) == Ticked(true) && forall j: nat :: j < i ==> rounds(j) == Ticked(false)
    ensures n <= WAIT_COUNT && lives(n).probe == if r then Answered else GaveUp
  {
    var i := 0;
    n := 0;
    while i < WAIT_COUNT
      invariant n == i <= WAIT_COUNT
      invariant forall j: nat :: j < i ==> rounds(j) == Ticked(false)
      invariant lives(i).probe == if i < WAIT_COUNT then Probing(i) else GaveUp
    {
      assert Probed(rounds, lives, i) && Enabled(lives(i), ProbeAction(rounds(i)));
      n := n + 1;
      match rounds(i)
      case StopClosed =>
        return false, n;
      case Ticked(ready) =>
        if ready {
          return true, n;
        }
        i := i + 1;
    }
    r := false;
  }
}
