/** What holds of the registry and its processes together, in every run. */
module SystemTheorems {
  import opened Wrappers
  import opened PortPool
  import opened ProcessState
  import opened System
  import R = Registry
  import RI = RegistryInvariant
  import RT = RegistryTheorems
  import RR = RegistryRuns
  import RO = RegistryOrder
  import L = Lifecycle
  import LT = LifecycleTheorems

  // ---------------------------------------------------------------------------------------
  // The whole refines its parts

  lemma RegistryGrows(tr: seq<R.State>, acts: seq<R.Action>, r: R.Action)
    requires RT.IsRun(tr, acts) && Valid(tr[|tr| - 1].pool) && R.Enabled(tr[|tr| - 1], r)
    ensures RT.IsRun(tr + [R.Do(tr[|tr| - 1], r)], acts + [r])
  {
    var tr', acts' := tr + [R.Do(tr[|tr| - 1], r)], acts + [r];
    forall i | 0 <= i < |acts'| ensures RT.StepAt(tr', acts', i) {
      if i < |acts| { assert RT.StepAt(tr, acts, i); }
    }
  }

  /** The registry's part of the first `n` actions. */
  function RegistryActs(acts: seq<Action>, n: nat): seq<R.Action>
    requires n <= |acts|
  {
    if n == 0 then []
    else RegistryActs(acts, n - 1) + if acts[n - 1].OfProcess? then [] else [acts[n - 1].r]
  }

  /** Every state of the whole shows a reachable state of the registry protocol alone. */
  lemma {:induction false} RegistryPart(tr: seq<State>, acts: seq<Action>, n: nat)
    returns (rtr: seq<R.State>, racts: seq<R.Action>)
    requires IsRun(tr, acts) && n < |tr|
    ensures RT.IsRun(rtr, racts) && rtr[0] == tr[0].reg && rtr[|rtr| - 1] == tr[n].reg
    ensures racts == RegistryActs(acts, n)
  {
    if n == 0 {
      rtr, racts := [tr[0].reg], [];
    } else {
      rtr, racts := RegistryPart(tr, acts, n - 1);
      assert StepAt(tr, acts, n - 1);
      if !acts[n - 1].OfProcess? {
        RegistryGrows(rtr, racts, acts[n - 1].r);
        rtr, racts := rtr + [tr[n].reg], racts + [acts[n - 1].r];
      }
    }
  }

  /** The step of one process in a step of the whole, if it has one. */
  function OwnStep(s: State, a: Action, id: nat): Option<L.Action>
    requires Enabled(s, a)
  {
    match a
    case OfRegistry(r) => if r.StartReplacement? && r.p == id then Some(L.Start(r.ok)) else None
    case StopCall(r, k) => if Target(s.reg, r) == id then Some(L.StopLock(k)) else None
    case OfProcess(i, l) => if i == id then Some(l) else None
  }

  lemma LifeSteps(s: State, a: Action, id: nat)
    requires Inv(s) && Enabled(s, a) && id < |s.lives|
    ensures id < |Do(s, a).lives|
    ensures match OwnStep(s, a, id)
            case None => Do(s, a).lives[id] == s.lives[id]
            case Some(l) => L.Enabled(s.lives[id], l) && Do(s, a).lives[id] == L.Do(s.lives[id], l)
  {
    if a.OfRegistry? && a.r.StartReplacement? { StartMakesNobody(s.reg, a.r); }
  }

  lemma StartMakesNobody(reg: R.State, r: R.Action)
    requires Valid(reg.pool) && R.Enabled(reg, r) && r.StartReplacement?
    ensures |R.Do(reg, r).procs| == |reg.procs|
  {
  }

  lemma BornNew(s: State, a: Action)
    requires Valid(s.reg.pool) && |s.lives| == |s.reg.procs| && Enabled(s, a) && |Do(s, a).lives| > |s.lives|
    ensures |Do(s, a).lives| == |s.lives| + 1
    ensures Do(s, a).lives[|s.lives|] == L.NewLife(Do(s, a).lives[|s.lives|].hasPort, 0)
  {
    if a.OfRegistry? { RT.BornFresh(s.reg, a.r); }
  }

  /** Every process of the whole is in a reachable state of the lifecycle alone. */
  lemma {:induction false} LifePart(tr: seq<State>, acts: seq<Action>, n: nat, id: nat)
    returns (ltr: seq<L.Life>, lacts: seq<L.Action>)
    requires IsRun(tr, acts) && n < |tr| && id < |tr[n].lives|
    ensures L.IsRun(ltr, lacts) && ltr[|ltr| - 1] == tr[n].lives[id]
  {
    assert n > 0;
    assert StepAt(tr, acts, n - 1);
    InvHolds(tr, acts, n - 1);
    var s, a := tr[n - 1], acts[n - 1];
    if id < |s.lives| {
      ltr, lacts := LifePart(tr, acts, n - 1, id);
      LifeSteps(s, a, id);
      if OwnStep(s, a, id).Some? {
        ltr := LT.PathGrows(ltr, lacts, OwnStep(s, a, id).value);
        lacts := lacts + [OwnStep(s, a, id).value];
      }
    } else {
      BornNew(s, a);
      ltr, lacts := [tr[n].lives[id]], [];
    }
  }

  // ---------------------------------------------------------------------------------------
  // Nobody leaves the registry without having been stopped

  lemma StepToRemoving(reg: R.State, r: R.Action, t: nat)
    requires Valid(reg.pool) && R.Enabled(reg, r) && R.WorkerAt(R.Do(reg, r), t, R.Removing)
    ensures t < |reg.threads| && reg.threads[t].Worker? && reg.threads[t].target == R.Do(reg, r).threads[t].target
    ensures R.WorkerAt(reg, t, R.Removing) || r == R.PollWorker(t, true)
  {
  }

  /** A worker about to remove its process has found it ended at some earlier moment. */
  lemma {:induction false} WorkerSawEnd(tr: seq<State>, acts: seq<Action>, n: nat, t: nat) returns (m: nat)
    requires IsRun(tr, acts) && n < |tr| && R.WorkerAt(tr[n].reg, t, R.Removing)
    ensures m < n && acts[m] == OfRegistry(R.PollWorker(t, true))
    ensures var id := tr[n].reg.threads[t].target; id < |tr[m].lives| && Ended(tr[m].lives[id].state)
  {
    assert n > 0;
    assert StepAt(tr, acts, n - 1);
    var a := acts[n - 1];
    if !a.OfProcess? { StepToRemoving(tr[n - 1].reg, a.r, t); }
    if a == OfRegistry(R.PollWorker(t, true)) {
      m := n - 1;
    } else {
      m := WorkerSawEnd(tr, acts, n - 1, t);
    }
  }

  lemma StepToSwapping(reg: R.State, r: R.Action, p: nat)
    requires Valid(reg.pool) && R.Enabled(reg, r) && R.At(R.Do(reg, r), p, R.Swapping)
    ensures p < |reg.procs| && reg.procs[p].maker.Replace?
    ensures reg.procs[p].maker.prev == R.Do(reg, r).procs[p].maker.prev
    ensures R.At(reg, p, R.Swapping) || r == R.StopOld(p)
  {
  }

  lemma StopLockEnds(l: L.Life, k: nat)
    requires L.Enabled(l, L.StopLock(k))
    ensures Ending(L.Do(l, L.StopLock(k)).state)
  {
  }

  /** A replacement about to swap has stopped the process it replaces, which left that process
      Stopping, Stopped or in Error at that moment. */
  lemma {:induction false} StopCameBeforeSwap(tr: seq<State>, acts: seq<Action>, n: nat, p: nat) returns (m: nat)
    requires IsRun(tr, acts) && n < |tr| && R.At(tr[n].reg, p, R.Swapping)
    ensures m < n && acts[m].StopCall? && acts[m].r == R.StopOld(p)
    ensures var id := tr[n].reg.procs[p].maker.prev; id < |tr[m + 1].lives| && Ending(tr[m + 1].lives[id].state)
  {
    assert n > 0;
    assert StepAt(tr, acts, n - 1);
    var a := acts[n - 1];
    if !a.OfProcess? { StepToSwapping(tr[n - 1].reg, a.r, p); }
    if a.StopCall? && a.r == R.StopOld(p) {
      m := n - 1;
      StopLockEnds(tr[m].lives[tr[m].reg.procs[p].maker.prev], a.k);
    } else {
      m := StopCameBeforeSwap(tr, acts, n - 1, p);
    }
  }

  lemma EventDisplaces(s: R.State, e: Option<R.Event>, s': R.State, name: string)
    requires RT.Changes(s, e, s') && name in s.registry
    requires name !in s'.registry || s'.registry[name] != s.registry[name]
    ensures e.Some?
    ensures (e.value.Removed? && e.value.id == s.registry[name] && name !in s'.registry) ||
            (e.value.Replaced? && e.value.prev == s.registry[name] && name in s'.registry)
  {
  }

  /** What displaces a process is a removal or a swap meant for it. */
  lemma StepToCleanReleasing(reg: R.State, r: R.Action, p: nat)
    requires Valid(reg.pool) && R.Enabled(reg, r) && CleanReleasing(R.Do(reg, r), p)
    ensures CleanReleasing(reg, p) || r == R.CleanupStop(p)
  {
  }

  predicate CleanReleasing(reg: R.State, p: nat) {
    p < |reg.procs| && reg.procs[p].maker.Replace? && reg.procs[p].maker.pc.CleanReleasing?
  }

  /** A replacement about to give its ports back for having failed has been stopped, which left it
      Stopping, Stopped or in Error at that moment. */
  lemma {:induction false} StopCameBeforeCleanup(tr: seq<State>, acts: seq<Action>, n: nat, p: nat) returns (m: nat)
    requires IsRun(tr, acts) && n < |tr| && CleanReleasing(tr[n].reg, p)
    ensures m < n && acts[m].StopCall? && acts[m].r == R.CleanupStop(p)
    ensures p < |tr[m + 1].lives| && Ending(tr[m + 1].lives[p].state)
  {
    assert n > 0;
    assert StepAt(tr, acts, n - 1);
    var a := acts[n - 1];
    if !a.OfProcess? { StepToCleanReleasing(tr[n - 1].reg, a.r, p); }
    if a.StopCall? && a.r == R.CleanupStop(p) {
      m := n - 1;
      StopLockEnds(tr[m].lives[p], a.k);
    } else {
      m := StopCameBeforeCleanup(tr, acts, n - 1, p);
    }
  }

  /** So no failed replacement's ports are released before it has been stopped. */
  lemma CleanupStopsFirst(tr: seq<State>, acts: seq<Action>, n: nat, p: nat) returns (m: nat)
    requires IsRun(tr, acts) && n < |acts| && acts[n] == OfRegistry(R.CleanupRelease(p))
    ensures m < n && acts[m].StopCall? && acts[m].r == R.CleanupStop(p)
    ensures p < |tr[m + 1].lives| && Ending(tr[m + 1].lives[p].state)
  {
    assert StepAt(tr, acts, n);
    m := StopCameBeforeCleanup(tr, acts, n, p);
  }

  predicate DeleteStopped(reg: R.State, t: nat) { t < |reg.threads| && reg.threads[t].DeleteStopped? }

  lemma StepToDeleteStopped(reg: R.State, r: R.Action, t: nat)
    requires Valid(reg.pool) && R.Enabled(reg, r) && DeleteStopped(R.Do(reg, r), t)
    ensures t < |reg.threads| && reg.threads[t].target == R.Do(reg, r).threads[t].target
    ensures DeleteStopped(reg, t) || r == R.StopTarget(t)
  {
  }

  lemma {:induction false} StopCameBeforeUnregister(tr: seq<State>, acts: seq<Action>, n: nat, t: nat) returns (m: nat)
    requires IsRun(tr, acts) && n < |tr| && DeleteStopped(tr[n].reg, t)
    ensures m < n && acts[m].StopCall? && acts[m].r == R.StopTarget(t)
    ensures var id := tr[n].reg.threads[t].target; id < |tr[m + 1].lives| && Ending(tr[m + 1].lives[id].state)
  {
    assert n > 0;
    assert StepAt(tr, acts, n - 1);
    var a := acts[n - 1];
    if !a.OfProcess? { StepToDeleteStopped(tr[n - 1].reg, a.r, t); }
    if a.StopCall? && a.r == R.StopTarget(t) {
      m := n - 1;
      StopLockEnds(tr[m].lives[tr[m].reg.threads[t].target], a.k);
    } else {
      m := StopCameBeforeUnregister(tr, acts, n - 1, t);
    }
  }

  /** No delete unregisters a process that it has not stopped. */
  lemma DeleteStopsFirst(tr: seq<State>, acts: seq<Action>, n: nat, t: nat) returns (m: nat)
    requires IsRun(tr, acts) && n < |acts| && acts[n] == OfRegistry(R.UnregisterProcess(t))
    ensures m < n && acts[m].StopCall? && acts[m].r == R.StopTarget(t) && t < |tr[n].reg.threads|
    ensures var id := tr[n].reg.threads[t].target; id < |tr[m + 1].lives| && Ending(tr[m + 1].lives[id].state)
  {
    assert StepAt(tr, acts, n);
    m := StopCameBeforeUnregister(tr, acts, n, t);
  }

  lemma StepToGaveUp(reg: R.State, r: R.Action, t: nat)
    requires Valid(reg.pool) && R.Enabled(reg, r) && R.WorkerAt(R.Do(reg, r), t, R.GaveUp)
    ensures t < |reg.threads| && reg.threads[t].Worker? && reg.threads[t].target == R.Do(reg, r).threads[t].target
    ensures R.WorkerAt(reg, t, R.GaveUp) || r == R.PollWorker(t, false)
  {
  }

  lemma {:induction false} LastLookBeforeGivingUp(tr: seq<State>, acts: seq<Action>, n: nat, t: nat) returns (m: nat)
    requires IsRun(tr, acts) && n < |tr| && R.WorkerAt(tr[n].reg, t, R.GaveUp)
    ensures m < n && acts[m] == OfRegistry(R.PollWorker(t, false))
    ensures var id := tr[n].reg.threads[t].target; id < |tr[m].lives| && !Ended(tr[m].lives[id].state)
  {
    assert n > 0;
    assert StepAt(tr, acts, n - 1);
    var a := acts[n - 1];
    if !a.OfProcess? { StepToGaveUp(tr[n - 1].reg, a.r, t); }
    if a == OfRegistry(R.PollWorker(t, false)) {
      m := n - 1;
    } else {
      m := LastLookBeforeGivingUp(tr, acts, n - 1, t);
    }
  }

  /** A worker that gave up had found the process not ended at a last look, and before that looked
      at it all 600 times, or until it found it ended. */
  lemma GivesUpAfterWaiting(tr: seq<State>, acts: seq<Action>, n: nat, t: nat) returns (m: nat)
    requires IsRun(tr, acts) && n < |tr| && R.WorkerAt(tr[n].reg, t, R.GaveUp)
    ensures m < n && acts[m] == OfRegistry(R.PollWorker(t, false))
    ensures var id := tr[n].reg.threads[t].target; id < |tr[m].lives| && !Ended(tr[m].lives[id].state)
    ensures var looks := RO.ThreadActions(RegistryActs(acts, n), t, |RegistryActs(acts, n)|);
            RO.Then(looks, R.PollWorker(t, false)) && RO.Looked(t, RO.Front(looks))
  {
    m := LastLookBeforeGivingUp(tr, acts, n, t);
    var rtr, racts := RegistryPart(tr, acts, n);
    RO.DeleteInOrder(rtr, racts, |racts|, t);
  }

  lemma StepDisplaces(s: R.State, r: R.Action, s': R.State, name: string)
    requires RI.Inv(s) && RT.Next(s, r, s') && name in s.registry
    requires name !in s'.registry || s'.registry[name] != s.registry[name]
    ensures (r.RemoveProcess? && s.threads[r.t].target == s.registry[name]) ||
            (r.Swap? && s.procs[r.p].maker.prev == s.registry[name] && name in s'.registry)
  {
    if r.Swap? { assert RI.PrevFits(s.procs, r.p); }
    RT.StepIsAtomic(s, r);
    EventDisplaces(s, RT.EventOf(s, r), s', name);
  }

  /** No process leaves the registry unless it had been Stopping, Stopped or in Error before: a
      worker removes only what it has found ended, a replacement only what it has stopped. */
  lemma LeavesOnlyStopped(tr: seq<State>, acts: seq<Action>, n: nat, name: string) returns (m: nat)
    requires IsRun(tr, acts) && n < |acts| && name in tr[n].reg.registry
    requires name !in tr[n + 1].reg.registry || tr[n + 1].reg.registry[name] != tr[n].reg.registry[name]
    ensures var id := tr[n].reg.registry[name];
            m <= n && id < |tr[m].lives| && Ending(tr[m].lives[id].state)
            && (name !in tr[n + 1].reg.registry ==> Ended(tr[m].lives[id].state))
  {
    assert StepAt(tr, acts, n);
    InvHolds(tr, acts, n);
    var s, r := tr[n].reg, acts[n].r;
    StepDisplaces(s, r, tr[n + 1].reg, name);
    if r.RemoveProcess? {
      m := WorkerSawEnd(tr, acts, n, r.t);
    } else {
      m := StopCameBeforeSwap(tr, acts, n, r.p);
      m := m + 1;
    }
  }

  // ---------------------------------------------------------------------------------------
  // When a replacement takes over

  /** The replacement has decided to take over. */
  predicate Decided(procs: seq<R.Proc>, p: nat) {
    p < |procs| && procs[p].maker.Replace? &&
    (procs[p].maker.pc == R.StoppingOld || procs[p].maker.pc == R.Swapping || procs[p].maker.pc == R.Swapped)
  }

  lemma OwnStepDecides(reg: R.State, r: R.Action, p: nat)
    requires Valid(reg.pool) && R.Enabled(reg, r) && RT.Own(r, p)
    requires Decided(R.Do(reg, r).procs, p) && !Decided(reg.procs, p)
    ensures r.PollReplacement? && R.Enabled(reg, r)
    ensures r.seen == Running || (r.seen == Starting && reg.procs[p].maker.pc.polls + 1 >= R.REPLACE_POLLS)
  {
  }

  lemma StepDecides(reg: R.State, r: R.Action, p: nat)
    requires Valid(reg.pool) && R.Enabled(reg, r) && Decided(R.Do(reg, r).procs, p) && !Decided(reg.procs, p)
    ensures r.PollReplacement? && r.p == p && R.Enabled(reg, r)
    ensures r.seen == Running || (r.seen == Starting && reg.procs[p].maker.pc.polls + 1 >= R.REPLACE_POLLS)
  {
    if RT.Own(r, p) {
      OwnStepDecides(reg, r, p);
    } else if p >= |reg.procs| {
      RT.BornFresh(reg, r);
    } else if RT.IsReplaceStep(r) {
      RT.ReplaceStepIsLocal(reg, r, p);
    } else {
      RT.OthersLeaveMakers(reg, r, p);
    }
  }

  /** A replacement that goes on to stop the old process was Running when last polled, or was
      still Starting at the last of its polls. */
  lemma {:induction false} TakesOverRunning(tr: seq<State>, acts: seq<Action>, n: nat, p: nat) returns (m: nat)
    requires IsRun(tr, acts) && n < |tr|
    requires Decided(tr[n].reg.procs, p)
    ensures m < n && p < |tr[m].lives| && acts[m] == OfRegistry(R.PollReplacement(p, tr[m].lives[p].state))
    ensures p < |tr[m].reg.procs| && tr[m].reg.procs[p].maker.Replace? && tr[m].reg.procs[p].maker.pc.Polling?
    ensures var polls := tr[m].reg.procs[p].maker.pc.polls;
            tr[m].lives[p].state == Running || (tr[m].lives[p].state == Starting && polls + 1 >= R.REPLACE_POLLS)
  {
    assert n > 0;
    assert StepAt(tr, acts, n - 1);
    var a := acts[n - 1];
    if Decided(tr[n - 1].reg.procs, p) {
      m := TakesOverRunning(tr, acts, n - 1, p);
    } else {
      StepDecides(tr[n - 1].reg, a.r, p);
      m := n - 1;
    }
  }

  // ---------------------------------------------------------------------------------------
  // Is a removed process gone for good?

  /** The process has ended and its probe is through. */
  predicate Through(s: State, id: nat) {
    id < |s.lives| && Ended(s.lives[id].state) && !L.ProbePending(s.lives[id])
  }

  lemma StepKeepsThrough(s: State, a: Action, id: nat)
    requires Inv(s) && Enabled(s, a) && Through(s, id)
    ensures Through(Do(s, a), id)
  {
    LifeSteps(s, a, id);
    if OwnStep(s, a, id).Some? { LT.StepKeepsEnded(s.lives[id], OwnStep(s, a, id).value); }
  }

  lemma ThroughAt(tr: seq<State>, acts: seq<Action>, i: nat, id: nat)
    requires IsRun(tr, acts) && i < |acts| && Through(tr[i], id)
    ensures Through(tr[i + 1], id)
  {
    InvHolds(tr, acts, i);
    assert StepAt(tr, acts, i);
    StepKeepsThrough(tr[i], acts[i], id);
  }

  lemma {:induction false} EndedStaysWithin(tr: seq<State>, acts: seq<Action>, i: nat, j: nat, id: nat)
    requires IsRun(tr, acts) && i <= j < |tr| && Through(tr[i], id)
    ensures Through(tr[j], id)
  {
    if i < j {
      EndedStaysWithin(tr, acts, i, j - 1, id);
      ThroughAt(tr, acts, j - 1, id);
    }
  }

  /** What a worker removes stays ended if the process's probe was through when the worker last
      looked. */
  lemma RemovedStaysEnded(tr: seq<State>, acts: seq<Action>, n: nat, t: nat) returns (m: nat)
    requires IsRun(tr, acts) && n < |tr| && R.WorkerAt(tr[n].reg, t, R.Removing)
    ensures m < n && acts[m] == OfRegistry(R.PollWorker(t, true)) && tr[n].reg.threads[t].target < |tr[m].lives|
    ensures var id := tr[n].reg.threads[t].target;
            !L.ProbePending(tr[m].lives[id]) ==>
              forall j :: m <= j < |tr| ==> id < |tr[j].lives| && Ended(tr[j].lives[id].state)
  {
    m := WorkerSawEnd(tr, acts, n, t);
    var id := tr[n].reg.threads[t].target;
    if !L.ProbePending(tr[m].lives[id]) {
      forall j | m <= j < |tr| ensures id < |tr[j].lives| && Ended(tr[j].lives[id].state) {
        EndedStaysWithin(tr, acts, m, j, id);
      }
    }
  }

  /** The process has ended and stays so, whatever happens from here on. */
  ghost predicate EndedForGood(s: State, id: nat) {
    forall tr: seq<State>, acts, j: nat ::
      IsPath(tr, acts) && tr[0] == s && j < |tr| ==> id < |tr[j].lives| && Ended(tr[j].lives[id].state)
  }

  lemma {:induction false} EndedAlong(tr: seq<State>, acts: seq<Action>, j: nat, id: nat)
    requires IsPath(tr, acts) && j < |tr| && Inv(tr[0]) && Through(tr[0], id)
    ensures Inv(tr[j]) && Through(tr[j], id)
  {
    if j > 0 {
      EndedAlong(tr, acts, j - 1, id);
      assert StepAt(tr, acts, j - 1);
      StepKeeps(tr[j - 1], acts[j - 1]);
      StepKeepsThrough(tr[j - 1], acts[j - 1], id);
    }
  }

  lemma PathGrows(tr: seq<State>, acts: seq<Action>, a: Action) returns (tr': seq<State>, acts': seq<Action>)
    requires IsPath(tr, acts) && Valid(tr[|tr| - 1].reg.pool) && Enabled(tr[|tr| - 1], a)
    ensures tr' == tr + [Do(tr[|tr| - 1], a)] && acts' == acts + [a] && IsPath(tr', acts')
  {
    tr', acts' := tr + [Do(tr[|tr| - 1], a)], acts + [a];
    forall i | 0 <= i < |acts'| ensures StepAt(tr', acts', i) {
      if i < |acts| { assert StepAt(tr, acts, i); }
    }
  }

  /** If it was not, the process can yet come to run, with the registry as it is then. (A
      replacement not started yet has not entered the registry, and only its own call starts it.) */
  lemma PendingProbeRunsOn(s: State, id: nat) returns (tr: seq<State>, acts: seq<Action>)
    requires Inv(s) && id < |s.lives| && L.ProbePending(s.lives[id])
    requires s.lives[id].start == L.NotStarted ==> s.reg.procs[id].maker.Create?
    ensures IsPath(tr, acts) && tr[0] == s && tr[|tr| - 1].reg == s.reg
    ensures id < |tr[|tr| - 1].lives| && tr[|tr| - 1].lives[id].state == Running
  {
    tr, acts := [s], [];
    if s.lives[id].start == L.NotStarted {
      tr, acts := PathGrows(tr, acts, OfProcess(id, L.Start(true)));
    }
    if tr[|tr| - 1].lives[id].probe.Probing? {
      tr, acts := PathGrows(tr, acts, OfProcess(id, L.ProbeTick(true)));
    }
    tr, acts := PathGrows(tr, acts, OfProcess(id, L.ProbeWrites));
  }

  /** The replacement has called for the start of its process. */
  predicate Launched(procs: seq<R.Proc>, p: nat) {
    p < |procs| && procs[p].maker.Replace? && procs[p].maker.pc != R.Reserved && procs[p].maker.pc != R.StartingNew
    && procs[p].maker.pc != R.SameBinary
  }

  lemma OwnStepLaunches(reg: R.State, r: R.Action, p: nat)
    requires Valid(reg.pool) && R.Enabled(reg, r) && RT.Own(r, p) && Launched(R.Do(reg, r).procs, p)
    ensures Launched(reg.procs, p) || r.StartReplacement?
  {
  }

  lemma StepLaunches(reg: R.State, r: R.Action, p: nat)
    requires Valid(reg.pool) && R.Enabled(reg, r) && Launched(R.Do(reg, r).procs, p) && !Launched(reg.procs, p)
    ensures r.StartReplacement? && r.p == p
  {
    if RT.Own(r, p) {
      OwnStepLaunches(reg, r, p);
    } else if p >= |reg.procs| {
      RT.BornFresh(reg, r);
    } else if RT.IsReplaceStep(r) {
      RT.ReplaceStepIsLocal(reg, r, p);
    } else {
      RT.OthersLeaveMakers(reg, r, p);
    }
  }

  lemma StepKeepsStarted(l: L.Life, a: L.Action)
    requires L.Enabled(l, a) && (l.start != L.NotStarted || a.Start?)
    ensures L.Do(l, a).start != L.NotStarted
  {
  }

  /** A replacement in or past its polling has been started. */
  lemma {:induction false} LaunchedIsStarted(tr: seq<State>, acts: seq<Action>, n: nat, p: nat)
    requires IsRun(tr, acts) && n < |tr| && Launched(tr[n].reg.procs, p)
    ensures p < |tr[n].lives| && tr[n].lives[p].start != L.NotStarted
  {
    assert n > 0;
    assert StepAt(tr, acts, n - 1);
    InvHolds(tr, acts, n - 1);
    var s, a := tr[n - 1], acts[n - 1];
    if Launched(s.reg.procs, p) {
      LaunchedIsStarted(tr, acts, n - 1, p);
    } else {
      StepLaunches(s.reg, a.r, p);
    }
    LifeSteps(s, a, p);
    if OwnStep(s, a, p).Some? { StepKeepsStarted(s.lives[p], OwnStep(s, a, p).value); }
  }

  /** Whenever a process to be unregistered has its probe pending, however it was made, some
      continuation has it Running, the registry as it is. */
  lemma RemovedCanRun(tr: seq<State>, acts: seq<Action>, n: nat, t: nat) returns (on: seq<State>, more: seq<Action>)
    requires IsRun(tr, acts) && n < |tr| && t < |tr[n].reg.threads|
    requires tr[n].reg.threads[t].target < |tr[n].lives| && L.ProbePending(tr[n].lives[tr[n].reg.threads[t].target])
    ensures IsPath(on, more) && on[0] == tr[n] && on[|on| - 1].reg == tr[n].reg
    ensures var id := tr[n].reg.threads[t].target;
            id < |on[|on| - 1].lives| && on[|on| - 1].lives[id].state == Running
  {
    InvHolds(tr, acts, n);
    var id := tr[n].reg.threads[t].target;
    assert RI.ThreadFits(tr[n].reg, t);
    if !tr[n].reg.procs[id].maker.Create? { LaunchedIsStarted(tr, acts, n, id); }
    on, more := PendingProbeRunsOn(tr[n], id);
  }

  /** At any point of any run, a process to be unregistered is ended in every continuation if and
      only if it has ended and its probe is through. */
  lemma EndedForGoodIff(tr: seq<State>, acts: seq<Action>, n: nat, t: nat)
    requires IsRun(tr, acts) && n < |tr| && t < |tr[n].reg.threads|
    ensures var id := tr[n].reg.threads[t].target;
            && id < |tr[n].lives|
            && (EndedForGood(tr[n], id) <==> Ended(tr[n].lives[id].state) && !L.ProbePending(tr[n].lives[id]))
  {
    InvHolds(tr, acts, n);
    var s, id := tr[n], tr[n].reg.threads[t].target;
    assert RI.ThreadFits(s.reg, t);
    if L.ProbePending(s.lives[id]) {
      var on, more := RemovedCanRun(tr, acts, n, t);
      assert !Ended(on[|on| - 1].lives[id].state);
    } else if Ended(s.lives[id].state) {
      forall on: seq<State>, more, j: nat | IsPath(on, more) && on[0] == s && j < |on|
        ensures id < |on[j].lives| && Ended(on[j].lives[id].state)
      {
        EndedAlong(on, more, j, id);
      }
    } else {
      assert IsPath([s], []) && [s][0] == s;
    }
  }

  // ---------------------------------------------------------------------------------------
  // A delete between the registration and the start of a process

  predicate HasPorts(p: R.Proc, spec: R.Spec, t: Taken) {
    p.count == spec.portCount && p.first == t.first && p.last == t.last
  }

  /** The process is registered and a delete has found it. */
  lemma RegisterAndFind(s: State, spec: R.Spec) returns (tr: seq<State>, acts: seq<Action>)
    requires R.Init(s.reg) && s.lives == [] && spec.name != "" && spec.binary != "" && R.Reserve(s.reg.pool, spec).Some?
    ensures IsPath(tr, acts) && tr[0] == s
    ensures var e := tr[|tr| - 1];
            && e.reg.registry == map[spec.name := 0] && e.reg.threads == [R.DeleteFound(0)]
            && |e.reg.procs| == 1 && e.reg.procs[0].name == spec.name && e.reg.procs[0].maker == R.Create
            && |e.lives| == 1 && e.lives[0] == L.NewLife(e.lives[0].hasPort, 0) && Valid(e.reg.pool)
            && e.reg.pool == R.Reserve(s.reg.pool, spec).value.pool
            && HasPorts(e.reg.procs[0], spec, R.Reserve(s.reg.pool, spec).value)
  {
    tr, acts := PathGrows([s], [], OfRegistry(R.RegisterProcess(spec)));
    tr, acts := PathGrows(tr, acts, OfRegistry(R.FindForDelete(spec.name)));
  }

  /** The delete leaves a worker behind. */
  lemma LeaveWorker(tr0: seq<State>, acts0: seq<Action>, name: string) returns (tr: seq<State>, acts: seq<Action>)
    requires IsPath(tr0, acts0)
    requires var e := tr0[|tr0| - 1];
             && e.reg.registry == map[name := 0] && e.reg.threads == [R.DeleteStopped(0)]
             && |e.reg.procs| == 1 && e.reg.procs[0].name == name && |e.lives| == 1 && Valid(e.reg.pool)
    ensures IsPath(tr, acts) && tr[0] == tr0[0]
    ensures var o, e := tr0[|tr0| - 1], tr[|tr| - 1];
            e == o.(reg := o.reg.(threads := [R.DeleteReturned(0), R.Worker(0, R.Waiting(0))]))
  {
    tr, acts := PathGrows(tr0, acts0, OfRegistry(R.UnregisterProcess(0)));
  }

  /** The delete stops it before it has a command, and leaves a worker behind. */
  lemma StopUnstarted(tr0: seq<State>, acts0: seq<Action>, name: string) returns (tr: seq<State>, acts: seq<Action>)
    requires IsPath(tr0, acts0)
    requires var e := tr0[|tr0| - 1];
             && e.reg.registry == map[name := 0] && e.reg.threads == [R.DeleteFound(0)]
             && |e.reg.procs| == 1 && e.reg.procs[0].name == name
             && |e.lives| == 1 && e.lives[0] == L.NewLife(e.lives[0].hasPort, 0) && Valid(e.reg.pool)
    ensures IsPath(tr, acts) && tr[0] == tr0[0]
    ensures var o, e := tr0[|tr0| - 1].reg, tr[|tr| - 1];
            && e.reg == o.(threads := [R.DeleteReturned(0), R.Worker(0, R.Waiting(0))])
            && |e.lives| == 1 && e.lives[0].start == L.NotStarted && e.lives[0].stoppers == [L.Captured(true, false)]
            && e.lives[0].state == Stopping
  {
    tr, acts := SoleStep(tr0, acts0, L.StopEnter);
    tr, acts := PathGrows(tr, acts, StopCall(R.StopTarget(0), 0));
    tr, acts := SoleStep(tr, acts, L.StopCapture(0));
    tr, acts := LeaveWorker(tr, acts, name);
  }

  /** One step of the only process. */
  lemma SoleStep(tr0: seq<State>, acts0: seq<Action>, l: L.Action) returns (tr: seq<State>, acts: seq<Action>)
    requires IsPath(tr0, acts0)
    requires var e := tr0[|tr0| - 1];
             |e.reg.procs| == 1 && Valid(e.reg.pool) && |e.lives| == 1 && !l.Start? && L.Enabled(e.lives[0], l)
    ensures IsPath(tr, acts) && tr[0] == tr0[0]
    ensures var o, e := tr0[|tr0| - 1], tr[|tr| - 1]; e.reg == o.reg && e.lives == [L.Do(o.lives[0], l)]
  {
    tr, acts := PathGrows(tr0, acts0, OfProcess(0, l));
  }

  /** The stop worker finds no command and writes Stopped. */
  lemma MarkUnstarted(tr0: seq<State>, acts0: seq<Action>) returns (tr: seq<State>, acts: seq<Action>)
    requires IsPath(tr0, acts0)
    requires var e := tr0[|tr0| - 1];
             && |e.reg.procs| == 1 && Valid(e.reg.pool) && |e.lives| == 1 && e.lives[0].start == L.NotStarted
             && e.lives[0].stoppers == [L.Captured(true, false)] && e.lives[0].state == Stopping
    ensures IsPath(tr, acts) && tr[0] == tr0[0]
    ensures var e := tr[|tr| - 1];
            && e.reg == tr0[|tr0| - 1].reg
            && |e.lives| == 1 && e.lives[0].start == L.NotStarted && e.lives[0].state == Stopped
  {
    tr, acts := SoleStep(tr0, acts0, L.WorkerLooks(0, false));
    tr, acts := SoleStep(tr, acts, L.WorkerReads(0));
    tr, acts := SoleStep(tr, acts, L.WorkerReadsAgain(0));
    tr, acts := SoleStep(tr, acts, L.WorkerWrites(0));
  }

  /** The delete's worker, finding it Stopped, removes it. */
  lemma RemoveUnstarted(tr0: seq<State>, acts0: seq<Action>, name: string) returns (tr: seq<State>, acts: seq<Action>)
    requires IsPath(tr0, acts0)
    requires var e := tr0[|tr0| - 1];
             && e.reg.registry == map[name := 0] && e.reg.threads == [R.DeleteReturned(0), R.Worker(0, R.Waiting(0))]
             && |e.reg.procs| == 1 && e.reg.procs[0].name == name
             && |e.lives| == 1 && e.lives[0].state == Stopped && Valid(e.reg.pool)
    ensures IsPath(tr, acts) && tr[0] == tr0[0]
    ensures var o, e := tr0[|tr0| - 1], tr[|tr| - 1];
            && e.reg.registry == map[] && e.lives == o.lives
            && |e.reg.procs| == 1
            && e.reg.procs[0] == o.reg.procs[0].(status := RR.AfterRelease(o.reg.pool, o.reg.procs[0]))
            && e.reg.pool.base == o.reg.pool.base && e.reg.pool.size == o.reg.pool.size
  {
    tr, acts := PathGrows(tr0, acts0, OfRegistry(R.PollWorker(1, true)));
    tr, acts := PathGrows(tr, acts, OfRegistry(R.PollWorker(1, true)));
    tr, acts := PathGrows(tr, acts, OfRegistry(R.RemoveProcess(1)));
  }

  /** With a single process, all ports are free exactly if it holds none. */
  lemma LoneProcessFree(reg: R.State)
    requires RI.HolderInv(reg) && |reg.procs| == 1
    ensures AllFree(reg.pool.free, 0, |reg.pool.free|) <==> !RI.Holds(reg.procs[0])
  {
    if RI.Holds(reg.procs[0]) {
      assert RI.OwnsAll(reg.pool.base, reg.h.owner, reg.procs[0], 0);
      RT.OwnerOfHeldPort(reg, 0, reg.procs[0].first);
    } else {
      forall k | 0 <= k < |reg.pool.free| ensures reg.pool.free[k] { RT.TakenIffHeld(reg, k); }
    }
  }

  lemma ReservedGoesBack(pool: Pool, spec: R.Spec, p: R.Proc)
    requires Valid(pool) && R.Reserve(pool, spec).Some? && HasPorts(p, spec, R.Reserve(pool, spec).value)
    ensures var t := R.Reserve(pool, spec).value;
            RR.AfterRelease(t.pool, p) == R.Released <==> spec.portCount == 0 || (t.first >= 0 && t.last > 0)
    ensures spec.portCount >= 0
  {
    if spec.portCount > 0 { AllocateTakesFree(pool, spec.portCount); }
  }

  /** So it happens: whatever is created, a delete that comes before its start can remove it from
      the registry, after which it is started all the same and comes to run unregistered. Its
      ports are then free, unless they are such as are never freed. */
  lemma DeletedBeforeStartRuns(s: State, spec: R.Spec) returns (tr: seq<State>, acts: seq<Action>)
    requires R.Init(s.reg) && s.lives == [] && spec.name != "" && spec.binary != "" && R.Reserve(s.reg.pool, spec).Some?
    ensures IsRun(tr, acts) && tr[0] == s
    ensures var e := tr[|tr| - 1]; e.reg.registry == map[] && |e.lives| == 1 && e.lives[0].state == Running
    ensures var e, t := tr[|tr| - 1].reg, R.Reserve(s.reg.pool, spec).value;
            && |e.procs| == 1 && HasPorts(e.procs[0], spec, t) && e.procs[0].maker == R.Create
            && (e.procs[0].status == R.Released <==> spec.portCount == 0 || (t.first >= 0 && t.last > 0))
            && e.pool.base == t.pool.base && e.pool.size == t.pool.size
            && (AllFree(e.pool.free, 0, |e.pool.free|) <==> spec.portCount == 0 || (t.first >= 0 && t.last > 0))
  {
    tr, acts := RegisterAndFind(s, spec);
    ReservedGoesBack(s.reg.pool, spec, tr[|tr| - 1].reg.procs[0]);
    tr, acts := StopUnstarted(tr, acts, spec.name);
    tr, acts := MarkUnstarted(tr, acts);
    tr, acts := RemoveUnstarted(tr, acts, spec.name);
    InvHolds(tr, acts, |tr| - 1);
    var tail, more := PendingProbeRunsOn(tr[|tr| - 1], 0);
    tr, acts := Join(tr, acts, tail, more);
    InvHolds(tr, acts, |tr| - 1);
    LoneProcessFree(tr[|tr| - 1].reg);
  }

  lemma Join(tr: seq<State>, acts: seq<Action>, tail: seq<State>, more: seq<Action>)
    returns (all: seq<State>, done: seq<Action>)
    requires IsPath(tr, acts) && IsPath(tail, more) && tail[0] == tr[|tr| - 1]
    ensures IsPath(all, done) && all[0] == tr[0] && all[|all| - 1] == tail[|tail| - 1]
  {
    all, done := tr + tail[1..], acts + more;
    forall i | 0 <= i < |done| ensures StepAt(all, done, i) {
      if i < |acts| {
        assert StepAt(tr, acts, i);
      } else {
        assert StepAt(tail, more, i - |acts|);
      }
    }
  }
}
