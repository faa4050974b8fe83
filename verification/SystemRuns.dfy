/** Runs in which two processes that have not ended have the same port, one for each of the ways
    of `SystemOverlap.GaveBackAlive`. The pool has a single port. */
module SystemRuns {
  import opened PortPool
  import opened ProcessState
  import opened System
  import opened SystemTheorems
  import opened SystemOverlap
  import R = Registry
  import RR = RegistryRuns
  import L = Lifecycle

  ghost predicate OnePort(s: State) {
    R.Init(s.reg) && s.lives == [] && s.reg.pool.size == 1 && s.reg.pool.base >= 1
  }

  /** The pool is the initial one but for the resume position, its port taken or free. */
  predicate PortIs(pool: Pool, base: int, free: bool) {
    Valid(pool) && pool.base == base && pool.size == 1 && pool.free[0] == free
  }

  lemma Go(tr: seq<State>, acts: seq<Action>, a: Action) returns (tr': seq<State>, acts': seq<Action>)
    requires IsRun(tr, acts) && Enabled(tr[|tr| - 1], a)
    ensures Valid(tr[|tr| - 1].reg.pool) && IsRun(tr', acts') && tr'[0] == tr[0]
    ensures tr' == tr + [Do(tr[|tr| - 1], a)] && acts' == acts + [a]
  {
    InvHolds(tr, acts, |tr| - 1);
    tr', acts' := PathGrows(tr, acts, a);
  }

  lemma GrantsOnly(pool: Pool, base: int)
    requires PortIs(pool, base, true)
    ensures var t := Allocate(pool, 1);
            t.Some? && t.value.first == base && t.value.last == base && PortIs(t.value.pool, base, false)
  {
    SlackSuffices(pool, 1, 0);
    AllocateTakesFree(pool, 1);
  }

  function Single(name: string, base: int): R.Proc { R.Proc(name, "a", 1, base, base, R.Registered, R.Create) }

  /** A create takes the free port. */
  lemma CreateSingle(tr0: seq<State>, acts0: seq<Action>, name: string, base: int)
    returns (tr: seq<State>, acts: seq<Action>)
    requires IsRun(tr0, acts0) && name != "" && base >= 1
    requires var s := tr0[|tr0| - 1];
             PortIs(s.reg.pool, base, true) && name !in s.reg.registry && |s.lives| == |s.reg.procs|
    ensures IsRun(tr, acts) && tr[0] == tr0[0] && tr0 <= tr && acts0 <= acts
    ensures var s, e := tr0[|tr0| - 1], tr[|tr| - 1];
            && PortIs(e.reg.pool, base, false) && e.reg.registry == s.reg.registry[name := |s.reg.procs|]
            && e.reg.procs == s.reg.procs + [Single(name, base)] && e.lives == s.lives + [L.NewLife(true, 0)]
  {
    GrantsOnly(tr0[|tr0| - 1].reg.pool, base);
    tr, acts := Go(tr0, acts0, OfRegistry(R.RegisterProcess(R.Spec(name, "a", 1, []))));
  }

  /** Whoever had the port and has not ended now shares it with a new process. */
  lemma ShareWithNew(tr0: seq<State>, acts0: seq<Action>, id: nat, base: int)
    returns (tr: seq<State>, acts: seq<Action>)
    requires IsRun(tr0, acts0) && base >= 1
    requires var s := tr0[|tr0| - 1];
             && PortIs(s.reg.pool, base, true) && "new" !in s.reg.registry && |s.lives| == |s.reg.procs|
             && id < |s.lives| && !Ended(s.lives[id].state) && Covers(s.reg.procs[id], base)
    ensures IsRun(tr, acts) && tr[0] == tr0[0] && tr0 <= tr && acts0 <= acts
    ensures Overlap(tr[|tr| - 1], id, |tr0[|tr0| - 1].reg.procs|, base)
    ensures tr[|tr| - 1].lives[id] == tr0[|tr0| - 1].lives[id]
  {
    tr, acts := CreateSingle(tr0, acts0, "new", base);
  }

  // ---------------------------------------------------------------------------------------
  // By a swap

  function Repl(pc: R.ReplacePc): R.Proc { R.Proc("e", "b", 0, 0, 0, R.Pending, R.Replace(0, pc)) }

  /** Between its steps: the port is taken, the old process registered. */
  predicate Replacing(s: State, base: int, pc: R.ReplacePc) {
    && PortIs(s.reg.pool, base, false) && s.reg.registry == map["e" := 0]
    && s.reg.procs == [Single("e", base), Repl(pc)] && |s.lives| == 2
  }

  /** A replacement without ports for a process with the port has compared the binaries. */
  lemma Reserves(tr0: seq<State>, acts0: seq<Action>, base: int) returns (tr: seq<State>, acts: seq<Action>)
    requires IsRun(tr0, acts0)
    requires var s := tr0[|tr0| - 1];
             && PortIs(s.reg.pool, base, false) && s.reg.registry == map["e" := 0] && s.reg.procs == [Single("e", base)]
             && s.lives == [L.NewLife(true, 0)]
    ensures IsRun(tr, acts) && tr[0] == tr0[0] && Replacing(tr[|tr| - 1], base, R.StartingNew)
    ensures tr[|tr| - 1].lives == [L.NewLife(true, 0), L.NewLife(false, 0)]
  {
    tr, acts := Go(tr0, acts0, OfRegistry(R.InitReplace(R.Spec("e", "b", 0, []), "SIGHUP")));
    tr, acts := Go(tr, acts, OfRegistry(R.CompareBinary(1)));
  }

  /** Both processes are started. */
  lemma Starts(tr0: seq<State>, acts0: seq<Action>, base: int) returns (tr: seq<State>, acts: seq<Action>)
    requires IsRun(tr0, acts0) && Replacing(tr0[|tr0| - 1], base, R.StartingNew)
    requires tr0[|tr0| - 1].lives == [L.NewLife(true, 0), L.NewLife(false, 0)]
    ensures IsRun(tr, acts) && tr[0] == tr0[0] && Replacing(tr[|tr| - 1], base, R.Polling(0))
    ensures tr[|tr| - 1].lives[0] == L.DoStart(L.NewLife(true, 0), true)
    ensures tr[|tr| - 1].lives[1] == L.DoStart(L.NewLife(false, 0), true)
  {
    tr, acts := Go(tr0, acts0, OfProcess(0, L.Start(true)));
    tr, acts := Go(tr, acts, OfRegistry(R.StartReplacement(1, true)));
  }

  /** The new process is found running. */
  lemma RunsAndPolls(tr0: seq<State>, acts0: seq<Action>, base: int) returns (tr: seq<State>, acts: seq<Action>)
    requires IsRun(tr0, acts0) && Replacing(tr0[|tr0| - 1], base, R.Polling(0))
    requires tr0[|tr0| - 1].lives[1].probe == L.Answered
    ensures IsRun(tr, acts) && tr[0] == tr0[0] && Replacing(tr[|tr| - 1], base, R.StoppingOld)
    ensures tr[|tr| - 1].lives[0] == tr0[|tr0| - 1].lives[0]
  {
    tr, acts := Go(tr0, acts0, OfProcess(1, L.ProbeWrites));
    tr, acts := Go(tr, acts, OfRegistry(R.PollReplacement(1, Running)));
  }

  /** The old process is stopped. */
  lemma StopsOld(tr0: seq<State>, acts0: seq<Action>, base: int) returns (tr: seq<State>, acts: seq<Action>)
    requires IsRun(tr0, acts0) && Replacing(tr0[|tr0| - 1], base, R.StoppingOld)
    requires tr0[|tr0| - 1].lives[0] == L.DoStart(L.NewLife(true, 0), true)
    ensures IsRun(tr, acts) && tr[0] == tr0[0] && Replacing(tr[|tr| - 1], base, R.Swapping)
    ensures tr[|tr| - 1].lives[0].state == Stopping && tr[|tr| - 1].lives[0].run == L.Executing
  {
    tr, acts := Go(tr0, acts0, OfProcess(0, L.StopEnter));
    tr, acts := Go(tr, acts, StopCall(R.StopOld(1), 0));
    tr, acts := StopReturns(tr, acts, base);
  }

  lemma StopReturns(tr0: seq<State>, acts0: seq<Action>, base: int) returns (tr: seq<State>, acts: seq<Action>)
    requires IsRun(tr0, acts0) && Replacing(tr0[|tr0| - 1], base, R.Swapping)
    requires |tr0[|tr0| - 1].lives[0].stoppers| == 1 && tr0[|tr0| - 1].lives[0].stoppers[0].Decided?
    ensures IsRun(tr, acts) && tr[0] == tr0[0] && Replacing(tr[|tr| - 1], base, R.Swapping)
    ensures var l, l' := tr0[|tr0| - 1].lives[0], tr[|tr| - 1].lives[0]; l'.state == l.state && l'.run == l.run
  {
    tr, acts := Go(tr0, acts0, OfProcess(0, L.StopCapture(0)));
  }

  lemma SwapFrees(reg: R.State, base: int)
    requires PortIs(reg.pool, base, false) && base >= 1 && reg.registry == map["e" := 0]
    requires reg.procs == [Single("e", base), Repl(R.Swapping)]
    ensures var e := R.DoSwap(reg, 1);
            && PortIs(e.pool, base, true) && e.registry == map["e" := 1] && |e.procs| == 2 && Covers(e.procs[0], base)
  {
    var r := R.GiveBack(reg.pool, reg.procs[0]);
    assert r == Freed(reg.pool.(free := SetRange(reg.pool.free, 0, 1, true)));
  }

  /** It is displaced while it is still stopping, and its command running. */
  lemma Swaps(tr0: seq<State>, acts0: seq<Action>, base: int) returns (tr: seq<State>, acts: seq<Action>)
    requires IsRun(tr0, acts0) && base >= 1 && Replacing(tr0[|tr0| - 1], base, R.Swapping)
    ensures IsRun(tr, acts) && tr[0] == tr0[0] && tr0 <= tr && acts == acts0 + [OfRegistry(R.Swap(1))]
    ensures var o, e := tr0[|tr0| - 1], tr[|tr| - 1];
            && PortIs(e.reg.pool, base, true) && e.reg.registry == map["e" := 1]
            && |e.reg.procs| == 2 && Covers(e.reg.procs[0], base) && e.lives == o.lives
  {
    SwapFrees(tr0[|tr0| - 1].reg, base);
    tr, acts := Go(tr0, acts0, OfRegistry(R.Swap(1)));
  }

  lemma SwapGivesBack(tr: seq<State>, acts: seq<Action>, m: nat, base: int)
    requires |tr| == |acts| + 1 && m < |acts| && acts[m] == OfRegistry(R.Swap(1)) && Replacing(tr[m], base, R.Swapping)
    ensures GaveBackAlive(tr, acts, m, 0, 0)
  {
  }

  /** First way, by the swap at `m`: the old process, still stopping and its command running, shares
      its port with the next one created. */
  lemma OverlapAfterSwap(s: State) returns (tr: seq<State>, acts: seq<Action>, m: nat)
    requires OnePort(s)
    ensures IsRun(tr, acts) && tr[0] == s && Overlap(tr[|tr| - 1], 0, 2, s.reg.pool.base)
    ensures m < |acts| && acts[m] == OfRegistry(R.Swap(1)) && GaveBackAlive(tr, acts, m, 0, 0)
    ensures tr[|tr| - 1].lives[0].state == Stopping && tr[|tr| - 1].lives[0].run == L.Executing
  {
    var base := s.reg.pool.base;
    tr, acts := CreateSingle([s], [], "e", base);
    tr, acts := Reserves(tr, acts, base);
    tr, acts := Starts(tr, acts, base);
    tr, acts := RunsAndPolls(tr, acts, base);
    tr, acts, m := SwapsAndShares(tr, acts, base);
  }

  lemma SwapsAndShares(tr0: seq<State>, acts0: seq<Action>, base: int)
    returns (tr: seq<State>, acts: seq<Action>, m: nat)
    requires IsRun(tr0, acts0) && base >= 1 && Replacing(tr0[|tr0| - 1], base, R.StoppingOld)
    requires tr0[|tr0| - 1].lives[0] == L.DoStart(L.NewLife(true, 0), true)
    ensures IsRun(tr, acts) && tr[0] == tr0[0] && Overlap(tr[|tr| - 1], 0, 2, base)
    ensures m < |acts| && acts[m] == OfRegistry(R.Swap(1)) && GaveBackAlive(tr, acts, m, 0, 0)
    ensures tr[|tr| - 1].lives[0].state == Stopping && tr[|tr| - 1].lives[0].run == L.Executing
  {
    tr, acts := StopsOld(tr0, acts0, base);
    m := |acts|;
    tr, acts := Swaps(tr, acts, base);
    tr, acts := ShareWithNew(tr, acts, 0, base);
    SwapGivesBack(tr, acts, m, base);
  }

  // ---------------------------------------------------------------------------------------
  // By a worker

  lemma {:induction false} ReplaceStays(tr: seq<State>, acts: seq<Action>, m: nat, n: nat, p: nat)
    requires IsRun(tr, acts) && m <= n < |tr| && p < |tr[m].reg.procs| && tr[m].reg.procs[p].maker.Replace?
    ensures p < |tr[n].reg.procs| && tr[n].reg.procs[p].maker.Replace?
  {
    if m < n {
      ReplaceStays(tr, acts, m, n - 1, p);
      assert StepAt(tr, acts, n - 1);
      if !acts[n - 1].OfProcess? { RR.SamePrev(tr[n - 1].reg, acts[n - 1].r, p); }
    }
  }

  predicate AllCreated(procs: seq<R.Proc>) { forall p :: 0 <= p < |procs| ==> procs[p].maker.Create? }

  /** Without replacements, only workers give ports back. */
  lemma OnlyWorkersGiveBack(tr: seq<State>, acts: seq<Action>, m: nat, q: nat, id: nat)
    requires IsRun(tr, acts) && m < |acts| && GaveBackAlive(tr, acts, m, q, id)
    requires AllCreated(tr[|tr| - 1].reg.procs)
    ensures acts[m].r.RemoveProcess?
  {
    if !acts[m].r.RemoveProcess? { ReplaceStays(tr, acts, m, |tr| - 1, acts[m].r.p); }
  }

  /** Second way, by the removal at `m`, after the look at `q`: a process deleted before its start
      runs, and shares its port. */
  lemma OverlapAfterRemoval(s: State) returns (tr: seq<State>, acts: seq<Action>, m: nat, q: nat)
    requires OnePort(s)
    ensures IsRun(tr, acts) && tr[0] == s && Overlap(tr[|tr| - 1], 0, 1, s.reg.pool.base)
    ensures m < |acts| && GaveBackAlive(tr, acts, m, q, 0) && acts[m].r.RemoveProcess?
    ensures tr[|tr| - 1].lives[0].state == Running
  {
    var spec := R.Spec("e", "a", 1, []);
    GrantsOnly(s.reg.pool, s.reg.pool.base);
    var tr0, acts0 := DeletedBeforeStartRuns(s, spec);
    InvHolds(tr0, acts0, |tr0| - 1);
    m, q := NotEndedGaveBackAlive(tr0, acts0, |tr0| - 1, 0);
    OnlyWorkersGiveBack(tr0, acts0, m, q, 0);
    tr, acts := ShareWithNew(tr0, acts0, 0, s.reg.pool.base);
    GaveBackEarlier(tr0, acts0, tr, acts, m, q, 0);
  }

  lemma GaveBackEarlier(tr0: seq<State>, acts0: seq<Action>, tr: seq<State>, acts: seq<Action>, m: nat, q: nat, id: nat)
    requires |tr0| == |acts0| + 1 && m < |acts0| && GaveBackAlive(tr0, acts0, m, q, id)
    requires |tr| == |acts| + 1 && tr0 <= tr && acts0 <= acts
    ensures GaveBackAlive(tr, acts, m, q, id) && acts[m] == acts0[m]
  {
  }

  // ---------------------------------------------------------------------------------------
  // By a cleanup

  function Failing(base: int, pc: R.ReplacePc): R.Proc {
    R.Proc("e", "b", 1, base, base, R.Pending, R.Replace(0, pc))
  }

  /** Between its steps: the replacement has the port. */
  predicate FailingAt(s: State, base: int, pc: R.ReplacePc) {
    && PortIs(s.reg.pool, base, false) && s.reg.registry == map["e" := 0]
    && |s.reg.procs| == 2 && s.reg.procs[1] == Failing(base, pc) && |s.lives| == 2
  }

  /** A process without ports, and a replacement for it that takes the port. */
  lemma ReservesPort(s: State) returns (tr: seq<State>, acts: seq<Action>)
    requires OnePort(s)
    ensures IsRun(tr, acts) && tr[0] == s && FailingAt(tr[|tr| - 1], s.reg.pool.base, R.Reserved)
    ensures tr[|tr| - 1].reg.procs[0].binary == "a" && tr[|tr| - 1].lives[1] == L.NewLife(true, 0)
  {
    tr, acts := Go([s], [], OfRegistry(R.RegisterProcess(R.Spec("e", "a", 0, []))));
    tr, acts := TakesPort(tr, acts, s.reg.pool.base);
  }

  lemma TakesPort(tr0: seq<State>, acts0: seq<Action>, base: int) returns (tr: seq<State>, acts: seq<Action>)
    requires IsRun(tr0, acts0) && base >= 1
    requires var s := tr0[|tr0| - 1];
             && PortIs(s.reg.pool, base, true) && s.reg.registry == map["e" := 0]
             && |s.reg.procs| == 1 && s.reg.procs[0].binary == "a" && |s.lives| == 1
    ensures IsRun(tr, acts) && tr[0] == tr0[0] && FailingAt(tr[|tr| - 1], base, R.Reserved)
    ensures tr[|tr| - 1].reg.procs[0].binary == "a" && tr[|tr| - 1].lives[1] == L.NewLife(true, 0)
  {
    GrantsOnly(tr0[|tr0| - 1].reg.pool, base);
    tr, acts := Go(tr0, acts0, OfRegistry(R.InitReplace(R.Spec("e", "b", 1, []), "SIGHUP")));
  }

  lemma StartsFailing(tr0: seq<State>, acts0: seq<Action>, base: int) returns (tr: seq<State>, acts: seq<Action>)
    requires IsRun(tr0, acts0) && FailingAt(tr0[|tr0| - 1], base, R.Reserved)
    requires tr0[|tr0| - 1].reg.procs[0].binary == "a" && tr0[|tr0| - 1].lives[1] == L.NewLife(true, 0)
    ensures IsRun(tr, acts) && tr[0] == tr0[0] && FailingAt(tr[|tr| - 1], base, R.Polling(0))
    ensures tr[|tr| - 1].lives[1] == L.DoStart(L.NewLife(true, 0), true)
  {
    tr, acts := Go(tr0, acts0, OfRegistry(R.CompareBinary(1)));
    tr, acts := Go(tr, acts, OfRegistry(R.StartReplacement(1, true)));
  }

  /** One step of the replacement's process. */
  lemma FailingSteps(tr0: seq<State>, acts0: seq<Action>, base: int, pc: R.ReplacePc, l: L.Action)
    returns (tr: seq<State>, acts: seq<Action>)
    requires IsRun(tr0, acts0) && FailingAt(tr0[|tr0| - 1], base, pc)
    requires !l.Start? && L.Enabled(tr0[|tr0| - 1].lives[1], l)
    ensures IsRun(tr, acts) && tr[0] == tr0[0] && FailingAt(tr[|tr| - 1], base, pc)
    ensures tr[|tr| - 1].lives[1] == L.Do(tr0[|tr0| - 1].lives[1], l)
  {
    tr, acts := Go(tr0, acts0, OfProcess(1, l));
  }

  /** The service answers just before the command exits; the exit is recorded first. */
  lemma ExitsWhileAnswering(tr0: seq<State>, acts0: seq<Action>, base: int) returns (tr: seq<State>, acts: seq<Action>)
    requires IsRun(tr0, acts0) && FailingAt(tr0[|tr0| - 1], base, R.Polling(0))
    requires tr0[|tr0| - 1].lives[1] == L.DoStart(L.NewLife(true, 0), true)
    ensures IsRun(tr, acts) && tr[0] == tr0[0] && FailingAt(tr[|tr| - 1], base, R.Polling(0))
    ensures var l := tr[|tr| - 1].lives[1]; l.state == Stopped && l.probe == L.Answered && l.stoppers == []
  {
    tr, acts := FailingSteps(tr0, acts0, base, R.Polling(0), L.ProbeTick(true));
    tr, acts := FailingSteps(tr, acts, base, R.Polling(0), L.Exit(false));
    tr, acts := FailingSteps(tr, acts, base, R.Polling(0), L.RunWrites);
  }

  /** The poll finds it Stopped. */
  lemma PollsStopped(tr0: seq<State>, acts0: seq<Action>, base: int) returns (tr: seq<State>, acts: seq<Action>)
    requires IsRun(tr0, acts0) && FailingAt(tr0[|tr0| - 1], base, R.Polling(0))
    requires tr0[|tr0| - 1].lives[1].state == Stopped
    ensures IsRun(tr, acts) && tr[0] == tr0[0] && FailingAt(tr[|tr| - 1], base, R.CleanStopping(false))
    ensures tr[|tr| - 1].lives == tr0[|tr0| - 1].lives
  {
    tr, acts := Go(tr0, acts0, OfRegistry(R.PollReplacement(1, Stopped)));
  }

  /** The cleanup's stop has nothing to do. */
  lemma StopsCleaned(tr0: seq<State>, acts0: seq<Action>, base: int) returns (tr: seq<State>, acts: seq<Action>)
    requires IsRun(tr0, acts0) && FailingAt(tr0[|tr0| - 1], base, R.CleanStopping(false))
    requires |tr0[|tr0| - 1].lives[1].stoppers| == 1 && tr0[|tr0| - 1].lives[1].stoppers[0].Called?
    ensures IsRun(tr, acts) && tr[0] == tr0[0] && FailingAt(tr[|tr| - 1], base, R.CleanReleasing(false))
    ensures tr[|tr| - 1].lives[1].probe == tr0[|tr0| - 1].lives[1].probe
  {
    tr, acts := Go(tr0, acts0, StopCall(R.CleanupStop(1), 0));
  }

  lemma CleanupFrees(reg: R.State, base: int)
    requires PortIs(reg.pool, base, false) && base >= 1 && |reg.procs| == 2
    requires reg.procs[1] == Failing(base, R.CleanReleasing(false))
    ensures var e := R.Do(reg, R.CleanupRelease(1));
            PortIs(e.pool, base, true) && e.registry == reg.registry && |e.procs| == 2 && Covers(e.procs[1], base)
  {
    var r := R.GiveBack(reg.pool, reg.procs[1]);
    assert r == Freed(reg.pool.(free := SetRange(reg.pool.free, 0, 1, true)));
  }

  /** The port is given back, and then the probe writes Running. */
  lemma ReleasesThenRuns(tr0: seq<State>, acts0: seq<Action>, base: int) returns (tr: seq<State>, acts: seq<Action>)
    requires IsRun(tr0, acts0) && base >= 1 && FailingAt(tr0[|tr0| - 1], base, R.CleanReleasing(false))
    requires tr0[|tr0| - 1].lives[1].probe == L.Answered
    ensures IsRun(tr, acts) && tr[0] == tr0[0] && tr0 <= tr
    ensures acts == acts0 + [OfRegistry(R.CleanupRelease(1)), OfProcess(1, L.ProbeWrites)]
    ensures var e := tr[|tr| - 1];
            && PortIs(e.reg.pool, base, true) && e.reg.registry == map["e" := 0] && |e.reg.procs| == 2
            && Covers(e.reg.procs[1], base) && |e.lives| == 2 && e.lives[1].state == Running
  {
    CleanupFrees(tr0[|tr0| - 1].reg, base);
    tr, acts := Go(tr0, acts0, OfRegistry(R.CleanupRelease(1)));
    tr, acts := Go(tr, acts, OfProcess(1, L.ProbeWrites));
  }

  lemma CleanupGivesBack(tr: seq<State>, acts: seq<Action>, m: nat, base: int)
    requires |tr| == |acts| + 1 && m < |acts| && acts[m] == OfRegistry(R.CleanupRelease(1))
    requires FailingAt(tr[m], base, R.CleanReleasing(false))
    ensures GaveBackAlive(tr, acts, m, 0, 1)
  {
  }

  lemma ReleasesAndShares(tr0: seq<State>, acts0: seq<Action>, base: int)
    returns (tr: seq<State>, acts: seq<Action>, m: nat)
    requires IsRun(tr0, acts0) && base >= 1 && FailingAt(tr0[|tr0| - 1], base, R.CleanReleasing(false))
    requires tr0[|tr0| - 1].lives[1].probe == L.Answered
    ensures IsRun(tr, acts) && tr[0] == tr0[0] && Overlap(tr[|tr| - 1], 1, 2, base)
    ensures m < |acts| && acts[m] == OfRegistry(R.CleanupRelease(1)) && GaveBackAlive(tr, acts, m, 0, 1)
    ensures tr[|tr| - 1].lives[1].state == Running
  {
    m := |acts0|;
    tr, acts := ReleasesThenRuns(tr0, acts0, base);
    tr, acts := ShareWithNew(tr, acts, 1, base);
    CleanupGivesBack(tr, acts, m, base);
  }

  /** Third way, by the release at `m`: a replacement cleaned up counts as running, and shares its
      port. */
  lemma OverlapAfterCleanup(s: State) returns (tr: seq<State>, acts: seq<Action>, m: nat)
    requires OnePort(s)
    ensures IsRun(tr, acts) && tr[0] == s && Overlap(tr[|tr| - 1], 1, 2, s.reg.pool.base)
    ensures m < |acts| && acts[m] == OfRegistry(R.CleanupRelease(1)) && GaveBackAlive(tr, acts, m, 0, 1)
    ensures tr[|tr| - 1].lives[1].state == Running
  {
    var base := s.reg.pool.base;
    tr, acts := ReservesPort(s);
    tr, acts := StartsFailing(tr, acts, base);
    tr, acts := ExitsWhileAnswering(tr, acts, base);
    tr, acts := PollsStopped(tr, acts, base);
    tr, acts := FailingSteps(tr, acts, base, R.CleanStopping(false), L.StopEnter);
    tr, acts := StopsCleaned(tr, acts, base);
    tr, acts, m := ReleasesAndShares(tr, acts, base);
  }
}
