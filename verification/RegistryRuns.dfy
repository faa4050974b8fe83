/** Runs of the registry protocol that show what can happen, with the exact conditions. */
module RegistryRuns {
  import opened Wrappers
  import opened PortPool
  import opened Registry
  import opened RegistryInvariant
  import opened RegistrySteps
  import opened RegistryTheorems

  lemma Extend(tr: seq<State>, acts: seq<Action>, a: Action) returns (tr': seq<State>, acts': seq<Action>)
    requires IsRun(tr, acts) && Enabled(tr[|tr| - 1], a)
    ensures Valid(tr[|tr| - 1].pool) && IsRun(tr', acts') && tr'[0] == tr[0]
    ensures tr'[|tr'| - 1] == Do(tr[|tr| - 1], a) && Valid(tr'[|tr'| - 1].pool)
  {
    InvHolds(tr, acts, |tr| - 1);
    tr', acts' := tr + [Do(tr[|tr| - 1], a)], acts + [a];
    forall i | 0 <= i < |acts'| ensures StepAt(tr', acts', i) {
      if i < |acts| { assert StepAt(tr, acts, i); }
    }
    InvHolds(tr', acts', |tr'| - 1);
  }

  // ---------------------------------------------------------------------------------------
  // Which replacements keep their ports for good

  lemma OnlyCompareAbandons(s: State, a: Action, p: Id)
    requires Valid(s.pool) && Enabled(s, a) && Own(a, p) && p < |s.procs| && s.procs[p].maker.Replace?
    ensures p < |Do(s, a).procs| && Do(s, a).procs[p].maker.Replace?
    ensures s.procs[p].maker.pc == Reserved ==> a.CompareBinary?
    ensures Do(s, a).procs[p].maker.pc == SameBinary <==>
            a.CompareBinary? && s.procs[s.procs[p].maker.prev].binary == s.procs[p].binary
  {
  }

  ghost predicate AbandonedFits(procs: seq<Proc>, p: Id)
    requires p < |procs| && procs[p].maker.Replace?
  {
    var Replace(prev, pc) := procs[p].maker;
    prev < |procs| && (pc == SameBinary <==> procs[prev].binary == procs[p].binary)
  }

  lemma SamePrev(s: State, a: Action, p: Id)
    requires Valid(s.pool) && Enabled(s, a) && p < |s.procs| && s.procs[p].maker.Replace?
    ensures p < |Do(s, a).procs| && Do(s, a).procs[p].maker.Replace?
    ensures Do(s, a).procs[p].maker.prev == s.procs[p].maker.prev
  {
    if IsReplaceStep(a) {
      ReplaceStepIsLocal(s, a, p);
      if Own(a, p) { OwnKeepsPrev(s, a, p); }
    } else {
      OthersLeaveMakers(s, a, p);
    }
  }

  lemma OwnKeepsPrev(s: State, a: Action, p: Id)
    requires Valid(s.pool) && Enabled(s, a) && Own(a, p) && p < |s.procs| && s.procs[p].maker.Replace?
    ensures p < |Do(s, a).procs| && Do(s, a).procs[p].maker.Replace?
    ensures Do(s, a).procs[p].maker.prev == s.procs[p].maker.prev
  {
  }

  lemma StepAbandons(s: State, a: Action, p: Id)
    requires Valid(s.pool) && MakersFit(s.procs) && Enabled(s, a) && p < |s.procs| && s.procs[p].maker.Replace?
    requires ProcsEvolve(s.procs, Do(s, a).procs)
    requires s.procs[p].maker.pc != Reserved ==> AbandonedFits(s.procs, p)
    ensures var q := Do(s, a).procs;
            p < |q| && q[p].maker.Replace? && (q[p].maker.pc != Reserved ==> AbandonedFits(q, p))
  {
    SamePrev(s, a, p);
    assert PrevFits(s.procs, p);
    var q, prev := Do(s, a).procs, s.procs[p].maker.prev;
    assert Evolves(s.procs[p], q[p]) && Evolves(s.procs[prev], q[prev]);
    if Own(a, p) {
      OnlyCompareAbandons(s, a, p);
      if IsReplaceStep(a) { ReplaceStepIsLocal(s, a, p); }
    } else if IsReplaceStep(a) {
      ReplaceStepIsLocal(s, a, p);
    } else {
      OthersLeaveMakers(s, a, p);
    }
  }

  lemma MakerKindStays(s: State, a: Action, p: Id)
    requires Valid(s.pool) && Enabled(s, a) && p < |s.procs| && p < |Do(s, a).procs| && Do(s, a).procs[p].maker.Replace?
    ensures s.procs[p].maker.Replace?
  {
    if IsReplaceStep(a) { ReplaceStepIsLocal(s, a, p); } else { OthersLeaveMakers(s, a, p); }
  }

  predicate Compared(procs: seq<Proc>, p: Id) {
    p < |procs| && procs[p].maker.Replace? && procs[p].maker.pc != Reserved
  }

  lemma AbandonedFitsNext(s: State, a: Action, p: Id)
    requires Valid(s.pool) && MakersFit(s.procs) && Enabled(s, a) && ProcsEvolve(s.procs, Do(s, a).procs)
    requires Compared(Do(s, a).procs, p) && (Compared(s.procs, p) ==> AbandonedFits(s.procs, p))
    ensures AbandonedFits(Do(s, a).procs, p)
  {
    if p < |s.procs| {
      MakerKindStays(s, a, p);
      StepAbandons(s, a, p);
    } else {
      BornFresh(s, a);
    }
  }

  lemma AbandonedFitsStep(tr: seq<State>, acts: seq<Action>, i: nat, p: Id)
    requires IsRun(tr, acts) && i < |acts| && Compared(tr[i + 1].procs, p)
    requires Compared(tr[i].procs, p) ==> AbandonedFits(tr[i].procs, p)
    ensures AbandonedFits(tr[i + 1].procs, p)
  {
    InvHolds(tr, acts, i);
    EvolveStep(tr, acts, i);
    assert StepAt(tr, acts, i);
    AbandonedFitsNext(tr[i], acts[i], p);
  }

  lemma {:induction false} AbandonedFitsAlong(tr: seq<State>, acts: seq<Action>, n: nat, p: Id)
    requires IsRun(tr, acts) && n < |tr| && Compared(tr[n].procs, p)
    ensures AbandonedFits(tr[n].procs, p)
  {
    assert n > 0;
    if Compared(tr[n - 1].procs, p) { AbandonedFitsAlong(tr, acts, n - 1, p); }
    AbandonedFitsStep(tr, acts, n - 1, p);
  }

  /** Once a replacement has compared the binaries, in every run: it has abandoned its ports if
      and only if its binary is that of the process it was to replace. */
  lemma AbandonedIff(tr: seq<State>, acts: seq<Action>, n: nat, p: Id)
    requires IsRun(tr, acts) && n < |tr| && p < |tr[n].procs| && tr[n].procs[p].maker.Replace?
    requires tr[n].procs[p].maker.pc != Reserved
    ensures tr[n].procs[p].maker.prev < |tr[n].procs|
    ensures var procs := tr[n].procs;
            procs[p].status == Abandoned <==> procs[procs[p].maker.prev].binary == procs[p].binary
  {
    AbandonedFitsAlong(tr, acts, n, p);
    InvHolds(tr, acts, n);
    assert OwnFits(tr[n].procs[p]);
  }

  // ---------------------------------------------------------------------------------------
  // Pieces of runs

  /** A pool grants what is free at its resume position. */
  lemma GrantsAtStart(pool: Pool, n: nat)
    requires Valid(pool) && n >= 1 && AllFree(pool.free, pool.start, pool.start + n)
    ensures Allocate(pool, n) == Some(Take(pool, n, pool.start))
  {
    var free, i := pool.free, pool.start;
    assert NextFree(free, i) == i;
    RunEndSame(free, i, i + n);
    AllFreeUntilEnd(free, i + n);
    assert RunsFrom(free, i).Run? && RunsFrom(free, i).start == i && RunsFrom(free, i).len >= n;
  }

  /** A create of a process with a new name, without port arguments. */
  lemma CreateOne(tr0: seq<State>, acts0: seq<Action>, name: string, count: nat, t: Taken)
    returns (tr: seq<State>, acts: seq<Action>)
    requires IsRun(tr0, acts0) && name != "" && name !in tr0[|tr0| - 1].registry && count >= 1
    requires Valid(tr0[|tr0| - 1].pool) && Allocate(tr0[|tr0| - 1].pool, count) == Some(t)
    ensures IsRun(tr, acts) && tr[0] == tr0[0]
    ensures var s, e := tr0[|tr0| - 1], tr[|tr| - 1];
            && e.pool == t.pool && e.registry == s.registry[name := |s.procs|] && e.threads == s.threads
            && e.procs == s.procs + [Proc(name, "b", count, t.first, t.last, Registered, Create)]
  {
    tr, acts := Extend(tr0, acts0, RegisterProcess(Spec(name, "b", count, [])));
  }

  /** A delete has left its worker behind. */
  lemma DeleteCalled(tr0: seq<State>, acts0: seq<Action>, name: string) returns (tr: seq<State>, acts: seq<Action>)
    requires IsRun(tr0, acts0) && name in tr0[|tr0| - 1].registry
    requires var s := tr0[|tr0| - 1]; s.registry[name] < |s.procs| && s.procs[s.registry[name]].name == name
    ensures IsRun(tr, acts) && tr[0] == tr0[0]
    ensures var s, e := tr0[|tr0| - 1], tr[|tr| - 1]; var id := s.registry[name];
            e == s.(threads := s.threads + [DeleteReturned(id), Worker(id, Waiting(0))])
  {
    var s := tr0[|tr0| - 1];
    var t := |s.threads|;
    tr, acts := Extend(tr0, acts0, FindForDelete(name));
    tr, acts := Extend(tr, acts, StopTarget(t));
    tr, acts := Extend(tr, acts, UnregisterProcess(t));
    assert tr[|tr| - 1].threads == s.threads + [DeleteReturned(s.registry[name]), Worker(s.registry[name], Waiting(0))];
  }

  /** The worker finds the process ended, twice. */
  lemma WorkerPolled(tr0: seq<State>, acts0: seq<Action>, t: nat) returns (tr: seq<State>, acts: seq<Action>)
    requires IsRun(tr0, acts0) && WorkerAt(tr0[|tr0| - 1], t, Waiting(0))
    ensures IsRun(tr, acts) && tr[0] == tr0[0]
    ensures var s := tr0[|tr0| - 1];
            tr[|tr| - 1] == s.(threads := s.threads[t := Worker(s.threads[t].target, Removing)])
  {
    tr, acts := Extend(tr0, acts0, PollWorker(t, true));
    tr, acts := Extend(tr, acts, PollWorker(t, true));
  }

  /** A delete from the call to the removal. */
  lemma DeleteOne(tr0: seq<State>, acts0: seq<Action>, name: string) returns (tr: seq<State>, acts: seq<Action>)
    requires IsRun(tr0, acts0) && name in tr0[|tr0| - 1].registry && Valid(tr0[|tr0| - 1].pool)
    requires var s := tr0[|tr0| - 1]; s.registry[name] < |s.procs| && s.procs[s.registry[name]].name == name
    ensures IsRun(tr, acts) && tr[0] == tr0[0]
    ensures var s, e := tr0[|tr0| - 1], tr[|tr| - 1]; var id := s.registry[name];
            && e.pool == PoolAfter(s.pool, s.procs[id]) && e.registry == s.registry - {name}
            && e.procs == s.procs[id := s.procs[id].(status := AfterRelease(s.pool, s.procs[id]))]
  {
    var t := |tr0[|tr0| - 1].threads| + 1;
    tr, acts := DeleteCalled(tr0, acts0, name);
    tr, acts := WorkerPolled(tr, acts, t);
    tr, acts := Extend(tr, acts, RemoveProcess(t));
  }

  function AfterRelease(pool: Pool, p: Proc): Status
    requires Valid(pool)
  {
    if GiveBack(pool, p).Freed? || p.count == 0 then Released else Leaked
  }

  // ---------------------------------------------------------------------------------------
  // Ports abandoned

  /** It happens in every pool: create a process, and replace it with its own binary. */
  lemma SameBinaryAbandons(s0: State) returns (tr: seq<State>, acts: seq<Action>)
    requires Init(s0)
    ensures IsRun(tr, acts) && tr[0] == s0
    ensures var s := tr[|tr| - 1];
            |s.procs| == 2 && s.procs[1].status == Abandoned && Holds(s.procs[1]) && s.registry == map["e" := 0]
  {
    tr, acts := Extend([s0], [], RegisterProcess(Spec("e", "b", 0, [])));
    GrantsAtStart(s0.pool, 1);
    tr, acts := Extend(tr, acts, InitReplace(Spec("e", "b", 1, []), "SIGHUP"));
    tr, acts := Extend(tr, acts, CompareBinary(1));
  }

  // ---------------------------------------------------------------------------------------
  // Ports refused

  /** Taken positions, a lone free one, a taken one, and all the rest free. */
  ghost predicate LoneAndRest(free: seq<bool>, pad: nat) {
    && |free| - pad >= 4 && (forall k :: 0 <= k < pad ==> !free[k])
    && free[pad] && !free[pad + 1] && AllFree(free, pad + 2, |free|)
  }

  lemma RestRun(free: seq<bool>, rest: nat)
    requires 0 < rest < |free| && !free[rest - 1] && AllFree(free, rest, |free|)
    ensures RunsFrom(free, rest - 1) == Run(rest, |free| - rest, Nil)
  {
    RunEndSame(free, rest, |free|);
    assert RunEnd(free, |free|) == |free| && RunsFrom(free, |free|) == Nil;
    assert NextFree(free, rest - 1) == rest;
  }

  lemma TwoRuns(free: seq<bool>, pad: nat)
    requires LoneAndRest(free, pad)
    ensures RunsFrom(free, 0) == Run(pad, 1, Run(pad + 2, |free| - pad - 2, Nil))
  {
    RestRun(free, pad + 2);
    NextFreeSame(free, 0, pad);
    assert NextFree(free, pad) == pad && RunEnd(free, pad) == pad + 1;
  }

  /** The rest is not granted as a whole. */
  lemma RestIsRefused(pool: Pool, pad: nat)
    requires Valid(pool) && pool.start == pool.size && LoneAndRest(pool.free, pad)
    ensures Allocate(pool, pool.size - pad - 2).None?
  {
    var n := pool.size - pad - 2;
    TwoRuns(pool.free, pad);
    assert RunsFrom(pool.free, pool.size) == Nil;
    assert AllUseless(Run(pad + 2, n, Nil), n, true);
    AllocateRefusesIff(pool, n);
  }

  function Made(name: string, count: nat, first: int): Proc {
    Proc(name, "b", count, first, first + count - 1, Registered, Create)
  }

  ghost predicate TakenTo(pool: Pool, pool0: Pool, n: nat) {
    && n <= pool0.size && pool.base == pool0.base && |pool.free| == pool.size == pool0.size && pool.start == n
    && (forall k :: 0 <= k < n ==> !pool.free[k]) && forall k :: n <= k < pool.size ==> pool.free[k]
  }

  /** The next create takes the next ports. */
  lemma CreateBehind(tr0: seq<State>, acts0: seq<Action>, pool0: Pool, name: string, n: nat, count: nat)
    returns (tr: seq<State>, acts: seq<Action>)
    requires IsRun(tr0, acts0) && name != "" && name !in tr0[|tr0| - 1].registry
    requires Valid(tr0[|tr0| - 1].pool) && TakenTo(tr0[|tr0| - 1].pool, pool0, n)
    requires 1 <= count && n + count <= pool0.size
    ensures IsRun(tr, acts) && tr[0] == tr0[0]
    ensures Valid(tr[|tr| - 1].pool) && TakenTo(tr[|tr| - 1].pool, pool0, n + count)
    ensures var s, e := tr0[|tr0| - 1], tr[|tr| - 1];
            && e.registry == s.registry[name := |s.procs|]
            && e.procs == s.procs + [Made(name, count, pool0.base + n)]
  {
    var pool := tr0[|tr0| - 1].pool;
    GrantsAtStart(pool, count);
    tr, acts := CreateOne(tr0, acts0, name, count, Take(pool, count, n));
  }

  /** The process is registered and has just those ports. */
  predicate HasRange(s: State, name: string, count: nat, first: int) {
    name in s.registry && s.registry[name] < |s.procs| && s.procs[s.registry[name]] == Made(name, count, first)
  }

  /** All ports are taken: some below, one by "x", one by "y", and the rest by "z". */
  lemma TakeAll(s0: State, pad: nat) returns (tr: seq<State>, acts: seq<Action>)
    requires Init(s0) && s0.pool.size - pad >= 4
    ensures IsRun(tr, acts) && tr[0] == s0
    ensures var s, b, n := tr[|tr| - 1], s0.pool.base + pad, s0.pool.size;
            && Valid(s.pool) && TakenTo(s.pool, s0.pool, n) && "w" !in s.registry
            && HasRange(s, "x", 1, b) && HasRange(s, "z", n - pad - 2, b + 2)
  {
    tr, acts := [s0], [];
    if pad > 0 {
      tr, acts := CreateBehind(tr, acts, s0.pool, "p", 0, pad);
    }
    tr, acts := CreateBehind(tr, acts, s0.pool, "x", pad, 1);
    tr, acts := CreateBehind(tr, acts, s0.pool, "y", pad + 1, 1);
    tr, acts := CreateBehind(tr, acts, s0.pool, "z", pad + 2, s0.pool.size - pad - 2);
  }

  /** The pool after the two have given their ports back. */
  function AfterBoth(pool: Pool, first: Proc, rest: Proc): Pool
    requires Valid(pool)
  {
    var pool' := PoolAfter(pool, first);
    if Valid(pool') then PoolAfter(pool', rest) else pool'
  }

  /** The flags after a lone position and the rest behind the next one have been given back. */
  function Returned(free: seq<bool>, pad: nat): seq<bool>
    requires |free| - pad >= 4
  {
    SetRange(SetRange(free, pad, pad + 1, true), pad + 2, |free|, true)
  }

  lemma ReturnedIsLoneAndRest(free: seq<bool>, pad: nat)
    requires |free| - pad >= 4 && forall k :: 0 <= k < |free| ==> !free[k]
    ensures LoneAndRest(Returned(free, pad), pad)
  {
  }

  lemma BothGoBack(pool: Pool, pad: nat)
    requires Valid(pool) && pool.size - pad >= 4 && pool.base + pad >= 1
    ensures Valid(PoolAfter(pool, Made("x", 1, pool.base + pad)))
    ensures AfterBoth(pool, Made("x", 1, pool.base + pad), Made("z", pool.size - pad - 2, pool.base + pad + 2))
            == pool.(free := Returned(pool.free, pad))
  {
    RangeGoesBack(pool, "x", 1, pad);
    var p4 := pool.(free := SetRange(pool.free, pad, pad + 1, true));
    RangeGoesBack(p4, "z", pool.size - pad - 2, pad + 2);
  }

  lemma FirstAndRestFreed(pool: Pool, pad: nat) returns (p5: Pool)
    requires Valid(pool) && pool.start == pool.size && pool.size - pad >= 4
    requires forall k :: 0 <= k < pool.size ==> !pool.free[k]
    ensures p5 == pool.(free := Returned(pool.free, pad)) && Valid(p5)
    ensures AllFree(p5.free, pad + 2, p5.size) && Allocate(p5, p5.size - pad - 2).None?
  {
    ReturnedIsLoneAndRest(pool.free, pad);
    p5 := pool.(free := Returned(pool.free, pad));
    RestIsRefused(p5, pad);
  }

  lemma RangeGoesBack(pool: Pool, name: string, count: nat, lo: nat)
    requires Valid(pool) && count >= 1 && lo + count <= pool.size && pool.base + lo >= 1
    ensures PoolAfter(pool, Made(name, count, pool.base + lo)) ==
            pool.(free := SetRange(pool.free, lo, lo + count, true))
  {
  }

  lemma DeleteFirstAndRest(tr0: seq<State>, acts0: seq<Action>, first: Proc, rest: Proc)
    returns (tr: seq<State>, acts: seq<Action>)
    requires IsRun(tr0, acts0) && Valid(tr0[|tr0| - 1].pool) && first.name == "x" && rest.name == "z"
    requires HasRange(tr0[|tr0| - 1], "x", 1, first.first) && first == Made("x", 1, first.first)
    requires rest.count >= 0 && HasRange(tr0[|tr0| - 1], "z", rest.count, rest.first)
    requires rest == Made("z", rest.count, rest.first)
    requires Valid(PoolAfter(tr0[|tr0| - 1].pool, first))
    ensures IsRun(tr, acts) && tr[0] == tr0[0] && tr[|tr| - 1].registry == tr0[|tr0| - 1].registry - {"x"} - {"z"}
    ensures tr[|tr| - 1].pool == AfterBoth(tr0[|tr0| - 1].pool, first, rest)
  {
    tr, acts := DeleteOne(tr0, acts0, "x");
    tr, acts := DeleteOne(tr, acts, "z");
  }

  /** The pool has that many adjacent free ports, the name is new, and the create is refused. */
  ghost predicate RefusesThoughFree(s: State, name: string, count: int, lo: int) {
    && Valid(s.pool) && count >= 1 && AllFree(s.pool.free, lo, lo + count) && name != "" && name !in s.registry
    && Do(s, RegisterProcess(Spec(name, "b", count, []))) == s
  }

  /** Without the slack of `SlackSuffices` a request can be refused although the pool has room, in
      every pool with four ports or more above port 0: take all ports, the first `pad`, enough to
      be past port 0, by one create, then by three, of one, one and the rest; delete the first and
      the third of these; and ask for the rest again. */
  lemma RefusedThoughFree(s0: State, pad: nat) returns (tr: seq<State>, acts: seq<Action>)
    requires Init(s0) && s0.pool.size - pad >= 4 && s0.pool.base + pad >= 1
    ensures IsRun(tr, acts) && tr[0] == s0
    ensures RefusesThoughFree(tr[|tr| - 1], "w", s0.pool.size - pad - 2, pad + 2)
  {
    tr, acts := TakeAll(s0, pad);
    tr, acts := RefusedAfterAll(tr, acts, s0.pool, pad);
  }

  /** All ports taken, "x" and "z" are deleted. */
  lemma BothDeleted(tr0: seq<State>, acts0: seq<Action>, base: int, size: int, pad: nat)
    returns (tr: seq<State>, acts: seq<Action>)
    requires IsRun(tr0, acts0) && size - pad >= 4 && base + pad >= 1
    requires var s := tr0[|tr0| - 1];
             && Valid(s.pool) && s.pool.base == base && s.pool.size == size
             && HasRange(s, "x", 1, base + pad) && HasRange(s, "z", size - pad - 2, base + pad + 2)
    ensures IsRun(tr, acts) && tr[0] == tr0[0]
    ensures var s, e := tr0[|tr0| - 1], tr[|tr| - 1];
            && |s.pool.free| - pad >= 4 && e.pool == s.pool.(free := Returned(s.pool.free, pad))
            && e.registry == s.registry - {"x"} - {"z"}
  {
    BothGoBack(tr0[|tr0| - 1].pool, pad);
    tr, acts := DeleteFirstAndRest(tr0, acts0, Made("x", 1, base + pad), Made("z", size - pad - 2, base + pad + 2));
  }

  lemma RefusedAfterAll(tr0: seq<State>, acts0: seq<Action>, pool0: Pool, pad: nat)
    returns (tr: seq<State>, acts: seq<Action>)
    requires IsRun(tr0, acts0) && pool0.size - pad >= 4 && pool0.base + pad >= 1
    requires var s, b, n := tr0[|tr0| - 1], pool0.base + pad, pool0.size;
             && Valid(s.pool) && TakenTo(s.pool, pool0, n) && "w" !in s.registry
             && HasRange(s, "x", 1, b) && HasRange(s, "z", n - pad - 2, b + 2)
    ensures IsRun(tr, acts) && tr[0] == tr0[0]
    ensures RefusesThoughFree(tr[|tr| - 1], "w", pool0.size - pad - 2, pad + 2)
  {
    var p5 := FirstAndRestFreed(tr0[|tr0| - 1].pool, pad);
    tr, acts := BothDeleted(tr0, acts0, pool0.base, pool0.size, pad);
    Refused(tr[|tr| - 1], p5, "w", pool0.size - pad - 2, pad + 2);
  }

  lemma Refused(s: State, pool: Pool, name: string, count: int, lo: int)
    requires Valid(pool) && s.pool == pool && count >= 1 && AllFree(pool.free, lo, lo + count)
    requires Allocate(pool, count).None? && name != "" && name !in s.registry
    ensures RefusesThoughFree(s, name, count, lo)
  {
  }
}
