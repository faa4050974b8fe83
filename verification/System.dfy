/** The registry and the processes together: the answers the registry protocol gets from its
    processes are the states their lifecycles are in, and its stop and start calls are steps of
    those lifecycles. Each process counts its own time from its creation. */
module System {
  import opened PortPool
  import opened ProcessState
  import R = Registry
  import RI = RegistryInvariant
  import RS = RegistrySteps
  import RT = RegistryTheorems
  import L = Lifecycle

  datatype State = State(reg: R.State, lives: seq<L.Life>)

  datatype Action =
    | OfRegistry(r: R.Action)             // no stop call
    | StopCall(r: R.Action, k: nat)       // a stop call of the registry, the `k`-th of its target
    | OfProcess(id: nat, l: L.Action)

  predicate IsStop(r: R.Action) { r.StopTarget? || r.StopOld? || r.CleanupStop? }

  /** The process a stop call is for. */
  function Target(reg: R.State, r: R.Action): nat
    requires IsStop(r) && R.Enabled(reg, r)
  {
    match r
    case StopTarget(t) => reg.threads[t].target
    case StopOld(p) => reg.procs[p].maker.prev
    case CleanupStop(p) => p
  }

  /** What the registry reads of a process is what the process's state is. */
  predicate Agrees(s: State, r: R.Action)
    requires R.Enabled(s.reg, r)
  {
    match r
    case PollWorker(t, ended) =>
      s.reg.threads[t].target < |s.lives| && ended == Ended(s.lives[s.reg.threads[t].target].state)
    case PollReplacement(p, seen) => p < |s.lives| && seen == s.lives[p].state
    case StartReplacement(p, ok) => p < |s.lives| && L.Enabled(s.lives[p], L.Start(ok))
    case _ => true
  }

  predicate Enabled(s: State, a: Action) {
    match a
    case OfRegistry(r) => R.Enabled(s.reg, r) && !IsStop(r) && Agrees(s, r)
    case StopCall(r, k) =>
      && R.Enabled(s.reg, r) && IsStop(r)
      && Target(s.reg, r) < |s.lives| && L.Enabled(s.lives[Target(s.reg, r)], L.StopLock(k))
    case OfProcess(id, l) =>
      id < |s.lives| && id < |s.reg.procs| && L.Enabled(s.lives[id], l) && (l.Start? ==> s.reg.procs[id].maker.Create?)
  }

  /** A registry step adds the lifecycle of a process it makes, and starts a replacement. */
  function LivesAfter(lives: seq<L.Life>, procs: seq<R.Proc>, r: R.Action): seq<L.Life>
    requires r.StartReplacement? ==> r.p < |lives| && L.Enabled(lives[r.p], L.Start(r.ok))
  {
    if |procs| > |lives| then lives + [L.NewLife(procs[|lives|].first != 0, 0)]
    else if r.StartReplacement? then lives[r.p := L.Do(lives[r.p], L.Start(r.ok))]
    else lives
  }

  function Do(s: State, a: Action): (s': State)
    requires Valid(s.reg.pool) && Enabled(s, a)
  {
    match a
    case OfRegistry(r) => var reg := R.Do(s.reg, r); State(reg, LivesAfter(s.lives, reg.procs, r))
    case StopCall(r, k) =>
      var id := Target(s.reg, r);
      State(R.Do(s.reg, r), s.lives[id := L.Do(s.lives[id], L.StopLock(k))])
    case OfProcess(id, l) => s.(lives := s.lives[id := L.Do(s.lives[id], l)])
  }

  // ---------------------------------------------------------------------------------------
  // Runs

  ghost predicate Next(s: State, a: Action, s': State) {
    Valid(s.reg.pool) && Enabled(s, a) && s' == Do(s, a)
  }

  ghost predicate StepAt(tr: seq<State>, acts: seq<Action>, i: nat)
    requires i < |acts| && |tr| == |acts| + 1
  {
    Next(tr[i], acts[i], tr[i + 1])
  }

  ghost predicate IsPath(tr: seq<State>, acts: seq<Action>) {
    |tr| == |acts| + 1 && forall i :: 0 <= i < |acts| ==> StepAt(tr, acts, i)
  }

  ghost predicate IsRun(tr: seq<State>, acts: seq<Action>) {
    IsPath(tr, acts) && R.Init(tr[0].reg) && tr[0].lives == []
  }

  ghost predicate LivesInv(lives: seq<L.Life>) { forall i :: 0 <= i < |lives| ==> L.Inv(lives[i]) }

  ghost predicate Inv(s: State) {
    RI.Inv(s.reg) && |s.lives| == |s.reg.procs| && LivesInv(s.lives)
  }

  lemma NewLifeInv(hasPort: bool)
    ensures L.Inv(L.NewLife(hasPort, 0))
  {
  }

  lemma OneLifeSteps(lives: seq<L.Life>, id: nat, l: L.Action)
    requires LivesInv(lives) && id < |lives| && L.Enabled(lives[id], l)
    ensures LivesInv(lives[id := L.Do(lives[id], l)])
  {
    L.StepKeeps(lives[id], l);
  }

  lemma LivesGrow(lives: seq<L.Life>, hasPort: bool)
    requires LivesInv(lives)
    ensures LivesInv(lives + [L.NewLife(hasPort, 0)])
  {
    NewLifeInv(hasPort);
  }

  lemma LivesAfterKeeps(lives: seq<L.Life>, procs: seq<R.Proc>, r: R.Action)
    requires r.StartReplacement? ==> r.p < |lives| && L.Enabled(lives[r.p], L.Start(r.ok))
    requires LivesInv(lives) && |lives| <= |procs| <= |lives| + 1
    ensures LivesInv(LivesAfter(lives, procs, r)) && |LivesAfter(lives, procs, r)| == |procs|
  {
    if |procs| > |lives| {
      LivesGrow(lives, procs[|lives|].first != 0);
    } else if r.StartReplacement? {
      OneLifeSteps(lives, r.p, L.Start(r.ok));
    }
  }

  lemma StopMakesNobody(reg: R.State, r: R.Action)
    requires Valid(reg.pool) && R.Enabled(reg, r) && IsStop(r)
    ensures |R.Do(reg, r).procs| == |reg.procs|
  {
  }

  lemma StepKeeps(s: State, a: Action)
    requires Inv(s) && Enabled(s, a)
    ensures Inv(Do(s, a))
  {
    match a
    case OfRegistry(r) =>
      RS.StepKeeps(s.reg, r);
      RT.BornFresh(s.reg, r);
      LivesAfterKeeps(s.lives, R.Do(s.reg, r).procs, r);
    case StopCall(r, k) =>
      RS.StepKeeps(s.reg, r);
      StopMakesNobody(s.reg, r);
      OneLifeSteps(s.lives, Target(s.reg, r), L.StopLock(k));
    case OfProcess(id, l) => OneLifeSteps(s.lives, id, l);
  }

  /** Registry and lifecycles keep their invariants in every run of the whole. */
  lemma {:induction false} InvHolds(tr: seq<State>, acts: seq<Action>, n: nat)
    requires IsRun(tr, acts) && n < |tr|
    ensures Inv(tr[n])
  {
    if n == 0 {
      RT.InitHolds(tr[0].reg);
    } else {
      InvHolds(tr, acts, n - 1);
      assert StepAt(tr, acts, n - 1);
      StepKeeps(tr[n - 1], acts[n - 1]);
    }
  }
}
