/** What holds of the registry and the port pool in every run. */
module RegistryTheorems {
  import opened Wrappers
  import opened PortPool
  import opened Registry
  import opened RegistryInvariant
  import opened RegistrySteps

  // ---------------------------------------------------------------------------------------
  // Runs: any interleaving of actions that are enabled when they happen

  ghost predicate Next(s: State, a: Action, s': State) {
    Valid(s.pool) && Enabled(s, a) && s' == Do(s, a)
  }

  /** `tr` are the states a run goes through, `acts` the actions between them. */
  ghost predicate IsRun(tr: seq<State>, acts: seq<Action>) {
    && |tr| == |acts| + 1
    && Init(tr[0])
    && forall i :: 0 <= i < |acts| ==> StepAt(tr, acts, i)
  }

  ghost predicate StepAt(tr: seq<State>, acts: seq<Action>, i: nat)
    requires i < |acts| && |tr| == |acts| + 1
  {
    Next(tr[i], acts[i], tr[i + 1])
  }

  lemma InitHolds(s: State)
    requires Init(s)
    ensures Inv(s)
  {
    AllFreeCount(s.pool.free, s.pool.size);
  }

  /** Every state of every run satisfies the invariant. */
  lemma {:induction false} InvHolds(tr: seq<State>, acts: seq<Action>, i: nat)
    requires IsRun(tr, acts) && i < |tr|
    ensures Inv(tr[i])
  {
    if i == 0 {
      InitHolds(tr[0]);
    } else {
      InvHolds(tr, acts, i - 1);
      assert StepAt(tr, acts, i - 1);
      StepKeeps(tr[i - 1], acts[i - 1]);
    }
  }

  lemma EvolveStep(tr: seq<State>, acts: seq<Action>, i: nat)
    requires IsRun(tr, acts) && i < |acts|
    ensures ProcsEvolve(tr[i].procs, tr[i + 1].procs)
  {
    InvHolds(tr, acts, i);
    assert StepAt(tr, acts, i);
    StepKeeps(tr[i], acts[i]);
  }

  /** Along a run processes only evolve: nothing that matters is ever undone. */
  lemma {:induction false} EvolveAlong(tr: seq<State>, acts: seq<Action>, i: nat, j: nat)
    requires IsRun(tr, acts) && i <= j < |tr|
    ensures ProcsEvolve(tr[i].procs, tr[j].procs)
  {
    if i < j {
      EvolveAlong(tr, acts, i, j - 1);
      EvolveStep(tr, acts, j - 1);
      var a, b, c := tr[i].procs, tr[j - 1].procs, tr[j].procs;
      forall k | 0 <= k < |a| ensures Evolves(a[k], c[k]) {
        assert Evolves(a[k], b[k]) && Evolves(b[k], c[k]);
      }
    }
  }

  // ---------------------------------------------------------------------------------------
  // Ports

  predicate HoldsPort(p: Proc, port: int) { Holds(p) && p.first <= port <= p.last }

  /** In every reachable state the processes that hold ports hold pairwise disjoint ranges inside
      the pool, the taken ports are exactly theirs, and free and held ports add up to the pool. */
  lemma PortsAreExclusive(tr: seq<State>, acts: seq<Action>, n: nat)
    requires IsRun(tr, acts) && n < |tr|
    ensures forall i :: 0 <= i < |tr[n].procs| && Holds(tr[n].procs[i]) ==>
              InRange(tr[n].pool.base, tr[n].pool.size, tr[n].procs[i])
    ensures forall i, j, port :: 0 <= i < j < |tr[n].procs| ==>
              !(HoldsPort(tr[n].procs[i], port) && HoldsPort(tr[n].procs[j], port))
    ensures |tr[n].pool.free| == tr[n].pool.size
    ensures forall k :: 0 <= k < tr[n].pool.size ==>
              (!tr[n].pool.free[k] <==>
               exists i :: 0 <= i < |tr[n].procs| && HoldsPort(tr[n].procs[i], tr[n].pool.base + k))
    ensures FreeCount(tr[n].pool.free) + HeldBelow(tr[n].procs, |tr[n].procs|) == tr[n].pool.size
  {
    InvHolds(tr, acts, n);
    var s := tr[n];
    forall i, j, port | 0 <= i < j < |s.procs|
      ensures !(HoldsPort(s.procs[i], port) && HoldsPort(s.procs[j], port))
    {
      if HoldsPort(s.procs[i], port) && HoldsPort(s.procs[j], port) {
        OwnerOfHeldPort(s, i, port);
        OwnerOfHeldPort(s, j, port);
      }
    }
    forall k | 0 <= k < s.pool.size
      ensures !s.pool.free[k] <==> exists i :: 0 <= i < |s.procs| && HoldsPort(s.procs[i], s.pool.base + k)
    {
      TakenIffHeld(s, k);
    }
  }

  lemma TakenIffHeld(s: State, k: nat)
    requires HolderInv(s) && k < s.pool.size
    ensures !s.pool.free[k] <==> exists i :: 0 <= i < |s.procs| && HoldsPort(s.procs[i], s.pool.base + k)
  {
    assert OwnerHolds(s.pool.base, s.procs, k, s.h.owner[k]);
    if !s.pool.free[k] {
      assert HoldsPort(s.procs[s.h.owner[k]], s.pool.base + k);
    }
    forall i | 0 <= i < |s.procs| && HoldsPort(s.procs[i], s.pool.base + k) ensures !s.pool.free[k] {
      OwnerOfHeldPort(s, i, s.pool.base + k);
    }
  }

  lemma OwnerOfHeldPort(s: State, i: nat, port: int)
    requires HolderInv(s) && i < |s.procs| && HoldsPort(s.procs[i], port)
    ensures 0 <= port - s.pool.base < s.pool.size && s.h.owner[port - s.pool.base] == i
    ensures !s.pool.free[port - s.pool.base]
  {
    assert OwnsAll(s.pool.base, s.h.owner, s.procs[i], i);
  }

  /** The process whose ports an action gives back, if any. */
  ghost function Releaser(s: State, a: Action): Option<Id>
    requires Enabled(s, a)
  {
    match a
    case CleanupRelease(p) => Some(p)
    case Swap(p) =>
      if s.procs[p].name in s.registry && s.registry[s.procs[p].name] == s.procs[p].maker.prev
      then Some(s.procs[p].maker.prev) else None
    case RemoveProcess(t) =>
      var id := s.threads[t].target;
      if s.procs[id].name in s.registry && s.registry[s.procs[id].name] == id then Some(id) else None
    case _ => None
  }

  predicate GivesBack(a: Action) { a.Swap? || a.RemoveProcess? || a.CleanupRelease? }

  lemma GivingBackIsOwn(s: State, a: Action, i: nat)
    requires Valid(s.pool) && Enabled(s, a) && GivesBack(a)
    requires i < |Do(s, a).procs| && GoneBack(Do(s, a).procs[i].status)
    ensures i < |s.procs| && (s.procs[i].status == Do(s, a).procs[i].status || Releaser(s, a) == Some(i))
  {
  }

  lemma OthersGiveNothingBack(s: State, a: Action, i: nat)
    requires Valid(s.pool) && Enabled(s, a) && !GivesBack(a)
    requires i < |Do(s, a).procs| && GoneBack(Do(s, a).procs[i].status)
    ensures i < |s.procs| && s.procs[i].status == Do(s, a).procs[i].status
  {
  }

  /** A process's ports go back to the pool, or leak, only when an action gives them back for it. */
  lemma OnlyReleaserGoesBack(s: State, a: Action, i: nat)
    requires Valid(s.pool) && Enabled(s, a) && i < |Do(s, a).procs| && GoneBack(Do(s, a).procs[i].status)
    ensures i < |s.procs| && (s.procs[i].status == Do(s, a).procs[i].status || Releaser(s, a) == Some(i))
  {
    if GivesBack(a) { GivingBackIsOwn(s, a, i); } else { OthersGiveNothingBack(s, a, i); }
  }

  lemma ReleaserHolds(s: State, a: Action)
    requires Inv(s) && Enabled(s, a) && Releaser(s, a).Some?
    ensures var id := Releaser(s, a).value;
            && id < |s.procs| && (s.procs[id].status == Pending || s.procs[id].status == Registered)
            && (s.procs[id].count > 0 ==> Holds(s.procs[id]))
  {
    if a.Swap? { assert PrevFits(s.procs, a.p); }
    assert OwnFits(s.procs[Releaser(s, a).value]);
  }

  lemma {:induction false} TakingFreesNothing(pool: Pool, spec: Spec, k: nat)
    requires Valid(pool) && k < pool.size && !pool.free[k] && Reserve(pool, spec).Some?
    ensures Reserve(pool, spec).value.pool.size == pool.size && !Reserve(pool, spec).value.pool.free[k]
  {
    if spec.portCount > 0 { AllocateTakesFree(pool, spec.portCount); }
  }

  function PoolAfter(pool: Pool, p: Proc): Pool
    requires Valid(pool)
  {
    match GiveBack(pool, p)
    case Freed(freed) => freed
    case _ => pool
  }

  lemma ReleaserGivesBack(s: State, a: Action)
    requires Inv(s) && Enabled(s, a) && Releaser(s, a).Some?
    requires Releaser(s, a).value < |s.procs|
    ensures Do(s, a).pool == PoolAfter(s.pool, s.procs[Releaser(s, a).value])
  {
  }

  lemma GiveBackFreesOwn(pool: Pool, p: Proc, k: nat)
    requires Valid(pool) && k < pool.size && CountFits(p) && !pool.free[k]
    requires k < |PoolAfter(pool, p).free| && PoolAfter(pool, p).free[k]
    ensures p.count > 0 && p.first <= pool.base + k <= p.last
  {
  }

  /** An action that gives nothing back frees nothing. */
  lemma OthersFreeNothing(s: State, a: Action, k: nat)
    requires Inv(s) && Enabled(s, a) && Releaser(s, a).None? && k < s.pool.size
    requires !s.pool.free[k]
    ensures |Do(s, a).pool.free| == s.pool.size && !Do(s, a).pool.free[k]
  {
    if (a.RegisterProcess? || a.InitReplace?) && Reserve(s.pool, a.spec).Some? {
      TakingFreesNothing(s.pool, a.spec, k);
    }
  }

  /** Whenever an action makes a port free, that port was held by the very process the action
      gives back for, in the state right before: nobody ever frees another process's ports. */
  lemma FreedPortsWereHeld(tr: seq<State>, acts: seq<Action>, n: nat, k: nat)
    requires IsRun(tr, acts) && n < |acts|
    requires k < |tr[n].pool.free| && !tr[n].pool.free[k]
    requires k < |tr[n + 1].pool.free| && tr[n + 1].pool.free[k]
    ensures Enabled(tr[n], acts[n]) && Releaser(tr[n], acts[n]).Some?
    ensures var id := Releaser(tr[n], acts[n]).value;
            id < |tr[n].procs| && HoldsPort(tr[n].procs[id], tr[n].pool.base + k)
  {
    InvHolds(tr, acts, n);
    assert StepAt(tr, acts, n);
    var s, a := tr[n], acts[n];
    if Releaser(s, a).None? {
      OthersFreeNothing(s, a, k);
    } else {
      ReleaserHolds(s, a);
      ReleaserGivesBack(s, a);
      var id := Releaser(s, a).value;
      assert CountFits(s.procs[id]);
      GiveBackFreesOwn(s.pool, s.procs[id], k);
    }
  }

  /** In any run a process's range is given back at most once, and only by a process that still
      held it (or had none): each record in the history is of a different process. */
  lemma ReleasedAtMostOnce(tr: seq<State>, acts: seq<Action>, n: nat, i: nat, j: nat)
    requires IsRun(tr, acts) && n < |tr| && i < j < |tr[n].h.releases|
    ensures tr[n].h.releases[i] != tr[n].h.releases[j]
  {
    InvHolds(tr, acts, n);
  }

  // ---------------------------------------------------------------------------------------
  // The registry as an atomic object

  /** The change an action makes to the registry, if any: a create takes effect when it
      registers, a replacement at its swap, a delete at its worker's removal. */
  ghost function EventOf(s: State, a: Action): Option<Event>
    requires Valid(s.pool) && Enabled(s, a)
  {
    match a
    case RegisterProcess(spec) =>
      if spec.name == "" || spec.binary == "" || spec.name in s.registry || Reserve(s.pool, spec).None? then None
      else Some(Created(spec.name, |s.procs|))
    case Swap(p) =>
      var r := s.procs[p];
      if r.name in s.registry && s.registry[r.name] != r.maker.prev then None
      else Some(Replaced(r.name, p, r.maker.prev))
    case RemoveProcess(t) =>
      var id := s.threads[t].target;
      var name := s.procs[id].name;
      if name in s.registry && s.registry[name] == id then Some(Removed(name, id, t)) else None
    case _ => None
  }

  /** The interleaved calls refine an atomic registry: the recorded changes are a legal history
      of it that ends in the registry as it is; each action makes at most one change, allowed by
      the atomic registry at that moment, and every other action leaves the registry alone. */
  lemma RefinesAtomicRegistry(tr: seq<State>, acts: seq<Action>, n: nat)
    requires IsRun(tr, acts) && n < |acts|
    ensures Replay(tr[n].h.log) == Some(tr[n].registry)
    ensures Valid(tr[n].pool) && Enabled(tr[n], acts[n])
    ensures match EventOf(tr[n], acts[n])
            case None => tr[n + 1].h.log == tr[n].h.log && tr[n + 1].registry == tr[n].registry
            case Some(e) => tr[n + 1].h.log == tr[n].h.log + [e] && Apply(tr[n].registry, e) == Some(tr[n + 1].registry)
  {
    InvHolds(tr, acts, n);
    assert StepAt(tr, acts, n);
    if acts[n].Swap? { assert PrevFits(tr[n].procs, acts[n].p); }
    StepIsAtomic(tr[n], acts[n]);
  }

  /** The change `e` leads from `s` to `s'`. */
  ghost predicate Changes(s: State, e: Option<Event>, s': State) {
    match e
    case None => s'.h.log == s.h.log && s'.registry == s.registry
    case Some(e) => s'.h.log == s.h.log + [e] && Apply(s.registry, e) == Some(s'.registry)
  }

  predicate ChangesRegistry(a: Action) { a.RegisterProcess? || a.Swap? || a.RemoveProcess? }

  lemma RegisterIsAtomic(s: State, spec: Spec)
    requires Valid(s.pool)
    ensures Changes(s, EventOf(s, RegisterProcess(spec)), DoRegister(s, spec))
  {
  }

  lemma SwapIsAtomic(s: State, p: Id)
    requires Valid(s.pool) && At(s, p, Swapping) && s.procs[p].maker.prev < |s.procs|
    ensures Changes(s, EventOf(s, Swap(p)), DoSwap(s, p))
  {
  }

  lemma RemoveIsAtomic(s: State, t: nat)
    requires Valid(s.pool) && Enabled(s, RemoveProcess(t))
    ensures Changes(s, EventOf(s, RemoveProcess(t)), DoRemove(s, t))
  {
  }

  lemma OthersAreInvisible(s: State, a: Action)
    requires Valid(s.pool) && Enabled(s, a) && !ChangesRegistry(a)
    ensures Changes(s, None, Do(s, a))
  {
  }

  lemma StepIsAtomic(s: State, a: Action)
    requires Valid(s.pool) && Enabled(s, a) && (a.Swap? ==> s.procs[a.p].maker.prev < |s.procs|)
    ensures Changes(s, EventOf(s, a), Do(s, a))
  {
    match a
    case RegisterProcess(spec) => RegisterIsAtomic(s, spec);
    case Swap(p) => SwapIsAtomic(s, p);
    case RemoveProcess(t) => RemoveIsAtomic(s, t);
    case _ => OthersAreInvisible(s, a);
  }

  /** A registered process is displaced only by the worker of a delete of that very process, or
      by a replacement that set out to replace that very process, whatever other calls do with
      its name. */
  lemma DisplacedOnlyOnPurpose(tr: seq<State>, acts: seq<Action>, n: nat, name: string)
    requires IsRun(tr, acts) && n < |acts| && name in tr[n].registry
    requires name !in tr[n + 1].registry || tr[n + 1].registry[name] != tr[n].registry[name]
    ensures var id, a := tr[n].registry[name], acts[n];
            || (a.RemoveProcess? && a.t < |tr[n].threads| && tr[n].threads[a.t].target == id
                && name !in tr[n + 1].registry)
            || (a.Swap? && a.p < |tr[n].procs| && tr[n].procs[a.p].maker.Replace? && tr[n].procs[a.p].maker.prev == id
                && name in tr[n + 1].registry && tr[n + 1].registry[name] == a.p)
  {
    RefinesAtomicRegistry(tr, acts, n);
  }

  /** Names are unique to processes, and a process that has left never comes back. */
  lemma LeavesForGood(tr: seq<State>, acts: seq<Action>, i: nat, j: nat, k: nat, name: string, other: string)
    requires IsRun(tr, acts) && i <= j <= k < |tr|
    requires name in tr[i].registry
    requires forall n :: n in tr[j].registry ==> tr[j].registry[n] != tr[i].registry[name]
    ensures other in tr[k].registry ==> tr[k].registry[other] != tr[i].registry[name]
    ensures other in tr[i].registry && tr[i].registry[other] == tr[i].registry[name] ==> other == name
  {
    InvHolds(tr, acts, i);
    InvHolds(tr, acts, j);
    InvHolds(tr, acts, k);
    EvolveAlong(tr, acts, i, j);
    EvolveAlong(tr, acts, j, k);
    var id := tr[i].registry[name];
    assert OwnFits(tr[i].procs[id]) && Evolves(tr[i].procs[id], tr[j].procs[id]);
    assert GoneBack(tr[j].procs[id].status);
    assert Evolves(tr[j].procs[id], tr[k].procs[id]);
  }

  // ---------------------------------------------------------------------------------------
  // Replacements that fail

  /** The actions taken by the replacement `p` after it has reserved its ports. */
  predicate Own(a: Action, p: Id) {
    match a
    case CompareBinary(q) => q == p
    case StartReplacement(q, _) => q == p
    case PollReplacement(q, _) => q == p
    case StopOld(q) => q == p
    case Swap(q) => q == p
    case CleanupStop(q) => q == p
    case CleanupRelease(q) => q == p
    case _ => false
  }

  predicate IsReplaceStep(a: Action) { Own(a, ReplaceOf(a)) }

  function ReplaceOf(a: Action): Id {
    match a
    case CompareBinary(q) => q
    case StartReplacement(q, _) => q
    case PollReplacement(q, _) => q
    case StopOld(q) => q
    case Swap(q) => q
    case CleanupStop(q) => q
    case CleanupRelease(q) => q
    case _ => 0
  }

  lemma OthersLeaveMakers(s: State, a: Action, p: Id)
    requires Valid(s.pool) && Enabled(s, a) && p < |s.procs| && !IsReplaceStep(a)
    ensures p < |Do(s, a).procs| && Do(s, a).procs[p].maker == s.procs[p].maker
  {
  }

  lemma ReplaceStepIsLocal(s: State, a: Action, p: Id)
    requires Valid(s.pool) && Enabled(s, a) && p < |s.procs| && IsReplaceStep(a)
    ensures p < |Do(s, a).procs|
    ensures !Own(a, p) ==> Do(s, a).procs[p].maker == s.procs[p].maker
    ensures Own(a, p) ==> s.procs[p].maker.Replace? && s.procs[p].maker.pc.InFlight()
  {
  }

  /** Only the replacement itself moves its program counter, and only while in flight. */
  lemma OnlyOwnMoves(tr: seq<State>, acts: seq<Action>, i: nat, p: Id)
    requires IsRun(tr, acts) && i < |acts| && p < |tr[i].procs|
    ensures p < |tr[i + 1].procs|
    ensures !Own(acts[i], p) ==> tr[i + 1].procs[p].maker == tr[i].procs[p].maker
    ensures Own(acts[i], p) ==> tr[i].procs[p].maker.Replace? && tr[i].procs[p].maker.pc.InFlight()
  {
    assert StepAt(tr, acts, i);
    if IsReplaceStep(acts[i]) {
      ReplaceStepIsLocal(tr[i], acts[i], p);
    } else {
      OthersLeaveMakers(tr[i], acts[i], p);
    }
  }

  lemma {:induction false} FinishedStays(tr: seq<State>, acts: seq<Action>, i: nat, j: nat, p: Id)
    requires IsRun(tr, acts) && i <= j < |tr| && p < |tr[i].procs|
    requires tr[i].procs[p].maker.Replace? && !tr[i].procs[p].maker.pc.InFlight()
    ensures p < |tr[j].procs| && tr[j].procs[p].maker == tr[i].procs[p].maker
  {
    if i < j {
      FinishedStays(tr, acts, i, j - 1, p);
      OnlyOwnMoves(tr, acts, j - 1, p);
    }
  }

  /** One own step: no effect on registry or pool, unless it swaps or gives back its own ports. */
  lemma OwnStep(s: State, a: Action, p: Id)
    requires Valid(s.pool) && Enabled(s, a) && Own(a, p) && (a.Swap? ==> s.procs[p].maker.prev < p)
    ensures p < |s.procs| && p < |Do(s, a).procs| && Do(s, a).procs[p].maker.Replace?
    ensures var s' := Do(s, a);
            || s'.procs[p].maker.pc == Swapped
            || (s'.registry == s.registry
                && (if a.CleanupRelease? then s'.pool == PoolAfter(s.pool, s.procs[p]) else s'.pool == s.pool))
    ensures Do(s, a).procs[p].maker.pc.Failed? ==> a.CleanupRelease?
    ensures a.CleanupRelease? ==> Do(s, a).procs[p].maker.pc.Failed?
    ensures a.StopOld? ==> StopCounted(Do(s, a).procs[p])
  {
  }

  /** A failed replacement, step by step: none of its steps after the reservation touched the
      registry; none touched the pool but one, which gave back exactly its own range; and if it
      failed before the old process was to be stopped, it never stopped it. */
  lemma FailedReplaceHasNoEffect(tr: seq<State>, acts: seq<Action>, n: nat, p: Id, m: nat)
    requires IsRun(tr, acts) && n < |tr| && p < |tr[n].procs|
    requires tr[n].procs[p].maker.Replace? && tr[n].procs[p].maker.pc.Failed?
    requires m < n && Own(acts[m], p)
    ensures p < |tr[m].procs| && tr[m + 1].registry == tr[m].registry && Valid(tr[m].pool)
    ensures tr[m + 1].pool == if acts[m].CleanupRelease? then PoolAfter(tr[m].pool, tr[m].procs[p]) else tr[m].pool
    ensures acts[m].CleanupRelease? ==> forall k :: m < k < n ==> !Own(acts[k], p)
    ensures acts[m].StopOld? ==> tr[n].procs[p].maker.pc.stoppedOld
  {
    InvHolds(tr, acts, m);
    assert StepAt(tr, acts, m);
    if acts[m].Swap? { assert PrevFits(tr[m].procs, p); }
    OwnStep(tr[m], acts[m], p);
    if !tr[m + 1].procs[p].maker.pc.InFlight() {
      FinishedStays(tr, acts, m + 1, n, p);
    }
    if acts[m].CleanupRelease? {
      forall k | m < k < n ensures !Own(acts[k], p) {
        FinishedStays(tr, acts, m + 1, k, p);
        OnlyOwnMoves(tr, acts, k, p);
      }
    }
    if acts[m].StopOld? {
      EvolveAlong(tr, acts, m + 1, n);
      assert Evolves(tr[m + 1].procs[p], tr[n].procs[p]);
    }
  }

  /** And it did give its range back. */
  lemma {:induction false} FailedReplaceGaveBack(tr: seq<State>, acts: seq<Action>, n: nat, p: Id) returns (m: nat)
    requires IsRun(tr, acts) && n < |tr| && p < |tr[n].procs|
    requires tr[n].procs[p].maker.Replace? && tr[n].procs[p].maker.pc.Failed?
    ensures m < n && acts[m] == CleanupRelease(p)
  {
    assert n > 0;
    if Own(acts[n - 1], p) {
      FailsByCleanup(tr, acts, n - 1, p);
      m := n - 1;
    } else {
      NotBornFailed(tr, acts, n - 1, p);
      OnlyOwnMoves(tr, acts, n - 1, p);
      m := FailedReplaceGaveBack(tr, acts, n - 1, p);
    }
  }

  lemma FailsByCleanup(tr: seq<State>, acts: seq<Action>, i: nat, p: Id)
    requires IsRun(tr, acts) && i < |acts| && Own(acts[i], p)
    requires p < |tr[i + 1].procs| && tr[i + 1].procs[p].maker.Replace? && tr[i + 1].procs[p].maker.pc.Failed?
    ensures acts[i] == CleanupRelease(p)
  {
    InvHolds(tr, acts, i);
    assert StepAt(tr, acts, i);
    if acts[i].Swap? { assert PrevFits(tr[i].procs, p); }
    OwnStep(tr[i], acts[i], p);
  }

  lemma NotBornFailed(tr: seq<State>, acts: seq<Action>, i: nat, p: Id)
    requires IsRun(tr, acts) && i < |acts|
    requires p < |tr[i + 1].procs| && tr[i + 1].procs[p].maker.Replace? && tr[i + 1].procs[p].maker.pc.Failed?
    ensures p < |tr[i].procs|
  {
    assert StepAt(tr, acts, i);
    if p >= |tr[i].procs| { BornFresh(tr[i], acts[i]); }
  }

  lemma BornFresh(s: State, a: Action)
    requires Valid(s.pool) && Enabled(s, a)
    ensures |Do(s, a).procs| <= |s.procs| + 1
    ensures |Do(s, a).procs| == |s.procs| + 1 ==>
              var m := Do(s, a).procs[|s.procs|].maker; m == Create || (m.Replace? && m.pc == Reserved)
  {
  }
}
