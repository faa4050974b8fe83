/** The manager object: the map of processes and the port bitmap, with the manager's critical
    sections as methods. `Shows(s)` says that the object is in the state `s` of the registry
    protocol; each method is shown to do what the corresponding action does. */
module Manager {
  import opened Wrappers
  import opened PortRange
  import opened PortPool
  import opened ProcessState
  import opened Registry
  import Bitmap
  import PortArgs
  import opened RegistryInvariant
  import opened RegistryTheorems

  /** The part of a process object the manager works on. */
  class ManagedProcess {
    const uuid: Id
    const name: string
    const binary: string
    const portCount: int
    const portArgs: seq<string>
    var args: seq<string>
    var portStart: int
    var portEnd: int

    constructor (uuid: Id, spec: Spec, args: seq<string>)
      ensures this.uuid == uuid && SpecOf() == spec && this.args == args && portStart == portEnd == 0
    {
      this.uuid, name, binary, portCount, portArgs := uuid, spec.name, spec.binary, spec.portCount, spec.portArgs;
      this.args := args;
      portStart, portEnd := 0, 0;
    }

    function SpecOf(): Spec { Spec(name, binary, portCount, portArgs) }

    /** This object is the process `p` of the protocol. */
    ghost predicate Is(p: Proc)
      reads this
    {
      name == p.name && binary == p.binary && portCount == p.count && portStart == p.first && portEnd == p.last
    }
  }

  class Manager {
    const availablePorts: Bitmap.Bitmap
    var processes: map<string, ManagedProcess>

    ghost predicate Has(pool: Pool, registry: map<string, Id>, procs: seq<Proc>)
      reads this, availablePorts, processes.Values
    {
      && Valid(pool) && availablePorts.View() == pool
      && processes.Keys == registry.Keys
      && forall n :: n in processes ==>
           processes[n].uuid == registry[n] < |procs| && processes[n].Is(procs[registry[n]])
    }

    ghost predicate Shows(s: State)
      reads this, availablePorts, processes.Values
    {
      Has(s.pool, s.registry, s.procs)
    }

    constructor (bitmap: Bitmap.Bitmap)
      ensures availablePorts == bitmap && processes == map[]
    {
      availablePorts := bitmap;
      processes := map[];
    }

    method AllocatePorts(portCount: int) returns (r: Result<(int, int)>)
      requires availablePorts.Usable()
      modifies availablePorts
      ensures availablePorts.Usable() && Keeps(old(availablePorts.View()), availablePorts.View())
      ensures r.Err? ==> availablePorts.View() == old(availablePorts.View())
      ensures AnyPorts(old(availablePorts.View()), portCount) ==
              match r case Err => None case Ok(range) => Some(Taken(availablePorts.View(), range.0, range.1))
    {
      if portCount < 0 {
        return Err;
      }
      if portCount == 0 {
        return Ok((0, 0));
      }
      r := availablePorts.AllocateRange(portCount);
    }

    /** Reserves ports for a process and extends its arguments. A negative count never gets as far
        as the allocator, and in a sound pool the ports reserved suffice for the port arguments. */
    method AllocateProcessPorts(p: ManagedProcess) returns (ok: bool)
      requires availablePorts.Usable()
      modifies p, availablePorts
      ensures availablePorts.Usable() && Keeps(old(availablePorts.View()), availablePorts.View())
      ensures match AnyReserve(old(availablePorts.View()), p.SpecOf())
              case None => !ok && availablePorts.View() == old(availablePorts.View()) && p.args == old(p.args)
              case Some(t) =>
                var n := PortArgs.Fitting(p.portArgs, p.portStart, p.portEnd);
                && t == Taken(availablePorts.View(), p.portStart, p.portEnd) && (ok <==> n == |p.portArgs|)
                && PortArgs.NamesPorts(old(p.args), p.args, p.portArgs, p.portStart, n)
      ensures Valid(old(availablePorts.View())) ==> (ok <==> Reserve(old(availablePorts.View()), p.SpecOf()).Some?)
    {
      if |p.portArgs| > p.portCount {
        return false;
      }
      assert p.portCount >= 0;
      var range := AllocatePorts(p.portCount);
      if range.Err? {
        p.portStart, p.portEnd := 0, 0;
        return false;
      }
      p.portStart, p.portEnd := range.value.0, range.value.1;
      AnyFits(old(availablePorts.View()), p.SpecOf());
      ok, p.args := PortArgs.AppendPortArgs(p.args, p.portArgs, p.portStart, p.portEnd);
    }

    /** `None` is a run-time panic, which takes a range that is not of this pool. */
    method ReleasePorts(start: int, end: int) returns (r: Option<bool>)
      requires availablePorts.Usable() && Fits32(start) && Fits32(end)
      modifies availablePorts
      ensures Keeps(old(availablePorts.View()), availablePorts.View())
      ensures start < 0 || end < 0 ==> r == Some(false) && availablePorts.View() == old(availablePorts.View())
      ensures start >= 0 && end >= 0 ==>
                match ReleaseIn32Bits(old(availablePorts.View()), start, end)
                case None => r.None? && availablePorts.View() == old(availablePorts.View())
                case Some(Freed(pool)) => r == Some(true) && availablePorts.View() == pool
                case Some(Nothing) => r == Some(true) && availablePorts.View() == old(availablePorts.View())
                case Some(Rejected) => r == Some(false) && availablePorts.View() == old(availablePorts.View())
    {
      if start < 0 || end < 0 {
        return Some(false);
      }
      r := availablePorts.ReleaseRange(start, end);
    }

    /** A failure to release is only logged. */
    method ReleaseProcessPorts(p: ManagedProcess, ghost q: Proc)
      requires Valid(availablePorts.View()) && p.Is(q) && Within(availablePorts.View(), q)
      modifies availablePorts
      ensures Valid(availablePorts.View())
      ensures availablePorts.View() == PoolAfter(old(availablePorts.View()), q)
    {
      ReleaseSameIn32Bits(availablePorts.View(), q.first, q.last);
      var done := ReleasePorts(p.portStart, p.portEnd);
      assert done.Some?;
    }

    method FindProcess(name: string, ghost s: State) returns (r: Option<ManagedProcess>)
      requires Shows(s)
      ensures r.Some? <==> name in s.registry
      ensures r.Some? ==> r.value.uuid == s.registry[name] && r.value.Is(s.procs[s.registry[name]])
    {
      r := if name in processes then Some(processes[name]) else None;
    }

    /** The critical section of a delete after the stop: whether the worker that is to unregister
        `p` is started. */
    method UnregisterProcess(p: ManagedProcess, ghost s: State, ghost t: nat) returns (worker: bool)
      requires Shows(s) && Enabled(s, Action.UnregisterProcess(t))
      requires s.threads[t].target == p.uuid && p.Is(s.procs[p.uuid])
      ensures Shows(DoUnregister(s, t))
      ensures DoUnregister(s, t).threads ==
              s.threads[t := DeleteReturned(p.uuid)] + if worker then [Worker(p.uuid, Waiting(0))] else []
      ensures worker <==> p.name in s.registry && s.registry[p.name] == p.uuid
    {
      worker := p.name in processes && processes[p.name].uuid == p.uuid;
    }

    /** Puts the new object `p` in the map. */
    method Insert(
      p: ManagedProcess,
      ghost pool: Pool,
      ghost registry: map<string, Id>,
      ghost procs: seq<Proc>,
      ghost q: Proc)
      requires Has(pool, registry, procs) && p.uuid == |procs| && p.Is(q)
      modifies this
      ensures Has(pool, registry[p.name := p.uuid], procs + [q])
      ensures p.name in processes && processes[p.name] == p
    {
      processes := processes[p.name := p];
    }

    /** Gives the new object `p` its ports and puts it in the map, if its name is not there. */
    method Add(p: ManagedProcess, ghost pool: Pool, ghost registry: map<string, Id>, ghost procs: seq<Proc>)
      returns (ok: bool)
      requires Has(pool, registry, procs) && p.uuid == |procs|
      modifies this, p, availablePorts
      ensures ok <==> p.name !in registry && Reserve(pool, p.SpecOf()).Some?
      ensures !ok ==> Has(pool, registry, procs) && processes == old(processes)
      ensures ok ==>
                var t := Reserve(pool, p.SpecOf()).value;
                && Has(t.pool, registry[p.name := p.uuid], procs + [Entrant(p.SpecOf(), t)])
                && p.name in processes && processes[p.name] == p
    {
      if p.name in processes {
        return false;
      }
      var granted := AllocateProcessPorts(p);
      if !granted {
        return false;
      }
      ghost var t := Reserve(pool, p.SpecOf()).value;
      Insert(p, t.pool, registry, procs, Entrant(p.SpecOf(), t));
      ok := true;
    }

    /** The critical section of a create; `p` is a new object. */
    method RegisterProcess(p: ManagedProcess, ghost s: State) returns (ok: bool)
      requires Shows(s) && p.uuid == |s.procs| && p.name != "" && p.binary != ""
      modifies this, p, availablePorts
      ensures Shows(DoRegister(s, p.SpecOf()))
      ensures ok ==> p.name in processes && processes[p.name] == p
      ensures !ok ==> processes == old(processes) && DoRegister(s, p.SpecOf()) == s
    {
      RegisterEffect(s, p.SpecOf());
      ok := Add(p, s.pool, s.registry, s.procs);
    }

    /** The first critical section of a replace; `p` is a new object. */
    method InitProcessReplace(p: ManagedProcess, ghost s: State) returns (r: Option<ManagedProcess>)
      requires Shows(s) && p.uuid == |s.procs| && p.name != "" && p.binary != ""
      modifies p, availablePorts
      ensures var s' := DoInitReplace(s, p.SpecOf(), "SIGHUP");
              && Shows(s') && processes == old(processes)
              && (r.None? ==> s' == s)
              && (r.Some? ==>
                    && |s'.procs| == p.uuid + 1 && p.Is(s'.procs[p.uuid])
                    && s'.procs[p.uuid].maker == Replace(r.value.uuid, Reserved) && r.value.Is(s.procs[r.value.uuid]))
    {
      if p.name !in processes {
        return None;
      }
      var granted := AllocateProcessPorts(p);
      if !granted {
        return None;
      }
      r := Some(processes[p.name]);
    }

    /** Takes `p` out of the map and gives its ports back, if the map has it. */
    method TakeOut(p: ManagedProcess, ghost pool: Pool, ghost registry: map<string, Id>, ghost procs: seq<Proc>)
      requires Has(pool, registry, procs) && p.uuid < |procs| && p.Is(procs[p.uuid])
      requires p.name in registry && registry[p.name] == p.uuid ==> Within(pool, procs[p.uuid])
      modifies this, availablePorts
      ensures if p.name in registry && registry[p.name] == p.uuid
              then Has(PoolAfter(pool, procs[p.uuid]), registry - {p.name}, procs)
              else Has(pool, registry, procs)
    {
      if p.name !in processes || processes[p.name].uuid != p.uuid {
        return;
      }
      processes := processes - {p.name};
      ReleaseProcessPorts(p, procs[p.uuid]);
    }

    /** The critical section of the unregister worker `t` of the process `p`. */
    method RemoveProcess(p: ManagedProcess, ghost s: State, ghost t: nat)
      requires Shows(s) && HolderInv(s) && WorkerAt(s, t, Removing) && s.threads[t].target == p.uuid < |s.procs|
      requires p.Is(s.procs[p.uuid])
      modifies this, availablePorts
      ensures Shows(DoRemove(s, t))
    {
      RegisteredWithin(s, p.name);
      RemoveEffect(s, t);
      TakeOut(p, s.pool, s.registry, s.procs);
      SameFacesShow(s.procs, DoRemove(s, t));
    }

    /** Puts `p` in the place of `prev`, whose ports are given back, or in no one's place; false
        and without effect if some other process is there. */
    method PutIn(
      p: ManagedProcess,
      prev: ManagedProcess,
      ghost pool: Pool,
      ghost registry: map<string, Id>,
      ghost procs: seq<Proc>)
      returns (ok: bool)
      requires Has(pool, registry, procs) && p.uuid < |procs| && p.Is(procs[p.uuid])
      requires prev.uuid < |procs| && prev.Is(procs[prev.uuid])
      requires p.name in registry && registry[p.name] == prev.uuid ==> Within(pool, procs[prev.uuid])
      modifies this, availablePorts
      ensures ok <==> p.name !in registry || registry[p.name] == prev.uuid
      ensures ok ==> p.name in processes && processes[p.name] == p
      ensures if p.name !in registry then Has(pool, registry[p.name := p.uuid], procs)
              else if registry[p.name] == prev.uuid
              then Has(PoolAfter(pool, procs[prev.uuid]), registry[p.name := p.uuid], procs)
              else Has(pool, registry, procs) && processes == old(processes)
    {
      if p.name !in processes {
        // the process to replace is gone: only the new one is entered
      } else if processes[p.name].uuid == prev.uuid {
        ReleaseProcessPorts(prev, procs[prev.uuid]);
      } else {
        return false;
      }
      processes := processes[p.name := p];
      ok := true;
    }

    /** The last critical section of the replacement of `prev` by `p`; false if another process
        has taken the name, and `p` is to be cleaned up. */
    method SwapProcess(p: ManagedProcess, prev: ManagedProcess, ghost s: State) returns (ok: bool)
      requires Shows(s) && HolderInv(s) && At(s, p.uuid, Swapping)
      requires s.procs[p.uuid].maker.prev == prev.uuid < |s.procs|
      requires p.Is(s.procs[p.uuid]) && prev.Is(s.procs[prev.uuid])
      modifies this, availablePorts
      ensures Shows(DoSwap(s, p.uuid))
      ensures ok <==> p.name !in s.registry || s.registry[p.name] == prev.uuid
      ensures ok ==> p.name in processes && processes[p.name] == p
      ensures !ok ==> processes == old(processes)
    {
      RegisteredWithin(s, p.name);
      assert PrevFits(s.procs, p.uuid);
      SwapEffect(s, p.uuid);
      ok := PutIn(p, prev, s.pool, s.registry, s.procs);
      SameFacesShow(s.procs, DoSwap(s, p.uuid));
    }

    lemma SameFacesShow(procs: seq<Proc>, s: State)
      requires Has(s.pool, s.registry, procs) && SameFaces(procs, s.procs)
      ensures Shows(s)
    {
    }

    /** The release at the end of the cleanup of a replacement. */
    method CleanupReplacement(p: ManagedProcess, ghost s: State)
      requires Shows(s) && HolderInv(s) && Enabled(s, CleanupRelease(p.uuid)) && p.Is(s.procs[p.uuid])
      modifies availablePorts
      ensures Shows(Do(s, CleanupRelease(p.uuid))) && processes == old(processes)
    {
      HolderWithin(s, p.uuid);
      ReleaseProcessPorts(p, s.procs[p.uuid]);
    }
  }

  /** The goroutine that waits for a process to end before it unregisters it; `ended(i)` is what
      the `i`-th look finds. After up to 600 looks, or one that finds it ended, one more decides.
      Look by look this is what the worker's program counter does. */
  method AwaitEnd(ended: nat -> bool) returns (remove: bool, looks: nat, ghost pc: WorkerPc)
    ensures 1 <= looks <= WAIT_COUNT && (looks < WAIT_COUNT ==> ended(looks - 1))
    ensures forall i: nat :: i < looks - 1 ==> !ended(i)
    ensures remove <==> ended(looks)
    ensures pc == if remove then Removing else GaveUp
  {
    looks, pc := 0, Waiting(0);
    while looks < WAIT_COUNT
      invariant looks <= WAIT_COUNT && forall i: nat :: i < looks ==> !ended(i)
      invariant pc == if looks < WAIT_COUNT then Waiting(looks) else Rechecking
    {
      pc := AfterLook(pc, ended(looks));
      looks := looks + 1;
      if ended(looks - 1) {
        break;
      }
    }
    pc := AfterLook(pc, ended(looks));
    remove := ended(looks);
  }

  /** A sound pool stays sound. */
  predicate Keeps(pool: Pool, pool': Pool) { Valid(pool) ==> Valid(pool') }

  /** Ports from a pool that is sound or has overflown. */
  function AnyPorts(pool: Pool, count: int): (r: Option<Taken>)
    requires Valid(pool) || Overflown(pool)
  {
    if count < 0 then None
    else if count == 0 then Some(Taken(pool, 0, 0))
    else if Valid(pool) then Allocate(pool, count)
    else BlindAllocate(pool, count)
  }

  function AnyReserve(pool: Pool, spec: Spec): (r: Option<Taken>)
    requires Valid(pool) || Overflown(pool)
    ensures Valid(pool) ==> r == Reserve(pool, spec)
  {
    if |spec.portArgs| > spec.portCount then None else AnyPorts(pool, spec.portCount)
  }

  lemma AnyFits(pool: Pool, spec: Spec)
    requires (Valid(pool) || Overflown(pool)) && AnyReserve(pool, spec).Some?
    ensures var t := AnyReserve(pool, spec).value;
            && Fits32(t.first) && Fits32(t.last)
            && (Valid(pool) ==> PortArgs.Fitting(spec.portArgs, t.first, t.last) == |spec.portArgs|)
  {
    if Valid(pool) { PortArgs.ReservedFits(pool, spec); }
  }

  function InitialState(pool: Pool): State {
    var size := if pool.size > 0 then pool.size else 0;
    State(pool, map[], [], [], Idle, [], History([], [], [], Fill(size, -1)))
  }

  /** A new manager, or an error if the text is no port range or its bounds are reversed. If the
      span fits 31 bits, the manager is in an initial state of the protocol. */
  method NewManager(portRange: string) returns (r: Result<Manager>)
    ensures match ParsePortRange(portRange)
            case Err => r.Err?
            case Ok((first, last)) => r.Err? <==> last < first
    ensures r.Ok? ==>
              var range, m := ParsePortRange(portRange).value, r.value;
              && fresh(m) && fresh(m.availablePorts)
              && NewPool(range.0, range.1) == Ok(m.availablePorts.View()) && m.availablePorts.Usable()
              && (range.1 - range.0 + 1 < 0x8000_0000 ==>
                    var s0 := InitialState(m.availablePorts.View()); Init(s0) && m.Shows(s0))
  {
    var range := ParsePortRange(portRange);
    if range.Err? {
      return Err;
    }
    var bitmap := Bitmap.NewBitmap(range.value.0, range.value.1);
    if bitmap.Err? {
      return Err;
    }
    var m := new Manager(bitmap.value);
    r := Ok(m);
  }

  /** Processes look the same to the manager. */
  ghost predicate SameFaces(a: seq<Proc>, b: seq<Proc>) {
    |a| == |b| && forall i :: 0 <= i < |a| ==>
      && a[i].name == b[i].name && a[i].binary == b[i].binary
      && a[i].count == b[i].count && a[i].first == b[i].first && a[i].last == b[i].last
  }

  /** What a swap does to the parts of the state the manager object has. */
  lemma SwapEffect(s: State, p: Id)
    requires Valid(s.pool) && At(s, p, Swapping) && p != s.procs[p].maker.prev < |s.procs|
    ensures var s', name, prev := DoSwap(s, p), s.procs[p].name, s.procs[p].maker.prev;
            && SameFaces(s.procs, s'.procs)
            && (name !in s.registry ==> s'.pool == s.pool && s'.registry == s.registry[name := p])
            && (name in s.registry && s.registry[name] == prev ==>
                  s'.pool == PoolAfter(s.pool, s.procs[prev]) && s'.registry == s.registry[name := p])
            && (name in s.registry && s.registry[name] != prev ==> s'.pool == s.pool && s'.registry == s.registry)
  {
  }

  function Entrant(spec: Spec, t: Taken): Proc {
    Proc(spec.name, spec.binary, spec.portCount, t.first, t.last, Registered, Create)
  }

  lemma RegisterEffect(s: State, spec: Spec)
    requires Valid(s.pool) && spec.name != "" && spec.binary != ""
    ensures var s', t := DoRegister(s, spec), Reserve(s.pool, spec);
            if spec.name in s.registry || t.None? then s' == s
            else && s'.pool == t.value.pool && s'.registry == s.registry[spec.name := |s.procs|]
                 && s'.procs == s.procs + [Entrant(spec, t.value)]
  {
  }

  lemma RemoveEffect(s: State, t: nat)
    requires Valid(s.pool) && WorkerAt(s, t, Removing) && s.threads[t].target < |s.procs|
    ensures var s', id := DoRemove(s, t), s.threads[t].target; var name := s.procs[id].name;
            && SameFaces(s.procs, s'.procs)
            && if name in s.registry && s.registry[name] == id
               then s'.pool == PoolAfter(s.pool, s.procs[id]) && s'.registry == s.registry - {name}
               else s'.pool == s.pool && s'.registry == s.registry
  {
  }

  lemma RegisteredWithin(s: State, name: string)
    requires HolderInv(s)
    ensures name in s.registry ==> s.registry[name] < |s.procs| && Within(s.pool, s.procs[s.registry[name]])
  {
    if name in s.registry { HolderWithin(s, s.registry[name]); }
  }

  lemma HolderWithin(s: State, id: Id)
    requires HolderInv(s) && id < |s.procs| && (s.procs[id].status == Pending || s.procs[id].status == Registered)
    ensures Within(s.pool, s.procs[id])
  {
    assert CountFits(s.procs[id]);
    if s.procs[id].count > 0 { assert OwnsAll(s.pool.base, s.h.owner, s.procs[id], id); }
  }

  /** The waiting loop of a replacement: `seen(i)` is the state at the `i`-th poll. It decides to
      take over if all states before were Starting and this one is Running, or if all were
      Starting; and to clean up at the first other state. Poll by poll this is what the
      replacement's program counter does. */
  method AwaitReplacement(seen: nat -> ProcState) returns (takeOver: bool, polls: nat, ghost pc: ReplacePc)
    ensures polls <= REPLACE_POLLS && forall i: nat :: i < polls ==> seen(i) == Starting
    ensures polls < REPLACE_POLLS ==> seen(polls) != Starting
    ensures takeOver <==> polls == REPLACE_POLLS || seen(polls) == Running
    ensures pc == if takeOver then StoppingOld else CleanStopping(false)
  {
    polls, pc := 0, Polling(0);
    while polls < REPLACE_POLLS
      invariant polls <= REPLACE_POLLS && forall i: nat :: i < polls ==> seen(i) == Starting
      invariant pc == if polls < REPLACE_POLLS then Polling(polls) else StoppingOld
    {
      pc := AfterPoll(pc.polls, seen(polls));
      if seen(polls) == Running {
        break;
      } else if seen(polls) != Starting {
        return false, polls, pc;
      }
      polls := polls + 1;
    }
    takeOver := true;
  }

  /** The ports of a process lie within the pool, if it has any. */
  predicate Within(pool: Pool, q: Proc) {
    q.first == q.last == 0 || (pool.base <= q.first <= q.last < pool.base + pool.size)
  }
}
