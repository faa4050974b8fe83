/** The process registry and the port pool as a concurrent protocol.

    Every critical section of the manager is one action; the calls in flight and the background
    workers keep program counters, and actions of different calls interleave freely. Nothing in
    an action consults the bookkeeping in `History` or a process's `status`: those only record
    what happened, so that the theorems can speak about it. */
module Registry {
  import opened Wrappers
  import opened PortPool
  import opened ProcessState

  const REPLACE_POLLS: nat := 30

  /** A process's UUID: its place in the order of creation, hence unique. */
  type Id = nat

  datatype Spec = Spec(name: string, binary: string, portCount: int, portArgs: seq<string>)

  /** Who holds the ports a process was given. Pending: a replacement not yet registered.
      Abandoned: a replacement dropped without giving its ports back. Leaked: given back, but
      the pool refused. */
  datatype Status = Pending | Registered | Released | Abandoned | Leaked

  datatype ReplacePc =
    | Reserved                     // ports reserved, the binaries still to be compared
    | StartingNew
    | Polling(polls: nat)
    | StoppingOld
    | Swapping
    | CleanStopping(stoppedOld: bool)
    | CleanReleasing(stoppedOld: bool)
    | Failed(stoppedOld: bool)
    | SameBinary
    | Swapped
  {
    predicate InFlight() { !Failed? && !SameBinary? && !Swapped? }
  }

  datatype Maker = Create | Replace(prev: Id, pc: ReplacePc)

  datatype Proc = Proc(name: string, binary: string, count: int, first: int, last: int, status: Status, maker: Maker)

  datatype WorkerPc =
    | Waiting(polls: nat)
    | Rechecking
    | Removing
    | Notifying(removedAt: Option<nat>)
    | Notified(removedAt: Option<nat>, slot: nat)
    | GaveUp

  /** A delete call between its steps, or the goroutine it leaves behind. */
  datatype Thread =
    | DeleteFound(target: Id)
    | DeleteStopped(target: Id)
    | DeleteReturned(target: Id)
    | Worker(target: Id, pc: WorkerPc)

  /** An update as broadcast. `at` is the length of the registry history when the monitor looked
      the name up, `from` the worker that sent the update, if it was one. */
  datatype Update = Update(id: Id, deleted: bool, at: nat, from: Option<nat>)

  datatype Monitor = Idle | Received(id: Id, from: Option<nat>) | Checked(update: Update)

  /** The changes of the registry, in the order they took effect. */
  datatype Event =
    | Created(name: string, id: Id)
    | Replaced(name: string, id: Id, prev: Id)
    | Removed(name: string, id: Id, worker: nat)

  /** What happened so far: registry changes, releases, stop calls by replacements, and for
      every position of the pool the process it was last granted to, or -1 once given back. */
  datatype History = History(log: seq<Event>, releases: seq<Id>, stops: seq<(Id, Id)>, owner: seq<int>)

  datatype State = State(
    pool: Pool,
    registry: map<string, Id>,
    procs: seq<Proc>,
    threads: seq<Thread>,
    monitor: Monitor,
    broadcasts: seq<Update>,
    h: History)

  ghost predicate Init(s: State) {
    && Valid(s.pool) && s.pool.start == 0
    && (forall k :: 0 <= k < s.pool.size ==> s.pool.free[k])
    && s.registry == map[] && s.procs == [] && s.threads == []
    && s.monitor == Idle && s.broadcasts == []
    && s.h == History([], [], [], Fill(s.pool.size, -1))
  }

  // ---------------------------------------------------------------------------------------
  // Ports of a process

  /** The ports for a new process, or none if the request is refused. */
  function Reserve(pool: Pool, spec: Spec): (r: Option<Taken>)
    requires Valid(pool)
    ensures r.Some? ==> Valid(r.value.pool)
  {
    if |spec.portArgs| > spec.portCount then None
    else if spec.portCount < 0 then None
    else if spec.portCount == 0 then Some(Taken(pool, 0, 0))
    else Allocate(pool, spec.portCount)
  }

  /** Giving a process's ports back; no lock but the pool's own is needed. */
  function GiveBack(pool: Pool, p: Proc): (r: ReleaseResult)
    requires Valid(pool)
    ensures r.Freed? ==> Valid(r.pool)
  {
    if p.first < 0 || p.last < 0 then Rejected else Release(pool, p.first, p.last)
  }

  function Grant(s: State, spec: Spec, t: Taken, status: Status, maker: Maker): (s': State)
  {
    var p := Proc(spec.name, spec.binary, spec.portCount, t.first, t.last, status, maker);
    s.(pool := t.pool, procs := s.procs + [p],
       h := s.h.(owner := MarkOwner(s.pool, s.h.owner, p, |s.procs|)))
  }

  /** Records `who` on the positions of `p`'s ports, if `p` has any. */
  function MarkOwner(pool: Pool, owner: seq<int>, p: Proc, who: int): (o: seq<int>) {
    if p.count > 0 && 0 <= p.first - pool.base <= p.last + 1 - pool.base <= |owner|
    then SetRange(owner, p.first - pool.base, p.last + 1 - pool.base, who)
    else owner
  }

  function ReleaseProcessPorts(s: State, id: Id): (s': State)
    requires Valid(s.pool) && id < |s.procs|
  {
    var p := s.procs[id];
    var r := GiveBack(s.pool, p);
    if r.Freed? then
      s.(pool := r.pool, procs := s.procs[id := p.(status := Released)],
         h := s.h.(releases := s.h.releases + [id], owner := MarkOwner(s.pool, s.h.owner, p, -1)))
    else
      s.(procs := s.procs[id := p.(status := if p.count == 0 then Released else Leaked)],
         h := s.h.(releases := s.h.releases + [id]))
  }

  function Enter(s: State, name: string, id: Id, e: Event): (s': State) {
    s.(registry := s.registry[name := id], h := s.h.(log := s.h.log + [e]))
  }

  // ---------------------------------------------------------------------------------------
  // Actions

  datatype Action =
    // create
    | RegisterProcess(spec: Spec)
    // delete and its worker
    | FindForDelete(name: string)
    | StopTarget(t: nat)
    | UnregisterProcess(t: nat)
    | PollWorker(t: nat, ended: bool)
    | RemoveProcess(t: nat)
    // replace
    | InitReplace(spec: Spec, signal: string)
    | CompareBinary(p: Id)
    | StartReplacement(p: Id, ok: bool)
    | PollReplacement(p: Id, seen: ProcState)
    | StopOld(p: Id)
    | Swap(p: Id)
    | CleanupStop(p: Id)
    | CleanupRelease(p: Id)
    // the monitor; any process may report itself at any time
    | Receive(p: Id)
    | ReceiveNotice(t: nat)
    | CheckDeleted
    | Broadcast

  predicate At(s: State, p: Id, pc: ReplacePc) {
    p < |s.procs| && s.procs[p].maker.Replace? && s.procs[p].maker.pc == pc
  }

  predicate WorkerAt(s: State, t: nat, pc: WorkerPc) {
    t < |s.threads| && s.threads[t].Worker? && s.threads[t].pc == pc
  }

  predicate Enabled(s: State, a: Action) {
    match a
    case RegisterProcess(_) => true
    case FindForDelete(_) => true
    case StopTarget(t) => t < |s.threads| && s.threads[t].DeleteFound?
    case UnregisterProcess(t) => t < |s.threads| && s.threads[t].DeleteStopped? && s.threads[t].target < |s.procs|
    case PollWorker(t, _) =>
      t < |s.threads| && s.threads[t].Worker? && (s.threads[t].pc.Waiting? || s.threads[t].pc.Rechecking?)
    case RemoveProcess(t) => WorkerAt(s, t, Removing) && s.threads[t].target < |s.procs|
    case InitReplace(_, _) => true
    case CompareBinary(p) => At(s, p, Reserved) && s.procs[p].maker.prev < |s.procs|
    case StartReplacement(p, _) => At(s, p, StartingNew)
    case PollReplacement(p, _) => p < |s.procs| && s.procs[p].maker.Replace? && s.procs[p].maker.pc.Polling?
    case StopOld(p) => At(s, p, StoppingOld)
    case Swap(p) => At(s, p, Swapping)
    case CleanupStop(p) => p < |s.procs| && s.procs[p].maker.Replace? && s.procs[p].maker.pc.CleanStopping?
    case CleanupRelease(p) => p < |s.procs| && s.procs[p].maker.Replace? && s.procs[p].maker.pc.CleanReleasing?
    case Receive(p) => p < |s.procs| && s.monitor.Idle?
    case ReceiveNotice(t) =>
      t < |s.threads| && s.threads[t].Worker? && s.threads[t].pc.Notifying? && s.monitor.Idle?
    case CheckDeleted => s.monitor.Received? && s.monitor.id < |s.procs|
    case Broadcast => s.monitor.Checked?
  }

  function SetPc(s: State, p: Id, pc: ReplacePc): (s': State)
    requires p < |s.procs| && s.procs[p].maker.Replace?
  {
    s.(procs := s.procs[p := s.procs[p].(maker := s.procs[p].maker.(pc := pc))])
  }

  function SetThread(s: State, t: nat, th: Thread): (s': State)
    requires t < |s.threads|
  {
    s.(threads := s.threads[t := th])
  }

  function DoRegister(s: State, spec: Spec): (s': State)
    requires Valid(s.pool)
  {
    if spec.name == "" || spec.binary == "" || spec.name in s.registry then s
    else
      var t := Reserve(s.pool, spec);
      if t.None? then s
      else
        var id := |s.procs|;
        Enter(Grant(s, spec, t.value, Registered, Create), spec.name, id, Created(spec.name, id))
  }

  function DoInitReplace(s: State, spec: Spec, signal: string): (s': State)
    requires Valid(s.pool)
  {
    if spec.name == "" || spec.binary == "" || signal != "SIGHUP" || spec.name !in s.registry then s
    else
      var t := Reserve(s.pool, spec);
      if t.None? then s
      else Grant(s, spec, t.value, Pending, Replace(s.registry[spec.name], Reserved))
  }

  /** The last critical section of a replacement. A name that has meanwhile disappeared is
      registered again; a name that has meanwhile gone to another process is left alone. */
  function DoSwap(s: State, p: Id): (s': State)
    requires Valid(s.pool) && At(s, p, Swapping)
  {
    var repl, prev := s.procs[p], s.procs[p].maker.prev;
    if repl.name in s.registry && s.registry[repl.name] != prev then
      SetPc(s, p, CleanStopping(true))
    else
      var s1 := if repl.name in s.registry && prev < |s.procs| then ReleaseProcessPorts(s, prev) else s;
      var s2 := s1.(procs := s1.procs[p := repl.(status := Registered, maker := repl.maker.(pc := Swapped))]);
      Enter(s2, repl.name, p, Replaced(repl.name, p, prev))
  }

  /** The worker's critical section. The update is sent whether or not anything was removed. */
  function DoRemove(s: State, t: nat): (s': State)
    requires Valid(s.pool) && WorkerAt(s, t, Removing) && s.threads[t].target < |s.procs|
  {
    var id := s.threads[t].target;
    var name := s.procs[id].name;
    if name !in s.registry || s.registry[name] != id then
      SetThread(s, t, Worker(id, Notifying(None)))
    else
      var s1 := s.(registry := s.registry - {name}, h := s.h.(log := s.h.log + [Removed(name, id, t)]));
      SetThread(ReleaseProcessPorts(s1, id), t, Worker(id, Notifying(Some(|s.h.log|))))
  }

  function AfterLook(pc: WorkerPc, ended: bool): WorkerPc
    requires pc.Waiting? || pc.Rechecking?
  {
    if pc.Rechecking? then (if ended then Removing else GaveUp)
    else if ended || pc.polls + 1 >= WAIT_COUNT then Rechecking
    else Waiting(pc.polls + 1)
  }

  function DoPollWorker(s: State, t: nat, ended: bool): (s': State)
    requires Enabled(s, PollWorker(t, ended))
  {
    var Worker(id, pc) := s.threads[t];
    SetThread(s, t, Worker(id, AfterLook(pc, ended)))
  }

  function AfterPoll(i: nat, seen: ProcState): ReplacePc {
    if seen == Running then StoppingOld
    else if seen != Starting then CleanStopping(false)
    else if i + 1 >= REPLACE_POLLS then StoppingOld
    else Polling(i + 1)
  }

  function DoPollReplacement(s: State, p: Id, seen: ProcState): (s': State)
    requires Enabled(s, PollReplacement(p, seen))
  {
    SetPc(s, p, AfterPoll(s.procs[p].maker.pc.polls, seen))
  }

  function DoUnregister(s: State, t: nat): (s': State)
    requires Enabled(s, UnregisterProcess(t))
  {
    var id := s.threads[t].target;
    var name := s.procs[id].name;
    var s1 := SetThread(s, t, DeleteReturned(id));
    if name !in s.registry || s.registry[name] != id then s1
    else s1.(threads := s1.threads + [Worker(id, Waiting(0))])
  }

  function DoCheckDeleted(s: State): (s': State)
    requires Enabled(s, CheckDeleted)
  {
    var Received(id, from) := s.monitor;
    s.(monitor := Checked(Update(id, s.procs[id].name !in s.registry, |s.h.log|, from)))
  }

  /** The state after an action. */
  function Do(s: State, a: Action): (s': State)
    requires Valid(s.pool) && Enabled(s, a)
  {
    match a
    case RegisterProcess(spec) => DoRegister(s, spec)
    case FindForDelete(name) =>
      if name in s.registry then s.(threads := s.threads + [DeleteFound(s.registry[name])]) else s
    case StopTarget(t) => SetThread(s, t, DeleteStopped(s.threads[t].target))
    case UnregisterProcess(t) => DoUnregister(s, t)
    case PollWorker(t, ended) => DoPollWorker(s, t, ended)
    case RemoveProcess(t) => DoRemove(s, t)
    case InitReplace(spec, signal) => DoInitReplace(s, spec, signal)
    case CompareBinary(p) =>
      if s.procs[s.procs[p].maker.prev].binary == s.procs[p].binary
      then s.(procs := s.procs[p := s.procs[p].(status := Abandoned, maker := s.procs[p].maker.(pc := SameBinary))])
      else SetPc(s, p, StartingNew)
    case StartReplacement(p, ok) => SetPc(s, p, if ok then Polling(0) else CleanStopping(false))
    case PollReplacement(p, seen) => DoPollReplacement(s, p, seen)
    case StopOld(p) =>
      SetPc(s, p, Swapping).(h := s.h.(stops := s.h.stops + [(p, s.procs[p].maker.prev)]))
    case Swap(p) => DoSwap(s, p)
    case CleanupStop(p) => SetPc(s, p, CleanReleasing(s.procs[p].maker.pc.stoppedOld))
    case CleanupRelease(p) =>
      ReleaseProcessPorts(SetPc(s, p, Failed(s.procs[p].maker.pc.stoppedOld)), p)
    case Receive(p) => s.(monitor := Received(p, None))
    case ReceiveNotice(t) =>
      var Worker(id, pc) := s.threads[t];
      SetThread(s, t, Worker(id, Notified(pc.removedAt, |s.broadcasts|))).(monitor := Received(id, Some(t)))
    case CheckDeleted => DoCheckDeleted(s)
    case Broadcast => s.(monitor := Idle, broadcasts := s.broadcasts + [s.monitor.update])
  }
}
