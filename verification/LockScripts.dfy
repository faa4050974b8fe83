/** The lock and channel operations of every routine of the manager, the processes and the
    broadcaster, along every path through them; all keep the discipline, so none of them can
    block the others for good. */
module LockScripts {
  import opened Locks

  // ---------------------------------------------------------------------------------------
  // Building blocks

  function Under(l: Lock, m: Mode, inner: seq<Op>): seq<Op> {
    [Acquire(l, m)] + inner + [Release(l)]
  }

  function Section(l: Lock, m: Mode): seq<Op> { Under(l, m, []) }

  /** A process's lock taken in turn for each of some processes. */
  function Each(ids: seq<nat>, m: Mode): seq<Op> {
    if ids == [] then [] else Section(ProcessLock(ids[0]), m) + Each(ids[1..], m)
  }

  /** `RPCResponse` and `IsStopped`. */
  function Peek(id: nat): seq<Op> { Section(ProcessLock(id), Shared) }

  function Peeks(id: nat, times: nat): seq<Op> {
    if times == 0 then [] else Peek(id) + Peeks(id, times - 1)
  }

  function Sends(ids: seq<nat>): seq<Op> {
    if ids == [] then [] else [SendUpdate(ids[0])] + Sends(ids[1..])
  }

  /** `StopWithSignal`; `needed`: it was the first to stop the process, or the wait timed out. */
  function Stop(id: nat, needed: bool): seq<Op> {
    Section(ProcessLock(id), Exclusive) + if needed then [SendUpdate(id)] + Peek(id) else []
  }

  /** `Start`; the command's output is set under the process's lock, if there is a command. */
  function Start(id: nat, made: bool): seq<Op> {
    Under(ProcessLock(id), Exclusive, if made then Section(CommandLock(id), Exclusive) else [])
  }

  /** The stop worker: looks whether the command runs, signals it, polls, and kills it. */
  function Work(id: nat, running: bool, signal: bool, polls: nat, kill: bool): seq<Op> {
    if !running then UseCommand(id, true)
    else UseCommand(id, true) + UseCommand(id, signal) + Peeks(id, polls) + UseCommand(id, kill)
  }

  function UseCommand(id: nat, used: bool): seq<Op> { if used then Section(CommandLock(id), Shared) else [] }

  function Pool(used: bool): seq<Op> { if used then Section(PoolLock, Exclusive) else [] }

  function Cleanup(id: nat, needed: bool, pool: bool): seq<Op> { Stop(id, needed) + Pool(pool) }

  // ---------------------------------------------------------------------------------------
  // The routines

  datatype ReplaceEnd =
    | NotReserved
    | SameBinary
    | StartFailed
    | NeverRan(polls: nat)                           // left Starting for another state
    | Superseded(polls: nat, needed: bool)           // another process has the name
    | Swapped(polls: nat, needed: bool, held: bool)  // `held`: the old process had the name

  datatype Routine =
    | CreateCall(id: nat, pool: bool, registered: bool, started: bool)
    | DeleteCall(id: nat, found: bool, needed: bool)
    | UnregisterWorker(id: nat, polls: nat, ended: bool, removed: bool)
    | ReplaceCall(id: nat, prev: nat, pool: bool, needed: bool, end: ReplaceEnd)
    | GetCall(id: nat, found: bool)
    | ListCall(ids: seq<nat>)
    | ConditionCheck(ids: seq<nat>, changed: seq<nat>)
    | RunGoroutine(id: nat)
    | ProbeAnswers(id: nat)
    | ProbeGivesUp(id: nat, ended: bool, needed: bool)
    | StopWorker(id: nat, running: bool, signal: bool, polls: nat, kill: bool)
    | SubscribeCall
    | Unsubscribe

  function AfterReserving(id: nat, prev: nat, pool: bool, needed: bool, end: ReplaceEnd): seq<Op> {
    match end
    case NotReserved => []
    case SameBinary => Peek(prev)
    case StartFailed => Start(id, false) + Cleanup(id, needed, pool)
    case NeverRan(polls) => Start(id, true) + Peeks(id, polls) + Cleanup(id, needed, pool)
    case Superseded(polls, neededOld) =>
      Start(id, true) + Peeks(id, polls) + Stop(prev, neededOld) +
      Section(ManagerLock, Exclusive) + Cleanup(id, needed, pool)
    case Swapped(polls, neededOld, held) =>
      Start(id, true) + Peeks(id, polls) + Stop(prev, neededOld) +
      Under(ManagerLock, Exclusive, Pool(held)) + [SendUpdate(id)] + Peek(id)
  }

  function Script(r: Routine): seq<Op> {
    match r
    case CreateCall(id, pool, registered, started) =>
      Under(ManagerLock, Exclusive, Pool(pool)) +
      if !registered then []
      else [SendUpdate(id)] + Start(id, started) + (if started then [] else [SendUpdate(id)]) + Peek(id)
    case DeleteCall(id, found, needed) =>
      Section(ManagerLock, Shared) +
      if !found then [] else Stop(id, needed) + Peek(id) + Section(ManagerLock, Exclusive)
    case UnregisterWorker(id, polls, ended, removed) =>
      Peeks(id, polls) + if !ended then [] else Under(ManagerLock, Exclusive, Pool(removed)) + [SendUpdate(id)]
    case ReplaceCall(id, prev, pool, needed, end) =>
      Under(ManagerLock, Exclusive, Pool(pool)) + AfterReserving(id, prev, pool, needed, end)
    case GetCall(id, found) => Section(ManagerLock, Shared) + if found then Peek(id) else []
    case ListCall(ids) => Under(ManagerLock, Shared, Each(ids, Shared))
    case ConditionCheck(ids, changed) => Under(ManagerLock, Shared, Each(ids, Exclusive)) + Sends(changed)
    case RunGoroutine(id) => Section(ProcessLock(id), Exclusive) + [SendUpdate(id)]
    case ProbeAnswers(id) => Section(ProcessLock(id), Exclusive) + [SendUpdate(id)]
    case ProbeGivesUp(id, ended, needed) => Peek(id) + if ended then [] else Stop(id, needed)
    case StopWorker(id, running, signal, polls, kill) => Work(id, running, signal, polls, kill)
    case SubscribeCall => Section(BroadcasterLock, Exclusive)
    case Unsubscribe => Section(BroadcasterLock, Exclusive)
  }

  // ---------------------------------------------------------------------------------------
  // They keep the discipline

  lemma {:induction false} ThenKeeps(held: set<Lock>, a: seq<Op>, b: seq<Op>)
    requires Keeps(held, a) && Keeps({}, b)
    ensures Keeps(held, a + b)
    decreases |a|
  {
    if a == [] {
      assert a + b == b;
    } else {
      assert (a + b)[1..] == a[1..] + b;
      match a[0]
      case Acquire(l, _) => ThenKeeps(held + {l}, a[1..], b);
      case Release(l) => ThenKeeps(held - {l}, a[1..], b);
      case _ => ThenKeeps(held, a[1..], b);
    }
  }

  lemma Then(a: seq<Op>, b: seq<Op>)
    requires Disciplined(a) && Disciplined(b)
    ensures Disciplined(a + b)
  {
    ThenKeeps({}, a, b);
  }

  /** Only lock operations, all above a level. */
  ghost predicate LocksAbove(ops: seq<Op>, level: nat) {
    forall i :: 0 <= i < |ops| ==> (ops[i].Acquire? || ops[i].Release?) && Level(ops[i].lock) > level
  }

  lemma {:induction false} UnderKeeps(l: Lock, held: set<Lock>, inner: seq<Op>)
    requires Keeps(held, inner) && LocksAbove(inner, Level(l)) && forall h :: h in held ==> Level(h) > Level(l)
    ensures Keeps(held + {l}, inner + [Release(l)])
    decreases |inner|
  {
    if inner == [] {
      assert held + {l} == {l} && {l} - {l} == {};
      assert ([] + [Release(l)])[1..] == [];
    } else {
      var rest := inner[1..];
      assert (inner + [Release(l)])[1..] == rest + [Release(l)];
      assert LocksAbove(rest, Level(l));
      match inner[0]
      case Acquire(k, _) =>
        UnderKeeps(l, held + {k}, rest);
        assert (held + {k}) + {l} == (held + {l}) + {k};
      case Release(k) =>
        UnderKeeps(l, held - {k}, rest);
        assert (held - {k}) + {l} == (held + {l}) - {k};
    }
  }

  lemma UnderOk(l: Lock, m: Mode, inner: seq<Op>)
    requires Keeps({}, inner) && LocksAbove(inner, Level(l))
    ensures Disciplined(Under(l, m, inner))
  {
    UnderKeeps(l, {}, inner);
    var u := Under(l, m, inner);
    assert u[1..] == inner + [Release(l)];
    assert u[0] == Acquire(l, m);
    assert forall i :: 0 <= i < |u| ==> u[i] != SendBroadcast;
  }

  lemma SectionOk(l: Lock, m: Mode)
    ensures Disciplined(Section(l, m))
  {
    UnderOk(l, m, []);
  }

  lemma SendOk(id: nat)
    ensures Disciplined([SendUpdate(id)])
  {
    assert [SendUpdate(id)][1..] == [];
  }

  lemma {:induction false} EachOk(ids: seq<nat>, m: Mode)
    ensures Keeps({}, Each(ids, m)) && LocksAbove(Each(ids, m), 1)
  {
    if ids != [] {
      EachOk(ids[1..], m);
      SectionOk(ProcessLock(ids[0]), m);
      ThenKeeps({}, Section(ProcessLock(ids[0]), m), Each(ids[1..], m));
    }
  }

  lemma {:induction false} PeeksOk(id: nat, times: nat)
    ensures Disciplined(Peeks(id, times))
  {
    if times > 0 {
      SectionOk(ProcessLock(id), Shared);
      PeeksOk(id, times - 1);
      Then(Peek(id), Peeks(id, times - 1));
    }
  }

  lemma {:induction false} SendsOk(ids: seq<nat>)
    ensures Disciplined(Sends(ids))
  {
    if ids != [] {
      SendOk(ids[0]);
      SendsOk(ids[1..]);
      Then([SendUpdate(ids[0])], Sends(ids[1..]));
    }
  }

  lemma StopOk(id: nat, needed: bool)
    ensures Disciplined(Stop(id, needed))
  {
    SectionOk(ProcessLock(id), Exclusive);
    SendOk(id);
    SectionOk(ProcessLock(id), Shared);
    Then([SendUpdate(id)], Peek(id));
    Then(Section(ProcessLock(id), Exclusive), if needed then [SendUpdate(id)] + Peek(id) else []);
  }

  lemma PoolOk(used: bool)
    ensures Disciplined(Pool(used)) && Disciplined(Under(ManagerLock, Exclusive, Pool(used)))
  {
    SectionOk(PoolLock, Exclusive);
    UnderOk(ManagerLock, Exclusive, Pool(used));
  }

  lemma CleanupOk(id: nat, needed: bool, pool: bool)
    ensures Disciplined(Cleanup(id, needed, pool))
  {
    StopOk(id, needed);
    PoolOk(pool);
    Then(Stop(id, needed), Pool(pool));
  }

  lemma StartOk(id: nat, made: bool)
    ensures Disciplined(Start(id, made))
  {
    SectionOk(CommandLock(id), Exclusive);
    UnderOk(ProcessLock(id), Exclusive, if made then Section(CommandLock(id), Exclusive) else []);
  }

  lemma WorkOk(id: nat, running: bool, signal: bool, polls: nat, kill: bool)
    ensures Disciplined(Work(id, running, signal, polls, kill))
  {
    SectionOk(CommandLock(id), Shared);
    PeeksOk(id, polls);
    Then(UseCommand(id, true), UseCommand(id, signal));
    Then(UseCommand(id, true) + UseCommand(id, signal), Peeks(id, polls));
    Then(UseCommand(id, true) + UseCommand(id, signal) + Peeks(id, polls), UseCommand(id, kill));
  }

  lemma StartAndPollOk(id: nat, polls: nat)
    ensures Disciplined(Start(id, true) + Peeks(id, polls))
  {
    StartOk(id, true);
    PeeksOk(id, polls);
    Then(Start(id, true), Peeks(id, polls));
  }

  lemma StopAfterPollOk(id: nat, prev: nat, polls: nat, neededOld: bool)
    ensures Disciplined(Start(id, true) + Peeks(id, polls) + Stop(prev, neededOld))
  {
    StartAndPollOk(id, polls);
    StopOk(prev, neededOld);
    Then(Start(id, true) + Peeks(id, polls), Stop(prev, neededOld));
  }

  lemma AfterReservingOk(id: nat, prev: nat, pool: bool, needed: bool, end: ReplaceEnd)
    ensures Disciplined(AfterReserving(id, prev, pool, needed, end))
  {
    match end
    case NotReserved =>
    case SameBinary => SectionOk(ProcessLock(prev), Shared);
    case StartFailed =>
      StartOk(id, false);
      CleanupOk(id, needed, pool);
      Then(Start(id, false), Cleanup(id, needed, pool));
    case NeverRan(polls) =>
      StartAndPollOk(id, polls);
      CleanupOk(id, needed, pool);
      Then(Start(id, true) + Peeks(id, polls), Cleanup(id, needed, pool));
    case Superseded(polls, neededOld) =>
      var a := Start(id, true) + Peeks(id, polls) + Stop(prev, neededOld);
      StopAfterPollOk(id, prev, polls, neededOld);
      SectionOk(ManagerLock, Exclusive);
      Then(a, Section(ManagerLock, Exclusive));
      CleanupOk(id, needed, pool);
      Then(a + Section(ManagerLock, Exclusive), Cleanup(id, needed, pool));
    case Swapped(polls, neededOld, held) =>
      var a := Start(id, true) + Peeks(id, polls) + Stop(prev, neededOld);
      var b := Under(ManagerLock, Exclusive, Pool(held));
      StopAfterPollOk(id, prev, polls, neededOld);
      PoolOk(held);
      Then(a, b);
      SendOk(id);
      Then(a + b, [SendUpdate(id)]);
      SectionOk(ProcessLock(id), Shared);
      Then(a + b + [SendUpdate(id)], Peek(id));
  }

  lemma CreateOk(id: nat, pool: bool, registered: bool, started: bool)
    ensures Disciplined(Script(CreateCall(id, pool, registered, started)))
  {
    PoolOk(pool);
    SendOk(id);
    StartOk(id, started);
    SectionOk(ProcessLock(id), Shared);
    var start := Start(id, started);
    var again := if started then [] else [SendUpdate(id)];
    Then([SendUpdate(id)], start);
    Then([SendUpdate(id)] + start, again);
    Then([SendUpdate(id)] + start + again, Peek(id));
    var rest := if !registered then [] else [SendUpdate(id)] + start + again + Peek(id);
    Then(Under(ManagerLock, Exclusive, Pool(pool)), rest);
  }

  lemma DeleteOk(id: nat, found: bool, needed: bool)
    ensures Disciplined(Script(DeleteCall(id, found, needed)))
  {
    SectionOk(ManagerLock, Shared);
    SectionOk(ManagerLock, Exclusive);
    SectionOk(ProcessLock(id), Shared);
    StopOk(id, needed);
    Then(Stop(id, needed), Peek(id));
    Then(Stop(id, needed) + Peek(id), Section(ManagerLock, Exclusive));
    var rest := if !found then [] else Stop(id, needed) + Peek(id) + Section(ManagerLock, Exclusive);
    Then(Section(ManagerLock, Shared), rest);
  }

  lemma UnregisterOk(id: nat, polls: nat, ended: bool, removed: bool)
    ensures Disciplined(Script(UnregisterWorker(id, polls, ended, removed)))
  {
    PeeksOk(id, polls);
    PoolOk(removed);
    SendOk(id);
    var b := Under(ManagerLock, Exclusive, Pool(removed));
    Then(b, [SendUpdate(id)]);
    Then(Peeks(id, polls), if !ended then [] else b + [SendUpdate(id)]);
  }

  /** No routine takes locks out of order, holds one across a send, or keeps one. */
  lemma RoutineIsDisciplined(r: Routine)
    ensures Disciplined(Script(r))
  {
    match r
    case CreateCall(id, pool, registered, started) => CreateOk(id, pool, registered, started);
    case DeleteCall(id, found, needed) => DeleteOk(id, found, needed);
    case UnregisterWorker(id, polls, ended, removed) => UnregisterOk(id, polls, ended, removed);
    case ReplaceCall(id, prev, pool, needed, end) =>
      PoolOk(pool);
      AfterReservingOk(id, prev, pool, needed, end);
      Then(Under(ManagerLock, Exclusive, Pool(pool)), AfterReserving(id, prev, pool, needed, end));
    case GetCall(id, found) =>
      SectionOk(ManagerLock, Shared);
      SectionOk(ProcessLock(id), Shared);
      Then(Section(ManagerLock, Shared), if found then Peek(id) else []);
    case ListCall(ids) =>
      EachOk(ids, Shared);
      UnderOk(ManagerLock, Shared, Each(ids, Shared));
    case ConditionCheck(ids, changed) =>
      EachOk(ids, Exclusive);
      UnderOk(ManagerLock, Shared, Each(ids, Exclusive));
      SendsOk(changed);
      Then(Under(ManagerLock, Shared, Each(ids, Exclusive)), Sends(changed));
    case RunGoroutine(id) =>
      SectionOk(ProcessLock(id), Exclusive);
      SendOk(id);
      Then(Section(ProcessLock(id), Exclusive), [SendUpdate(id)]);
    case ProbeAnswers(id) =>
      SectionOk(ProcessLock(id), Exclusive);
      SendOk(id);
      Then(Section(ProcessLock(id), Exclusive), [SendUpdate(id)]);
    case ProbeGivesUp(id, ended, needed) =>
      SectionOk(ProcessLock(id), Shared);
      StopOk(id, needed);
      Then(Peek(id), if ended then [] else Stop(id, needed));
    case StopWorker(id, running, signal, polls, kill) => WorkOk(id, running, signal, polls, kill);
    case SubscribeCall => SectionOk(BroadcasterLock, Exclusive);
    case Unsubscribe => SectionOk(BroadcasterLock, Exclusive);
  }

  // ---------------------------------------------------------------------------------------
  // No deadlock

  /** Every goroutine of the run follows one of the routines. */
  ghost predicate OnlyRoutines(acts: seq<Action>, routines: seq<Routine>) {
    |routines| == |acts| && forall i :: 0 <= i < |acts| && acts[i].Spawn? ==> acts[i].script == Script(routines[i])
  }

  lemma RoutinesKeepDiscipline(acts: seq<Action>, routines: seq<Routine>)
    requires OnlyRoutines(acts, routines)
    ensures AllDisciplined(acts)
  {
    forall i | 0 <= i < |acts| && acts[i].Spawn? ensures Disciplined(acts[i].script) {
      RoutineIsDisciplined(routines[i]);
    }
  }

  /** At any point of any run of the routines, every goroutine that has something left to do is
      at the head of a chain of waits ending at one that has a step to take. */
  lemma NoDeadlock(tr: seq<State>, acts: seq<Action>, routines: seq<Routine>, n: nat, t: nat) returns (chain: seq<nat>)
    requires IsRun(tr, acts) && OnlyRoutines(acts, routines) && n < |tr|
    requires t < |tr[n]| && tr[n][t].todo != []
    ensures WaitEnds(tr[n], t, chain)
  {
    RoutinesKeepDiscipline(acts, routines);
    chain := EveryWaitEnds(tr, acts, n, t);
  }

  /** If from some point on no call comes in, then under every schedule all goroutines finish, in
      a number of steps known beforehand, and nothing ever stands still before that. */
  lemma AllCallsFinish(tr: seq<State>, acts: seq<Action>, routines: seq<Routine>, n: nat, rest: seq<Action>, end: State)
    requires IsRun(tr, acts) && OnlyRoutines(acts, routines) && n < |tr| && Schedule(tr[n], rest, end)
    ensures AllDone(end) <==> |rest| == Left(tr[n], |tr[n]|)
    ensures !AllDone(end) ==> |rest| < Left(tr[n], |tr[n]|)
    ensures !AllDone(end) ==> exists t :: CanStep(end, t) && Enabled(end, StepOf(end, t))
  {
    RoutinesKeepDiscipline(acts, routines);
    InvHolds(tr, acts, n);
    Drains(tr[n], rest, end);
  }

  // ---------------------------------------------------------------------------------------
  // The deadlock there once was

  /** A replacement that stops the old process inside the manager's critical section. */
  function StopUnderLock(prev: nat): seq<Op> {
    [Acquire(ManagerLock, Exclusive), Acquire(ProcessLock(prev), Exclusive), Release(ProcessLock(prev)),
     SendUpdate(prev), Release(ManagerLock)]
  }

  ghost predicate Stuck(s: State) {
    (exists t: nat :: t < |s| && s[t].todo != []) && forall t: nat :: !CanStep(s, t)
  }

  lemma StopUnderLockBreaksOrder(prev: nat)
    ensures !Keeps({}, StopUnderLock(prev))
  {
    var m, p, w := ManagerLock, ProcessLock(prev), StopUnderLock(prev);
    assert {} + {m} == {m} && ({m} + {p}) - {p} == {m};
    assert w[1..][1..] == w[2..] && w[2..][1..] == w[3..];
    assert !Keeps({m}, w[3..]);
    assert !Keeps({m} + {p}, w[2..]);
    assert !Keeps({m}, w[1..]);
  }

  /** The monitor, the stream, the replacement, and a goroutine reporting another process. */
  function Four(monitor: Thread, repl: Thread, other: Thread): State { [monitor, IDLE, repl, other] }

  function After(th: Thread, held: map<Lock, Mode>): Thread
    requires th.todo != []
  {
    Thread(held, th.todo[1..])
  }

  lemma ReplLocks(mon: Thread, repl: Thread, other: Thread)
    requires repl.todo != [] && repl.todo[0].Acquire?
    requires repl.todo[0].lock !in mon.held && repl.todo[0].lock !in other.held && repl.todo[0].lock !in repl.held
    ensures Next(Four(mon, repl, other), Lock(2),
                 Four(mon, After(repl, repl.held[repl.todo[0].lock := repl.todo[0].mode]), other))
  {
    var s, l := Four(mon, repl, other), repl.todo[0].lock;
    assert forall u :: 0 <= u < |s| ==> l !in s[u].held;
    assert NoWriter(s, l) && Free(s, l);
  }

  lemma MonitorLocks(mon: Thread, repl: Thread, other: Thread)
    requires mon.todo != [] && mon.todo[0].Acquire?
    requires mon.todo[0].lock !in mon.held && mon.todo[0].lock !in other.held && mon.todo[0].lock !in repl.held
    ensures Next(Four(mon, repl, other), Lock(0),
                 Four(After(mon, mon.held[mon.todo[0].lock := mon.todo[0].mode]), repl, other))
  {
    var s, l := Four(mon, repl, other), mon.todo[0].lock;
    assert forall u :: 0 <= u < |s| ==> l !in s[u].held;
    assert NoWriter(s, l) && Free(s, l);
  }

  /** The run up to where the replacement, holding the manager's lock, is about to send. */
  lemma ReplReachesSend(prev: nat, u: seq<Op>) returns (tr: seq<State>, repl: Thread)
    ensures |tr| == 4 && tr[0] == Four(IDLE, Thread(map[], StopUnderLock(prev)), Thread(map[], u))
    ensures Next(tr[0], Lock(2), tr[1]) && Next(tr[1], Lock(2), tr[2]) && Next(tr[2], Unlock(2), tr[3])
    ensures tr[3] == Four(IDLE, repl, Thread(map[], u)) && repl.held == map[ManagerLock := Exclusive]
    ensures repl.todo == [SendUpdate(prev), Release(ManagerLock)]
  {
    var other, w, p := Thread(map[], u), StopUnderLock(prev), ProcessLock(prev);
    var r0 := Thread(map[], w);
    var r1 := After(r0, map[ManagerLock := Exclusive]);
    var r2 := After(r1, map[ManagerLock := Exclusive, p := Exclusive]);
    assert map[ManagerLock := Exclusive, p := Exclusive] - {p} == map[ManagerLock := Exclusive];
    repl := After(r2, map[ManagerLock := Exclusive]);
    ReplLocks(IDLE, r0, other);
    ReplLocks(IDLE, r1, other);
    tr := [Four(IDLE, r0, other), Four(IDLE, r1, other), Four(IDLE, r2, other), Four(IDLE, repl, other)];
  }

  /** From there: the other process reports, and the monitor comes to the manager's lock. */
  lemma MonitorReachesLock(repl: Thread, id: nat) returns (tr: seq<State>)
    requires repl.held == map[ManagerLock := Exclusive]
    ensures |tr| == 4 && tr[0] == Four(IDLE, repl, Thread(map[], [SendUpdate(id)]))
    ensures Next(tr[0], HandOver(3), tr[1]) && Next(tr[1], Lock(0), tr[2]) && Next(tr[2], Unlock(0), tr[3])
    ensures tr[3] == Four(Thread(map[], MonitorWork(id)[2..]), repl, IDLE)
  {
    var m0 := Thread(map[], MonitorWork(id));
    var m1 := After(m0, map[ProcessLock(id) := Shared]);
    assert map[ProcessLock(id) := Shared] - {ProcessLock(id)} == map[];
    var m2 := After(m1, map[]);
    MonitorLocks(m0, repl, IDLE);
    assert [SendUpdate(id)][1..] == [];
    assert Do(Four(IDLE, repl, Thread(map[], [SendUpdate(id)])), HandOver(3)) == Four(m0, repl, IDLE);
    var sender := Thread(map[], [SendUpdate(id)]);
    tr := [Four(IDLE, repl, sender), Four(m0, repl, IDLE), Four(m1, repl, IDLE), Four(m2, repl, IDLE)];
  }

  lemma StuckThere(mon: Thread, repl: Thread)
    requires mon.todo != [] && mon.todo[0] == Acquire(ManagerLock, Shared)
    requires repl.held == map[ManagerLock := Exclusive] && repl.todo != [] && repl.todo[0].SendUpdate?
    ensures Stuck(Four(mon, repl, IDLE))
  {
    var s := Four(mon, repl, IDLE);
    assert HoldsIn(s[2], ManagerLock, Exclusive);
    assert s[2].todo != [];
  }

  /** With it, the monitor waits for the manager's lock while its holder waits for the monitor,
      as soon as another process reports itself in between. */
  lemma StopUnderLockDeadlocks(prev: nat, id: nat) returns (tr: seq<State>, acts: seq<Action>)
    ensures IsRun(tr, acts) && Stuck(tr[|tr| - 1])
    ensures forall i :: 0 <= i < |acts| && acts[i].Spawn? ==> acts[i].script in [StopUnderLock(prev), [SendUpdate(id)]]
  {
    var w, u := StopUnderLock(prev), [SendUpdate(id)];
    var a, repl := ReplReachesSend(prev, u);
    var b := MonitorReachesLock(repl, id);
    StuckThere(b[3][0], repl);
    var s0, s1 := [IDLE, IDLE], [IDLE, IDLE, Thread(map[], w)];
    assert Next(s0, Spawn(w), s1) && Next(s1, Spawn(u), a[0]);
    tr := [s0, s1, a[0], a[1], a[2], a[3], b[1], b[2], b[3]];
    acts := [Spawn(w), Spawn(u), Lock(2), Lock(2), Unlock(2), HandOver(3), Lock(0), Unlock(0)];
  }
}
