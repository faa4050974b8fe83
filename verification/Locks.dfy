/** The locks and rendezvous channels that join the manager, the processes and the broadcaster.

    A goroutine is the sequence of lock and channel operations still ahead of it. Goroutines 0
    and 1 are the monitor, which receives process updates and sends responses on, and the stream,
    which receives those responses; both wait for the next message when they have nothing left to
    do. Reader-writer locks are as in Go: a waiting writer holds up new readers. */
module Locks {

  datatype Lock = ManagerLock | ProcessLock(id: nat) | CommandLock(id: nat) | BroadcasterLock | PoolLock

  /** The lock order: the manager's lock before a process's, and that before its command's; the
      other two are taken last. */
  function Level(l: Lock): nat {
    match l
    case ManagerLock => 1
    case ProcessLock(_) => 2
    case CommandLock(_) => 3
    case BroadcasterLock => 4
    case PoolLock => 5
  }

  datatype Mode = Shared | Exclusive

  datatype Op =
    | Acquire(lock: Lock, mode: Mode)
    | Release(lock: Lock)
    | SendUpdate(id: nat)
    | SendBroadcast

  datatype Thread = Thread(held: map<Lock, Mode>, todo: seq<Op>)

  type State = seq<Thread>

  const MONITOR: nat := 0
  const STREAM: nat := 1
  const IDLE: Thread := Thread(map[], [])

  /** What the monitor does with an update: build the response, look the name up, pass it on. */
  function MonitorWork(id: nat): seq<Op> {
    [Acquire(ProcessLock(id), Shared), Release(ProcessLock(id)),
     Acquire(ManagerLock, Shared), Release(ManagerLock), SendBroadcast]
  }

  const STREAM_WORK: seq<Op> := [Acquire(BroadcasterLock, Exclusive), Release(BroadcasterLock)]

  // ---------------------------------------------------------------------------------------
  // Steps

  datatype Action =
    | Spawn(script: seq<Op>)
    | Lock(t: nat)
    | Unlock(t: nat)
    | HandOver(t: nat)      // an update to the monitor
    | PassOn                // a response from the monitor to the stream

  predicate HoldsIn(th: Thread, l: Lock, m: Mode) { l in th.held && th.held[l] == m }

  ghost predicate Free(s: State, l: Lock) {
    forall u :: 0 <= u < |s| ==> l !in s[u].held
  }

  ghost predicate NoWriter(s: State, l: Lock) {
    forall u :: 0 <= u < |s| ==> !HoldsIn(s[u], l, Exclusive)
  }

  ghost predicate Grantable(s: State, l: Lock, m: Mode) {
    if m == Exclusive then Free(s, l) else NoWriter(s, l)
  }

  predicate NextIs(s: State, t: nat, op: Op) { t < |s| && s[t].todo != [] && s[t].todo[0] == op }

  ghost predicate Enabled(s: State, a: Action) {
    match a
    case Spawn(_) => true
    case Lock(t) =>
      t < |s| && s[t].todo != [] && s[t].todo[0].Acquire? && Grantable(s, s[t].todo[0].lock, s[t].todo[0].mode)
    case Unlock(t) => t < |s| && s[t].todo != [] && s[t].todo[0].Release?
    case HandOver(t) =>
      |s| > STREAM && t < |s| && t != MONITOR && s[t].todo != [] && s[t].todo[0].SendUpdate? && s[MONITOR].todo == []
    case PassOn => |s| > STREAM && NextIs(s, MONITOR, SendBroadcast) && s[STREAM].todo == []
  }

  function Do(s: State, a: Action): (s': State)
    requires a.Spawn? || (a.PassOn? && |s| > STREAM && s[MONITOR].todo != []) ||
             (!a.PassOn? && a.t < |s| && s[a.t].todo != [])
    requires a.Lock? ==> s[a.t].todo[0].Acquire?
    requires a.Unlock? ==> s[a.t].todo[0].Release?
    requires a.HandOver? ==> |s| > STREAM && s[a.t].todo[0].SendUpdate?
  {
    match a
    case Spawn(script) => s + [Thread(map[], script)]
    case Lock(t) =>
      var op := s[t].todo[0];
      s[t := Thread(s[t].held[op.lock := op.mode], s[t].todo[1..])]
    case Unlock(t) =>
      var op := s[t].todo[0];
      s[t := Thread(s[t].held - {op.lock}, s[t].todo[1..])]
    case HandOver(t) =>
      var id := s[t].todo[0].id;
      s[t := s[t].(todo := s[t].todo[1..])][MONITOR := s[MONITOR].(todo := MonitorWork(id))]
    case PassOn =>
      s[MONITOR := s[MONITOR].(todo := s[MONITOR].todo[1..])][STREAM := s[STREAM].(todo := STREAM_WORK)]
  }

  // ---------------------------------------------------------------------------------------
  // The discipline

  /** A goroutine keeps the discipline from here on: it takes locks in rising order only, gives
      back what it holds, holds nothing when it sends, and nothing at its end. */
  predicate Keeps(held: set<Lock>, todo: seq<Op>)
    decreases |todo|
  {
    if todo == [] then held == {}
    else
      match todo[0]
      case Acquire(l, _) => (forall h :: h in held ==> Level(h) < Level(l)) && Keeps(held + {l}, todo[1..])
      case Release(l) => l in held && Keeps(held - {l}, todo[1..])
      case SendUpdate(_) => held == {} && Keeps(held, todo[1..])
      case SendBroadcast => held == {} && Keeps(held, todo[1..])
  }

  /** Only the monitor sends broadcasts; it and the stream send no updates. */
  predicate MayDo(t: nat, op: Op) {
    match op
    case SendUpdate(_) => t > STREAM
    case SendBroadcast => t == MONITOR
    case _ => true
  }

  ghost predicate ThreadFits(t: nat, th: Thread) {
    Keeps(th.held.Keys, th.todo) && forall i :: 0 <= i < |th.todo| ==> MayDo(t, th.todo[i])
  }

  ghost predicate Exclusion(s: State) {
    forall t, u, l :: 0 <= t < |s| && 0 <= u < |s| && t != u && HoldsIn(s[t], l, Exclusive) ==> l !in s[u].held
  }

  ghost predicate Inv(s: State) {
    |s| > STREAM && Exclusion(s) && forall t :: 0 <= t < |s| ==> ThreadFits(t, s[t])
  }

  /** A script for a goroutine of its own. */
  ghost predicate Disciplined(script: seq<Op>) {
    Keeps({}, script) && forall i :: 0 <= i < |script| ==> script[i] != SendBroadcast
  }

  // ---------------------------------------------------------------------------------------
  // The invariant is kept

  lemma MonitorWorkFits(id: nat)
    ensures Keeps({}, MonitorWork(id)) && forall i :: 0 <= i < 5 ==> MayDo(MONITOR, MonitorWork(id)[i])
  {
    var w, p := MonitorWork(id), ProcessLock(id);
    assert w[4..] == [SendBroadcast] && w[3..][1..] == w[4..] && w[2..][1..] == w[3..] && w[1..][1..] == w[2..];
    assert Keeps({}, w[4..]);
    assert {ManagerLock} - {ManagerLock} == {} && {} + {ManagerLock} == {ManagerLock};
    assert {p} - {p} == {} && {} + {p} == {p};
    assert Keeps({ManagerLock}, w[3..]);
    assert Keeps({}, w[2..]);
    assert Keeps({p}, w[1..]);
  }

  lemma StreamWorkFits()
    ensures Keeps({}, STREAM_WORK) && forall i :: 0 <= i < 2 ==> MayDo(STREAM, STREAM_WORK[i])
  {
    var b := BroadcasterLock;
    assert STREAM_WORK[1..] == [Release(b)] && STREAM_WORK[1..][1..] == [];
    assert {} + {b} == {b} && {b} - {b} == {};
    assert Keeps({b}, STREAM_WORK[1..]);
  }

  lemma TailFits(t: nat, th: Thread, held: map<Lock, Mode>)
    requires ThreadFits(t, th) && th.todo != []
    requires held.Keys == match th.todo[0]
                          case Acquire(l, _) => th.held.Keys + {l}
                          case Release(l) => th.held.Keys - {l}
                          case _ => th.held.Keys
    ensures ThreadFits(t, Thread(held, th.todo[1..]))
  {
  }

  lemma LockKeeps(s: State, t: nat)
    requires Inv(s) && Enabled(s, Lock(t))
    ensures Inv(Do(s, Lock(t)))
  {
    assert ThreadFits(t, s[t]);
    var s' := Do(s, Lock(t));
    TailFits(t, s[t], s'[t].held);
  }

  lemma UnlockKeeps(s: State, t: nat)
    requires Inv(s) && Enabled(s, Unlock(t))
    ensures Inv(Do(s, Unlock(t)))
  {
    assert ThreadFits(t, s[t]);
    var s' := Do(s, Unlock(t));
    TailFits(t, s[t], s'[t].held);
  }

  lemma IdleHoldsNothing(s: State, t: nat)
    requires Inv(s) && t < |s| && s[t].todo == []
    ensures s[t].held.Keys == {}
  {
    assert ThreadFits(t, s[t]);
  }

  lemma HandOverKeeps(s: State, t: nat)
    requires Inv(s) && Enabled(s, HandOver(t))
    ensures Inv(Do(s, HandOver(t)))
  {
    assert ThreadFits(t, s[t]);
    TailFits(t, s[t], s[t].held);
    IdleHoldsNothing(s, MONITOR);
    MonitorWorkFits(s[t].todo[0].id);
  }

  lemma PassOnKeeps(s: State)
    requires Inv(s) && Enabled(s, PassOn)
    ensures Inv(Do(s, PassOn))
  {
    assert ThreadFits(MONITOR, s[MONITOR]);
    TailFits(MONITOR, s[MONITOR], s[MONITOR].held);
    IdleHoldsNothing(s, STREAM);
    StreamWorkFits();
  }

  lemma SpawnKeeps(s: State, script: seq<Op>)
    requires Inv(s) && Disciplined(script)
    ensures Inv(Do(s, Spawn(script)))
  {
  }

  lemma StepKeeps(s: State, a: Action)
    requires Inv(s) && Enabled(s, a) && (a.Spawn? ==> Disciplined(a.script))
    ensures Inv(Do(s, a))
  {
    match a
    case Spawn(script) => SpawnKeeps(s, script);
    case Lock(t) => LockKeeps(s, t);
    case Unlock(t) => UnlockKeeps(s, t);
    case HandOver(t) => HandOverKeeps(s, t);
    case PassOn => PassOnKeeps(s);
  }

  // ---------------------------------------------------------------------------------------
  // Runs

  ghost predicate Next(s: State, a: Action, s': State) { Enabled(s, a) && s' == Do(s, a) }

  ghost predicate StepAt(tr: seq<State>, acts: seq<Action>, i: nat)
    requires i < |acts| && |tr| == |acts| + 1
  {
    Next(tr[i], acts[i], tr[i + 1])
  }

  ghost predicate IsRun(tr: seq<State>, acts: seq<Action>) {
    |tr| == |acts| + 1 && tr[0] == [IDLE, IDLE] && forall i :: 0 <= i < |acts| ==> StepAt(tr, acts, i)
  }

  ghost predicate AllDisciplined(acts: seq<Action>) {
    forall i :: 0 <= i < |acts| && acts[i].Spawn? ==> Disciplined(acts[i].script)
  }

  lemma {:induction false} InvHolds(tr: seq<State>, acts: seq<Action>, n: nat)
    requires IsRun(tr, acts) && AllDisciplined(acts) && n < |tr|
    ensures Inv(tr[n])
  {
    if n > 0 {
      InvHolds(tr, acts, n - 1);
      assert StepAt(tr, acts, n - 1);
      StepKeeps(tr[n - 1], acts[n - 1]);
    }
  }

  // ---------------------------------------------------------------------------------------
  // Waiting

  /** A reader also gives way to writers that are waiting. */
  ghost predicate NoWaitingWriter(s: State, l: Lock) {
    forall u: nat :: u < |s| ==> !NextIs(s, u, Acquire(l, Exclusive))
  }

  /** The goroutine can go on now, even with waiting writers preferred. */
  ghost predicate CanStep(s: State, t: nat) {
    t < |s| && s[t].todo != [] && |s| > STREAM &&
    match s[t].todo[0]
    case Acquire(l, m) => Grantable(s, l, m) && (m == Shared ==> NoWaitingWriter(s, l))
    case Release(_) => true
    case SendUpdate(_) => s[MONITOR].todo == []
    case SendBroadcast => s[STREAM].todo == []
  }

  /** The goroutine `t` cannot go on before `u` does. */
  ghost predicate WaitsFor(s: State, t: nat, u: nat) {
    t < |s| && u < |s| && s[t].todo != [] &&
    match s[t].todo[0]
    case Acquire(l, Exclusive) => l in s[u].held
    case Acquire(l, Shared) => HoldsIn(s[u], l, Exclusive) || NextIs(s, u, Acquire(l, Exclusive))
    case Release(_) => false
    case SendUpdate(_) => u == MONITOR && s[u].todo != []
    case SendBroadcast => u == STREAM && s[u].todo != []
  }

  /** A rank on what a goroutine is waiting for, lower for what must come first. */
  function Rank(th: Thread): nat {
    if th.todo == [] then 0
    else
      match th.todo[0]
      case Release(_) => 0
      case Acquire(l, m) => 2 * (5 - Level(l)) + if m == Shared then 2 else 1
      case SendBroadcast => 11
      case SendUpdate(_) => 12
  }

  lemma HolderRanksBelow(s: State, u: nat, l: Lock)
    requires Inv(s) && u < |s| && l in s[u].held
    ensures s[u].todo != [] && Rank(s[u]) <= 2 * (5 - Level(l))
  {
    assert ThreadFits(u, s[u]);
    assert l in s[u].held.Keys;
  }

  /** Every wait goes down in rank, so no goroutines ever wait for each other in a circle. */
  lemma WaitsGoDown(s: State, t: nat, u: nat)
    requires Inv(s) && WaitsFor(s, t, u)
    ensures s[u].todo != [] && Rank(s[u]) < Rank(s[t])
  {
    assert ThreadFits(t, s[t]) && ThreadFits(u, s[u]);
    var op := s[t].todo[0];
    if op.Acquire? && op.lock in s[u].held { HolderRanksBelow(s, u, op.lock); }
    if u == MONITOR || u == STREAM { assert s[u].todo != [] ==> MayDo(u, s[u].todo[0]); }
  }

  /** A goroutine that cannot go on waits for some other one. */
  lemma BlockedWaits(s: State, t: nat) returns (u: nat)
    requires Inv(s) && t < |s| && s[t].todo != [] && !CanStep(s, t)
    ensures WaitsFor(s, t, u)
  {
    var op := s[t].todo[0];
    match op
    case Acquire(l, m) =>
      if m == Exclusive {
        u :| 0 <= u < |s| && l in s[u].held;
      } else if !NoWriter(s, l) {
        u :| 0 <= u < |s| && HoldsIn(s[u], l, Exclusive);
      } else {
        u :| u < |s| && NextIs(s, u, Acquire(l, Exclusive));
      }
    case SendUpdate(_) => u := MONITOR;
    case SendBroadcast => u := STREAM;
  }

  /** The step a goroutine takes next. */
  function StepOf(s: State, t: nat): Action
    requires t < |s| && s[t].todo != []
  {
    match s[t].todo[0]
    case Acquire(_, _) => Lock(t)
    case Release(_) => Unlock(t)
    case SendUpdate(_) => HandOver(t)
    case SendBroadcast => PassOn
  }

  /** Being able to go on means that the goroutine's next step is enabled. */
  lemma CanStepDoes(s: State, t: nat)
    requires Inv(s) && CanStep(s, t)
    ensures Enabled(s, StepOf(s, t))
  {
    assert ThreadFits(t, s[t]) && MayDo(t, s[t].todo[0]);
  }

  ghost predicate IsChain(s: State, chain: seq<nat>) {
    chain != [] && forall i :: 0 <= i < |chain| - 1 ==> WaitsFor(s, chain[i], chain[i + 1])
  }

  /** The chain of waits starts at `t` and ends at a goroutine that can go on and whose next step
      is enabled. */
  ghost predicate WaitEnds(s: State, t: nat, chain: seq<nat>) {
    && IsChain(s, chain) && chain[0] == t
    && var last := chain[|chain| - 1]; CanStep(s, last) && Enabled(s, StepOf(s, last))
  }

  /** In every reachable state of every run of disciplined goroutines, whoever has something left
      to do is at the head of a chain of waits that ends at a goroutine that can go on. */
  lemma EveryWaitEnds(tr: seq<State>, acts: seq<Action>, n: nat, t: nat) returns (chain: seq<nat>)
    requires IsRun(tr, acts) && AllDisciplined(acts) && n < |tr|
    requires t < |tr[n]| && tr[n][t].todo != []
    ensures WaitEnds(tr[n], t, chain)
  {
    InvHolds(tr, acts, n);
    chain := FollowWaits(tr[n], t);
  }

  lemma {:induction false} FollowWaits(s: State, t: nat) returns (chain: seq<nat>)
    requires Inv(s) && t < |s| && s[t].todo != []
    ensures WaitEnds(s, t, chain)
    decreases Rank(s[t])
  {
    if CanStep(s, t) {
      CanStepDoes(s, t);
      chain := [t];
    } else {
      var u := BlockedWaits(s, t);
      WaitsGoDown(s, t, u);
      var rest := FollowWaits(s, u);
      chain := [t] + rest;
      forall i | 0 <= i < |chain| - 1 ensures WaitsFor(s, chain[i], chain[i + 1]) {
        if i > 0 { assert WaitsFor(s, rest[i - 1], rest[i]); }
      }
    }
  }

  // ---------------------------------------------------------------------------------------
  // Draining

  /** The steps an operation stands for, with those of the messages it sends on. */
  function Steps(op: Op): nat {
    match op
    case SendUpdate(_) => 8      // handed over, then the monitor's five, the last counting three
    case SendBroadcast => 3      // passed on, then the stream's two
    case _ => 1
  }

  function StepsOf(ops: seq<Op>): nat { if ops == [] then 0 else Steps(ops[0]) + StepsOf(ops[1..]) }

  /** All steps left to the first `n` goroutines. */
  function Left(s: State, n: nat): nat
    requires n <= |s|
  {
    if n == 0 then 0 else Left(s, n - 1) + StepsOf(s[n - 1].todo)
  }

  lemma {:induction false} LeftUpdated(s: State, t: nat, th: Thread, n: nat)
    requires t < |s| && n <= |s|
    ensures Left(s[t := th], n) == Left(s, n) + if t < n then StepsOf(th.todo) - StepsOf(s[t].todo) else 0
  {
    if n > 0 { LeftUpdated(s, t, th, n - 1); }
  }

  lemma MonitorSteps(id: nat)
    ensures StepsOf(MonitorWork(id)) == 7 && StepsOf(STREAM_WORK) == 2
  {
    var w := MonitorWork(id);
    assert w[1..][1..] == w[2..] && w[2..][1..] == w[3..] && w[3..][1..] == w[4..] && w[4..][1..] == [];
    assert StepsOf(w[4..]) == 3 && StepsOf(w[3..]) == 4 && StepsOf(w[2..]) == 5;
    assert STREAM_WORK[1..][1..] == [];
  }

  /** Every step but the start of a new goroutine leaves exactly one step less. */
  lemma OneStepLess(s: State, a: Action)
    requires Enabled(s, a) && !a.Spawn?
    ensures |Do(s, a)| == |s| && Left(Do(s, a), |s|) == Left(s, |s|) - 1
  {
    match a
    case Lock(t) => LeftUpdated(s, t, Do(s, a)[t], |s|);
    case Unlock(t) => LeftUpdated(s, t, Do(s, a)[t], |s|);
    case HandOver(t) =>
      var mid := s[t := s[t].(todo := s[t].todo[1..])];
      LeftUpdated(s, t, mid[t], |s|);
      LeftUpdated(mid, MONITOR, Do(s, a)[MONITOR], |s|);
      MonitorSteps(s[t].todo[0].id);
    case PassOn =>
      var mid := s[MONITOR := s[MONITOR].(todo := s[MONITOR].todo[1..])];
      LeftUpdated(s, MONITOR, mid[MONITOR], |s|);
      LeftUpdated(mid, STREAM, Do(s, a)[STREAM], |s|);
      MonitorSteps(0);
  }

  ghost predicate AllDone(s: State) { forall t :: 0 <= t < |s| ==> s[t].todo == [] }

  lemma {:induction false} NothingLeft(s: State, n: nat, t: nat)
    requires t < n <= |s|
    ensures s[t].todo != [] ==> Left(s, n) > 0
  {
    if t < n - 1 { NothingLeft(s, n - 1, t); }
  }

  lemma {:induction false} DoneLeft(s: State, n: nat)
    requires AllDone(s) && n <= |s|
    ensures Left(s, n) == 0
  {
    if n > 0 { DoneLeft(s, n - 1); }
  }

  /** A schedule from `s` that starts no new goroutine. */
  ghost predicate Schedule(s: State, acts: seq<Action>, end: State)
    decreases |acts|
  {
    if acts == [] then end == s
    else Enabled(s, acts[0]) && !acts[0].Spawn? && Schedule(Do(s, acts[0]), acts[1..], end)
  }

  /** Once no new calls come in, whatever the schedule: after exactly as many steps as were left
      every goroutine is done, and until then some goroutine can go on. */
  lemma {:induction false} Drains(s: State, acts: seq<Action>, end: State)
    requires Inv(s) && Schedule(s, acts, end)
    ensures Inv(end) && |end| == |s| && |acts| + Left(end, |s|) == Left(s, |s|)
    ensures AllDone(end) <==> |acts| == Left(s, |s|)
    ensures !AllDone(end) ==> exists t :: CanStep(end, t) && Enabled(end, StepOf(end, t))
    decreases |acts|
  {
    if acts == [] {
      if AllDone(s) {
        DoneLeft(s, |s|);
      } else {
        var t :| 0 <= t < |s| && s[t].todo != [];
        NothingLeft(s, |s|, t);
        var chain := FollowWaits(s, t);
      }
    } else {
      StepKeeps(s, acts[0]);
      OneStepLess(s, acts[0]);
      Drains(Do(s, acts[0]), acts[1..], end);
    }
  }
}
