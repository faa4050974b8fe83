/** The operations of a routine that others can notice: its sections under the manager's lock, its
    exclusive sections under a process's, and its updates. */
module LockVisible {
  import opened Locks
  import opened LockScripts

  predicate Noticeable(op: Op) {
    match op
    case Acquire(l, m) => l == ManagerLock || (l.ProcessLock? && m == Exclusive)
    case SendUpdate(_) => true
    case _ => false
  }

  function Visible(ops: seq<Op>): seq<Op> {
    if ops == [] then [] else Notice(ops[0]) + Visible(ops[1..])
  }

  function Notice(op: Op): seq<Op> { if Noticeable(op) then [op] else [] }

  const READ_MAP: Op := Acquire(ManagerLock, Shared)
  const WRITE_MAP: Op := Acquire(ManagerLock, Exclusive)

  function Writes(id: nat): Op { Acquire(ProcessLock(id), Exclusive) }

  function If(c: bool, ops: seq<Op>): seq<Op> { if c then ops else [] }

  function WritesEach(ids: seq<nat>): seq<Op> { seq(|ids|, i requires 0 <= i < |ids| => Writes(ids[i])) }

  function Reports(ids: seq<nat>): seq<Op> { seq(|ids|, i requires 0 <= i < |ids| => SendUpdate(ids[i])) }

  /** What the rest of a replacement does after its first section. */
  function SeenAfterReserving(id: nat, prev: nat, needed: bool, end: ReplaceEnd): seq<Op> {
    match end
    case NotReserved => []
    case SameBinary => []
    case StartFailed => [Writes(id), Writes(id)] + If(needed, [SendUpdate(id)])
    case NeverRan(_) => [Writes(id), Writes(id)] + If(needed, [SendUpdate(id)])
    case Superseded(_, neededOld) =>
      [Writes(id), Writes(prev)] + If(neededOld, [SendUpdate(prev)]) +
      [WRITE_MAP, Writes(id)] + If(needed, [SendUpdate(id)])
    case Swapped(_, neededOld, _) =>
      [Writes(id), Writes(prev)] + If(neededOld, [SendUpdate(prev)]) + [WRITE_MAP, SendUpdate(id)]
  }

  /** What each routine lets others notice, in order. */
  function Seen(r: Routine): seq<Op> {
    match r
    case CreateCall(id, _, registered, started) =>
      [WRITE_MAP] + If(registered, [SendUpdate(id), Writes(id)] + If(!started, [SendUpdate(id)]))
    case DeleteCall(id, found, needed) =>
      [READ_MAP] + If(found, [Writes(id)] + If(needed, [SendUpdate(id)]) + [WRITE_MAP])
    case UnregisterWorker(id, _, ended, _) => If(ended, [WRITE_MAP, SendUpdate(id)])
    case ReplaceCall(id, prev, _, needed, end) => [WRITE_MAP] + SeenAfterReserving(id, prev, needed, end)
    case GetCall(_, _) => [READ_MAP]
    case ListCall(_) => [READ_MAP]
    case ConditionCheck(ids, changed) => [READ_MAP] + WritesEach(ids) + Reports(changed)
    case RunGoroutine(id) => [Writes(id), SendUpdate(id)]
    case ProbeAnswers(id) => [Writes(id), SendUpdate(id)]
    case ProbeGivesUp(id, ended, needed) => If(!ended, [Writes(id)] + If(needed, [SendUpdate(id)]))
    case StopWorker(_, _, _, _, _) => []
    case SubscribeCall => []
    case Unsubscribe => []
  }

  // ---------------------------------------------------------------------------------------

  lemma {:induction false} Plus(a: seq<Op>, b: seq<Op>)
    ensures Visible(a + b) == Visible(a) + Visible(b)
  {
    if a == [] {
      assert a + b == b;
    } else {
      assert (a + b)[1..] == a[1..] + b && (a + b)[0] == a[0];
      Plus(a[1..], b);
      Assoc(Notice(a[0]), Visible(a[1..]), Visible(b));
    }
  }

  lemma Assoc(x: seq<Op>, y: seq<Op>, z: seq<Op>)
    ensures x + (y + z) == (x + y) + z
  {
  }

  lemma Plus3(a: seq<Op>, b: seq<Op>, c: seq<Op>, x: seq<Op>, y: seq<Op>, z: seq<Op>)
    requires Visible(a) == x && Visible(b) == y && Visible(c) == z
    ensures Visible(a + b + c) == x + y + z
  {
    Plus(a, b);
    Plus(a + b, c);
  }

  lemma Plus4(a: seq<Op>, b: seq<Op>, c: seq<Op>, d: seq<Op>, x: seq<Op>, y: seq<Op>, z: seq<Op>)
    requires Visible(a) == x && Visible(b) == y && Visible(c) == z && Visible(d) == []
    ensures Visible(a + b + c + d) == x + y + z
  {
    Plus3(a, b, c, x, y, z);
    Plus(a + b + c, d);
  }

  lemma Shape(x: seq<Op>, y: seq<Op>, p: Op, q: Op)
    ensures x + [p] + ([q] + y) == x + [p, q] + y
    ensures x + [p] + [q] == x + [p, q]
    ensures [p] + ([q] + y) == [p, q] + y
  {
  }

  lemma SeenUpdate(id: nat)
    ensures Visible([SendUpdate(id)]) == [SendUpdate(id)]
  {
  }

  lemma SeenUnder(l: Lock, m: Mode, inner: seq<Op>)
    ensures Visible(Under(l, m, inner)) == If(Noticeable(Acquire(l, m)), [Acquire(l, m)]) + Visible(inner)
  {
    Plus([Acquire(l, m)], inner);
    Plus([Acquire(l, m)] + inner, [Release(l)]);
    assert Visible([Acquire(l, m)]) == If(Noticeable(Acquire(l, m)), [Acquire(l, m)]);
    assert Visible([Release(l)]) == [];
  }

  lemma SeenSection(l: Lock, m: Mode)
    ensures Visible(Section(l, m)) == If(Noticeable(Acquire(l, m)), [Acquire(l, m)])
  {
    SeenUnder(l, m, []);
  }

  lemma SeenPool(used: bool)
    ensures Visible(Pool(used)) == [] && Visible(Under(ManagerLock, Exclusive, Pool(used))) == [WRITE_MAP]
  {
    SeenSection(PoolLock, Exclusive);
    SeenUnder(ManagerLock, Exclusive, Pool(used));
  }

  lemma {:induction false} SeenPeeks(id: nat, times: nat)
    ensures Visible(Peek(id)) == [] && Visible(Peeks(id, times)) == []
  {
    SeenSection(ProcessLock(id), Shared);
    if times > 0 {
      SeenPeeks(id, times - 1);
      Plus(Peek(id), Peeks(id, times - 1));
    }
  }

  lemma SeenStop(id: nat, needed: bool)
    ensures Visible(Stop(id, needed)) == [Writes(id)] + If(needed, [SendUpdate(id)])
  {
    SeenSection(ProcessLock(id), Exclusive);
    SeenPeeks(id, 0);
    assert Visible([SendUpdate(id)]) == [SendUpdate(id)];
    Plus([SendUpdate(id)], Peek(id));
    Plus(Section(ProcessLock(id), Exclusive), if needed then [SendUpdate(id)] + Peek(id) else []);
  }

  lemma SeenCleanup(id: nat, needed: bool, pool: bool)
    ensures Visible(Cleanup(id, needed, pool)) == [Writes(id)] + If(needed, [SendUpdate(id)])
  {
    SeenStop(id, needed);
    SeenPool(pool);
    Plus(Stop(id, needed), Pool(pool));
  }

  lemma SeenStart(id: nat, made: bool)
    ensures Visible(Start(id, made)) == [Writes(id)]
  {
    SeenSection(CommandLock(id), Exclusive);
    SeenUnder(ProcessLock(id), Exclusive, if made then Section(CommandLock(id), Exclusive) else []);
  }

  lemma SeenStartAndPoll(id: nat, polls: nat)
    ensures Visible(Start(id, true) + Peeks(id, polls)) == [Writes(id)]
  {
    SeenStart(id, true);
    SeenPeeks(id, polls);
    Plus(Start(id, true), Peeks(id, polls));
  }

  lemma SeenStopAfterPoll(id: nat, polls: nat, prev: nat, needed: bool)
    ensures Visible(Start(id, true) + Peeks(id, polls) + Stop(prev, needed)) ==
            [Writes(id), Writes(prev)] + If(needed, [SendUpdate(prev)])
  {
    SeenStartAndPoll(id, polls);
    SeenStop(prev, needed);
    Plus(Start(id, true) + Peeks(id, polls), Stop(prev, needed));
  }

  lemma {:induction false} SeenEach(ids: seq<nat>, m: Mode)
    ensures Visible(Each(ids, m)) == if m == Exclusive then WritesEach(ids) else []
  {
    if ids != [] {
      SeenSection(ProcessLock(ids[0]), m);
      SeenEach(ids[1..], m);
      Plus(Section(ProcessLock(ids[0]), m), Each(ids[1..], m));
      assert WritesEach(ids) == [Writes(ids[0])] + WritesEach(ids[1..]);
    }
  }

  lemma {:induction false} SeenSends(ids: seq<nat>)
    ensures Visible(Sends(ids)) == Reports(ids)
  {
    if ids != [] {
      SeenSends(ids[1..]);
      assert Visible([SendUpdate(ids[0])]) == [SendUpdate(ids[0])];
      Plus([SendUpdate(ids[0])], Sends(ids[1..]));
      assert Reports(ids) == [SendUpdate(ids[0])] + Reports(ids[1..]);
    }
  }

  lemma SeenWork(id: nat, running: bool, signal: bool, polls: nat, kill: bool)
    ensures Visible(Work(id, running, signal, polls, kill)) == []
  {
    SeenSection(CommandLock(id), Shared);
    SeenPeeks(id, polls);
    Plus(UseCommand(id, true), UseCommand(id, signal));
    Plus(UseCommand(id, true) + UseCommand(id, signal), Peeks(id, polls));
    Plus(UseCommand(id, true) + UseCommand(id, signal) + Peeks(id, polls), UseCommand(id, kill));
  }

  lemma SeenReplace(id: nat, prev: nat, pool: bool, needed: bool, end: ReplaceEnd)
    ensures Visible(AfterReserving(id, prev, pool, needed, end)) == SeenAfterReserving(id, prev, needed, end)
  {
    match end
    case NotReserved =>
    case SameBinary => SeenPeeks(prev, 0);
    case StartFailed =>
      SeenStart(id, false);
      SeenCleanup(id, needed, pool);
      Plus(Start(id, false), Cleanup(id, needed, pool));
    case NeverRan(polls) =>
      SeenStartAndPoll(id, polls);
      SeenCleanup(id, needed, pool);
      Plus(Start(id, true) + Peeks(id, polls), Cleanup(id, needed, pool));
    case Superseded(polls, neededOld) => SeenSuperseded(id, prev, pool, needed, polls, neededOld);
    case Swapped(polls, neededOld, held) => SeenSwapped(id, prev, pool, needed, polls, neededOld, held);
  }

  lemma SeenSuperseded(id: nat, prev: nat, pool: bool, needed: bool, polls: nat, neededOld: bool)
    ensures var end := Superseded(polls, neededOld);
            Visible(AfterReserving(id, prev, pool, needed, end)) == SeenAfterReserving(id, prev, needed, end)
  {
    var a := Start(id, true) + Peeks(id, polls) + Stop(prev, neededOld);
    SeenStopAfterPoll(id, polls, prev, neededOld);
    SeenSection(ManagerLock, Exclusive);
    SeenCleanup(id, needed, pool);
    var x, y := [Writes(id), Writes(prev)] + If(neededOld, [SendUpdate(prev)]), If(needed, [SendUpdate(id)]);
    Plus3(a, Section(ManagerLock, Exclusive), Cleanup(id, needed, pool), x, [WRITE_MAP], [Writes(id)] + y);
    Shape(x, y, WRITE_MAP, Writes(id));
  }

  lemma SeenSwapped(id: nat, prev: nat, pool: bool, needed: bool, polls: nat, neededOld: bool, held: bool)
    ensures var end := Swapped(polls, neededOld, held);
            Visible(AfterReserving(id, prev, pool, needed, end)) == SeenAfterReserving(id, prev, needed, end)
  {
    var a := Start(id, true) + Peeks(id, polls) + Stop(prev, neededOld);
    var b := Under(ManagerLock, Exclusive, Pool(held));
    SeenStopAfterPoll(id, polls, prev, neededOld);
    SeenPool(held);
    SeenPeeks(id, 0);
    SeenUpdate(id);
    var x := [Writes(id), Writes(prev)] + If(neededOld, [SendUpdate(prev)]);
    Plus4(a, b, [SendUpdate(id)], Peek(id), x, [WRITE_MAP], [SendUpdate(id)]);
    Shape(x, [], WRITE_MAP, SendUpdate(id));
  }

  lemma SeenRegistered(id: nat, started: bool)
    ensures Visible([SendUpdate(id)] + Start(id, started) + (if started then [] else [SendUpdate(id)]) + Peek(id)) ==
            [SendUpdate(id), Writes(id)] + If(!started, [SendUpdate(id)])
  {
    SeenStart(id, started);
    SeenPeeks(id, 0);
    SeenUpdate(id);
    var again := if started then [] else [SendUpdate(id)];
    var y := If(!started, [SendUpdate(id)]);
    assert Visible(again) == y;
    Plus4([SendUpdate(id)], Start(id, started), again, Peek(id), [SendUpdate(id)], [Writes(id)], y);
  }

  lemma SeenCreate(id: nat, pool: bool, registered: bool, started: bool)
    ensures var r := CreateCall(id, pool, registered, started); Visible(Script(r)) == Seen(r)
  {
    SeenPool(pool);
    SeenRegistered(id, started);
    var rest := if !registered then []
                else [SendUpdate(id)] + Start(id, started) + (if started then [] else [SendUpdate(id)]) + Peek(id);
    assert Visible(rest) == If(registered, [SendUpdate(id), Writes(id)] + If(!started, [SendUpdate(id)]));
    Plus(Under(ManagerLock, Exclusive, Pool(pool)), rest);
  }

  lemma SeenFound(id: nat, needed: bool)
    ensures Visible(Stop(id, needed) + Peek(id) + Section(ManagerLock, Exclusive)) ==
            [Writes(id)] + If(needed, [SendUpdate(id)]) + [WRITE_MAP]
  {
    SeenSection(ManagerLock, Exclusive);
    SeenStop(id, needed);
    SeenPeeks(id, 0);
    var x := [Writes(id)] + If(needed, [SendUpdate(id)]);
    Plus3(Stop(id, needed), Peek(id), Section(ManagerLock, Exclusive), x, [], [WRITE_MAP]);
    assert x + [] == x;
  }

  lemma SeenDelete(id: nat, found: bool, needed: bool)
    ensures var r := DeleteCall(id, found, needed); Visible(Script(r)) == Seen(r)
  {
    SeenSection(ManagerLock, Shared);
    SeenFound(id, needed);
    var rest := if !found then [] else Stop(id, needed) + Peek(id) + Section(ManagerLock, Exclusive);
    assert Visible(rest) == If(found, [Writes(id)] + If(needed, [SendUpdate(id)]) + [WRITE_MAP]);
    Plus(Section(ManagerLock, Shared), rest);
  }

  lemma SeenUnregister(id: nat, polls: nat, ended: bool, removed: bool)
    ensures var r := UnregisterWorker(id, polls, ended, removed); Visible(Script(r)) == Seen(r)
  {
    var b := Under(ManagerLock, Exclusive, Pool(removed));
    SeenPeeks(id, polls);
    SeenPool(removed);
    SeenUpdate(id);
    Plus(b, [SendUpdate(id)]);
    Plus(Peeks(id, polls), if !ended then [] else b + [SendUpdate(id)]);
  }

  lemma SeenReplaceCall(id: nat, prev: nat, pool: bool, needed: bool, end: ReplaceEnd)
    ensures var r := ReplaceCall(id, prev, pool, needed, end); Visible(Script(r)) == Seen(r)
  {
    SeenPool(pool);
    SeenReplace(id, prev, pool, needed, end);
    Plus(Under(ManagerLock, Exclusive, Pool(pool)), AfterReserving(id, prev, pool, needed, end));
  }

  lemma SeenConditionCheck(ids: seq<nat>, changed: seq<nat>)
    ensures var r := ConditionCheck(ids, changed); Visible(Script(r)) == Seen(r)
  {
    SeenEach(ids, Exclusive);
    SeenUnder(ManagerLock, Shared, Each(ids, Exclusive));
    SeenSends(changed);
    Plus(Under(ManagerLock, Shared, Each(ids, Exclusive)), Sends(changed));
  }

  lemma SeenReaders(r: Routine)
    requires r.GetCall? || r.ListCall?
    ensures Visible(Script(r)) == Seen(r)
  {
    match r
    case GetCall(id, found) =>
      SeenSection(ManagerLock, Shared);
      SeenPeeks(id, 0);
      Plus(Section(ManagerLock, Shared), if found then Peek(id) else []);
    case ListCall(ids) =>
      SeenEach(ids, Shared);
      SeenUnder(ManagerLock, Shared, Each(ids, Shared));
  }

  lemma SeenProbeGivesUp(id: nat, ended: bool, needed: bool)
    ensures var r := ProbeGivesUp(id, ended, needed); Visible(Script(r)) == Seen(r)
  {
    SeenPeeks(id, 0);
    var tail := if ended then [] else Stop(id, needed);
    if !ended { SeenStop(id, needed); }
    assert Visible(tail) == If(!ended, [Writes(id)] + If(needed, [SendUpdate(id)]));
    Plus(Peek(id), tail);
  }

  lemma SeenWriteAndReport(id: nat)
    ensures Visible(Section(ProcessLock(id), Exclusive) + [SendUpdate(id)]) == [Writes(id), SendUpdate(id)]
  {
    SeenSection(ProcessLock(id), Exclusive);
    assert Visible([SendUpdate(id)]) == [SendUpdate(id)];
    Plus(Section(ProcessLock(id), Exclusive), [SendUpdate(id)]);
  }

  /** No script leaves out a section under the manager's lock, a write under a process's lock, or an
      update, or has them in another order. */
  lemma ScriptsAreSeen(r: Routine)
    ensures Visible(Script(r)) == Seen(r)
  {
    match r
    case CreateCall(id, pool, registered, started) => SeenCreate(id, pool, registered, started);
    case DeleteCall(id, found, needed) => SeenDelete(id, found, needed);
    case UnregisterWorker(id, polls, ended, removed) => SeenUnregister(id, polls, ended, removed);
    case ReplaceCall(id, prev, pool, needed, end) => SeenReplaceCall(id, prev, pool, needed, end);
    case GetCall(_, _) => SeenReaders(r);
    case ListCall(_) => SeenReaders(r);
    case ConditionCheck(ids, changed) => SeenConditionCheck(ids, changed);
    case RunGoroutine(id) => SeenWriteAndReport(id);
    case ProbeAnswers(id) => SeenWriteAndReport(id);
    case ProbeGivesUp(id, ended, needed) => SeenProbeGivesUp(id, ended, needed);
    case StopWorker(id, running, signal, polls, kill) => SeenWork(id, running, signal, polls, kill);
    case SubscribeCall => SeenSection(BroadcasterLock, Exclusive);
    case Unsubscribe => SeenSection(BroadcasterLock, Exclusive);
  }
}
