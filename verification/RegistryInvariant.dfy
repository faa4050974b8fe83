/** What every action of the registry protocol keeps. */
module RegistryInvariant {
  import opened Wrappers
  import opened PortPool
  import opened Registry

  // ---------------------------------------------------------------------------------------
  // The pool: every taken port has exactly one holder, every holder has all its ports

  predicate Holds(p: Proc) {
    p.count > 0 && (p.status == Pending || p.status == Registered || p.status == Abandoned || p.status == Leaked)
  }

  predicate InRange(base: int, size: int, p: Proc) {
    base <= p.first && p.last == p.first + p.count - 1 && p.last < base + size
  }

  ghost predicate OwnsAll(base: int, owner: seq<int>, p: Proc, id: Id) {
    InRange(base, |owner|, p) && forall k :: p.first - base <= k <= p.last - base ==> owner[k] == id
  }

  ghost predicate OwnerHolds(base: int, procs: seq<Proc>, k: int, id: int) {
    id >= 0 ==> id < |procs| && Holds(procs[id]) && procs[id].first <= base + k <= procs[id].last
  }

  ghost predicate FreeIffUnowned(free: seq<bool>, owner: seq<int>) {
    |free| == |owner| && forall k :: 0 <= k < |owner| ==> (free[k] <==> owner[k] < 0)
  }

  ghost predicate OwnersHold(base: int, procs: seq<Proc>, owner: seq<int>) {
    forall k :: 0 <= k < |owner| ==> OwnerHolds(base, procs, k, owner[k])
  }

  ghost predicate HoldersOwn(base: int, procs: seq<Proc>, owner: seq<int>) {
    forall i :: 0 <= i < |procs| && Holds(procs[i]) ==> OwnsAll(base, owner, procs[i], i)
  }

  function Held(p: Proc): nat { if Holds(p) then p.count else 0 }

  /** Ports held by the first `n` processes. */
  function HeldBelow(procs: seq<Proc>, n: nat): nat
    requires n <= |procs|
  {
    if n == 0 then 0 else HeldBelow(procs, n - 1) + Held(procs[n - 1])
  }

  ghost predicate OwnInv(pool: Pool, procs: seq<Proc>, owner: seq<int>) {
    && FreeIffUnowned(pool.free, owner)
    && OwnersHold(pool.base, procs, owner)
    && HoldersOwn(pool.base, procs, owner)
  }

  /** No port is lost or made up: free ports and held ports add up to the pool. */
  ghost predicate Conserved(pool: Pool, procs: seq<Proc>) {
    FreeCount(pool.free) + HeldBelow(procs, |procs|) == pool.size
  }

  ghost predicate PoolInv(pool: Pool, procs: seq<Proc>, owner: seq<int>) {
    Valid(pool) && OwnInv(pool, procs, owner) && Conserved(pool, procs)
  }

  // ---------------------------------------------------------------------------------------
  // The registry: exactly the registered processes, each under its own name

  ghost predicate RegInv(registry: map<string, Id>, procs: seq<Proc>) {
    && (forall n :: n in registry ==>
          registry[n] < |procs| && procs[registry[n]].name == n && procs[registry[n]].status == Registered)
    && (forall i :: 0 <= i < |procs| && procs[i].status == Registered ==>
          procs[i].name in registry && registry[procs[i].name] == i)
  }

  predicate GoneBack(st: Status) { st == Released || st == Leaked }

  predicate StatusFits(pc: ReplacePc, st: Status) {
    && (pc.InFlight() <==> st == Pending)
    && (pc.SameBinary? <==> st == Abandoned)
    && (pc.Failed? ==> GoneBack(st))
  }

  /** A process's status fits the call that made it. */
  predicate OwnFits(p: Proc) {
    match p.maker
    case Create => p.status == Registered || GoneBack(p.status)
    case Replace(_, pc) => StatusFits(pc, p.status)
  }

  /** What a replacement replaces is an older process of the same name. */
  ghost predicate PrevFits(procs: seq<Proc>, i: nat)
    requires i < |procs|
  {
    procs[i].maker.Replace? ==> procs[i].maker.prev < i && procs[procs[i].maker.prev].name == procs[i].name
  }

  /** A process without ports has the range (0,0). */
  predicate CountFits(p: Proc) { p.count >= 0 && (p.count == 0 ==> p.first == p.last == 0) }

  ghost predicate MakersFit(procs: seq<Proc>) {
    forall i :: 0 <= i < |procs| ==> CountFits(procs[i]) && OwnFits(procs[i]) && PrevFits(procs, i)
  }

  // ---------------------------------------------------------------------------------------
  // The history: legal for an atomic registry, nobody enters twice, nobody is released twice

  /** An atomic registry: what one change does, and when it is allowed. */
  function Apply(m: map<string, Id>, e: Event): (r: Option<map<string, Id>>) {
    match e
    case Created(n, id) => if n in m then None else Some(m[n := id])
    case Replaced(n, id, prev) => if n in m && m[n] != prev then None else Some(m[n := id])
    case Removed(n, id, _) => if n in m && m[n] == id then Some(m - {n}) else None
  }

  function Replay(log: seq<Event>): (r: Option<map<string, Id>>) {
    if log == [] then Some(map[])
    else
      var m := Replay(log[..|log| - 1]);
      if m.None? then None else Apply(m.value, log[|log| - 1])
  }

  predicate Entered(p: Proc) {
    p.status != Pending && p.status != Abandoned && (p.maker.Replace? ==> p.maker.pc == Swapped)
  }

  predicate Enters(e: Event) { e.Created? || e.Replaced? }

  ghost predicate EntersOnce(log: seq<Event>, procs: seq<Proc>) {
    && (forall i :: 0 <= i < |log| ==>
          log[i].id < |procs| && Entered(procs[log[i].id]) && procs[log[i].id].name == log[i].name)
    && (forall i, j :: 0 <= i < j < |log| && Enters(log[i]) && Enters(log[j]) ==> log[i].id != log[j].id)
  }

  ghost predicate ReleasedOnce(releases: seq<Id>, procs: seq<Proc>) {
    && (forall i :: 0 <= i < |releases| ==> releases[i] < |procs| && GoneBack(procs[releases[i]].status))
    && (forall i, j :: 0 <= i < j < |releases| ==> releases[i] != releases[j])
  }

  // ---------------------------------------------------------------------------------------
  // Threads and updates

  ghost predicate ThreadFits(s: State, t: nat)
    requires t < |s.threads|
  {
    var th := s.threads[t];
    && th.target < |s.procs| && Entered(s.procs[th.target])
    && (th.Worker? ==>
          match th.pc
          case Notifying(at) => RemovalFits(s.h.log, th.target, t, at)
          case Notified(at, slot) => RemovalFits(s.h.log, th.target, t, at) && NoticeFits(s, t, at, slot)
          case _ => true)
  }

  ghost predicate RemovalFits(log: seq<Event>, id: Id, t: nat, at: Option<nat>) {
    at.Some? ==> at.value < |log| && log[at.value].Removed? && log[at.value].id == id && log[at.value].worker == t
  }

  /** The update a worker handed over is in the monitor's hands or already broadcast. */
  ghost predicate NoticeFits(s: State, t: nat, at: Option<nat>, slot: nat)
    requires t < |s.threads|
  {
    if slot < |s.broadcasts| then SentBy(s.broadcasts[slot], t, s.threads[t].target, at)
    else slot == |s.broadcasts| && match s.monitor
      case Idle => false
      case Received(id, from) => id == s.threads[t].target && from == Some(t)
      case Checked(u) => SentBy(u, t, s.threads[t].target, at)
  }

  predicate SentBy(u: Update, t: nat, id: Id, at: Option<nat>) {
    u.from == Some(t) && u.id == id && (at.Some? ==> at.value < u.at)
  }

  ghost predicate ThreadsFit(s: State) {
    forall t :: 0 <= t < |s.threads| ==> ThreadFits(s, t)
  }

  /** Every removal was made by a worker that reports it. */
  ghost predicate RemovalsReported(s: State) {
    forall r :: 0 <= r < |s.h.log| && s.h.log[r].Removed? ==> Reported(s.threads, s.h.log[r].worker, s.h.log[r].id, r)
  }

  ghost predicate Reported(threads: seq<Thread>, t: nat, id: Id, r: nat) {
    t < |threads| && threads[t].Worker? && threads[t].target == id
    && (threads[t].pc == Notifying(Some(r)) || (threads[t].pc.Notified? && threads[t].pc.removedAt == Some(r)))
  }

  /** An update says Deleted exactly if the name was absent when the monitor looked. */
  ghost predicate UpdateTrue(log: seq<Event>, procs: seq<Proc>, u: Update) {
    && u.id < |procs| && u.at <= |log|
    && Replay(log[..u.at]).Some?
    && (u.deleted <==> procs[u.id].name !in Replay(log[..u.at]).value)
  }

  ghost predicate UpdatesTrue(s: State) {
    && (forall i :: 0 <= i < |s.broadcasts| ==> UpdateTrue(s.h.log, s.procs, s.broadcasts[i]))
    && (s.monitor.Received? ==> s.monitor.id < |s.procs|)
    && (s.monitor.Checked? ==> UpdateTrue(s.h.log, s.procs, s.monitor.update))
  }

  ghost predicate StopsFit(s: State) {
    forall i :: 0 <= i < |s.h.stops| ==> s.h.stops[i].0 < |s.procs| && StopCounted(s.procs[s.h.stops[i].0])
  }

  /** The replacement has passed the point where it stops the old process. */
  predicate StopCounted(p: Proc) {
    p.maker.Replace? &&
    match p.maker.pc
    case Swapping => true
    case Swapped => true
    case CleanStopping(st) => st
    case CleanReleasing(st) => st
    case Failed(st) => st
    case _ => false
  }

  /** Who is registered and who holds which ports. */
  ghost predicate HolderInv(s: State) {
    && PoolInv(s.pool, s.procs, s.h.owner)
    && RegInv(s.registry, s.procs)
    && MakersFit(s.procs)
  }

  /** What the history says about how this came about. */
  ghost predicate HistoryInv(s: State) {
    && Replay(s.h.log) == Some(s.registry)
    && EntersOnce(s.h.log, s.procs)
    && ReleasedOnce(s.h.releases, s.procs)
  }

  /** What the calls, the workers and the monitor have in hand. */
  ghost predicate ThreadInv(s: State) {
    && ThreadsFit(s)
    && RemovalsReported(s)
    && UpdatesTrue(s)
    && StopsFit(s)
  }

  ghost predicate Inv(s: State) {
    HolderInv(s) && HistoryInv(s) && ThreadInv(s)
  }
}
