/** What watchers are told about deletions, and which ports are lost for good. */
module RegistryEvents {
  import opened Wrappers
  import opened PortPool
  import opened Registry
  import opened RegistryInvariant
  import opened RegistrySteps
  import opened RegistryTheorems
  import opened RegistryRuns

  // ---------------------------------------------------------------------------------------
  // Deletion events

  lemma OnlyCheckMakesChecked(s: State, a: Action)
    requires Valid(s.pool) && Enabled(s, a) && Do(s, a).monitor.Checked? && !a.CheckDeleted?
    ensures Do(s, a).monitor == s.monitor
  {
  }

  lemma OnlyBroadcastBroadcasts(s: State, a: Action)
    requires Valid(s.pool) && Enabled(s, a)
    ensures Do(s, a).broadcasts == if a.Broadcast? then s.broadcasts + [s.monitor.update] else s.broadcasts
  {
  }

  /** Where the update in the monitor's hands was built. */
  lemma {:induction false} WhereChecked(tr: seq<State>, acts: seq<Action>, n: nat) returns (m: nat)
    requires IsRun(tr, acts) && n < |tr| && tr[n].monitor.Checked?
    ensures m < n && acts[m] == CheckDeleted && tr[m].monitor.Received?
    ensures tr[m + 1].monitor == tr[n].monitor
  {
    assert n > 0;
    assert StepAt(tr, acts, n - 1);
    if acts[n - 1].CheckDeleted? {
      m := n - 1;
    } else {
      OnlyCheckMakesChecked(tr[n - 1], acts[n - 1]);
      m := WhereChecked(tr, acts, n - 1);
    }
  }

  /** Every update broadcast was built by the monitor at some earlier moment `m`, and it says
      Deleted exactly if no process of that name was registered at that moment. */
  lemma {:induction false} DeletedMeansAbsent(tr: seq<State>, acts: seq<Action>, n: nat, i: nat) returns (m: nat)
    requires IsRun(tr, acts) && n < |tr| && i < |tr[n].broadcasts|
    ensures m < n && acts[m] == CheckDeleted && tr[m].monitor.Received?
    ensures tr[n].broadcasts[i].id == tr[m].monitor.id < |tr[m].procs|
    ensures tr[n].broadcasts[i].deleted <==> tr[m].procs[tr[m].monitor.id].name !in tr[m].registry
  {
    assert n > 0;
    assert StepAt(tr, acts, n - 1);
    OnlyBroadcastBroadcasts(tr[n - 1], acts[n - 1]);
    if i < |tr[n - 1].broadcasts| {
      m := DeletedMeansAbsent(tr, acts, n - 1, i);
    } else {
      m := WhereChecked(tr, acts, n - 1);
      assert StepAt(tr, acts, m);
    }
  }

  /** After a removal a name stays absent until it is entered again. */
  lemma {:induction false} AbsentSinceRemoval(log: seq<Event>, r: nat, at: nat)
    requires r < at <= |log| && log[r].Removed? && Replay(log[..at]).Some?
    requires forall k :: r < k < at ==> !(Enters(log[k]) && log[k].name == log[r].name)
    ensures log[r].name !in Replay(log[..at]).value
  {
    var front := log[..at];
    assert front[..at - 1] == log[..at - 1];
    if at > r + 1 { AbsentSinceRemoval(log, r, at - 1); }
  }

  /** The update is about the process of removal `r`, built after it, and says Deleted unless the
      name was registered again in between. */
  ghost predicate Announces(log: seq<Event>, u: Update, r: nat)
    requires r < |log| && log[r].Removed?
  {
    && u.id == log[r].id && r < u.at <= |log|
    && (u.deleted || exists k :: r < k < u.at && Enters(log[k]) && log[k].name == log[r].name)
  }

  /** The monitor holds the update of the worker that made removal `r`. */
  ghost predicate MonitorHas(m: Monitor, log: seq<Event>, r: nat)
    requires r < |log| && log[r].Removed?
  {
    match m
    case Idle => false
    case Received(id, from) => id == log[r].id && from == Some(log[r].worker)
    case Checked(u) => u.from == Some(log[r].worker) && Announces(log, u, r)
  }

  lemma TrueUpdateAnnounces(s: State, u: Update, r: nat)
    requires EntersOnce(s.h.log, s.procs) && UpdateTrue(s.h.log, s.procs, u)
    requires r < |s.h.log| && s.h.log[r].Removed? && u.id == s.h.log[r].id && r < u.at
    ensures Announces(s.h.log, u, r)
  {
    if !exists k :: r < k < u.at && Enters(s.h.log[k]) && s.h.log[k].name == s.h.log[r].name {
      AbsentSinceRemoval(s.h.log, r, u.at);
    }
  }

  /** Every removal by a worker is announced: the worker is still waiting to send the update about
      this removal, or the monitor has just that update, or it has been broadcast, and then it says
      Deleted unless the name was registered again between the removal and the monitor's look. */
  lemma RemovalIsAnnounced(tr: seq<State>, acts: seq<Action>, n: nat, r: nat)
    requires IsRun(tr, acts) && n < |tr| && r < |tr[n].h.log| && tr[n].h.log[r].Removed?
    ensures var s, e := tr[n], tr[n].h.log[r];
            && e.worker < |s.threads| && s.threads[e.worker].Worker?
            && match s.threads[e.worker].pc
               case Notifying(at) => at == Some(r)
               case Notified(at, slot) =>
                 && at == Some(r)
                 && if slot < |s.broadcasts| then Announces(s.h.log, s.broadcasts[slot], r)
                    else slot == |s.broadcasts| && MonitorHas(s.monitor, s.h.log, r)
               case _ => false
  {
    InvHolds(tr, acts, n);
    var s, e := tr[n], tr[n].h.log[r];
    assert Reported(s.threads, e.worker, e.id, r);
    assert ThreadFits(s, e.worker);
    var pc := s.threads[e.worker].pc;
    if pc.Notified? && pc.slot < |s.broadcasts| {
      TrueUpdateAnnounces(s, s.broadcasts[pc.slot], r);
    } else if pc.Notified? && s.monitor.Checked? {
      TrueUpdateAnnounces(s, s.monitor.update, r);
    }
  }

  // ---------------------------------------------------------------------------------------
  // Every update is broadcast once, in order

  /** The process whose update an action hands to the monitor, if it does. */
  function HandedOver(s: State, a: Action): seq<Id>
    requires Enabled(s, a)
  {
    match a
    case Receive(p) => [p]
    case ReceiveNotice(t) => [s.threads[t].target]
    case _ => []
  }

  ghost function AllHandedOver(tr: seq<State>, acts: seq<Action>, n: nat): seq<Id>
    requires IsRun(tr, acts) && n <= |acts|
  {
    if n == 0 then []
    else
      assert StepAt(tr, acts, n - 1);
      AllHandedOver(tr, acts, n - 1) + HandedOver(tr[n - 1], acts[n - 1])
  }

  function Ids(updates: seq<Update>): seq<Id> { seq(|updates|, i requires 0 <= i < |updates| => updates[i].id) }

  function InMonitor(m: Monitor): seq<Id> {
    match m
    case Idle => []
    case Received(id, _) => [id]
    case Checked(u) => [u.id]
  }

  lemma HandOverStep(s: State, a: Action)
    requires Valid(s.pool) && Enabled(s, a)
    ensures var s' := Do(s, a);
            Ids(s'.broadcasts) + InMonitor(s'.monitor) == Ids(s.broadcasts) + InMonitor(s.monitor) + HandedOver(s, a)
  {
    OnlyBroadcastBroadcasts(s, a);
    if a.Broadcast? {
      assert Ids(s.broadcasts + [s.monitor.update]) == Ids(s.broadcasts) + [s.monitor.update.id];
    } else {
      MonitorStep(s, a);
    }
  }

  lemma MonitorStep(s: State, a: Action)
    requires Valid(s.pool) && Enabled(s, a) && !a.Broadcast?
    ensures InMonitor(Do(s, a).monitor) == InMonitor(s.monitor) + HandedOver(s, a)
  {
  }

  /** In every run, the updates broadcast, and the one in the monitor's hands, are exactly those
      handed over, in the same order. */
  lemma {:induction false} UpdatesInOrder(tr: seq<State>, acts: seq<Action>, n: nat)
    requires IsRun(tr, acts) && n < |tr|
    ensures Ids(tr[n].broadcasts) + InMonitor(tr[n].monitor) == AllHandedOver(tr, acts, n)
  {
    if n > 0 {
      UpdatesInOrder(tr, acts, n - 1);
      assert StepAt(tr, acts, n - 1);
      HandOverStep(tr[n - 1], acts[n - 1]);
    }
  }

  // ---------------------------------------------------------------------------------------
  // Ports that never come back

  /** A replacement with the binary of the process it was to replace keeps its ports for good. */
  lemma AbandonedForGood(tr: seq<State>, acts: seq<Action>, i: nat, j: nat, p: Id, port: int)
    requires IsRun(tr, acts) && i <= j < |tr| && p < |tr[i].procs| && tr[i].procs[p].status == Abandoned
    requires tr[i].procs[p].count > 0 && tr[i].procs[p].first <= port <= tr[i].procs[p].last
    ensures 0 <= port - tr[j].pool.base < |tr[j].pool.free| && !tr[j].pool.free[port - tr[j].pool.base]
  {
    EvolveAlong(tr, acts, i, j);
    InvHolds(tr, acts, j);
    assert Evolves(tr[i].procs[p], tr[j].procs[p]);
    OwnerOfHeldPort(tr[j], p, port);
  }

  ghost predicate NoLeak(s: State) {
    forall i :: 0 <= i < |s.procs| ==> s.procs[i].status != Leaked
  }

  lemma ReleaseLeaksNothing(s: State, id: Id)
    requires HolderInv(s) && id < |s.procs| && s.pool.base >= 1
    requires s.procs[id].count > 0 ==> Holds(s.procs[id])
    ensures ReleaseProcessPorts(s, id).procs[id].status == Released
    ensures ReleaseProcessPorts(s, id).pool.base == s.pool.base
  {
    assert CountFits(s.procs[id]);
    if Holds(s.procs[id]) { assert OwnsAll(s.pool.base, s.h.owner, s.procs[id], id); }
  }

  lemma StatusAfterRelease(s: State, a: Action)
    requires Inv(s) && Enabled(s, a) && Releaser(s, a).Some? && Releaser(s, a).value < |s.procs|
    ensures var id := Releaser(s, a).value;
            id < |Do(s, a).procs| && Do(s, a).procs[id].status == ReleaseProcessPorts(s, id).procs[id].status
  {
    if a.Swap? { assert PrevFits(s.procs, a.p); }
  }

  lemma BaseKept(s: State, a: Action)
    requires Valid(s.pool) && Enabled(s, a)
    ensures Do(s, a).pool.base == s.pool.base
  {
    if (a.RegisterProcess? || a.InitReplace?) && Reserve(s.pool, a.spec).Some? && a.spec.portCount > 0 {
      AllocateTakesFree(s.pool, a.spec.portCount);
    }
  }

  /** If the pool starts above port 0, no port is ever lost by being given back. */
  lemma {:induction false} NothingLeaksAboveZero(tr: seq<State>, acts: seq<Action>, n: nat)
    requires IsRun(tr, acts) && n < |tr| && tr[0].pool.base >= 1
    ensures NoLeak(tr[n]) && tr[n].pool.base == tr[0].pool.base
  {
    if n > 0 {
      NothingLeaksAboveZero(tr, acts, n - 1);
      InvHolds(tr, acts, n - 1);
      var s, a := tr[n - 1], acts[n - 1];
      assert StepAt(tr, acts, n - 1);
      BaseKept(s, a);
      forall i | 0 <= i < |tr[n].procs| ensures tr[n].procs[i].status != Leaked {
        if tr[n].procs[i].status == Leaked {
          OnlyReleaserGoesBack(s, a, i);
          ReleaserHolds(s, a);
          StatusAfterRelease(s, a);
          ReleaseLeaksNothing(s, i);
        }
      }
    }
  }

  /** If it starts at port 0 or below, one is: create a process with one port, and delete it. */
  lemma SomethingLeaksOtherwise(s0: State) returns (tr: seq<State>, acts: seq<Action>)
    requires Init(s0) && s0.pool.base <= 0
    ensures IsRun(tr, acts) && tr[0] == s0 && !NoLeak(tr[|tr| - 1])
  {
    GrantsAtStart(s0.pool, 1);
    tr, acts := CreateOne([s0], [], "e", 1, Take(s0.pool, 1, 0));
    tr, acts := DeleteOne(tr, acts, "e");
    assert tr[|tr| - 1].procs[0].status == Leaked;
  }
}
