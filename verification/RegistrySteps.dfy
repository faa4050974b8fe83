/** Every action of the registry protocol keeps the invariant. */
module RegistrySteps {
  import opened Wrappers
  import opened PortPool
  import opened Registry
  import opened RegistryInvariant
  import opened RegistryPool

  // ---------------------------------------------------------------------------------------
  // What no action ever undoes

  /** A process keeps its identity and its ports' range; having entered the registry, having
      given its ports back and having stopped another process are never undone. */
  predicate Evolves(p: Proc, q: Proc) {
    && p.name == q.name && p.binary == q.binary && p.first == q.first && p.last == q.last && p.count == q.count
    && (Entered(p) ==> Entered(q))
    && (GoneBack(p.status) ==> GoneBack(q.status))
    && (p.status == Abandoned ==> q.status == Abandoned)
    && (StopCounted(p) ==> StopCounted(q))
  }

  ghost predicate ProcsEvolve(a: seq<Proc>, b: seq<Proc>) {
    |a| <= |b| && forall i :: 0 <= i < |a| ==> Evolves(a[i], b[i])
  }

  lemma EntersOnceKept(log: seq<Event>, a: seq<Proc>, b: seq<Proc>)
    requires EntersOnce(log, a) && ProcsEvolve(a, b)
    ensures EntersOnce(log, b)
  {
    forall i | 0 <= i < |log| ensures log[i].id < |b| && Entered(b[log[i].id]) && b[log[i].id].name == log[i].name {
      assert Evolves(a[log[i].id], b[log[i].id]);
    }
  }

  lemma EntersOnceGrows(log: seq<Event>, a: seq<Proc>, b: seq<Proc>, e: Event)
    requires EntersOnce(log, a) && ProcsEvolve(a, b)
    requires e.id < |b| && Entered(b[e.id]) && b[e.id].name == e.name
    requires Enters(e) ==> e.id >= |a| || !Entered(a[e.id])
    ensures EntersOnce(log + [e], b)
  {
    EntersOnceKept(log, a, b);
  }

  lemma ReleasedOnceKept(releases: seq<Id>, a: seq<Proc>, b: seq<Proc>)
    requires ReleasedOnce(releases, a) && ProcsEvolve(a, b)
    ensures ReleasedOnce(releases, b)
  {
    forall i | 0 <= i < |releases| ensures releases[i] < |b| && GoneBack(b[releases[i]].status) {
      assert Evolves(a[releases[i]], b[releases[i]]);
    }
  }

  lemma ReleasedOnceGrows(releases: seq<Id>, a: seq<Proc>, b: seq<Proc>, id: Id)
    requires ReleasedOnce(releases, a) && ProcsEvolve(a, b)
    requires id < |a| && !GoneBack(a[id].status) && GoneBack(b[id].status)
    ensures ReleasedOnce(releases + [id], b)
  {
    ReleasedOnceKept(releases, a, b);
  }

  lemma ReplayGrows(log: seq<Event>, e: Event)
    ensures Replay(log + [e]) == if Replay(log).None? then None else Apply(Replay(log).value, e)
  {
    assert (log + [e])[..|log|] == log;
  }

  lemma UpdateKept(log: seq<Event>, log': seq<Event>, a: seq<Proc>, b: seq<Proc>, u: Update)
    requires UpdateTrue(log, a, u) && ProcsEvolve(a, b) && log <= log'
    ensures UpdateTrue(log', b, u)
  {
    assert log'[..u.at] == log[..u.at];
    assert Evolves(a[u.id], b[u.id]);
  }

  lemma ThreadKept(s: State, s': State, t: nat)
    requires t < |s.threads| && ThreadFits(s, t) && ProcsEvolve(s.procs, s'.procs) && s.h.log <= s'.h.log
    requires s'.monitor == s.monitor && s'.broadcasts == s.broadcasts
    requires t < |s'.threads| && s'.threads[t] == s.threads[t]
    ensures ThreadFits(s', t)
  {
    assert Evolves(s.procs[s.threads[t].target], s'.procs[s.threads[t].target]);
  }

  lemma StopsKept(s: State, s': State)
    requires StopsFit(s) && ProcsEvolve(s.procs, s'.procs) && s'.h.stops == s.h.stops
    ensures StopsFit(s')
  {
    forall i | 0 <= i < |s'.h.stops| ensures s'.h.stops[i].0 < |s'.procs| && StopCounted(s'.procs[s'.h.stops[i].0]) {
      assert Evolves(s.procs[s.h.stops[i].0], s'.procs[s.h.stops[i].0]);
    }
  }

  lemma RemovalsKept(s: State, s': State)
    requires RemovalsReported(s) && s.threads <= s'.threads && s'.h.log == s.h.log
    ensures RemovalsReported(s')
  {
    forall r | 0 <= r < |s'.h.log| && s'.h.log[r].Removed?
      ensures Reported(s'.threads, s'.h.log[r].worker, s'.h.log[r].id, r)
    {
      assert Reported(s.threads, s.h.log[r].worker, s.h.log[r].id, r);
    }
  }

  lemma UpdatesKept(s: State, s': State)
    requires UpdatesTrue(s) && ProcsEvolve(s.procs, s'.procs) && s.h.log <= s'.h.log
    requires s'.monitor == s.monitor && s'.broadcasts == s.broadcasts
    ensures UpdatesTrue(s')
  {
    forall i | 0 <= i < |s.broadcasts| ensures UpdateTrue(s'.h.log, s'.procs, s.broadcasts[i]) {
      UpdateKept(s.h.log, s'.h.log, s.procs, s'.procs, s.broadcasts[i]);
    }
    if s.monitor.Checked? { UpdateKept(s.h.log, s'.h.log, s.procs, s'.procs, s.monitor.update); }
  }

  /** The threads, the updates and the stop records, under an action that leaves them alone. */
  lemma BystandersKept(s: State, s': State)
    requires ThreadsFit(s) && UpdatesTrue(s) && StopsFit(s)
    requires ProcsEvolve(s.procs, s'.procs) && s.h.log <= s'.h.log && s'.h.stops == s.h.stops
    requires s'.monitor == s.monitor && s'.broadcasts == s.broadcasts && s'.threads == s.threads
    requires RemovalsReported(s')
    ensures ThreadInv(s')
  {
    forall t | 0 <= t < |s'.threads| ensures ThreadFits(s', t) { ThreadKept(s, s', t); }
    UpdatesKept(s, s');
    StopsKept(s, s');
  }

  /** Likewise the reports of removals, if the log only gained an entry. */
  lemma RemovalsKeptByEntry(s: State, s': State, e: Event)
    requires RemovalsReported(s) && s'.threads == s.threads && s'.h.log == s.h.log + [e] && Enters(e)
    ensures RemovalsReported(s')
  {
    forall r | 0 <= r < |s'.h.log| && s'.h.log[r].Removed?
      ensures Reported(s'.threads, s'.h.log[r].worker, s'.h.log[r].id, r)
    {
      assert s'.h.log[r] == s.h.log[r];
      assert Reported(s.threads, s.h.log[r].worker, s.h.log[r].id, r);
    }
  }

  // ---------------------------------------------------------------------------------------
  // Create and the start of a replacement

  lemma AppendKeepsMakers(procs: seq<Proc>, p: Proc)
    requires MakersFit(procs) && CountFits(p) && OwnFits(p) && PrevFits(procs + [p], |procs|)
    ensures MakersFit(procs + [p]) && ProcsEvolve(procs, procs + [p])
  {
    var procs' := procs + [p];
    forall i | 0 <= i < |procs'| ensures CountFits(procs'[i]) && OwnFits(procs'[i]) && PrevFits(procs', i) {
      if i < |procs| { assert PrevFits(procs, i); }
    }
  }

  lemma RegisterKeepsHolders(s: State, s1: State, name: string, e: Event)
    requires RegInv(s.registry, s.procs) && MakersFit(s.procs) && name !in s.registry
    requires s1.registry == s.registry && |s1.procs| == |s.procs| + 1 && s1.procs[..|s.procs|] == s.procs
    requires PoolInv(s1.pool, s1.procs, s1.h.owner)
    requires var p := s1.procs[|s.procs|]; CountFits(p) && p.name == name && p.status == Registered && p.maker == Create
    ensures HolderInv(Enter(s1, name, |s.procs|, e)) && ProcsEvolve(s.procs, s1.procs)
  {
    assert s1.procs == s.procs + [s1.procs[|s.procs|]];
    AppendKeepsMakers(s.procs, s1.procs[|s.procs|]);
  }

  lemma RegisterKeepsHistory(s: State, s': State, e: Event)
    requires HistoryInv(s) && ThreadInv(s) && ProcsEvolve(s.procs, s'.procs)
    requires e.Created? && e.name !in s.registry && s'.registry == s.registry[e.name := e.id]
    requires e.id == |s.procs| < |s'.procs| && Entered(s'.procs[e.id]) && s'.procs[e.id].name == e.name
    requires s'.h == s.h.(log := s.h.log + [e], owner := s'.h.owner)
    requires s'.threads == s.threads && s'.monitor == s.monitor && s'.broadcasts == s.broadcasts
    ensures HistoryInv(s') && ThreadInv(s')
  {
    ReplayGrows(s.h.log, e);
    EntersOnceGrows(s.h.log, s.procs, s'.procs, e);
    ReleasedOnceKept(s.h.releases, s.procs, s'.procs);
    RemovalsKeptByEntry(s, s', e);
    BystandersKept(s, s');
  }

  lemma RegisterKeeps(s: State, a: Action)
    requires Inv(s) && Enabled(s, a) && a.RegisterProcess?
    ensures Inv(Do(s, a)) && ProcsEvolve(s.procs, Do(s, a).procs)
  {
    var spec := a.spec;
    var s' := Do(s, a);
    if s' != s {
      var s1 := Grant(s, spec, Reserve(s.pool, spec).value, Registered, Create);
      var e := Created(spec.name, |s.procs|);
      GrantKeepsPool(s, spec, Registered, Create);
      RegisterKeepsHolders(s, s1, spec.name, e);
      RegisterKeepsHistory(s, s', e);
    }
  }

  lemma ReserveKeepsHolders(s: State, s': State)
    requires RegInv(s.registry, s.procs) && MakersFit(s.procs)
    requires s'.registry == s.registry && |s'.procs| == |s.procs| + 1 && s'.procs[..|s.procs|] == s.procs
    requires PoolInv(s'.pool, s'.procs, s'.h.owner)
    requires var p := s'.procs[|s.procs|];
             && CountFits(p) && p.status == Pending && p.name in s.registry
             && p.maker == Replace(s.registry[p.name], Reserved)
    ensures HolderInv(s') && ProcsEvolve(s.procs, s'.procs)
  {
    assert s'.procs == s.procs + [s'.procs[|s.procs|]];
    AppendKeepsMakers(s.procs, s'.procs[|s.procs|]);
  }

  /** History and threads, under an action that only touches the processes. */
  lemma ProcsChangeKeepsHistory(s: State, s': State)
    requires HistoryInv(s) && ThreadInv(s) && ProcsEvolve(s.procs, s'.procs)
    requires s'.registry == s.registry && s'.h == s.h.(owner := s'.h.owner)
    requires s'.threads == s.threads && s'.monitor == s.monitor && s'.broadcasts == s.broadcasts
    ensures HistoryInv(s') && ThreadInv(s')
  {
    EntersOnceKept(s.h.log, s.procs, s'.procs);
    ReleasedOnceKept(s.h.releases, s.procs, s'.procs);
    RemovalsKept(s, s');
    BystandersKept(s, s');
  }

  lemma InitReplaceKeeps(s: State, a: Action)
    requires Inv(s) && Enabled(s, a) && a.InitReplace?
    ensures Inv(Do(s, a)) && ProcsEvolve(s.procs, Do(s, a).procs)
  {
    var spec := a.spec;
    var s' := Do(s, a);
    if s' != s {
      GrantKeepsPool(s, spec, Pending, Replace(s.registry[spec.name], Reserved));
      ReserveKeepsHolders(s, s');
      ProcsChangeKeepsHistory(s, s');
    }
  }

  // ---------------------------------------------------------------------------------------
  // A replacement moving on

  /** The process goes on under the same name, with the same ports, made by the same call. */
  predicate SameProc(p: Proc, q: Proc) {
    && q.name == p.name && q.binary == p.binary && q.first == p.first && q.last == p.last && q.count == p.count
    && (q.maker.Replace? <==> p.maker.Replace?)
    && (q.maker.Replace? ==> q.maker.prev == p.maker.prev)
  }

  lemma UpdateKeepsMakers(procs: seq<Proc>, p: Id, q: Proc)
    requires MakersFit(procs) && p < |procs| && SameProc(procs[p], q) && OwnFits(q)
    ensures MakersFit(procs[p := q])
  {
    var procs' := procs[p := q];
    forall i | 0 <= i < |procs'| ensures CountFits(procs'[i]) && OwnFits(procs'[i]) && PrevFits(procs', i) {
      assert CountFits(procs[i]) && PrevFits(procs, i);
    }
  }

  lemma UpdateEvolves(a: seq<Proc>, b: seq<Proc>, p: Id, q: Proc)
    requires ProcsEvolve(a, b) && p < |a| && Evolves(a[p], q)
    ensures ProcsEvolve(a, b[p := q])
  {
  }

  lemma UpdateKeepsReg(registry: map<string, Id>, procs: seq<Proc>, p: Id, q: Proc)
    requires RegInv(registry, procs) && p < |procs| && q.name == procs[p].name
    requires procs[p].status != Registered && q.status != Registered
    ensures RegInv(registry, procs[p := q])
  {
  }

  /** A step of a replacement that only moves its program counter. */
  predicate PcStep(p: Proc, q: Proc) {
    && SameProc(p, q) && p.maker.Replace? && p.status == Pending && !Entered(p)
    && ((q.maker.pc.InFlight() && q.status == Pending) || (q.maker.pc == SameBinary && q.status == Abandoned))
    && (StopCounted(p) ==> StopCounted(q))
  }

  lemma PcStepKeeps(s: State, s': State, p: Id, q: Proc)
    requires Inv(s) && p < |s.procs|
    requires s' == s.(procs := s.procs[p := q]) && PcStep(s.procs[p], q)
    ensures Inv(s') && ProcsEvolve(s.procs, s'.procs)
  {
    UpdateEvolves(s.procs, s.procs, p, q);
    PoolKeptBySamePorts(s.pool, s.procs, s'.procs, s.h.owner);
    UpdateKeepsReg(s.registry, s.procs, p, q);
    UpdateKeepsMakers(s.procs, p, q);
    ProcsChangeKeepsHistory(s, s');
  }

  lemma StopOldKeeps(s: State, a: Action)
    requires Inv(s) && Enabled(s, a) && a.StopOld?
    ensures Inv(Do(s, a)) && ProcsEvolve(s.procs, Do(s, a).procs)
  {
    var p := a.p;
    var s1 := SetPc(s, p, Swapping);
    assert OwnFits(s.procs[p]);
    PcStepKeeps(s, s1, p, s1.procs[p]);
    StopRecordKeeps(s1, Do(s, a), p);
  }

  lemma StopRecordKeeps(s: State, s': State, p: Id)
    requires Inv(s) && At(s, p, Swapping)
    requires s' == s.(h := s.h.(stops := s.h.stops + [(p, s.procs[p].maker.prev)]))
    ensures Inv(s')
  {
    forall t | 0 <= t < |s'.threads| ensures ThreadFits(s', t) { assert ThreadFits(s, t); }
    forall r | 0 <= r < |s'.h.log| && s'.h.log[r].Removed?
      ensures Reported(s'.threads, s'.h.log[r].worker, s'.h.log[r].id, r)
    {
      assert Reported(s.threads, s.h.log[r].worker, s.h.log[r].id, r);
    }
  }

  /** The steps of a replacement between reserving its ports and its last critical section. */
  lemma ReplaceMovesOn(s: State, a: Action)
    requires Inv(s) && Enabled(s, a)
    requires a.CompareBinary? || a.StartReplacement? || a.PollReplacement? || a.CleanupStop?
    ensures Inv(Do(s, a)) && ProcsEvolve(s.procs, Do(s, a).procs)
  {
    assert OwnFits(s.procs[a.p]);
    PcStepKeeps(s, Do(s, a), a.p, Do(s, a).procs[a.p]);
  }

  // ---------------------------------------------------------------------------------------
  // Giving ports back

  /** What giving back changes: the status of that one process, the pool, and the records. */
  lemma ReleaseChanges(s: State, id: Id) returns (st: Status)
    requires PoolInv(s.pool, s.procs, s.h.owner) && id < |s.procs| && CountFits(s.procs[id])
    requires s.procs[id].status == Pending || s.procs[id].status == Registered
    ensures var s' := ReleaseProcessPorts(s, id);
            && GoneBack(st)
            && s'.procs == s.procs[id := s.procs[id].(status := st)]
            && PoolInv(s'.pool, s'.procs, s'.h.owner)
            && s'.h == s.h.(releases := s.h.releases + [id], owner := s'.h.owner)
            && s' == s.(pool := s'.pool, procs := s'.procs, h := s'.h)
  {
    ReleaseKeepsPool(s, id);
    st := ReleaseProcessPorts(s, id).procs[id].status;
  }

  /** History and threads, under an action that also records a release. */
  lemma ReleaseKeepsHistory(s: State, s': State, id: Id)
    requires HistoryInv(s) && ThreadInv(s) && ProcsEvolve(s.procs, s'.procs)
    requires id < |s.procs| && !GoneBack(s.procs[id].status) && GoneBack(s'.procs[id].status)
    requires s'.registry == s.registry && s'.h == s.h.(releases := s.h.releases + [id], owner := s'.h.owner)
    requires s'.threads == s.threads && s'.monitor == s.monitor && s'.broadcasts == s.broadcasts
    ensures HistoryInv(s') && ThreadInv(s')
  {
    EntersOnceKept(s.h.log, s.procs, s'.procs);
    ReleasedOnceGrows(s.h.releases, s.procs, s'.procs, id);
    RemovalsKept(s, s');
    BystandersKept(s, s');
  }

  lemma CleanupReleaseKeeps(s: State, a: Action)
    requires Inv(s) && Enabled(s, a) && a.CleanupRelease?
    ensures Inv(Do(s, a)) && ProcsEvolve(s.procs, Do(s, a).procs)
  {
    var p := a.p;
    assert OwnFits(s.procs[p]) && CountFits(s.procs[p]);
    var s1 := SetPc(s, p, Failed(s.procs[p].maker.pc.stoppedOld));
    PoolKeptBySamePorts(s.pool, s.procs, s1.procs, s.h.owner);
    var st := ReleaseChanges(s1, p);
    FailAfterRelease(s, Do(s, a), p, s1.procs[p].(status := st));
  }

  /** The failed replacement, with `s'` the state in which it has given its ports back. */
  lemma FailAfterRelease(s: State, s': State, p: Id, q: Proc)
    requires Inv(s) && p < |s.procs| && s.procs[p].status == Pending
    requires SameProc(s.procs[p], q) && q.maker.Replace? && q.maker.pc.Failed? && GoneBack(q.status)
    requires StopCounted(s.procs[p]) ==> StopCounted(q)
    requires s'.procs == s.procs[p := q] && PoolInv(s'.pool, s'.procs, s'.h.owner)
    requires s'.h == s.h.(releases := s.h.releases + [p], owner := s'.h.owner)
    requires s' == s.(pool := s'.pool, procs := s'.procs, h := s'.h)
    ensures Inv(s') && ProcsEvolve(s.procs, s'.procs)
  {
    FailKeepsProcs(s.registry, s.procs, p, q);
    ReleaseKeepsHistory(s, s', p);
  }

  lemma FailKeepsProcs(registry: map<string, Id>, procs: seq<Proc>, p: Id, q: Proc)
    requires RegInv(registry, procs) && MakersFit(procs) && p < |procs| && procs[p].status == Pending
    requires SameProc(procs[p], q) && q.maker.Replace? && q.maker.pc.Failed? && GoneBack(q.status)
    requires StopCounted(procs[p]) ==> StopCounted(q)
    ensures ProcsEvolve(procs, procs[p := q]) && MakersFit(procs[p := q]) && RegInv(registry, procs[p := q])
  {
    UpdateEvolves(procs, procs, p, q);
    UpdateKeepsReg(registry, procs, p, q);
    UpdateKeepsMakers(procs, p, q);
  }

  // ---------------------------------------------------------------------------------------
  // The swap

  /** The replacement takes the name over; the old holder of the name, if any, has gone. */
  lemma SwapKeepsReg(registry: map<string, Id>, procs: seq<Proc>, procs': seq<Proc>, p: Id)
    requires RegInv(registry, procs) && |procs'| == |procs| && p < |procs|
    requires forall i :: 0 <= i < |procs| ==> procs'[i].name == procs[i].name
    requires forall i :: 0 <= i < |procs| && i != p ==>
               (procs'[i].status == Registered <==> procs[i].status == Registered && procs[i].name != procs[p].name)
    requires procs'[p].status == Registered
    ensures RegInv(registry[procs[p].name := p], procs')
  {
  }

  lemma SwapKeepsHistory(s: State, s': State, p: Id, prev: Id)
    requires HistoryInv(s) && ThreadInv(s) && ProcsEvolve(s.procs, s'.procs)
    requires p < |s.procs| && prev < |s.procs| && !Entered(s.procs[p]) && Entered(s'.procs[p])
    requires var n := s'.procs[p].name;
             && s'.registry == s.registry[n := p]
             && s'.h.log == s.h.log + [Replaced(n, p, prev)]
             && s'.h.stops == s.h.stops
             && if n in s.registry
                then s.registry[n] == prev && s'.h.releases == s.h.releases + [prev]
                     && !GoneBack(s.procs[prev].status) && GoneBack(s'.procs[prev].status)
                else s'.h.releases == s.h.releases
    requires s'.threads == s.threads && s'.monitor == s.monitor && s'.broadcasts == s.broadcasts
    ensures HistoryInv(s') && ThreadInv(s')
  {
    var n := s'.procs[p].name;
    var e := Replaced(n, p, prev);
    ReplayGrows(s.h.log, e);
    EntersOnceGrows(s.h.log, s.procs, s'.procs, e);
    if n in s.registry {
      ReleasedOnceGrows(s.h.releases, s.procs, s'.procs, prev);
    } else {
      ReleasedOnceKept(s.h.releases, s.procs, s'.procs);
    }
    RemovalsKeptByEntry(s, s', e);
    BystandersKept(s, s');
  }

  /** With the name free, the replacement just enters. */
  lemma SwapIntoFreeName(s: State, p: Id)
    requires Inv(s) && Enabled(s, Swap(p)) && s.procs[p].name !in s.registry
    ensures Inv(DoSwap(s, p)) && ProcsEvolve(s.procs, DoSwap(s, p).procs)
  {
    assert OwnFits(s.procs[p]) && PrevFits(s.procs, p);
    var r, s' := s.procs[p], DoSwap(s, p);
    var q := r.(status := Registered, maker := r.maker.(pc := Swapped));
    UpdateEvolves(s.procs, s.procs, p, q);
    PoolKeptBySamePorts(s.pool, s.procs, s'.procs, s.h.owner);
    UpdateKeepsMakers(s.procs, p, q);
    SwapKeepsReg(s.registry, s.procs, s'.procs, p);
    SwapKeepsHistory(s, s', p, r.maker.prev);
  }

  /** With the target still registered, its ports go back and the replacement takes its place. */
  lemma SwapWithTarget(s: State, p: Id)
    requires Inv(s) && Enabled(s, Swap(p))
    requires s.procs[p].name in s.registry && s.registry[s.procs[p].name] == s.procs[p].maker.prev
    ensures Inv(DoSwap(s, p)) && ProcsEvolve(s.procs, DoSwap(s, p).procs)
  {
    assert PrevFits(s.procs, p);
    var prev := s.procs[p].maker.prev;
    assert CountFits(s.procs[prev]);
    var st := ReleaseChanges(s, prev);
    SwapAfterRelease(s, ReleaseProcessPorts(s, prev), p, prev, st);
  }

  /** The rest of the swap, with `s1` the state in which the target has given its ports back. */
  lemma SwapAfterRelease(s: State, s1: State, p: Id, prev: Id, st: Status)
    requires Inv(s) && At(s, p, Swapping) && prev == s.procs[p].maker.prev < p
    requires s.procs[p].name in s.registry && s.registry[s.procs[p].name] == prev
    requires GoneBack(st) && s1.procs == s.procs[prev := s.procs[prev].(status := st)]
    requires PoolInv(s1.pool, s1.procs, s1.h.owner)
    requires s1.h == s.h.(releases := s.h.releases + [prev], owner := s1.h.owner)
    requires s1 == s.(pool := s1.pool, procs := s1.procs, h := s1.h)
    ensures var r := s.procs[p];
            var q := r.(status := Registered, maker := r.maker.(pc := Swapped));
            var s' := Enter(s1.(procs := s1.procs[p := q]), r.name, p, Replaced(r.name, p, prev));
            Inv(s') && ProcsEvolve(s.procs, s'.procs)
  {
    var r := s.procs[p];
    var q := r.(status := Registered, maker := r.maker.(pc := Swapped));
    var s' := Enter(s1.(procs := s1.procs[p := q]), r.name, p, Replaced(r.name, p, prev));
    assert OwnFits(r) && OwnFits(s.procs[prev]);
    SwapKeepsHolders(s, s1.pool, s1.procs, s1.h.owner, p, prev, q, st);
    SwapKeepsHistory(s, s', p, prev);
  }

  lemma SwapKeepsHolders(s: State, pool: Pool, procs1: seq<Proc>, owner: seq<int>, p: Id, prev: Id, q: Proc, st: Status)
    requires RegInv(s.registry, s.procs) && MakersFit(s.procs) && At(s, p, Swapping) && s.procs[p].status == Pending
    requires prev < p && GoneBack(st)
    requires procs1 == s.procs[prev := s.procs[prev].(status := st)] && OwnFits(procs1[prev])
    requires s.procs[p].name in s.registry && s.registry[s.procs[p].name] == prev && PoolInv(pool, procs1, owner)
    requires q == s.procs[p].(status := Registered, maker := s.procs[p].maker.(pc := Swapped))
    ensures ProcsEvolve(s.procs, procs1[p := q]) && MakersFit(procs1[p := q])
    ensures RegInv(s.registry[q.name := p], procs1[p := q]) && PoolInv(pool, procs1[p := q], owner)
  {
    SwapKeepsProcs(s.registry, s.procs, p, q, prev, procs1[prev]);
    PoolKeptBySamePorts(pool, procs1, procs1[p := q], owner);
  }

  lemma SwapKeepsProcs(registry: map<string, Id>, procs: seq<Proc>, p: Id, q: Proc, prev: Id, gone: Proc)
    requires RegInv(registry, procs) && MakersFit(procs) && p < |procs| && prev < p
    requires procs[p].status == Pending && procs[p].maker.Replace? && procs[p].maker.pc == Swapping
    requires q == procs[p].(status := Registered, maker := procs[p].maker.(pc := Swapped))
    requires q.name in registry && registry[q.name] == prev
    requires GoneBack(gone.status) && gone == procs[prev].(status := gone.status) && OwnFits(gone)
    ensures var procs' := procs[prev := gone][p := q];
            ProcsEvolve(procs, procs') && MakersFit(procs') && RegInv(registry[q.name := p], procs')
  {
    UpdateEvolves(procs, procs, prev, gone);
    UpdateKeepsMakers(procs, prev, gone);
    var procs1 := procs[prev := gone];
    UpdateEvolves(procs, procs1, p, q);
    UpdateKeepsMakers(procs1, p, q);
    SwapKeepsReg(registry, procs, procs1[p := q], p);
  }

  lemma SwapKeeps(s: State, a: Action)
    requires Inv(s) && Enabled(s, a) && a.Swap?
    ensures Inv(Do(s, a)) && ProcsEvolve(s.procs, Do(s, a).procs)
  {
    var p := a.p;
    var r := s.procs[p];
    if r.name !in s.registry {
      SwapIntoFreeName(s, p);
    } else if s.registry[r.name] == r.maker.prev {
      SwapWithTarget(s, p);
    } else {
      assert OwnFits(r);
      PcStepKeeps(s, DoSwap(s, p), p, DoSwap(s, p).procs[p]);
    }
  }

  // ---------------------------------------------------------------------------------------
  // Delete calls and their workers

  /** A thread that has not yet removed anything is free to move on. */
  predicate Unreported(th: Thread) {
    th.Worker? ==> !th.pc.Notifying? && !th.pc.Notified?
  }

  lemma RemovalsKeptByThread(threads: seq<Thread>, threads': seq<Thread>, t: nat, id: Id, r: nat, x: nat)
    requires Reported(threads, t, id, r)
    requires x < |threads| ==> Unreported(threads[x])
    requires |threads| <= |threads'| && forall i :: 0 <= i < |threads| && i != x ==> threads'[i] == threads[i]
    ensures Reported(threads', t, id, r)
  {
  }

  lemma ThreadMoves(s: State, s': State, t: nat, th: Thread)
    requires ThreadInv(s) && t < |s.threads| && Unreported(s.threads[t]) && Unreported(th)
    requires s' == s.(threads := s.threads[t := th]) && th.target == s.threads[t].target
    ensures ThreadInv(s')
  {
    forall i | 0 <= i < |s'.threads| ensures ThreadFits(s', i) {
      if i != t { ThreadKept(s, s', i); } else { assert ThreadFits(s, t); }
    }
    forall r | 0 <= r < |s'.h.log| && s'.h.log[r].Removed?
      ensures Reported(s'.threads, s'.h.log[r].worker, s'.h.log[r].id, r)
    {
      RemovalsKeptByThread(s.threads, s'.threads, s.h.log[r].worker, s.h.log[r].id, r, t);
    }
  }

  lemma ThreadAppears(s: State, s': State, th: Thread)
    requires ThreadInv(s) && Unreported(th) && th.target < |s.procs| && Entered(s.procs[th.target])
    requires s' == s.(threads := s.threads + [th])
    ensures ThreadInv(s')
  {
    forall i | 0 <= i < |s'.threads| ensures ThreadFits(s', i) {
      if i < |s.threads| { ThreadKept(s, s', i); }
    }
    RemovalsKept(s, s');
  }

  lemma FindKeeps(s: State, a: Action)
    requires Inv(s) && Enabled(s, a) && a.FindForDelete?
    ensures Inv(Do(s, a)) && ProcsEvolve(s.procs, Do(s, a).procs)
  {
    var name := a.name;
    if name in s.registry {
      var id := s.registry[name];
      assert OwnFits(s.procs[id]);
      ThreadAppears(s, Do(s, a), DeleteFound(id));
    }
  }

  lemma StopTargetKeeps(s: State, a: Action)
    requires Inv(s) && Enabled(s, a) && a.StopTarget?
    ensures Inv(Do(s, a)) && ProcsEvolve(s.procs, Do(s, a).procs)
  {
    var t := a.t;
    ThreadMoves(s, Do(s, a), t, DeleteStopped(s.threads[t].target));
  }

  lemma PollWorkerKeeps(s: State, a: Action)
    requires Inv(s) && Enabled(s, a) && a.PollWorker?
    ensures Inv(Do(s, a)) && ProcsEvolve(s.procs, Do(s, a).procs)
  {
    var t := a.t;
    var s' := Do(s, a);
    ThreadMoves(s, s', t, s'.threads[t]);
  }

  lemma UnregisterKeeps(s: State, a: Action)
    requires Inv(s) && Enabled(s, a) && a.UnregisterProcess?
    ensures Inv(Do(s, a)) && ProcsEvolve(s.procs, Do(s, a).procs)
  {
    var t := a.t;
    var id := s.threads[t].target;
    var s1 := SetThread(s, t, DeleteReturned(id));
    ThreadMoves(s, s1, t, DeleteReturned(id));
    assert ThreadFits(s, t);
    if DoUnregister(s, t) != s1 {
      ThreadAppears(s1, DoUnregister(s, t), Worker(id, Waiting(0)));
    }
  }

  // ---------------------------------------------------------------------------------------
  // Removal by the worker

  lemma RemoveNothingKeeps(s: State, t: nat)
    requires Inv(s) && Enabled(s, RemoveProcess(t))
    requires var p := s.procs[s.threads[t].target]; p.name !in s.registry || s.registry[p.name] != s.threads[t].target
    ensures Inv(DoRemove(s, t))
  {
    var s' := DoRemove(s, t);
    forall i | 0 <= i < |s'.threads| ensures ThreadFits(s', i) {
      if i != t { ThreadKept(s, s', i); } else { assert ThreadFits(s, t); }
    }
    forall r | 0 <= r < |s'.h.log| && s'.h.log[r].Removed?
      ensures Reported(s'.threads, s'.h.log[r].worker, s'.h.log[r].id, r)
    {
      RemovalsKeptByThread(s.threads, s'.threads, s.h.log[r].worker, s.h.log[r].id, r, t);
    }
  }

  lemma RemoveKeepsProcs(registry: map<string, Id>, procs: seq<Proc>, id: Id, gone: Proc)
    requires RegInv(registry, procs) && MakersFit(procs) && id < |procs|
    requires procs[id].name in registry && registry[procs[id].name] == id
    requires GoneBack(gone.status) && gone == procs[id].(status := gone.status)
    ensures var procs' := procs[id := gone];
            ProcsEvolve(procs, procs') && MakersFit(procs') && RegInv(registry - {gone.name}, procs')
            && Entered(procs[id]) && !GoneBack(procs[id].status)
  {
    assert OwnFits(procs[id]);
    UpdateEvolves(procs, procs, id, gone);
    UpdateKeepsMakers(procs, id, gone);
  }

  lemma RemoveKeepsThreads(s: State, s': State, t: nat, e: Event)
    requires ThreadInv(s) && ProcsEvolve(s.procs, s'.procs) && t < |s.threads| && Unreported(s.threads[t])
    requires e == Removed(e.name, s.threads[t].target, t) && s'.h.log == s.h.log + [e] && s'.h.stops == s.h.stops
    requires s'.threads == s.threads[t := Worker(s.threads[t].target, Notifying(Some(|s.h.log|)))]
    requires s'.monitor == s.monitor && s'.broadcasts == s.broadcasts
    ensures ThreadInv(s')
  {
    forall i | 0 <= i < |s'.threads| ensures ThreadFits(s', i) {
      if i != t {
        ThreadKept(s, s', i);
      } else {
        assert ThreadFits(s, t);
        assert Evolves(s.procs[s.threads[t].target], s'.procs[s.threads[t].target]);
      }
    }
    forall r | 0 <= r < |s'.h.log| && s'.h.log[r].Removed?
      ensures Reported(s'.threads, s'.h.log[r].worker, s'.h.log[r].id, r)
    {
      if r < |s.h.log| {
        assert s'.h.log[r] == s.h.log[r];
        RemovalsKeptByThread(s.threads, s'.threads, s.h.log[r].worker, s.h.log[r].id, r, t);
      }
    }
    UpdatesKept(s, s');
    StopsKept(s, s');
  }

  lemma RemoveKeepsHistory(s: State, s': State, id: Id, e: Event)
    requires HistoryInv(s) && ProcsEvolve(s.procs, s'.procs) && id < |s.procs| && Entered(s.procs[id])
    requires e.Removed? && e.id == id && e.name == s.procs[id].name && e.name in s.registry && s.registry[e.name] == id
    requires s'.registry == s.registry - {e.name} && s'.h.log == s.h.log + [e]
    requires s'.h.releases == s.h.releases + [id] && !GoneBack(s.procs[id].status) && GoneBack(s'.procs[id].status)
    ensures HistoryInv(s')
  {
    ReplayGrows(s.h.log, e);
    assert Evolves(s.procs[id], s'.procs[id]);
    EntersOnceGrows(s.h.log, s.procs, s'.procs, e);
    ReleasedOnceGrows(s.h.releases, s.procs, s'.procs, id);
  }

  /** The removal proper, with `s2` the state in which the process has given its ports back. */
  lemma RemoveAfterRelease(s: State, s2: State, t: nat, st: Status)
    requires Inv(s) && Enabled(s, RemoveProcess(t)) && GoneBack(st)
    requires var id := s.threads[t].target; var p := s.procs[id];
             && p.name in s.registry && s.registry[p.name] == id
             && s2.procs == s.procs[id := p.(status := st)]
             && s2.registry == s.registry - {p.name}
             && s2.h == s.h.(log := s.h.log + [Removed(p.name, id, t)],
                             releases := s.h.releases + [id],
                             owner := s2.h.owner)
    requires PoolInv(s2.pool, s2.procs, s2.h.owner)
    requires s2 == s.(pool := s2.pool, registry := s2.registry, procs := s2.procs, h := s2.h)
    ensures var s' := SetThread(s2, t, Worker(s.threads[t].target, Notifying(Some(|s.h.log|))));
            Inv(s') && ProcsEvolve(s.procs, s'.procs)
  {
    var id := s.threads[t].target;
    var s' := SetThread(s2, t, Worker(id, Notifying(Some(|s.h.log|))));
    var e := Removed(s.procs[id].name, id, t);
    RemoveKeepsProcs(s.registry, s.procs, id, s2.procs[id]);
    RemoveKeepsHistory(s, s', id, e);
    RemoveKeepsThreads(s, s', t, e);
  }

  lemma RemoveKeeps(s: State, a: Action)
    requires Inv(s) && Enabled(s, a) && a.RemoveProcess?
    ensures Inv(Do(s, a)) && ProcsEvolve(s.procs, Do(s, a).procs)
  {
    var t := a.t;
    var id := s.threads[t].target;
    var name := s.procs[id].name;
    if name !in s.registry || s.registry[name] != id {
      RemoveNothingKeeps(s, t);
    } else {
      assert CountFits(s.procs[id]);
      var s1 := s.(registry := s.registry - {name}, h := s.h.(log := s.h.log + [Removed(name, id, t)]));
      var st := ReleaseChanges(s1, id);
      RemoveAfterRelease(s, ReleaseProcessPorts(s1, id), t, st);
    }
  }

  // ---------------------------------------------------------------------------------------
  // The monitor

  lemma ReceiveKeeps(s: State, a: Action)
    requires Inv(s) && Enabled(s, a) && a.Receive?
    ensures Inv(Do(s, a)) && ProcsEvolve(s.procs, Do(s, a).procs)
  {
    var s' := Do(s, a);
    forall t | 0 <= t < |s'.threads| ensures ThreadFits(s', t) { assert ThreadFits(s, t); }
    RemovalsKept(s, s');
  }

  lemma ReceiveNoticeKeeps(s: State, a: Action)
    requires Inv(s) && Enabled(s, a) && a.ReceiveNotice?
    ensures Inv(Do(s, a)) && ProcsEvolve(s.procs, Do(s, a).procs)
  {
    var t := a.t;
    var s' := Do(s, a);
    forall i | 0 <= i < |s'.threads| ensures ThreadFits(s', i) { assert ThreadFits(s, i); }
    forall r | 0 <= r < |s'.h.log| && s'.h.log[r].Removed?
      ensures Reported(s'.threads, s'.h.log[r].worker, s'.h.log[r].id, r)
    {
      assert Reported(s.threads, s.h.log[r].worker, s.h.log[r].id, r);
    }
    assert ThreadFits(s, t);
  }

  lemma CheckDeletedKeeps(s: State, a: Action)
    requires Inv(s) && Enabled(s, a) && a.CheckDeleted?
    ensures Inv(Do(s, a)) && ProcsEvolve(s.procs, Do(s, a).procs)
  {
    var s' := Do(s, a);
    forall t | 0 <= t < |s'.threads| ensures ThreadFits(s', t) { assert ThreadFits(s, t); }
    RemovalsKept(s, s');
    assert s.h.log[..|s.h.log|] == s.h.log;
  }

  lemma BroadcastKeeps(s: State, a: Action)
    requires Inv(s) && Enabled(s, a) && a.Broadcast?
    ensures Inv(Do(s, a)) && ProcsEvolve(s.procs, Do(s, a).procs)
  {
    var s' := Do(s, a);
    forall t | 0 <= t < |s'.threads| ensures ThreadFits(s', t) { assert ThreadFits(s, t); }
    RemovalsKept(s, s');
  }

  // ---------------------------------------------------------------------------------------

  /** Every action, by whichever call, keeps the invariant and undoes nothing. */
  lemma StepKeeps(s: State, a: Action)
    requires Inv(s) && Enabled(s, a)
    ensures Inv(Do(s, a)) && ProcsEvolve(s.procs, Do(s, a).procs)
  {
    match a
    case RegisterProcess(_) => RegisterKeeps(s, a);
    case FindForDelete(_) => FindKeeps(s, a);
    case StopTarget(_) => StopTargetKeeps(s, a);
    case UnregisterProcess(_) => UnregisterKeeps(s, a);
    case PollWorker(_, _) => PollWorkerKeeps(s, a);
    case RemoveProcess(_) => RemoveKeeps(s, a);
    case InitReplace(_, _) => InitReplaceKeeps(s, a);
    case StopOld(_) => StopOldKeeps(s, a);
    case Swap(_) => SwapKeeps(s, a);
    case CleanupRelease(_) => CleanupReleaseKeeps(s, a);
    case Receive(_) => ReceiveKeeps(s, a);
    case ReceiveNotice(_) => ReceiveNoticeKeeps(s, a);
    case CheckDeleted => CheckDeletedKeeps(s, a);
    case Broadcast => BroadcastKeeps(s, a);
    case _ => ReplaceMovesOn(s, a);
  }
}
