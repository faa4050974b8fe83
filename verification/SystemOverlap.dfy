/** Which processes that have not ended can have the same port? Holders of ports never share one
    (`RegistryTheorems.PortsAreExclusive`), but ports are given back before a process is known to
    be gone for good. Here: in exactly which ways that comes about. */
module SystemOverlap {
  import opened Wrappers
  import opened PortPool
  import opened ProcessState
  import opened System
  import opened SystemTheorems
  import R = Registry
  import RI = RegistryInvariant
  import RT = RegistryTheorems
  import L = Lifecycle

  predicate Covers(p: R.Proc, port: int) { p.count > 0 && p.first <= port <= p.last }

  /** Two processes, neither of which has ended, have a port in common. */
  predicate Overlap(s: State, i: nat, j: nat, port: int) {
    && i != j && i < |s.reg.procs| && j < |s.reg.procs| && i < |s.lives| && j < |s.lives|
    && Covers(s.reg.procs[i], port) && Covers(s.reg.procs[j], port)
    && !Ended(s.lives[i].state) && !Ended(s.lives[j].state)
  }

  // ---------------------------------------------------------------------------------------
  // How a port can have been given back

  lemma {:induction false} ReleasedBy(tr: seq<State>, acts: seq<Action>, n: nat, id: nat) returns (m: nat)
    requires IsRun(tr, acts) && n < |tr| && id < |tr[n].reg.procs| && tr[n].reg.procs[id].status == R.Released
    ensures m < n && !acts[m].OfProcess? && R.Enabled(tr[m].reg, acts[m].r)
    ensures RT.Releaser(tr[m].reg, acts[m].r) == Some(id)
  {
    assert n > 0;
    assert StepAt(tr, acts, n - 1);
    var s, a := tr[n - 1].reg, acts[n - 1];
    if !a.OfProcess? { RT.OnlyReleaserGoesBack(s, a.r, id); }
    if id < |s.procs| && s.procs[id].status == R.Released {
      m := ReleasedBy(tr, acts, n - 1, id);
    } else {
      m := n - 1;
    }
  }

  /** The registry step `r` gave the ports of `id` back in a way that does not make sure that the
      process is gone: a swap displaced it; or it was cleaned up as a failed replacement; or a
      worker removed it that, at its last look `q`, had found its probe still pending. */
  ghost predicate GaveBackAlive(tr: seq<State>, acts: seq<Action>, m: nat, q: nat, id: nat)
    requires |tr| == |acts| + 1 && m < |acts|
  {
    && !acts[m].OfProcess? && R.Enabled(tr[m].reg, acts[m].r) && RT.Releaser(tr[m].reg, acts[m].r) == Some(id)
    && match acts[m].r
       case Swap(p) => tr[m].reg.procs[p].maker.prev == id
       case CleanupRelease(p) => p == id
       case RemoveProcess(t) =>
         && q < m && acts[q] == OfRegistry(R.PollWorker(t, true))
         && id < |tr[q].lives| && L.ProbePending(tr[q].lives[id])
       case _ => false
  }

  lemma NotEndedGaveBackAlive(tr: seq<State>, acts: seq<Action>, n: nat, id: nat) returns (m: nat, q: nat)
    requires IsRun(tr, acts) && n < |tr| && id < |tr[n].reg.procs| && tr[n].reg.procs[id].status == R.Released
    requires id < |tr[n].lives| && !Ended(tr[n].lives[id].state)
    ensures m < n && GaveBackAlive(tr, acts, m, q, id)
  {
    m := ReleasedBy(tr, acts, n, id);
    q := 0;
    var r := acts[m].r;
    if r.RemoveProcess? {
      q := WorkerSawEnd(tr, acts, m, r.t);
      if !L.ProbePending(tr[q].lives[id]) { EndedStaysWithin(tr, acts, q, n, id); }
    }
  }

  /** If in any run two processes that have not ended have a port in common, one of them gave its
      ports back in one of those three ways. */
  lemma OverlapExplained(tr: seq<State>, acts: seq<Action>, n: nat, i: nat, j: nat, port: int)
    returns (id: nat, m: nat, q: nat)
    requires IsRun(tr, acts) && n < |tr| && Overlap(tr[n], i, j, port)
    ensures (id == i || id == j) && m < n && GaveBackAlive(tr, acts, m, q, id)
  {
    var rtr, racts := RegistryPart(tr, acts, n);
    RT.PortsAreExclusive(rtr, racts, |rtr| - 1);
    var procs := tr[n].reg.procs;
    id := if RI.Holds(procs[i]) then j else i;
    if RI.Holds(procs[i]) {
      assert RT.HoldsPort(procs[i], port);
      assert !RT.HoldsPort(procs[j], port);
    }
    m, q := NotEndedGaveBackAlive(tr, acts, n, id);
  }

  // ---------------------------------------------------------------------------------------
  // When creates alone lead to an overlap

  predicate PortFree(pool: Pool, port: int) {
    0 <= port - pool.base < |pool.free| && pool.free[port - pool.base]
  }

  /** The process has not ended and has that port. */
  predicate Uses(s: State, i: nat, port: int) {
    i < |s.reg.procs| && i < |s.lives| && Covers(s.reg.procs[i], port) && !Ended(s.lives[i].state)
  }

  /** A process that has not ended has a port that is free, or that another such process has. */
  ghost predicate Exposed(s: State, i: nat, port: int) {
    Uses(s, i, port) && (PortFree(s.reg.pool, port) || exists j :: j != i && Uses(s, j, port))
  }

  predicate IsCreate(a: Action) { a.OfRegistry? && a.r.RegisterProcess? }

  ghost predicate ByCreates(tr: seq<State>, acts: seq<Action>) {
    IsPath(tr, acts) && forall i :: 0 <= i < |acts| ==> IsCreate(acts[i])
  }

  /** What a create that is not refused does. */
  ghost predicate Adds(s: State, s': State, p: R.Proc, t: Taken) {
    && s'.reg.procs == s.reg.procs + [p] && s'.lives == s.lives + [L.NewLife(p.first != 0, 0)]
    && p.first == t.first && p.last == t.last
    && s'.reg.pool == t.pool && (if p.count > 0 then TakesFree(s.reg.pool, p.count, t) else t.pool == s.reg.pool)
  }

  lemma CreateEffect(s: State, spec: R.Spec) returns (p: R.Proc, t: Taken)
    requires Valid(s.reg.pool) && |s.lives| == |s.reg.procs|
    ensures var s' := Do(s, OfRegistry(R.RegisterProcess(spec))); s' == s || Adds(s, s', p, t)
    ensures spec.name != "" && spec.name !in s.reg.registry && spec.binary != ""
            && R.Reserve(s.reg.pool, spec).Some? ==>
              Adds(s, Do(s, OfRegistry(R.RegisterProcess(spec))), p, t) && p.count == spec.portCount
  {
    var r := R.Reserve(s.reg.pool, spec);
    t := if r.Some? then r.value else Taken(s.reg.pool, 0, 0);
    p := R.Proc(spec.name, spec.binary, spec.portCount, t.first, t.last, R.Registered, R.Create);
    if r.Some? && spec.portCount > 0 { AllocateTakesFree(s.reg.pool, spec.portCount); }
  }

  /** A create exposes nobody: whatever is exposed after it was so before. */
  lemma AddingExposesNobody(s: State, s': State, p: R.Proc, t: Taken, i: nat, port: int) returns (k: nat)
    requires |s.lives| == |s.reg.procs| && |s.reg.pool.free| == s.reg.pool.size
    requires Adds(s, s', p, t) && Exposed(s', i, port)
    ensures Exposed(s, k, port)
  {
    var n := |s.reg.procs|;
    k := i;
    if i == n {
      k :| k != i && Uses(s', k, port);
      assert Uses(s, k, port) && PortFree(s.reg.pool, port);
    } else {
      assert Uses(s, i, port);
      if !PortFree(s.reg.pool, port) {
        var j :| j != i && Uses(s', j, port);
        assert Uses(s, j, port);
      }
    }
  }

  lemma CreateExposesNobody(s: State, a: Action, s': State, i: nat, port: int) returns (k: nat)
    requires Valid(s.reg.pool) && |s.lives| == |s.reg.procs| && IsCreate(a) && Next(s, a, s') && Exposed(s', i, port)
    ensures Exposed(s, k, port)
  {
    var p, t := CreateEffect(s, a.r.spec);
    k := i;
    if s' != s { k := AddingExposesNobody(s, s', p, t, i, port); }
  }

  ghost predicate Fits(s: State) { Valid(s.reg.pool) && |s.lives| == |s.reg.procs| }

  lemma {:induction false} ExposedBefore(tr: seq<State>, acts: seq<Action>, n: nat, i: nat, port: int) returns (k: nat)
    requires ByCreates(tr, acts) && n < |tr| && (forall m :: 0 <= m < |tr| ==> Fits(tr[m])) && Exposed(tr[n], i, port)
    ensures Exposed(tr[0], k, port)
  {
    if n == 0 {
      k := i;
    } else {
      assert Fits(tr[n - 1]) && StepAt(tr, acts, n - 1) && IsCreate(acts[n - 1]);
      k := CreateExposesNobody(tr[n - 1], acts[n - 1], tr[n], i, port);
      k := ExposedBefore(tr, acts, n - 1, k, port);
    }
  }

  lemma {:induction false} InvAlong(tr: seq<State>, acts: seq<Action>, n: nat)
    requires IsPath(tr, acts) && n < |tr| && Inv(tr[0])
    ensures Inv(tr[n])
  {
    if n > 0 {
      InvAlong(tr, acts, n - 1);
      assert StepAt(tr, acts, n - 1);
      StepKeeps(tr[n - 1], acts[n - 1]);
    }
  }

  // ---------------------------------------------------------------------------------------
  // A name nobody has

  function NameLengths(procs: seq<R.Proc>, n: nat): nat
    requires n <= |procs|
  {
    if n == 0 then 0 else NameLengths(procs, n - 1) + |procs[n - 1].name|
  }

  lemma {:induction false} NotLonger(procs: seq<R.Proc>, n: nat, i: nat)
    requires i < n <= |procs|
    ensures |procs[i].name| <= NameLengths(procs, n)
  {
    if i < n - 1 { NotLonger(procs, n - 1, i); }
  }

  function NewName(procs: seq<R.Proc>): string { seq(NameLengths(procs, |procs|) + 1, _ => 'n') }

  lemma NewNameIsNew(registry: map<string, R.Id>, procs: seq<R.Proc>)
    requires RI.RegInv(registry, procs)
    ensures NewName(procs) !in registry && NewName(procs) != ""
  {
    if NewName(procs) in registry { NotLonger(procs, |procs|, registry[NewName(procs)]); }
  }

  // ---------------------------------------------------------------------------------------
  // Creates of one port each come to any free port

  lemma TakesOne(pool: Pool, port: int)
    requires Valid(pool) && PortFree(pool, port)
    ensures var r := Allocate(pool, 1);
            && r.Some? && TakesFree(pool, 1, r.value) && r.value.first == r.value.last
            && FreeCount(r.value.pool.free) == FreeCount(pool.free) - 1
            && (r.value.first != port ==> PortFree(r.value.pool, port))
  {
    SlackSuffices(pool, 1, port - pool.base);
    AllocateTakesFree(pool, 1);
    var t := Allocate(pool, 1).value;
    FreeCountSetRange(pool.free, t.first - pool.base, t.last + 1 - pool.base, false);
  }

  ghost predicate Reached(s: State) {
    exists run: seq<State>, done :: IsRun(run, done) && run[|run| - 1] == s
  }

  lemma ReachedInv(s: State)
    requires Reached(s)
    ensures Inv(s)
  {
    var run: seq<State>, done :| IsRun(run, done) && run[|run| - 1] == s;
    InvHolds(run, done, |run| - 1);
  }

  lemma ReachedNext(s: State, a: Action)
    requires Reached(s) && Valid(s.reg.pool) && Enabled(s, a)
    ensures Reached(Do(s, a))
  {
    var run: seq<State>, done :| IsRun(run, done) && run[|run| - 1] == s;
    var run', done' := PathGrows(run, done, a);
    assert IsRun(run', done') && run'[|run'| - 1] == Do(s, a);
  }

  /** One create of one port, under a name nobody has. */
  lemma CreateNext(s: State, port: int) returns (a: Action, s': State, p: R.Proc)
    requires Reached(s) && PortFree(s.reg.pool, port)
    ensures IsCreate(a) && Next(s, a, s') && Reached(s')
    ensures |s.lives| == |s.reg.procs| && |s'.lives| == |s.lives| + 1 && s'.lives[..|s.lives|] == s.lives
    ensures s'.reg.procs == s.reg.procs + [p] && s'.lives[|s.lives|].state == Starting
    ensures p.count == 1 && p.first == p.last && FreeCount(s'.reg.pool.free) < FreeCount(s.reg.pool.free)
    ensures p.first != port ==> PortFree(s'.reg.pool, port)
  {
    ReachedInv(s);
    NewNameIsNew(s.reg.registry, s.reg.procs);
    var spec := R.Spec(NewName(s.reg.procs), "b", 1, []);
    a := OfRegistry(R.RegisterProcess(spec));
    s' := Do(s, a);
    ReachedNext(s, a);
    p := CreatesOne(s, spec, port);
  }

  lemma CreatesOne(s: State, spec: R.Spec, port: int) returns (p: R.Proc)
    requires Fits(s) && PortFree(s.reg.pool, port) && spec.name !in s.reg.registry && spec.name != ""
    requires spec.binary != "" && spec.portCount == 1 && spec.portArgs == []
    ensures var s' := Do(s, OfRegistry(R.RegisterProcess(spec)));
            && |s'.lives| == |s.lives| + 1 && s'.lives[..|s.lives|] == s.lives && s'.lives[|s.lives|].state == Starting
            && s'.reg.procs == s.reg.procs + [p] && p.count == 1 && p.first == p.last
            && FreeCount(s'.reg.pool.free) < FreeCount(s.reg.pool.free)
            && (p.first != port ==> PortFree(s'.reg.pool, port))
  {
    TakesOne(s.reg.pool, port);
    var q, t := CreateEffect(s, spec);
    p := q;
  }

  lemma {:induction false} CreatesShare(s: State, i: nat, port: int) returns (tr: seq<State>, acts: seq<Action>, j: nat)
    requires Reached(s) && Uses(s, i, port) && PortFree(s.reg.pool, port)
    ensures ByCreates(tr, acts) && tr[0] == s && Overlap(tr[|tr| - 1], i, j, port)
    decreases FreeCount(s.reg.pool.free)
  {
    var a, s', p := CreateNext(s, port);
    assert s'.lives[i] == s'.lives[..|s.lives|][i];
    assert Uses(s', i, port);
    if p.first == port {
      assert StepAt([s, s'], [a], 0) && Uses(s', |s.reg.procs|, port);
      tr, acts, j := [s, s'], [a], |s.reg.procs|;
    } else {
      tr, acts, j := CreatesShare(s', i, port);
      tr, acts := Prepend(s, a, tr, acts);
    }
  }

  lemma Prepend(s: State, a: Action, tail: seq<State>, more: seq<Action>) returns (tr: seq<State>, acts: seq<Action>)
    requires IsCreate(a) && ByCreates(tail, more) && Next(s, a, tail[0])
    ensures ByCreates(tr, acts) && tr == [s] + tail
  {
    tr, acts := [s] + tail, [a] + more;
    forall i | 0 <= i < |acts| ensures StepAt(tr, acts, i) {
      if i > 0 { assert StepAt(tail, more, i - 1); }
    }
  }

  lemma PrefixIsRun(run: seq<State>, done: seq<Action>, n: nat)
    requires IsRun(run, done) && n < |run|
    ensures IsRun(run[..n + 1], done[..n])
  {
    var run', done' := run[..n + 1], done[..n];
    forall i | 0 <= i < |done'| ensures StepAt(run', done', i) { assert StepAt(run, done, i); }
  }

  ghost predicate LeadsToOverlap(s: State, tr: seq<State>, acts: seq<Action>, i: nat, j: nat, port: int) {
    ByCreates(tr, acts) && tr[0] == s && Overlap(tr[|tr| - 1], i, j, port)
  }

  lemma ExposedLeads(s: State, i: nat, port: int) returns (tr: seq<State>, acts: seq<Action>, j: nat)
    requires Reached(s) && Exposed(s, i, port)
    ensures LeadsToOverlap(s, tr, acts, i, j, port)
  {
    if PortFree(s.reg.pool, port) {
      tr, acts, j := CreatesShare(s, i, port);
    } else {
      j :| j != i && Uses(s, j, port);
      tr, acts := [s], [];
    }
  }

  /** In every reachable state: some creates, and nothing else, make two processes that have not
      ended have a port in common if and only if such a process has a port that is free, or that
      another such process has already. */
  lemma OverlapByCreatesIff(run: seq<State>, done: seq<Action>, n: nat)
    requires IsRun(run, done) && n < |run|
    ensures (exists i, port :: Exposed(run[n], i, port)) <==>
            exists tr, acts, i, j, port :: LeadsToOverlap(run[n], tr, acts, i, j, port)
  {
    InvHolds(run, done, n);
    assert IsRun(run[..n + 1], done[..n]) by { PrefixIsRun(run, done, n); }
    assert Reached(run[n]);
    if i, port :| Exposed(run[n], i, port) {
      var tr, acts, j := ExposedLeads(run[n], i, port);
      assert LeadsToOverlap(run[n], tr, acts, i, j, port);
    }
    if tr, acts, i, j, port :| LeadsToOverlap(run[n], tr, acts, i, j, port) {
      assert Uses(tr[|tr| - 1], i, port) && Uses(tr[|tr| - 1], j, port);
      forall m | 0 <= m < |tr| ensures Fits(tr[m]) { InvAlong(tr, acts, m); }
      var k := ExposedBefore(tr, acts, |tr| - 1, i, port);
    }
  }
}
