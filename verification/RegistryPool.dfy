/** The pool part of the registry invariant, kept by granting and giving back ports. */
module RegistryPool {
  import opened PortPool
  import opened Registry
  import opened RegistryInvariant

  // ---------------------------------------------------------------------------------------
  // Sums

  lemma {:induction false} HeldSame(a: seq<Proc>, b: seq<Proc>, n: nat)
    requires n <= |a| && n <= |b|
    requires forall i :: 0 <= i < n ==> Held(a[i]) == Held(b[i])
    ensures HeldBelow(a, n) == HeldBelow(b, n)
  {
    if n > 0 { HeldSame(a, b, n - 1); }
  }

  lemma {:induction false} HeldUpdate(procs: seq<Proc>, i: nat, p: Proc, n: nat)
    requires i < n <= |procs|
    ensures HeldBelow(procs[i := p], n) == HeldBelow(procs, n) - Held(procs[i]) + Held(p)
  {
    if i == n - 1 {
      HeldSame(procs, procs[i := p], n - 1);
    } else {
      HeldUpdate(procs, i, p, n - 1);
    }
  }

  lemma HeldAppend(procs: seq<Proc>, p: Proc)
    ensures HeldBelow(procs + [p], |procs| + 1) == HeldBelow(procs, |procs|) + Held(p)
  {
    HeldSame(procs, procs + [p], |procs|);
  }

  // ---------------------------------------------------------------------------------------
  // Processes that change nothing about ports

  predicate SamePorts(p: Proc, q: Proc) {
    p.first == q.first && p.last == q.last && p.count == q.count && (Holds(p) <==> Holds(q))
  }

  lemma PoolKeptBySamePorts(pool: Pool, a: seq<Proc>, b: seq<Proc>, owner: seq<int>)
    requires PoolInv(pool, a, owner)
    requires |a| == |b| && forall i :: 0 <= i < |a| ==> SamePorts(a[i], b[i])
    ensures PoolInv(pool, b, owner)
  {
    HeldSame(a, b, |a|);
    forall k | 0 <= k < |owner| ensures OwnerHolds(pool.base, b, k, owner[k]) {
      assert OwnerHolds(pool.base, a, k, owner[k]);
    }
    forall i | 0 <= i < |b| && Holds(b[i]) ensures OwnsAll(pool.base, owner, b[i], i) {
      assert SamePorts(a[i], b[i]) && OwnsAll(pool.base, owner, a[i], i);
    }
  }

  // ---------------------------------------------------------------------------------------
  // Granting

  lemma GrantKeepsOwners(free: seq<bool>, base: int, procs: seq<Proc>, owner: seq<int>, p: Proc, lo: nat, hi: nat)
    requires OwnersHold(base, procs, owner) && HoldersOwn(base, procs, owner) && FreeIffUnowned(free, owner)
    requires lo < hi && AllFree(free, lo, hi)
    requires Holds(p) && p.first == base + lo && p.last == base + hi - 1 && p.count == hi - lo
    ensures OwnersHold(base, procs + [p], SetRange(owner, lo, hi, |procs|))
    ensures HoldersOwn(base, procs + [p], SetRange(owner, lo, hi, |procs|))
  {
    var procs', owner' := procs + [p], SetRange(owner, lo, hi, |procs|);
    forall k | 0 <= k < |owner'| ensures OwnerHolds(base, procs', k, owner'[k]) {
      assert OwnerHolds(base, procs, k, owner[k]);
    }
    forall i | 0 <= i < |procs'| && Holds(procs'[i]) ensures OwnsAll(base, owner', procs'[i], i) {
      if i < |procs| {
        assert OwnsAll(base, owner, procs[i], i);
        forall k | procs[i].first - base <= k <= procs[i].last - base ensures owner'[k] == i {
          assert owner[k] == i && !free[k];
        }
      }
    }
  }

  lemma FlipKeepsUnowned(free: seq<bool>, owner: seq<int>, lo: nat, hi: nat, v: bool, who: int)
    requires FreeIffUnowned(free, owner) && lo <= hi <= |free| && (v <==> who < 0)
    ensures FreeIffUnowned(SetRange(free, lo, hi, v), SetRange(owner, lo, hi, who))
  {
  }

  lemma TakingKeepsOwners(pool: Pool, procs: seq<Proc>, owner: seq<int>, p: Proc, t: Taken)
    requires OwnInv(pool, procs, owner) && Holds(p) && |owner| == pool.size
    requires TakesFree(pool, p.count, t) && p.first == t.first && p.last == t.last
    ensures OwnInv(t.pool, procs + [p], MarkOwner(pool, owner, p, |procs|))
  {
    var lo, hi := p.first - pool.base, p.last + 1 - pool.base;
    var owner' := SetRange(owner, lo, hi, |procs|);
    assert MarkOwner(pool, owner, p, |procs|) == owner' && t.pool.free == SetRange(pool.free, lo, hi, false);
    GrantKeepsOwners(pool.free, pool.base, procs, owner, p, lo, hi);
    FlipKeepsUnowned(pool.free, owner, lo, hi, false, |procs|);
    assert FreeIffUnowned(t.pool.free, owner');
  }

  lemma TakingConserves(pool: Pool, procs: seq<Proc>, p: Proc, t: Taken)
    requires Conserved(pool, procs) && Holds(p) && TakesFree(pool, p.count, t)
    ensures Conserved(t.pool, procs + [p])
  {
    HeldAppend(procs, p);
    FreeCountSetRange(pool.free, t.first - pool.base, t.last + 1 - pool.base, false);
  }

  /** Granting a new process its ports keeps the pool invariant. */
  lemma GrantKeepsPool(s: State, spec: Spec, status: Status, maker: Maker)
    requires PoolInv(s.pool, s.procs, s.h.owner) && Reserve(s.pool, spec).Some?
    requires status == Pending || status == Registered
    ensures var s' := Grant(s, spec, Reserve(s.pool, spec).value, status, maker);
            PoolInv(s'.pool, s'.procs, s'.h.owner) && CountFits(s'.procs[|s.procs|])
  {
    var t := Reserve(s.pool, spec).value;
    var s' := Grant(s, spec, t, status, maker);
    var p := s'.procs[|s.procs|];
    if spec.portCount == 0 {
      NoPortsKeepPool(s.pool, s.procs, s.h.owner, p);
    } else {
      AllocateTakesFree(s.pool, spec.portCount);
      TakingKeepsOwners(s.pool, s.procs, s.h.owner, p, t);
      TakingConserves(s.pool, s.procs, p, t);
    }
  }

  lemma NoPortsKeepPool(pool: Pool, procs: seq<Proc>, owner: seq<int>, p: Proc)
    requires PoolInv(pool, procs, owner) && p.count == 0
    ensures PoolInv(pool, procs + [p], owner)
  {
    var procs' := procs + [p];
    HeldAppend(procs, p);
    forall k | 0 <= k < |owner| ensures OwnerHolds(pool.base, procs', k, owner[k]) {
      assert OwnerHolds(pool.base, procs, k, owner[k]);
    }
    forall i | 0 <= i < |procs'| && Holds(procs'[i]) ensures OwnsAll(pool.base, owner, procs'[i], i) {
      assert OwnsAll(pool.base, owner, procs[i], i);
    }
  }

  // ---------------------------------------------------------------------------------------
  // Giving back

  lemma GiveBackKeepsOwners(base: int, procs: seq<Proc>, owner: seq<int>, id: nat, p: Proc)
    requires OwnersHold(base, procs, owner) && HoldersOwn(base, procs, owner)
    requires id < |procs| && Holds(procs[id]) && !Holds(p)
    ensures var lo, hi := procs[id].first - base, procs[id].last + 1 - base;
            && 0 <= lo < hi <= |owner|
            && OwnersHold(base, procs[id := p], SetRange(owner, lo, hi, -1))
            && HoldersOwn(base, procs[id := p], SetRange(owner, lo, hi, -1))
  {
    assert OwnsAll(base, owner, procs[id], id);
    var lo, hi := procs[id].first - base, procs[id].last + 1 - base;
    var procs', owner' := procs[id := p], SetRange(owner, lo, hi, -1);
    forall k | 0 <= k < |owner'| ensures OwnerHolds(base, procs', k, owner'[k]) {
      assert OwnerHolds(base, procs, k, owner[k]);
    }
    forall i | 0 <= i < |procs'| && Holds(procs'[i]) ensures OwnsAll(base, owner', procs'[i], i) {
      assert OwnsAll(base, owner, procs[i], i);
      forall k | procs[i].first - base <= k <= procs[i].last - base ensures owner'[k] == i {
        assert owner[k] == i;
      }
    }
  }

  lemma FreeingKeepsOwners(pool: Pool, procs: seq<Proc>, owner: seq<int>, id: nat, p: Proc, lo: nat, hi: nat)
    requires OwnInv(pool, procs, owner) && id < |procs| && Holds(procs[id]) && !Holds(p)
    requires lo == procs[id].first - pool.base && hi == procs[id].last + 1 - pool.base && lo < hi <= |pool.free|
    ensures var owner' := MarkOwner(pool, owner, procs[id], -1);
            OwnInv(pool.(free := SetRange(pool.free, lo, hi, true)), procs[id := p], owner')
  {
    GiveBackKeepsOwners(pool.base, procs, owner, id, p);
    FlipKeepsUnowned(pool.free, owner, lo, hi, true, -1);
  }

  lemma FreeingConserves(pool: Pool, procs: seq<Proc>, owner: seq<int>, id: nat, p: Proc, lo: nat, hi: nat)
    requires Conserved(pool, procs) && id < |procs| && Holds(procs[id]) && !Holds(p)
    requires FreeIffUnowned(pool.free, owner) && OwnsAll(pool.base, owner, procs[id], id)
    requires lo == procs[id].first - pool.base && hi == procs[id].last + 1 - pool.base && lo < hi <= |pool.free|
    ensures Conserved(pool.(free := SetRange(pool.free, lo, hi, true)), procs[id := p])
  {
    HeldUpdate(procs, id, p, |procs|);
    forall k | lo <= k < hi ensures !pool.free[k] { assert owner[k] == id; }
    FreeCountSetRange(pool.free, lo, hi, true);
  }

  /** Giving ports back keeps the pool invariant, provided the process still holds them. This is
      where two releases of one range, or a release by the wrong process, would go wrong. */
  lemma ReleaseKeepsPool(s: State, id: Id)
    requires PoolInv(s.pool, s.procs, s.h.owner) && id < |s.procs|
    requires CountFits(s.procs[id]) && (Holds(s.procs[id]) || s.procs[id].count == 0)
    ensures var s' := ReleaseProcessPorts(s, id); PoolInv(s'.pool, s'.procs, s'.h.owner)
  {
    var s' := ReleaseProcessPorts(s, id);
    var p, p' := s.procs[id], s'.procs[id];
    if GiveBack(s.pool, p).Freed? {
      assert OwnsAll(s.pool.base, s.h.owner, p, id);
      var lo, hi := p.first - s.pool.base, p.last + 1 - s.pool.base;
      FreeingKeepsOwners(s.pool, s.procs, s.h.owner, id, p', lo, hi);
      FreeingConserves(s.pool, s.procs, s.h.owner, id, p', lo, hi);
    } else {
      PoolKeptBySamePorts(s.pool, s.procs, s'.procs, s.h.owner);
    }
  }
}
