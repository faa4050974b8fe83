/** The pool of ports: a bitmap of free positions above a base port, searched first-fit from
    where the last search ended. This is the value model; `Bitmap.dfy` has the object. */
module PortPool {
  import opened Wrappers
  import opened PortRange

  /** `free[k]` says that port `base + k` is available; `start` is the resume position. */
  datatype Pool = Pool(base: int, size: int, start: int, free: seq<bool>)

  predicate Valid(p: Pool) {
    && 1 <= |p.free| == p.size < 0x8000_0000
    && 0 <= p.start <= p.size
    && -0x8000_0000 <= p.base
    && p.base + p.size <= 0x8000_0000
  }

  /** A new pool over the ports `first..last`, both included; the size is computed in 32 bits. */
  function NewPool(first: int, last: int): (r: Result<Pool>)
    requires -0x8000_0000 <= first < 0x8000_0000 && -0x8000_0000 <= last < 0x8000_0000
    ensures r.Err? <==> last < first
    ensures r.Ok? ==> (Valid(r.value) <==> last - first + 1 < 0x8000_0000)
    ensures r.Ok? && Valid(r.value) ==> FreeCount(r.value.free) == last - first + 1
  {
    if last < first then Err
    else
      var size := Int32(last - first + 1);
      var free := if size > 0 then Fill(size, true) else [];
      AllFreeCount(free, |free|);
      Ok(Pool(first, size, 0, free))
  }

  function Fill<T>(n: nat, v: T): (s: seq<T>)
    ensures |s| == n && forall i :: 0 <= i < n ==> s[i] == v
  {
    seq(n, _ => v)
  }

  /** Overwrites positions `lo..hi` (the latter excluded). */
  function SetRange<T>(s: seq<T>, lo: nat, hi: nat, v: T): (r: seq<T>)
    requires lo <= hi <= |s|
    ensures |r| == |s|
    ensures forall i :: 0 <= i < |s| ==> r[i] == if lo <= i < hi then v else s[i]
  {
    s[..lo] + Fill(hi - lo, v) + s[hi..]
  }

  function FreeCount(free: seq<bool>): nat { FreeBelow(free, |free|) }

  /** How many of the first `n` positions are free. */
  function FreeBelow(free: seq<bool>, n: nat): nat
    requires n <= |free|
  {
    if n == 0 then 0 else FreeBelow(free, n - 1) + if free[n - 1] then 1 else 0
  }

  /** First free position at or after `i`, or the length. */
  function NextFree(free: seq<bool>, i: nat): (k: nat)
    requires i <= |free|
    ensures i <= k <= |free| && (k < |free| ==> free[k])
    decreases |free| - i
  {
    if i == |free| || free[i] then i else NextFree(free, i + 1)
  }

  /** First taken position at or after `i`, or the length: where the free run through `i` ends. */
  function RunEnd(free: seq<bool>, i: nat): (k: nat)
    requires i <= |free|
    ensures i <= k <= |free| && (k < |free| ==> !free[k]) && (i < |free| && free[i] ==> i < k)
    decreases |free| - i
  {
    if i == |free| || !free[i] then i else RunEnd(free, i + 1)
  }

  predicate AllFree(free: seq<bool>, lo: int, hi: int) {
    0 <= lo <= hi <= |free| && forall i :: lo <= i < hi ==> free[i]
  }

  /** The maximal stretches of free positions, from left to right. */
  datatype Runs = Nil | Run(start: nat, len: nat, rest: Runs)

  /** The free runs among the positions from `from` on. */
  function RunsFrom(free: seq<bool>, from: nat): (runs: Runs)
    requires from <= |free|
    decreases |free| - from
  {
    var first := NextFree(free, from);
    if first == |free| then Nil
    else
      var end := RunEnd(free, first);
      Run(first, end - first, RunsFrom(free, end))
  }

  function Length(runs: Runs): nat { if runs.Nil? then 0 else 1 + Length(runs.rest) }

  /** What is left of the runs once their first position has been consumed. */
  function DropHead(runs: Runs): (r: Runs)
    ensures Length(r) <= Length(runs)
  {
    match runs
    case Nil => Nil
    case Run(start, len, rest) => if len <= 1 then rest else Run(start + 1, len - 1, rest)
  }

  /** One pass of the search for `n` adjacent positions. The iterator leaves a run that is too
      short by reading the first position of the next run; that position has then been consumed
      and the pass goes on behind it. */
  function FirstFit(runs: Runs, n: nat): (r: Option<nat>)
    decreases Length(runs)
  {
    match runs
    case Nil => None
    case Run(start, len, rest) => if len >= n then Some(start) else FirstFit(DropHead(rest), n)
  }

  function Search(free: seq<bool>, n: nat, from: nat): (r: Option<nat>)
    requires n >= 1 && from <= |free|
    ensures r.Some? ==> from <= r.value && AllFree(free, r.value, r.value + n)
  {
    RunsAreFree(free, from);
    FirstFitIsFree(free, from, RunsFrom(free, from), n);
    FirstFit(RunsFrom(free, from), n)
  }

  datatype Taken = Taken(pool: Pool, first: int, last: int)

  /** What `AllocateRange` does: search from the resume position, then from the bottom. */
  function Allocate(p: Pool, n: int): (r: Option<Taken>)
    requires Valid(p)
    ensures r.Some? ==> n >= 1 && Valid(r.value.pool)
  {
    if n <= 0 then None
    else
      var at := Locate(p, n);
      if at.None? then None else Some(Take(p, n, at.value))
  }

  function Locate(p: Pool, n: nat): (k: Option<nat>)
    requires Valid(p) && n >= 1
    ensures k.Some? ==> AllFree(p.free, k.value, k.value + n)
  {
    var again := Search(p.free, n, p.start);
    if again.Some? then again else Search(p.free, n, 0)
  }

  function Take(p: Pool, n: nat, k: nat): (t: Taken)
    requires Valid(p) && k + n <= p.size
    ensures Valid(t.pool)
  {
    Taken(p.(start := k + n, free := SetRange(p.free, k, k + n, false)), p.base + k, p.base + k + n - 1)
  }

  /** `t` is `n` adjacent ports of the pool that were free; those and no others are taken. */
  ghost predicate TakesFree(p: Pool, n: int, t: Taken) {
    && t.pool.base == p.base && t.pool.size == p.size && n >= 1
    && p.base <= t.first && t.last == t.first + n - 1 && t.last < p.base + p.size
    && AllFree(p.free, t.first - p.base, t.last + 1 - p.base)
    && t.pool.free == SetRange(p.free, t.first - p.base, t.last + 1 - p.base, false)
  }

  lemma AllocateTakesFree(p: Pool, n: int)
    requires Valid(p) && Allocate(p, n).Some?
    ensures TakesFree(p, n, Allocate(p, n).value)
  {
  }

  datatype ReleaseResult = Freed(pool: Pool) | Nothing | Rejected

  /** What `ReleaseRange` does. The range (0,0) stands for "no ports" and frees nothing. */
  function Release(p: Pool, first: int, last: int): (r: ReleaseResult)
    requires Valid(p)
    ensures r.Freed? ==> Valid(r.pool) && r.pool.base == p.base && r.pool.size == p.size
  {
    if last < first then Rejected
    else if first == last && last == 0 then Nothing
    else if first - p.base < 0 || last - p.base >= p.size then Rejected
    else Freed(p.(free := SetRange(p.free, first - p.base, last - p.base + 1, true)))
  }

  /** The same with the differences to the base port taken in 32 bits, as the code does. `None` is
      the run-time panic of the underlying bitmap on an end position that has become negative. */
  function ReleaseIn32Bits(p: Pool, first: int, last: int): (r: Option<ReleaseResult>)
    requires (Valid(p) || Overflown(p)) && Fits32(first) && Fits32(last)
  {
    if last < first then Some(Rejected)
    else if first == last && last == 0 then Some(Nothing)
    else
      var bStart, bEnd := Int32(first - p.base), Int32(last - p.base);
      if bStart < 0 || bEnd >= p.size then Some(Rejected)
      else if bEnd < -1 then None
      else if bStart > bEnd then Some(Nothing)
      else Some(Freed(p.(free := SetRange(p.free, bStart, bEnd + 1, true))))
  }

  predicate Fits32(x: int) { -0x8000_0000 <= x < 0x8000_0000 }

  /** One of the two differences overflows, and that shows. */
  predicate Overflows(p: Pool, first: int, last: int) {
    && first <= last && (first, last) != (0, 0)
    && (0 <= first - p.base < 0x8000_0000 <= last - p.base || first - p.base < -0x8000_0000 <= last - p.base < p.size)
  }

  /** Unless that is so, and only then, the code does what `Release` does. */
  lemma ReleaseSameIn32Bits(p: Pool, first: int, last: int)
    requires Valid(p) && Fits32(first) && Fits32(last)
    ensures ReleaseIn32Bits(p, first, last) == Some(Release(p, first, last)) <==> !Overflows(p, first, last)
  {
    Wraps(first - p.base);
    Wraps(last - p.base);
  }

  /** So a range that is not of the pool can panic: in every pool that begins below port 0, but not
      at the least 32-bit number, the range from port 0 to the last does. */
  lemma ForeignRangePanics(p: Pool)
    requires Valid(p) && -0x8000_0000 < p.base < 0
    ensures ReleaseIn32Bits(p, 0, 0x7FFF_FFFF).None? && Release(p, 0, 0x7FFF_FFFF) == Rejected
  {
    Wraps(0 - p.base);
    Wraps(0x7FFF_FFFF - p.base);
  }

  /** Or it can seem to be released: in a pool that begins at the least number. */
  lemma ForeignRangeIgnored(p: Pool)
    requires Valid(p) && p.base == -0x8000_0000
    ensures ReleaseIn32Bits(p, -1, 0x7FFF_FFFF) == Some(Nothing) && Release(p, -1, 0x7FFF_FFFF) == Rejected
  {
    Wraps(-1 - p.base);
    Wraps(0x7FFF_FFFF - p.base);
  }

  lemma Wraps(d: int)
    requires -0x1_0000_0000 < d < 0x1_0000_0000
    ensures Int32(d) == if d >= 0x8000_0000 then d - 0x1_0000_0000
                        else if d < -0x8000_0000 then d + 0x1_0000_0000
                        else d
  {
  }

  // ---------------------------------------------------------------------------------------
  // Pools whose span overflowed

  /** The size has become negative, or 0, and no position was marked free. */
  predicate Overflown(p: Pool) {
    p.size <= 0 && p.free == [] && Fits32(p.base) && Fits32(p.size) && Fits32(p.start)
  }

  /** The scan: above a negative size it does not even begin, and takes what it was asked to. */
  function BlindFind(p: Pool, n: int, from: int): Option<(int, int)> {
    if from <= p.size then None else Some((from, Int32(from + n - 1)))
  }

  function BlindLocate(p: Pool, n: int): Option<(int, int)> {
    if BlindFind(p, n, p.start).Some? then BlindFind(p, n, p.start) else BlindFind(p, n, 0)
  }

  function BlindAllocate(p: Pool, n: int): (r: Option<Taken>)
    requires Overflown(p)
    ensures r.Some? ==> Overflown(r.value.pool)
  {
    if n <= 0 || BlindLocate(p, n).None? then None
    else
      var (rStart, rEnd) := BlindLocate(p, n).value;
      Some(Taken(p.(start := Int32(rEnd + 1)), Int32(p.base + rStart), Int32(p.base + rEnd)))
  }

  /** A new pool is sound exactly if its span fits 31 bits, and has overflown otherwise. */
  lemma NewPoolSoundIff(first: int, last: int)
    requires Fits32(first) && Fits32(last) && first <= last
    ensures NewPool(first, last).Ok?
    ensures var p := NewPool(first, last).value;
            && (Valid(p) <==> last - first + 1 < 0x8000_0000) && (Overflown(p) <==> !Valid(p))
            && (p.size == 0 <==> last - first + 1 == 0x1_0000_0000)
  {
    if last - first + 1 < 0x1_0000_0000 { Wraps(last - first + 1); }
  }

  /** From a pool that has overflown, nothing is ever freed. */
  lemma OverflownNeverFrees(p: Pool, first: int, last: int)
    requires Overflown(p) && Fits32(first) && Fits32(last)
    ensures var r := ReleaseIn32Bits(p, first, last); r.None? || !r.value.Freed?
  {
  }

  /** And it grants a port twice: all but one of the positive 32-bit numbers are asked for, then one
      port, then another; unless its size is 0, and every request is refused. */
  lemma OverflownGrantsTwice(first: int, last: int)
    requires Fits32(first) && Fits32(last) && last - first + 1 >= 0x8000_0000
    ensures Overflown(NewPool(first, last).value)
    ensures var p := NewPool(first, last).value;
            if last - first + 1 == 0x1_0000_0000 then forall n :: BlindAllocate(p, n).None?
            else
              && BlindAllocate(p, 0x7FFF_FFFF).Some?
              && var t1 := BlindAllocate(p, 0x7FFF_FFFF).value;
                 && BlindAllocate(t1.pool, 1).Some?
                 && var t2 := BlindAllocate(t1.pool, 1).value;
                    && BlindAllocate(t2.pool, 1).Some?
                    && BlindAllocate(t2.pool, 1).value.first == t1.first == first
  {
    NewPoolSoundIff(first, last);
    var p := NewPool(first, last).value;
    if p.size < 0 {
      var t1 := BlindAllocate(p, 0x7FFF_FFFF).value;
      assert t1.pool.start == 0x7FFF_FFFF && t1.first == first;
      Wraps(0x8000_0000);
      var t2 := BlindAllocate(t1.pool, 1).value;
      assert t2.pool.start == -0x8000_0000;
    }
  }

  // ---------------------------------------------------------------------------------------
  // Counting free positions

  lemma {:induction false} AllFreeCount(free: seq<bool>, n: nat)
    requires AllFree(free, 0, n)
    ensures FreeBelow(free, n) == n
  {
    if n > 0 { AllFreeCount(free, n - 1); }
  }

  lemma {:induction false} FreeBelowSetRange(free: seq<bool>, lo: nat, hi: nat, v: bool, n: nat)
    requires lo <= hi <= |free| && n <= |free|
    requires forall i :: lo <= i < hi ==> free[i] == !v
    ensures var changed := if n <= lo then 0 else if n <= hi then n - lo else hi - lo;
            FreeBelow(SetRange(free, lo, hi, v), n) == FreeBelow(free, n) + if v then changed else -changed
  {
    if n > 0 { FreeBelowSetRange(free, lo, hi, v, n - 1); }
  }

  /** Flipping a range of positions moves the count of free ones by its width. */
  lemma FreeCountSetRange(free: seq<bool>, lo: nat, hi: nat, v: bool)
    requires lo <= hi <= |free|
    requires forall i :: lo <= i < hi ==> free[i] == !v
    ensures FreeCount(SetRange(free, lo, hi, v)) == FreeCount(free) + if v then hi - lo else lo - hi
  {
    FreeBelowSetRange(free, lo, hi, v, |free|);
  }

  // ---------------------------------------------------------------------------------------
  // Runs

  lemma {:induction false} NothingFreeBefore(free: seq<bool>, i: nat)
    requires i <= |free|
    ensures forall j :: i <= j < NextFree(free, i) ==> !free[j]
    decreases |free| - i
  {
    if i < |free| && !free[i] { NothingFreeBefore(free, i + 1); }
  }

  lemma {:induction false} AllFreeUntilEnd(free: seq<bool>, i: nat)
    requires i <= |free|
    ensures AllFree(free, i, RunEnd(free, i))
    decreases |free| - i
  {
    if i < |free| && free[i] { AllFreeUntilEnd(free, i + 1); }
  }

  /** All runs are free stretches from `from` on. */
  ghost predicate AreFree(free: seq<bool>, from: nat, runs: Runs)
    decreases runs
  {
    runs.Run? ==>
      && from <= runs.start && runs.len >= 1
      && AllFree(free, runs.start, runs.start + runs.len)
      && AreFree(free, runs.start + runs.len, runs.rest)
  }

  /** No run can be extended, and every free position from `from` on is in a run. */
  ghost predicate AreMaximal(free: seq<bool>, from: nat, runs: Runs)
    requires AreFree(free, from, runs) && from <= |free|
    decreases runs
  {
    match runs
    case Nil => forall j :: from <= j < |free| ==> !free[j]
    case Run(start, len, rest) =>
      && (forall j :: from <= j < start ==> !free[j])
      && (start + len < |free| ==> !free[start + len])
      && AreMaximal(free, start + len, rest)
  }

  lemma {:induction false} RunsAreFree(free: seq<bool>, from: nat)
    requires from <= |free|
    ensures AreFree(free, from, RunsFrom(free, from))
    ensures AreMaximal(free, from, RunsFrom(free, from))
    decreases |free| - from
  {
    var first := NextFree(free, from);
    NothingFreeBefore(free, from);
    if first < |free| {
      AllFreeUntilEnd(free, first);
      RunsAreFree(free, RunEnd(free, first));
    }
  }

  lemma {:induction false} RunEndSame(free: seq<bool>, i: nat, j: nat)
    requires i <= j <= |free|
    requires forall k :: i <= k < j ==> free[k]
    ensures RunEnd(free, i) == RunEnd(free, j)
    decreases j - i
  {
    if i < j { RunEndSame(free, i + 1, j); }
  }

  lemma {:induction false} NextFreeSame(free: seq<bool>, i: nat, j: nat)
    requires i <= j <= |free|
    requires forall k :: i <= k < j ==> !free[k]
    ensures NextFree(free, i) == NextFree(free, j)
    decreases j - i
  {
    if i < j { NextFreeSame(free, i + 1, j); }
  }

  /** Consuming one free position takes the head off the first run. */
  lemma ConsumeDropsHead(free: seq<bool>, g: nat)
    requires g < |free| && free[g]
    ensures RunsFrom(free, g + 1) == DropHead(RunsFrom(free, g))
  {
    var end := RunEnd(free, g);
    RunEndSame(free, g, g + 1);
    if end > g + 1 {
      assert NextFree(free, g + 1) == g + 1;
    }
  }

  lemma {:induction false} FirstFitIsFree(free: seq<bool>, from: nat, runs: Runs, n: nat)
    requires AreFree(free, from, runs)
    ensures var r := FirstFit(runs, n); r.Some? ==> from <= r.value && AllFree(free, r.value, r.value + n)
    decreases Length(runs)
  {
    if runs.Run? && runs.len < n {
      var end := runs.start + runs.len;
      DropHeadIsFree(free, end, runs.rest);
      FirstFitIsFree(free, end, DropHead(runs.rest), n);
    }
  }

  lemma DropHeadIsFree(free: seq<bool>, from: nat, runs: Runs)
    requires AreFree(free, from, runs)
    ensures AreFree(free, from, DropHead(runs))
  {
    if runs.Run? && runs.len > 1 {
      var r := DropHead(runs);
      assert r.start + r.len == runs.start + runs.len;
      assert AllFree(free, r.start, r.start + r.len);
    }
  }

  // ---------------------------------------------------------------------------------------
  // Which requests the search refuses

  /** No run can serve `n` ports. Read off the list of runs, without searching: every run is too
      short, or has exactly `n` positions and is shadowed, that is, loses its head. The first run
      is not shadowed; any other is, except behind a run of one position that was shadowed. */
  ghost predicate AllUseless(runs: Runs, n: nat, shadowed: bool) {
    runs.Run? ==>
      && (runs.len < n || (runs.len == n && shadowed))
      && AllUseless(runs.rest, n, !(shadowed && runs.len == 1))
  }

  lemma {:induction false} FirstFitFails(free: seq<bool>, from: nat, runs: Runs, n: nat, shadowed: bool)
    requires n >= 1 && AreFree(free, from, runs)
    ensures FirstFit(if shadowed then DropHead(runs) else runs, n).None? <==> AllUseless(runs, n, shadowed)
    decreases runs
  {
    if runs.Run? {
      FirstFitFails(free, runs.start + runs.len, runs.rest, n, !(shadowed && runs.len == 1));
    }
  }

  /** A pass refuses `n` ports if and only if every free run is useless. */
  lemma SearchRefusesIff(free: seq<bool>, n: nat, from: nat)
    requires n >= 1 && from <= |free|
    ensures Search(free, n, from).None? <==> AllUseless(RunsFrom(free, from), n, false)
  {
    RunsAreFree(free, from);
    FirstFitFails(free, from, RunsFrom(free, from), n, false);
  }

  /** The allocator refuses if and only if both passes find every run useless. */
  lemma AllocateRefusesIff(p: Pool, n: int)
    requires Valid(p) && n >= 1
    ensures Allocate(p, n).None? <==>
            AllUseless(RunsFrom(p.free, p.start), n, false) && AllUseless(RunsFrom(p.free, 0), n, false)
  {
    SearchRefusesIff(p.free, n, p.start);
    SearchRefusesIff(p.free, n, 0);
  }

  /** One adjacent port more than asked for is always enough, and for a single port any free
      port is. */
  lemma SlackSuffices(p: Pool, n: int, lo: int)
    requires Valid(p) && n >= 1
    requires AllFree(p.free, lo, if n == 1 then lo + 1 else lo + n + 1)
    ensures Allocate(p, n).Some?
  {
    AllocateRefusesIff(p, n);
    RunsAreFree(p.free, 0);
    SlackIsUseful(p.free, 0, RunsFrom(p.free, 0), n, lo, false);
  }

  lemma {:induction false} SlackIsUseful(free: seq<bool>, from: nat, runs: Runs, n: nat, lo: int, shadowed: bool)
    requires n >= 1 && from <= |free| && AreFree(free, from, runs) && AreMaximal(free, from, runs)
    requires from <= lo && AllFree(free, lo, if n == 1 then lo + 1 else lo + n + 1)
    requires n == 1 ==> !shadowed
    ensures !AllUseless(runs, n, shadowed)
    decreases runs
  {
    assert free[lo];
    if n > 1 && runs.start + runs.len <= lo {
      SlackIsUseful(free, runs.start + runs.len, runs.rest, n, lo, !(shadowed && runs.len == 1));
    }
  }

  // ---------------------------------------------------------------------------------------
  // Which ports are granted

  /** The first run that is not useless begins, less its head if it is shadowed, at `k`. */
  ghost predicate FirstUseful(runs: Runs, n: nat, shadowed: bool, k: nat) {
    match runs
    case Nil => false
    case Run(start, len, rest) =>
      if len > n || (len == n && !shadowed) then k == (if shadowed then start + 1 else start)
      else FirstUseful(rest, n, !(shadowed && len == 1), k)
  }

  lemma {:induction false} FirstFitFinds(free: seq<bool>, from: nat, runs: Runs, n: nat, shadowed: bool, k: nat)
    requires n >= 1 && AreFree(free, from, runs)
    ensures FirstFit(if shadowed then DropHead(runs) else runs, n) == Some(k) <==> FirstUseful(runs, n, shadowed, k)
    decreases runs
  {
    if runs.Run? {
      FirstFitFinds(free, runs.start + runs.len, runs.rest, n, !(shadowed && runs.len == 1), k);
    }
  }

  /** A pass finds the first run that is not useless. */
  lemma SearchFindsIff(free: seq<bool>, n: nat, from: nat, k: nat)
    requires n >= 1 && from <= |free|
    ensures Search(free, n, from) == Some(k) <==> FirstUseful(RunsFrom(free, from), n, false, k)
  {
    RunsAreFree(free, from);
    FirstFitFinds(free, from, RunsFrom(free, from), n, false, k);
  }

  /** The allocator grants the first useful run from the resume position on, and only if there is
      none, the first from the bottom; it will resume behind what it granted. */
  lemma AllocateGrantsIff(p: Pool, n: int, k: nat)
    requires Valid(p) && n >= 1
    ensures (Allocate(p, n).Some? && Allocate(p, n).value.first == p.base + k) <==>
            || FirstUseful(RunsFrom(p.free, p.start), n, false, k)
            || (AllUseless(RunsFrom(p.free, p.start), n, false) && FirstUseful(RunsFrom(p.free, 0), n, false, k))
    ensures Allocate(p, n).Some? && Allocate(p, n).value.first == p.base + k ==>
              Allocate(p, n).value.pool.start == k + n
  {
    SearchRefusesIff(p.free, n, p.start);
    SearchFindsIff(p.free, n, p.start, k);
    SearchFindsIff(p.free, n, 0, k);
  }

  /** A free block of `n` with one position of slack, or a single free position. */
  predicate RoomyAt(free: seq<bool>, lo: int, n: int) { AllFree(free, lo, if n == 1 then lo + 1 else lo + n + 1) }

  lemma {:induction false} UsefulIsEarly(
    free: seq<bool>,
    from: nat,
    runs: Runs,
    n: nat,
    lo: int,
    shadowed: bool,
    k: nat)
    requires n >= 1 && from <= |free| && AreFree(free, from, runs) && AreMaximal(free, from, runs)
    requires from <= lo && RoomyAt(free, lo, n) && (n == 1 ==> !shadowed) && FirstUseful(runs, n, shadowed, k)
    ensures k <= if n == 1 then lo else lo + 1
    decreases runs
  {
    assert free[lo];
    if n > 1 && runs.start + runs.len <= lo && (runs.len < n || (runs.len == n && shadowed)) {
      UsefulIsEarly(free, runs.start + runs.len, runs.rest, n, lo, !(shadowed && runs.len == 1), k);
    }
  }

  /** Compared with all other places: if from the resume position on there is room for `n` at `lo`,
      what is granted lies between the two (but for the one position of slack). */
  lemma GrantIsNext(p: Pool, n: int, lo: int)
    requires Valid(p) && n >= 1 && p.start <= lo && RoomyAt(p.free, lo, n)
    ensures Allocate(p, n).Some?
    ensures p.base + p.start <= Allocate(p, n).value.first <= p.base + if n == 1 then lo else lo + 1
  {
    RunsAreFree(p.free, p.start);
    SlackIsUseful(p.free, p.start, RunsFrom(p.free, p.start), n, lo, false);
    SearchRefusesIff(p.free, n, p.start);
    var k := Search(p.free, n, p.start).value;
    SearchFindsIff(p.free, n, p.start, k);
    UsefulIsEarly(p.free, p.start, RunsFrom(p.free, p.start), n, lo, false, k);
  }

  // ---------------------------------------------------------------------------------------
  // Giving ports back

  /** Giving a range back right after taking it restores the set of free ports if and only if
      the range is not the single port 0, which the code reads as "no ports". */
  lemma ReleaseUndoesAllocate(p: Pool, n: int)
    requires Valid(p) && Allocate(p, n).Some?
    ensures var Taken(p', first, last) := Allocate(p, n).value;
            (Release(p', first, last).Freed? && Release(p', first, last).pool.free == p.free)
            <==> !(first == last == 0)
  {
    AllocateTakesFree(p, n);
    var Taken(p', first, last) := Allocate(p, n).value;
    if !(first == last == 0) {
      assert Release(p', first, last).pool.free == p.free;
    }
  }
}
