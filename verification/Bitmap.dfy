/** The port bitmap as the object the process manager holds. */
module Bitmap {
  import opened Wrappers
  import opened PortRange
  import opened PortPool

  /** The fields of the bitmap. Its set of free positions, a compressed bitmap in the original,
      is a sequence of flags; reading its iterator is `NextFree` from the iterator's place. */
  class Bitmap {
    const base: int
    const size: int
    var start: int
    var data: seq<bool>

    ghost function View(): Pool
      reads this
    {
      Pool(base, size, start, data)
    }

    /** The size is computed in 32 bits. */
    constructor (first: int, last: int)
      requires Fits32(first) && Fits32(last) && first <= last
      ensures NewPool(first, last) == Ok(View())
    {
      var size := Int32(last - first + 1);
      base, this.size, start := first, size, 0;
      data := if size > 0 then Fill(size, true) else [];
    }

    ghost predicate Usable()
      reads this
    {
      Valid(View()) || Overflown(View())
    }

    /** The scan for `count` adjacent free positions. */
    method FindAt(count: int, iStart: int) returns (r: Option<(int, int)>)
      requires Usable() && count >= 1 && (Valid(View()) ==> 0 <= iStart <= size)
      ensures Valid(View()) ==> r == Positions(Search(data, count, iStart), count)
      ensures Overflown(View()) ==> r == BlindFind(View(), count, iStart)
    {
      // the iterator, moved to iStart; on an empty bitmap it stays at the end
      var i := if 0 <= iStart <= |data| then iStart else |data|;
      var bStart := iStart;
      while bStart <= size
        invariant 0 <= i <= |data|
        invariant Overflown(View()) ==> bStart == iStart
        invariant Valid(View()) ==> 0 <= bStart <= size
        invariant Valid(View()) ==> FirstFit(RunsFrom(data, i), count) == Search(data, count, iStart)
        decreases |data| - i
      {
        var remains;
        bStart, i, remains := ReadRun(data, count, i, bStart);
        if remains == 0 {
          break;
        }
        if NextFree(data, i) == |data| {
          return None;
        }
      }
      var bEnd := Int32(bStart + count - 1);
      r := Some((bStart, bEnd));
    }

    /** Both scans: from where the last one stopped, so that ports are not reused at once, then
        from the bottom. */
    method FindRange(count: int) returns (r: Option<(int, int)>)
      requires Usable() && count >= 1
      ensures Valid(View()) ==> r == Positions(Locate(View(), count), count)
      ensures Overflown(View()) ==> r == BlindLocate(View(), count)
    {
      r := FindAt(count, start);
      if r.None? {
        r := FindAt(count, 0);
      }
    }

    /** A bitmap that has overflown grants without looking. */
    method AllocateRange(count: int) returns (r: Result<(int, int)>)
      requires Usable()
      modifies this
      ensures Valid(old(View())) ==> Valid(View()) && Granted(Allocate(old(View()), count), r)
      ensures Overflown(old(View())) ==> Overflown(View()) && Granted(BlindAllocate(old(View()), count), r)
      ensures r.Err? ==> View() == old(View())
    {
      if count <= 0 {
        return Err;
      }
      var found := FindRange(count);
      if found.None? {
        return Err;
      }
      var rStart, rEnd := found.value.0, found.value.1;
      RemoveRange(rStart, rEnd);
      r := Ok((Int32(base + rStart), Int32(base + rEnd)));
    }

    /** The answer is that of the pool, and this is now the pool it leaves. */
    ghost predicate Granted(t: Option<Taken>, r: Result<(int, int)>)
      reads this
    {
      t == match r case Err => None case Ok(range) => Some(Taken(View(), range.0, range.1))
    }

    /** Takes the positions, of which an empty bitmap has none, and lets the next scan start behind
        them. */
    method RemoveRange(rStart: int, rEnd: int)
      requires Valid(View()) ==> 0 <= rStart <= rEnd < size
      requires Usable()
      modifies this
      ensures Valid(old(View())) ==>
                Taken(View(), base + rStart, base + rEnd) == Take(old(View()), rEnd - rStart + 1, rStart)
      ensures Overflown(old(View())) ==> View() == old(View()).(start := Int32(rEnd + 1))
    {
      if 0 <= rStart <= rEnd < |data| {
        data := SetRange(data, rStart, rEnd + 1, false);
      }
      start := Int32(rEnd + 1);
    }

    /** `None` is a run-time panic. */
    method ReleaseRange(first: int, last: int) returns (r: Option<bool>)
      requires Usable() && Fits32(first) && Fits32(last)
      modifies this
      ensures Valid(old(View())) ==> Valid(View())
      ensures match ReleaseIn32Bits(old(View()), first, last)
              case None => r.None? && View() == old(View())
              case Some(Freed(pool)) => r == Some(true) && View() == pool
              case Some(Nothing) => r == Some(true) && View() == old(View())
              case Some(Rejected) => r == Some(false) && View() == old(View())
    {
      if last < first {
        return Some(false);
      }
      if first == last && last == 0 {
        return Some(true);
      }
      var bStart := Int32(first - base);
      var bEnd := Int32(last - base);
      if bStart < 0 || bEnd >= size {
        return Some(false);
      }
      r := AddRange(bStart, bEnd);
    }

    /** The library's addition of a range, whose end has become unsigned: a negative end is
        beyond all positions, unless it is -1, which makes the range empty. */
    method AddRange(bStart: int, bEnd: int) returns (r: Option<bool>)
      requires 0 <= bStart && bEnd < size && (bEnd < 0 || size == |data|)
      modifies this
      ensures r == (if bEnd < -1 then None else Some(true)) && start == old(start)
      ensures data == if bStart <= bEnd then SetRange(old(data), bStart, bEnd + 1, true) else old(data)
    {
      if bEnd < -1 {
        return None;
      }
      if bStart <= bEnd {
        data := SetRange(data, bStart, bEnd + 1, true);
      }
      r := Some(true);
    }
  }

  /** A new bitmap, or an error if the bounds are reversed. */
  method NewBitmap(first: int, last: int) returns (r: Result<Bitmap>)
    requires Fits32(first) && Fits32(last)
    ensures match NewPool(first, last)
            case Err => r.Err?
            case Ok(pool) => r.Ok? && fresh(r.value) && r.value.View() == pool && r.value.Usable()
  {
    if last < first {
      return Err;
    }
    NewPoolSoundIff(first, last);
    var b := new Bitmap(first, last);
    r := Ok(b);
  }

  /** The first and last of `n` positions found at `k`. */
  function Positions(k: Option<nat>, n: int): Option<(int, int)> {
    match k
    case None => None
    case Some(i) => Some((i, i + n - 1))
  }

  /** The inner loop of the scan: reads adjacent free positions with the iterator at `at` until
      `count` are found, a gap is met (whose far end is then consumed) or none are left. */
  method ReadRun(free: seq<bool>, count: int, at: nat, bStart0: int) returns (bStart: int, i: nat, remains: int)
    requires count >= 1 && at <= |free|
    ensures at <= i <= |free| && (bStart == bStart0 || 0 <= bStart <= |free|)
    ensures remains == 0 ==> FirstFit(RunsFrom(free, at), count) == Some(bStart)
    ensures remains != 0 && NextFree(free, i) == |free| ==> FirstFit(RunsFrom(free, at), count).None?
    ensures remains != 0 && NextFree(free, i) < |free| ==>
              at < i && FirstFit(RunsFrom(free, i), count) == FirstFit(RunsFrom(free, at), count)
  {
    bStart, i, remains := bStart0, at, count;
    var last: int := -1;
    while NextFree(free, i) < |free| && remains > 0
      invariant at <= i <= |free| && 0 <= remains <= count
      invariant last < 0 ==> i == at && remains == count && bStart == bStart0
      invariant last >= 0 ==> at < i == last + 1 && Scanned(free, count, at, bStart, last, remains)
      decreases remains
    {
      if last < 0 {
        last := NextFree(free, i);
        i := last + 1;
        bStart := last;
        remains := remains - 1;
        continue;
      }
      var next := NextFree(free, i);
      i := next + 1;
      if next - last > 1 {
        GapEndsRun(free, count, at, bStart, last, next, remains);
        return;
      }
      last := next;
      remains := remains - 1;
    }
    if remains == 0 {
      EnoughFits(free, count, at, bStart);
    } else {
      RunOutFails(free, count, at, bStart, last, i, remains);
    }
  }

  /** The pass that began at `at` has read the free positions `bStart..last`, all adjacent. */
  ghost predicate Scanned(free: seq<bool>, n: int, at: nat, bStart: int, last: int, remains: int) {
    && at <= |free|
    && bStart == NextFree(free, at) <= last < |free|
    && AllFree(free, bStart, last + 1)
    && last - bStart + 1 == n - remains
  }

  /** The iterator has met a gap: the pass goes on one position behind it. */
  lemma GapEndsRun(free: seq<bool>, n: int, at: nat, first: int, last: int, next: int, remains: int)
    requires remains > 0 && Scanned(free, n, at, first, last, remains)
    requires next == NextFree(free, last + 1) && last + 1 < next < |free|
    ensures FirstFit(RunsFrom(free, next + 1), n) == FirstFit(RunsFrom(free, at), n)
    ensures NextFree(free, next + 1) == |free| ==> FirstFit(RunsFrom(free, at), n).None?
  {
    RunEndSame(free, first, last + 1);
    assert RunEnd(free, first) == last + 1;
    NothingFreeBefore(free, last + 1);
    NextFreeSame(free, last + 1, next);
    assert RunsFrom(free, last + 1) == RunsFrom(free, next);
    ConsumeDropsHead(free, next);
    assert RunsFrom(free, at).rest == RunsFrom(free, last + 1);
  }

  lemma EnoughFits(free: seq<bool>, n: int, at: nat, first: int)
    requires n >= 1 && Scanned(free, n, at, first, first + n - 1, 0)
    ensures FirstFit(RunsFrom(free, at), n) == Some(first)
  {
    RunEndSame(free, first, first + n);
  }

  /** The iterator ran out while the run at `first` was still too short. */
  lemma RunOutFails(free: seq<bool>, n: int, at: nat, first: int, last: int, i: nat, remains: int)
    requires n >= 1 && at <= i <= |free| && NextFree(free, i) == |free|
    requires i == at || (i == last + 1 && remains > 0 && Scanned(free, n, at, first, last, remains))
    ensures FirstFit(RunsFrom(free, at), n).None?
  {
    if i > at {
      RunEndSame(free, first, i);
      assert RunEnd(free, i) == i;
      assert RunsFrom(free, i) == Nil;
    }
  }
}
