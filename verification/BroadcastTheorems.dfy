/** What subscribers can rely on in every run. */
module BroadcastTheorems {
  import opened Broadcast

  ghost predicate Next(s: State, a: Action, s': State) { Enabled(s, a) && s' == Do(s, a) }

  ghost predicate StepAt(tr: seq<State>, acts: seq<Action>, i: nat)
    requires i < |acts| && |tr| == |acts| + 1
  {
    Next(tr[i], acts[i], tr[i + 1])
  }

  ghost predicate IsRun(tr: seq<State>, acts: seq<Action>) {
    |tr| == |acts| + 1 && tr[0] == EMPTY && forall i :: 0 <= i < |acts| ==> StepAt(tr, acts, i)
  }

  lemma {:induction false} InvHolds(tr: seq<State>, acts: seq<Action>, n: nat)
    requires IsRun(tr, acts) && n < |tr|
    ensures Inv(tr[n])
  {
    if n > 0 {
      InvHolds(tr, acts, n - 1);
      assert StepAt(tr, acts, n - 1);
      StepKeeps(tr[n - 1], acts[n - 1]);
    }
  }

  // ---------------------------------------------------------------------------------------
  // Fidelity

  /** What a subscriber has read followed by what is buffered for it is the broadcast history
      since it subscribed, with items left out only by being slow: nothing is left out exactly
      if nothing was missed. A subscriber that missed something is closed or about to be. */
  lemma Fidelity(tr: seq<State>, acts: seq<Action>, n: nat, i: Sub)
    requires IsRun(tr, acts) && n < |tr| && i < |tr[n].chans|
    ensures var s := tr[n];
            var c := s.chans[i];
            && c.joined <= Until(c, s.history) <= |s.history|
            && var since := s.history[c.joined..Until(c, s.history)];
               && Subsequence(c.read + c.buf, since)
               && (c.read + c.buf == since <==> c.missed == 0)
               && |c.read + c.buf| + c.missed == |since|
               && (c.missed > 0 ==> i !in s.subs || c.evicting > 0)
  {
    InvHolds(tr, acts, n);
    assert ChanFits(tr[n].chans[i], tr[n].history);
  }

  /** Hence a subscriber has received everything, in order, if and only if no eviction of it is
      pending. */
  lemma NothingMissed(tr: seq<State>, acts: seq<Action>, n: nat, i: Sub)
    requires IsRun(tr, acts) && n < |tr| && i < |tr[n].chans| && i in tr[n].subs
    ensures tr[n].chans[i].joined <= |tr[n].history|
    ensures var c := tr[n].chans[i]; c.read + c.buf == tr[n].history[c.joined..] <==> c.evicting == 0
  {
    InvHolds(tr, acts, n);
    Fidelity(tr, acts, n, i);
    assert ChanFits(tr[n].chans[i], tr[n].history);
    var s := tr[n];
    assert s.history[s.chans[i].joined..|s.history|] == s.history[s.chans[i].joined..];
  }

  // ---------------------------------------------------------------------------------------
  // Channel safety

  /** Channels are open exactly while subscribed and closed at most once; the goroutine that waits for
      the end of a subscriber's context is there as long; and at most one stream goroutine has not
      finished, namely exactly while the broadcaster counts as running. */
  lemma ChannelsAreSafe(tr: seq<State>, acts: seq<Action>, n: nat)
    requires IsRun(tr, acts) && n < |tr|
    ensures forall i :: i in tr[n].subs ==> i < |tr[n].chans| && tr[n].chans[i].open
    ensures forall i :: 0 <= i < |tr[n].chans| ==>
              && (tr[n].chans[i].open <==> i in tr[n].subs)
              && tr[n].chans[i].closes == (if tr[n].chans[i].open then 0 else 1)
              && (tr[n].chans[i].open ==> Enabled(tr[n], ContextDone(i)))
    ensures forall t, u :: 0 <= t < |tr[n].streams| && 0 <= u < |tr[n].streams|
              ==> tr[n].streams[t] == Ended || tr[n].streams[u] == Ended || t == u
    ensures tr[n].running <==> exists t :: 0 <= t < |tr[n].streams| && tr[n].streams[t] != Ended
  {
    InvHolds(tr, acts, n);
    forall i | 0 <= i < |tr[n].chans|
      ensures tr[n].chans[i].closes == (if tr[n].chans[i].open then 0 else 1)
      ensures tr[n].chans[i].open ==> tr[n].chans[i].watching
    {
      assert ChanFits(tr[n].chans[i], tr[n].history);
    }
  }

  lemma StepLeavesClosedAlone(s: State, a: Action, i: Sub)
    requires Enabled(s, a) && SubsFit(s.chans, s.subs) && i < |s.chans| && !s.chans[i].open
    ensures i < |Do(s, a).chans| && !Do(s, a).chans[i].open
    ensures Do(s, a).chans[i].read + Do(s, a).chans[i].buf == s.chans[i].read + s.chans[i].buf
  {
    if a.Consume? && a.sub == i {
      var c := s.chans[i];
      assert c.read + [c.buf[0]] + c.buf[1..] == c.read + c.buf;
    }
  }

  /** Nothing is ever sent on a closed channel: what it has delivered and still holds is fixed
      from then on, and it is never reopened. */
  lemma {:induction false} ClosedForGood(tr: seq<State>, acts: seq<Action>, m: nat, n: nat, i: Sub)
    requires IsRun(tr, acts) && m <= n < |tr| && i < |tr[m].chans| && !tr[m].chans[i].open
    ensures i < |tr[n].chans| && !tr[n].chans[i].open
    ensures tr[n].chans[i].read + tr[n].chans[i].buf == tr[m].chans[i].read + tr[m].chans[i].buf
  {
    if m < n {
      ClosedForGood(tr, acts, m, n - 1, i);
      InvHolds(tr, acts, n - 1);
      assert StepAt(tr, acts, n - 1);
      StepLeavesClosedAlone(tr[n - 1], acts[n - 1], i);
    }
  }

  // ---------------------------------------------------------------------------------------
  // When a subscriber sees a gap

  function Got(c: Chan): seq<Item> { c.read + c.buf }

  /** What was broadcast while the channel was subscribed. */
  function Since(c: Chan, history: seq<Item>): seq<Item> {
    if c.joined <= Until(c, history) <= |history| then history[c.joined..Until(c, history)] else []
  }

  /** The subscriber may lack items at the end, but none in between. */
  predicate NoGap(c: Chan, history: seq<Item>) { Got(c) <= Since(c, history) }

  /** Something is delivered to a subscriber with room again, though an eviction of it is pending,
      and it is not just what the subscriber missed first. */
  predicate OpensGap(s: State, a: Action, i: Sub)
    requires Enabled(s, a) && i < |s.chans|
  {
    var c := s.chans[i];
    && a.Deliver? && i in s.subs && c.evicting > 0 && |c.buf| < CAPACITY
    && |Got(c)| < |Since(c, s.history)| && s.streams[a.t].item != Since(c, s.history)[|Got(c)|]
  }

  lemma OfferGap(c: Chan, history: seq<Item>, item: Item)
    requires ChanFits(c, history) && c.open
    ensures NoGap(Offer(c, item), history + [item]) <==>
            NoGap(c, history) && (Slow(c) || c.evicting == 0 || item == Since(c, history)[|Got(c)|])
  {
    var got, since := Got(c), Since(c, history);
    assert Since(Offer(c, item), history + [item]) == since + [item];
    if Slow(c) {
      assert got <= since <==> got <= since + [item];
    } else {
      assert Got(Offer(c, item)) == got + [item];
      if got <= since && |got| < |since| { assert (since + [item])[|got|] == since[|got|]; }
      if got + [item] <= since + [item] { assert got == (since + [item])[..|got|] == since[..|got|]; }
    }
  }

  lemma DeliverGap(s: State, t: nat, i: Sub)
    requires Inv(s) && Enabled(s, Deliver(t)) && i < |s.chans|
    ensures i < |Do(s, Deliver(t)).chans|
    ensures var s' := Do(s, Deliver(t));
            NoGap(s'.chans[i], s'.history) <==> NoGap(s.chans[i], s.history) && !OpensGap(s, Deliver(t), i)
  {
    var c, item := s.chans[i], s.streams[t].item;
    assert ChanFits(c, s.history);
    if i in s.subs {
      OfferGap(c, s.history, item);
    } else {
      assert Since(c, s.history + [item]) == Since(c, s.history);
    }
  }

  lemma OthersOpenNoGap(s: State, a: Action, i: Sub)
    requires Inv(s) && Enabled(s, a) && !a.Deliver? && i < |s.chans|
    ensures i < |Do(s, a).chans| && Do(s, a).history == s.history
    ensures Got(Do(s, a).chans[i]) == Got(s.chans[i])
    ensures Since(Do(s, a).chans[i], s.history) == Since(s.chans[i], s.history)
  {
    var c := s.chans[i];
    assert ChanFits(c, s.history);
    if a.Consume? && a.sub == i { assert c.read + [c.buf[0]] + c.buf[1..] == c.read + c.buf; }
  }

  /** In every run, at every step: what a subscriber has is without a gap after the step if and only
      if it was so before and the step did not deliver past something missed. */
  lemma GapIff(tr: seq<State>, acts: seq<Action>, n: nat, i: Sub)
    requires IsRun(tr, acts) && n < |acts| && i < |tr[n].chans|
    ensures Enabled(tr[n], acts[n]) && i < |tr[n + 1].chans|
    ensures NoGap(tr[n + 1].chans[i], tr[n + 1].history) <==>
            NoGap(tr[n].chans[i], tr[n].history) && !OpensGap(tr[n], acts[n], i)
  {
    InvHolds(tr, acts, n);
    assert StepAt(tr, acts, n);
    if acts[n].Deliver? { DeliverGap(tr[n], acts[n].t, i); } else { OthersOpenNoGap(tr[n], acts[n], i); }
  }

  // ---------------------------------------------------------------------------------------
  // A subscriber can see a gap before it is closed

  lemma RunGrows(tr: seq<State>, acts: seq<Action>, a: Action) returns (tr': seq<State>)
    requires IsRun(tr, acts) && Enabled(tr[|tr| - 1], a)
    ensures tr' == tr + [Do(tr[|tr| - 1], a)] && IsRun(tr', acts + [a])
  {
    tr' := tr + [Do(tr[|tr| - 1], a)];
    var acts' := acts + [a];
    forall i | 0 <= i < |acts'| ensures StepAt(tr', acts', i) {
      if i < |acts| { assert StepAt(tr, acts, i); }
    }
  }

  ghost predicate OneSubscriber(s: State, c: Chan, history: seq<Item>) {
    s.subs == {0} && s.chans == [c] && c.open && s.streams == [Receiving] && s.history == history && c.joined == 0
  }

  lemma SendOne(tr0: seq<State>, acts0: seq<Action>, c: Chan, item: Item) returns (tr: seq<State>, acts: seq<Action>)
    requires IsRun(tr0, acts0) && OneSubscriber(tr0[|tr0| - 1], c, tr0[|tr0| - 1].history)
    ensures IsRun(tr, acts) && OneSubscriber(tr[|tr| - 1], Offer(c, item), tr0[|tr0| - 1].history + [item])
  {
    tr := RunGrows(tr0, acts0, Receive(0, item));
    acts := acts0 + [Receive(0, item)];
    tr := RunGrows(tr, acts, Deliver(0));
    acts := acts + [Deliver(0)];
    assert tr[|tr| - 1].chans == [Offer(c, item)];
  }

  function UpTo(n: nat): seq<Item> { seq(n, i => i) }

  lemma {:induction false} SendMany(n: nat) returns (tr: seq<State>, acts: seq<Action>)
    requires n <= CAPACITY
    ensures IsRun(tr, acts) && OneSubscriber(tr[|tr| - 1], NewChan(0).(buf := UpTo(n)), UpTo(n))
  {
    if n == 0 {
      tr := RunGrows([EMPTY], [], Subscribe(true));
      acts := [Subscribe(true)];
      assert tr[1].chans == [NewChan(0).(buf := UpTo(0))];
    } else {
      tr, acts := SendMany(n - 1);
      tr, acts := SendOne(tr, acts, NewChan(0).(buf := UpTo(n - 1)), n - 1);
      assert UpTo(n) == UpTo(n - 1) + [n - 1];
    }
  }

  /** With 100 items buffered the next is missed; if the subscriber reads one before it is
      evicted, the item after that is delivered: a gap in front of an open channel's last item. */
  lemma GapBeforeEviction() returns (tr: seq<State>, acts: seq<Action>)
    ensures IsRun(tr, acts)
    ensures var s := tr[|tr| - 1];
            && s.subs == {0} && |s.chans| == 1 && s.chans[0].open && |s.history| == 102
            && s.chans[0].read + s.chans[0].buf == s.history[..100] + s.history[101..]
            && !NoGap(s.chans[0], s.history)
  {
    tr, acts := SendMany(CAPACITY);
    var full := NewChan(0).(buf := UpTo(CAPACITY));
    tr, acts := SendOne(tr, acts, full, 100);
    tr := RunGrows(tr, acts, Consume(0));
    acts := acts + [Consume(0)];
    assert [] + [UpTo(CAPACITY)[0]] == [0];
    var read := NewChan(0).(buf := UpTo(CAPACITY)[1..], read := [0], missed := 1, evicting := 1);
    assert tr[|tr| - 1].chans == [read];
    tr, acts := SendOne(tr, acts, read, 101);
    var c := Offer(read, 101);
    assert c.read + c.buf == UpTo(CAPACITY) + [101];
    var history := tr[|tr| - 1].history;
    assert history == UpTo(CAPACITY) + [100] + [101];
    assert Since(c, history) == history && Got(c)[100] == 101 && history[100] == 100;
  }
}
