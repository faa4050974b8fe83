/** Fan-out of updates to subscribers with bounded buffers and asynchronous eviction of slow ones.

    The critical sections under the broadcaster's mutex, the receive on the input and the reads
    of the subscribers are the actions; they interleave freely. */
module Broadcast {

  const CAPACITY: nat := 100

  type Item = int
  type Sub = nat

  /** A subscriber's channel. `joined` and `left` are the lengths of the broadcast history when
      it was created and closed, `missed` counts items it was too slow for, `closes` how often it
      was closed. `watching` and `evicting` are the goroutines waiting to unsubscribe it: one until
      its context ends, and one for every item it was too slow for. */
  datatype Chan = Chan(open: bool, buf: seq<Item>, read: seq<Item>, joined: nat, left: nat,
                       missed: nat, closes: nat, watching: bool, evicting: nat)

  /** A goroutine moving items from the input to the subscribers. */
  datatype StreamPc = Receiving | Holding(item: Item) | InputClosed | Ended

  datatype State = State(
    running: bool,
    subs: set<Sub>,
    chans: seq<Chan>,
    streams: seq<StreamPc>,
    history: seq<Item>)

  const EMPTY: State := State(false, {}, [], [], [])

  function NewChan(joined: nat): Chan { Chan(true, [], [], joined, 0, 0, 0, true, 0) }

  datatype Action =
    | Subscribe(connected: bool)
    | ContextDone(sub: Sub)
    | Evict(sub: Sub)
    | Consume(sub: Sub)
    | Receive(t: nat, item: Item)
    | InputCloses(t: nat)
    | Deliver(t: nat)
    | Finish(t: nat)

  predicate Enabled(s: State, a: Action) {
    match a
    case Subscribe(_) => true
    case ContextDone(sub) => sub < |s.chans| && s.chans[sub].watching
    case Evict(sub) => sub < |s.chans| && s.chans[sub].evicting > 0
    case Consume(sub) => sub < |s.chans| && s.chans[sub].buf != []
    case Receive(t, _) => t < |s.streams| && s.streams[t] == Receiving
    case InputCloses(t) => t < |s.streams| && s.streams[t] == Receiving
    case Deliver(t) => t < |s.streams| && s.streams[t].Holding?
    case Finish(t) => t < |s.streams| && s.streams[t] == InputClosed
  }

  predicate Slow(c: Chan) { |c.buf| >= CAPACITY }

  /** A send that does not block: the item is buffered, or missed and an eviction spawned. */
  function Offer(c: Chan, item: Item): Chan {
    if Slow(c) then c.(missed := c.missed + 1, evicting := c.evicting + 1) else c.(buf := c.buf + [item])
  }

  function Close(c: Chan, at: nat): Chan { c.(open := false, closes := c.closes + 1, left := at) }

  function OfferAll(chans: seq<Chan>, subs: set<Sub>, item: Item): (r: seq<Chan>)
    ensures |r| == |chans|
    ensures forall i :: 0 <= i < |chans| ==> r[i] == if i in subs then Offer(chans[i], item) else chans[i]
  {
    seq(|chans|, i requires 0 <= i < |chans| => if i in subs then Offer(chans[i], item) else chans[i])
  }

  function CloseAll(chans: seq<Chan>, subs: set<Sub>, at: nat): (r: seq<Chan>)
    ensures |r| == |chans|
    ensures forall i :: 0 <= i < |chans| ==> r[i] == if i in subs then Close(chans[i], at) else chans[i]
  {
    seq(|chans|, i requires 0 <= i < |chans| => if i in subs then Close(chans[i], at) else chans[i])
  }

  /** The goroutine behind `c` unsubscribes it, having been one of those waiting. */
  function Unsub(s: State, sub: Sub, c: Chan): (s': State)
    requires sub < |s.chans|
  {
    if sub in s.subs
    then s.(chans := s.chans[sub := Close(c, |s.history|)], subs := s.subs - {sub})
    else s.(chans := s.chans[sub := c])
  }

  function DoSubscribe(s: State, connected: bool): (s': State) {
    if !s.running && !connected then s
    else
      var s1 := if s.running then s else s.(running := true, streams := s.streams + [Receiving]);
      var sub := |s.chans|;
      s1.(chans := s.chans + [NewChan(|s.history|)], subs := s.subs + {sub})
  }

  function DoDeliver(s: State, t: nat): (s': State)
    requires Enabled(s, Deliver(t))
  {
    var item := s.streams[t].item;
    s.(chans := OfferAll(s.chans, s.subs, item),
       history := s.history + [item],
       streams := s.streams[t := Receiving])
  }

  function DoFinish(s: State, t: nat): (s': State)
    requires Enabled(s, Finish(t))
  {
    s.(chans := CloseAll(s.chans, s.subs, |s.history|), subs := {}, running := false, streams := s.streams[t := Ended])
  }

  function Do(s: State, a: Action): (s': State)
    requires Enabled(s, a)
  {
    match a
    case Subscribe(connected) => DoSubscribe(s, connected)
    case ContextDone(sub) => Unsub(s, sub, s.chans[sub].(watching := false))
    case Evict(sub) => Unsub(s, sub, s.chans[sub].(evicting := s.chans[sub].evicting - 1))
    case Consume(sub) =>
      var c := s.chans[sub];
      s.(chans := s.chans[sub := c.(buf := c.buf[1..], read := c.read + [c.buf[0]])])
    case Receive(t, item) => s.(streams := s.streams[t := Holding(item)])
    case InputCloses(t) => s.(streams := s.streams[t := InputClosed])
    case Deliver(t) => DoDeliver(s, t)
    case Finish(t) => DoFinish(s, t)
  }

  // ---------------------------------------------------------------------------------------
  // The invariant

  /** `a` is `b` with some items left out. */
  ghost predicate Subsequence(a: seq<Item>, b: seq<Item>)
    decreases |b|
  {
    a == [] ||
    (b != [] &&
     ((a[|a| - 1] == b[|b| - 1] && Subsequence(a[..|a| - 1], b[..|b| - 1])) || Subsequence(a, b[..|b| - 1])))
  }

  /** The end of a subscriber's stretch of the history. */
  function Until(c: Chan, history: seq<Item>): nat { if c.open then |history| else c.left }

  ghost predicate ChanFits(c: Chan, history: seq<Item>) {
    var until := Until(c, history);
    && c.joined <= until <= |history|
    && |c.buf| <= CAPACITY
    && c.closes == (if c.open then 0 else 1)
    && |c.read + c.buf| + c.missed == until - c.joined
    && Subsequence(c.read + c.buf, history[c.joined..until])
    && (c.missed == 0 ==> c.read + c.buf == history[c.joined..until])
    && (c.open ==> c.evicting == c.missed && c.watching)
  }

  ghost predicate ChansFit(chans: seq<Chan>, history: seq<Item>) {
    forall i :: 0 <= i < |chans| ==> ChanFits(chans[i], history)
  }

  /** Open channels are exactly the subscribers. */
  ghost predicate SubsFit(chans: seq<Chan>, subs: set<Sub>) {
    && (forall i :: i in subs ==> i < |chans|)
    && (forall i :: 0 <= i < |chans| ==> (chans[i].open <==> i in subs))
  }

  ghost predicate StreamsFit(running: bool, streams: seq<StreamPc>) {
    && (forall t :: 0 <= t < |streams| - 1 ==> streams[t] == Ended)
    && (running <==> |streams| > 0 && streams[|streams| - 1] != Ended)
  }

  ghost predicate Inv(s: State) {
    ChansFit(s.chans, s.history) && SubsFit(s.chans, s.subs) && StreamsFit(s.running, s.streams)
  }

  lemma OfferFits(c: Chan, history: seq<Item>, item: Item)
    requires ChanFits(c, history) && c.open
    ensures ChanFits(Offer(c, item), history + [item])
  {
    var c', h' := Offer(c, item), history + [item];
    var got, want := c.read + c.buf, history[c.joined..];
    assert history[c.joined..|history|] == want && h'[c.joined..|h'|] == want + [item];
    assert (want + [item])[..|want|] == want;
    if !Slow(c) {
      assert c'.read + c'.buf == got + [item];
      assert (got + [item])[..|got|] == got;
    }
  }

  lemma ClosedFits(c: Chan, history: seq<Item>, item: Item)
    requires ChanFits(c, history) && !c.open
    ensures ChanFits(c, history + [item])
  {
    assert (history + [item])[c.joined..c.left] == history[c.joined..c.left];
  }

  lemma DeliverKeeps(s: State, t: nat)
    requires Inv(s) && Enabled(s, Deliver(t))
    ensures Inv(DoDeliver(s, t))
  {
    OfferAllFits(s.chans, s.subs, s.history, s.streams[t].item);
  }

  lemma OfferAllFits(chans: seq<Chan>, subs: set<Sub>, history: seq<Item>, item: Item)
    requires ChansFit(chans, history) && SubsFit(chans, subs)
    ensures ChansFit(OfferAll(chans, subs, item), history + [item]) && SubsFit(OfferAll(chans, subs, item), subs)
  {
    var chans' := OfferAll(chans, subs, item);
    forall i | 0 <= i < |chans'| ensures ChanFits(chans'[i], history + [item]) {
      assert ChanFits(chans[i], history);
      if i in subs { OfferFits(chans[i], history, item); } else { ClosedFits(chans[i], history, item); }
    }
  }

  lemma CloseFits(c: Chan, c': Chan, history: seq<Item>)
    requires ChanFits(c, history) && c' == c.(watching := c'.watching, evicting := c'.evicting)
    ensures c.open ==> ChanFits(Close(c', |history|), history)
    ensures !c.open ==> ChanFits(c', history)
  {
  }

  lemma UnsubKeeps(s: State, sub: Sub, c': Chan)
    requires Inv(s) && sub < |s.chans|
    requires c' == s.chans[sub].(watching := c'.watching, evicting := c'.evicting)
    ensures Inv(Unsub(s, sub, c'))
  {
    CloseFits(s.chans[sub], c', s.history);
  }

  lemma FinishKeeps(s: State, t: nat)
    requires Inv(s) && Enabled(s, Finish(t))
    ensures Inv(DoFinish(s, t))
  {
    var chans' := CloseAll(s.chans, s.subs, |s.history|);
    forall i | 0 <= i < |chans'| ensures ChanFits(chans'[i], s.history) {
      if i in s.subs { CloseFits(s.chans[i], s.chans[i], s.history); }
    }
  }

  lemma ConsumeKeeps(s: State, sub: Sub)
    requires Inv(s) && Enabled(s, Consume(sub))
    ensures Inv(Do(s, Consume(sub)))
  {
    var c := s.chans[sub];
    var c' := c.(buf := c.buf[1..], read := c.read + [c.buf[0]]);
    assert c'.read + c'.buf == c.read + c.buf;
    assert ChanFits(c', s.history);
  }

  lemma SubscribeKeeps(s: State, connected: bool)
    requires Inv(s)
    ensures Inv(DoSubscribe(s, connected))
  {
    var s' := DoSubscribe(s, connected);
    if s' != s {
      forall i | 0 <= i < |s'.chans| ensures ChanFits(s'.chans[i], s.history) {
        if i < |s.chans| { assert ChanFits(s.chans[i], s.history); }
      }
    }
  }

  lemma StepKeeps(s: State, a: Action)
    requires Inv(s) && Enabled(s, a)
    ensures Inv(Do(s, a))
  {
    match a
    case Subscribe(connected) => SubscribeKeeps(s, connected);
    case ContextDone(sub) => UnsubKeeps(s, sub, s.chans[sub].(watching := false));
    case Evict(sub) => UnsubKeeps(s, sub, s.chans[sub].(evicting := s.chans[sub].evicting - 1));
    case Consume(sub) => ConsumeKeeps(s, sub);
    case Deliver(t) => DeliverKeeps(s, t);
    case Finish(t) => FinishKeeps(s, t);
    case _ =>
  }
}
