/** The broadcaster as the object that carries out the actions of `Broadcast`. */
module Broadcaster {
  import opened Wrappers
  import opened Broadcast

  /** `running` and `subs` are the fields of the original; the channels, the goroutines waiting
      and the history of items broadcast are kept here so that contracts can refer to them. */
  class Broadcaster {
    var running: bool
    var subs: set<Sub>
    var chans: seq<Chan>
    var streams: seq<StreamPc>
    var history: seq<Item>

    ghost function View(): State
      reads this
    {
      State(running, subs, chans, streams, history)
    }

    ghost predicate Valid()
      reads this
    {
      Inv(View())
    }

    constructor ()
      ensures View() == EMPTY && Valid()
    {
      running, subs, chans, streams, history := false, {}, [], [], [];
    }

    /** Subscribes a new channel, first starting a stream if none is running. */
    method Subscribe(connected: bool) returns (r: Result<Sub>)
      requires Valid()
      modifies this
      ensures Valid() && View() == Do(old(View()), Action.Subscribe(connected))
      ensures r.Err? <==> !old(running) && !connected
      ensures r.Ok? ==> r.value !in old(subs) && subs == old(subs) + {r.value} && running
    {
      StepKeeps(View(), Action.Subscribe(connected));
      if !running {
        if !connected {
          return Err;
        }
        streams := streams + [Receiving];
        running := true;
      }
      var sub := |chans|;
      chans := chans + [NewChan(|history|)];
      subs := subs + {sub};
      return Ok(sub);
    }

    /** Closes and drops a channel, if it is still subscribed; called by the goroutine waiting
        for the subscriber's context, and by one spawned to evict it. */
    method Unsubscribe(sub: Sub, evict: bool)
      requires Valid() && Enabled(View(), if evict then Evict(sub) else ContextDone(sub))
      modifies this
      ensures Valid() && View() == Do(old(View()), if evict then Evict(sub) else ContextDone(sub))
      ensures sub !in subs && subs == old(subs) - {sub}
    {
      StepKeeps(View(), if evict then Evict(sub) else ContextDone(sub));
      if evict {
        chans := chans[sub := chans[sub].(evicting := chans[sub].evicting - 1)];
      } else {
        chans := chans[sub := chans[sub].(watching := false)];
      }
      if sub in subs {
        chans := chans[sub := Close(chans[sub], |history|)];
        subs := subs - {sub};
      }
    }

    /** Offers the item a stream holds to every subscriber, in whatever order the map yields. */
    method DeliverItem(t: nat)
      requires Valid() && Enabled(View(), Deliver(t))
      modifies this
      ensures Valid() && View() == Do(old(View()), Deliver(t))
    {
      ghost var s' := Do(View(), Deliver(t));
      StepKeeps(View(), Deliver(t));
      var item := streams[t].item;
      chans := OfferToEach(chans, subs, item);
      history := history + [item];
      streams := streams[t := Receiving];
      assert View() == s';
    }

    /** The last critical section of a stream whose input was closed. */
    method FinishStream(t: nat)
      requires Valid() && Enabled(View(), Finish(t))
      modifies this
      ensures Valid() && View() == Do(old(View()), Finish(t))
      ensures subs == {} && !running
    {
      StepKeeps(View(), Finish(t));
      chans := CloseEach(chans, subs, |history|);
      subs := {};
      running := false;
      streams := streams[t := Ended];
    }
  }

  /** The loop over the subscribers: buffer the item, or spawn an eviction. */
  method OfferToEach(chans: seq<Chan>, subs: set<Sub>, item: Item) returns (chans': seq<Chan>)
    requires forall i :: i in subs ==> i < |chans|
    ensures chans' == OfferAll(chans, subs, item)
  {
    chans' := chans;
    var todo := subs;
    while todo != {}
      invariant todo <= subs && |chans'| == |chans|
      invariant forall i :: 0 <= i < |chans| ==>
                  chans'[i] == if i in subs - todo then Offer(chans[i], item) else chans[i]
      decreases |todo|
    {
      var sub :| sub in todo;
      var c := chans'[sub];
      if |c.buf| < CAPACITY {
        c := c.(buf := c.buf + [item]);
      } else {
        c := c.(missed := c.missed + 1, evicting := c.evicting + 1);
      }
      chans' := chans'[sub := c];
      todo := todo - {sub};
    }
  }

  method CloseEach(chans: seq<Chan>, subs: set<Sub>, at: nat) returns (chans': seq<Chan>)
    requires forall i :: i in subs ==> i < |chans|
    ensures chans' == CloseAll(chans, subs, at)
  {
    chans' := chans;
    var todo := subs;
    while todo != {}
      invariant todo <= subs && |chans'| == |chans|
      invariant forall i :: 0 <= i < |chans| ==> chans'[i] == if i in subs - todo then Close(chans[i], at) else chans[i]
      decreases |todo|
    {
      var sub :| sub in todo;
      chans' := chans'[sub := Close(chans'[sub], at)];
      todo := todo - {sub};
    }
  }
}
