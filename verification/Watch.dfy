/** From the registry to its watchers: what the monitor broadcasts is the input of the stream. The
    item `k` stands for the `k`-th response the monitor sent. The channel between the two is never
    closed, so the stream never finishes. */
module Watch {
  import opened Wrappers
  import opened PortPool
  import R = Registry
  import RT = RegistryTheorems
  import RE = RegistryEvents
  import B = Broadcast
  import BT = BroadcastTheorems
  import RegistryRuns

  datatype State = State(reg: R.State, bc: B.State)

  datatype Action =
    | OfRegistry(r: R.Action)
    | Publish(t: nat)            // the monitor's send meets the receive of stream `t`
    | OfBroadcaster(b: B.Action)

  predicate Enabled(s: State, a: Action) {
    match a
    case OfRegistry(r) => R.Enabled(s.reg, r) && !r.Broadcast?
    case Publish(t) => R.Enabled(s.reg, R.Broadcast) && B.Enabled(s.bc, B.Receive(t, |s.reg.broadcasts|))
    case OfBroadcaster(b) => B.Enabled(s.bc, b) && !b.Receive? && !b.InputCloses?
  }

  function Do(s: State, a: Action): (s': State)
    requires Valid(s.reg.pool) && Enabled(s, a)
  {
    match a
    case OfRegistry(r) => s.(reg := R.Do(s.reg, r))
    case Publish(t) => State(R.Do(s.reg, R.Broadcast), B.Do(s.bc, B.Receive(t, |s.reg.broadcasts|)))
    case OfBroadcaster(b) => s.(bc := B.Do(s.bc, b))
  }

  ghost predicate Next(s: State, a: Action, s': State) {
    Valid(s.reg.pool) && Enabled(s, a) && s' == Do(s, a)
  }

  ghost predicate StepAt(tr: seq<State>, acts: seq<Action>, i: nat)
    requires i < |acts| && |tr| == |acts| + 1
  {
    Next(tr[i], acts[i], tr[i + 1])
  }

  ghost predicate IsRun(tr: seq<State>, acts: seq<Action>) {
    && |tr| == |acts| + 1 && R.Init(tr[0].reg) && tr[0].bc == B.EMPTY
    && forall i :: 0 <= i < |acts| ==> StepAt(tr, acts, i)
  }

  // ---------------------------------------------------------------------------------------
  // The whole refines its parts

  function RegistryStep(a: Action): Option<R.Action> {
    match a
    case OfRegistry(r) => Some(r)
    case Publish(_) => Some(R.Broadcast)
    case OfBroadcaster(_) => None
  }

  function BroadcasterStep(s: State, a: Action): Option<B.Action> {
    match a
    case OfRegistry(_) => None
    case Publish(t) => Some(B.Receive(t, |s.reg.broadcasts|))
    case OfBroadcaster(b) => Some(b)
  }

  lemma {:induction false} RegistryPart(tr: seq<State>, acts: seq<Action>, n: nat)
    returns (rtr: seq<R.State>, racts: seq<R.Action>)
    requires IsRun(tr, acts) && n < |tr|
    ensures RT.IsRun(rtr, racts) && rtr[|rtr| - 1] == tr[n].reg
  {
    if n == 0 {
      rtr, racts := [tr[0].reg], [];
    } else {
      rtr, racts := RegistryPart(tr, acts, n - 1);
      assert StepAt(tr, acts, n - 1);
      var r := RegistryStep(acts[n - 1]);
      if r.Some? { rtr, racts := RegistryRuns.Extend(rtr, racts, r.value); }
    }
  }

  lemma {:induction false} BroadcasterPart(tr: seq<State>, acts: seq<Action>, n: nat)
    returns (btr: seq<B.State>, bacts: seq<B.Action>)
    requires IsRun(tr, acts) && n < |tr|
    ensures BT.IsRun(btr, bacts) && btr[|btr| - 1] == tr[n].bc
  {
    if n == 0 {
      btr, bacts := [B.EMPTY], [];
    } else {
      btr, bacts := BroadcasterPart(tr, acts, n - 1);
      assert StepAt(tr, acts, n - 1);
      var b := BroadcasterStep(tr[n - 1], acts[n - 1]);
      if b.Some? {
        btr := BT.RunGrows(btr, bacts, b.value);
        bacts := bacts + [b.value];
      }
    }
  }

  // ---------------------------------------------------------------------------------------
  // Nothing is lost on the way to the subscribers

  /** The item the stream has received and not yet delivered. */
  function InHand(streams: seq<B.StreamPc>): seq<B.Item> {
    if |streams| == 1 && streams[0].Holding? then [streams[0].item] else []
  }

  /** What was delivered and what the stream holds are all responses sent, in order. */
  predicate InOrder(sent: nat, bc: B.State) {
    && (bc.running <==> |bc.streams| == 1) && |bc.streams| <= 1
    && (|bc.streams| == 1 ==> bc.streams[0] == B.Receiving || bc.streams[0].Holding?)
    && bc.history + InHand(bc.streams) == BT.UpTo(sent)
  }

  lemma BroadcasterKeepsOrder(sent: nat, bc: B.State, b: B.Action)
    requires InOrder(sent, bc) && B.Enabled(bc, b) && !b.Receive? && !b.InputCloses?
    ensures InOrder(sent, B.Do(bc, b))
  {
  }

  lemma PublishKeepsOrder(sent: nat, bc: B.State, t: nat)
    requires InOrder(sent, bc) && B.Enabled(bc, B.Receive(t, sent))
    ensures InOrder(sent + 1, B.Do(bc, B.Receive(t, sent)))
  {
    assert BT.UpTo(sent + 1) == BT.UpTo(sent) + [sent];
  }

  lemma {:induction false} OrderHolds(tr: seq<State>, acts: seq<Action>, n: nat)
    requires IsRun(tr, acts) && n < |tr|
    ensures InOrder(|tr[n].reg.broadcasts|, tr[n].bc)
  {
    if n > 0 {
      OrderHolds(tr, acts, n - 1);
      assert StepAt(tr, acts, n - 1);
      var s, a := tr[n - 1], acts[n - 1];
      match a
      case OfRegistry(r) => RE.OnlyBroadcastBroadcasts(s.reg, r);
      case Publish(t) => PublishKeepsOrder(|s.reg.broadcasts|, s.bc, t);
      case OfBroadcaster(b) => BroadcasterKeepsOrder(|s.reg.broadcasts|, s.bc, b);
    }
  }

  /** A subscriber that joined before response `slot` was delivered and is not marked for eviction
      has it, at the place where it belongs. */
  lemma DeliveredReaches(tr: seq<State>, acts: seq<Action>, n: nat, slot: nat, i: B.Sub)
    requires IsRun(tr, acts) && n < |tr| && slot < |tr[n].bc.history|
    requires i < |tr[n].bc.chans| && i in tr[n].bc.subs && tr[n].bc.chans[i].evicting == 0
    requires tr[n].bc.chans[i].joined <= slot
    ensures var c := tr[n].bc.chans[i]; var got := c.read + c.buf;
            slot - c.joined < |got| && got[slot - c.joined] == slot
  {
    var btr, bacts := BroadcasterPart(tr, acts, n);
    BT.NothingMissed(btr, bacts, |btr| - 1, i);
    OrderHolds(tr, acts, n);
    var bc := tr[n].bc;
    assert (bc.history + InHand(bc.streams))[slot] == slot;
    assert bc.history[slot] == slot;
  }

  /** Every removal of a process by a worker, in every run: its update is still to be sent, or with
      the monitor, or with the stream, or delivered; and if it is delivered, every subscriber that
      had joined by then and is not marked for eviction has it, and it says Deleted unless the name
      was registered again before the monitor looked. */
  lemma RemovalReachesWatchers(tr: seq<State>, acts: seq<Action>, n: nat, r: nat, i: B.Sub)
    requires IsRun(tr, acts) && n < |tr| && r < |tr[n].reg.h.log| && tr[n].reg.h.log[r].Removed?
    requires i < |tr[n].bc.chans| && i in tr[n].bc.subs && tr[n].bc.chans[i].evicting == 0
    ensures var s, e, c := tr[n].reg, tr[n].reg.h.log[r], tr[n].bc.chans[i];
            && e.worker < |s.threads| && s.threads[e.worker].Worker?
            && match s.threads[e.worker].pc
               case Notifying(at) => at == Some(r)
               case Notified(_, slot) =>
                 if slot >= |s.broadcasts| then RE.MonitorHas(s.monitor, s.h.log, r)
                 else RE.Announces(s.h.log, s.broadcasts[slot], r) && Arrives(tr[n].bc, c, slot)
               case _ => false
  {
    var rtr, racts := RegistryPart(tr, acts, n);
    RE.RemovalIsAnnounced(rtr, racts, |rtr| - 1, r);
    OrderHolds(tr, acts, n);
    var s, bc := tr[n].reg, tr[n].bc;
    var pc := s.threads[s.h.log[r].worker].pc;
    if pc.Notified? && pc.slot < |s.broadcasts| {
      if pc.slot < |bc.history| {
        if bc.chans[i].joined <= pc.slot { DeliveredReaches(tr, acts, n, pc.slot, i); }
      } else {
        assert (bc.history + InHand(bc.streams))[pc.slot] == pc.slot;
      }
    }
  }

  /** Response `slot` is with the stream; or it was delivered before the channel was subscribed; or
      the subscriber has it. */
  predicate Arrives(bc: B.State, c: B.Chan, slot: nat) {
    || (slot >= |bc.history| && |bc.streams| == 1 && bc.streams[0] == B.Holding(slot))
    || slot < c.joined
    || (slot - c.joined < |c.read + c.buf| && (c.read + c.buf)[slot - c.joined] == slot)
  }
}
