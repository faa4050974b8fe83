/** The steps of every call and worker come in the order of the code, in every run, however the
    calls interleave; and a create or replace takes effect exactly when it should. */
module RegistryOrder {
  import opened Wrappers
  import opened PortPool
  import opened ProcessState
  import opened Registry
  import opened RegistryInvariant
  import opened RegistrySteps
  import opened RegistryTheorems

  predicate Then(own: seq<Action>, a: Action) { own != [] && own[|own| - 1] == a }

  function Front(own: seq<Action>): seq<Action> { if own == [] then [] else own[..|own| - 1] }

  // ---------------------------------------------------------------------------------------
  // Replacements

  /** The steps of the replacement `p` among the first `n` of a run. */
  function OwnActions(acts: seq<Action>, p: Id, n: nat): seq<Action>
    requires n <= |acts|
  {
    if n == 0 then [] else OwnActions(acts, p, n - 1) + if Own(acts[n - 1], p) then [acts[n - 1]] else []
  }

  /** Binaries compared, process started, and `i` polls that found it Starting. */
  function Polled(p: Id, i: nat): seq<Action> {
    [CompareBinary(p), StartReplacement(p, true)] + seq(i, _ => PollReplacement(p, Starting))
  }

  /** All polls found it Starting, or the last of at most that many found it Running. */
  predicate TakesOver(p: Id, own: seq<Action>) {
    || own == Polled(p, REPLACE_POLLS)
    || (Then(own, PollReplacement(p, Running)) && 3 <= |own| < REPLACE_POLLS + 3 && Front(own) == Polled(p, |own| - 3))
  }

  /** After taking over, the old process was stopped, and then the swap attempted. */
  predicate Swaps(p: Id, own: seq<Action>) {
    Then(own, Swap(p)) && Then(Front(own), StopOld(p)) && TakesOver(p, Front(Front(own)))
  }

  /** The start failed, or a poll found it neither Starting nor Running; or, with the old process
      stopped, the swap was refused. */
  predicate Fails(p: Id, stoppedOld: bool, own: seq<Action>) {
    if stoppedOld then Swaps(p, own)
    else
      || own == [CompareBinary(p), StartReplacement(p, false)]
      || (3 <= |own| < REPLACE_POLLS + 3 && Front(own) == Polled(p, |own| - 3)
          && var last := own[|own| - 1];
             last.PollReplacement? && last.p == p && last.seen != Starting && last.seen != Running)
  }

  /** The steps a replacement has made by the time it is at `pc`. */
  predicate Follows(p: Id, pc: ReplacePc, own: seq<Action>) {
    match pc
    case Reserved => own == []
    case SameBinary => own == [CompareBinary(p)]
    case StartingNew => own == [CompareBinary(p)]
    case Polling(i) => i < REPLACE_POLLS && own == Polled(p, i)
    case StoppingOld => TakesOver(p, own)
    case Swapping => Then(own, StopOld(p)) && TakesOver(p, Front(own))
    case Swapped => Swaps(p, own)
    case CleanStopping(stoppedOld) => Fails(p, stoppedOld, own)
    case CleanReleasing(stoppedOld) => Then(own, CleanupStop(p)) && Fails(p, stoppedOld, Front(own))
    case Failed(stoppedOld) =>
      Then(own, CleanupRelease(p)) && Then(Front(own), CleanupStop(p)) && Fails(p, stoppedOld, Front(Front(own)))
  }

  /** What a step can make of a program counter. */
  predicate Moves(p: Id, pc: ReplacePc, a: Action, pc': ReplacePc) {
    match a
    case CompareBinary(q) => q == p && pc == Reserved && (pc' == SameBinary || pc' == StartingNew)
    case StartReplacement(q, ok) =>
      q == p && pc == StartingNew && pc' == if ok then Polling(0) else CleanStopping(false)
    case PollReplacement(q, seen) => q == p && pc.Polling? && pc' == AfterPoll(pc.polls, seen)
    case StopOld(q) => q == p && pc == StoppingOld && pc' == Swapping
    case Swap(q) => q == p && pc == Swapping && (pc' == Swapped || pc' == CleanStopping(true))
    case CleanupStop(q) => q == p && pc.CleanStopping? && pc' == CleanReleasing(pc.stoppedOld)
    case CleanupRelease(q) => q == p && pc.CleanReleasing? && pc' == ReplacePc.Failed(pc.stoppedOld)
    case _ => false
  }

  lemma OwnMoves(s: State, a: Action, p: Id)
    requires Valid(s.pool) && Enabled(s, a) && Own(a, p) && (a.Swap? ==> s.procs[p].maker.prev < p)
    ensures p < |s.procs| && s.procs[p].maker.Replace? && p < |Do(s, a).procs| && Do(s, a).procs[p].maker.Replace?
    ensures Moves(p, s.procs[p].maker.pc, a, Do(s, a).procs[p].maker.pc)
  {
  }

  lemma MovesFollows(p: Id, pc: ReplacePc, a: Action, pc': ReplacePc, own: seq<Action>)
    requires Follows(p, pc, own) && Moves(p, pc, a, pc')
    ensures Follows(p, pc', own + [a])
  {
    assert Front(own + [a]) == own;
    if a.PollReplacement? {
      assert a.seen == Starting ==> Polled(p, pc.polls) + [a] == Polled(p, pc.polls + 1);
    } else if a.StartReplacement? {
      assert Polled(p, 0) == [CompareBinary(p), StartReplacement(p, true)];
    }
  }

  lemma OwnFollows(s: State, a: Action, p: Id, own: seq<Action>)
    requires Valid(s.pool) && MakersFit(s.procs) && Enabled(s, a) && Own(a, p)
    requires p < |s.procs| && s.procs[p].maker.Replace? ==> Follows(p, s.procs[p].maker.pc, own)
    ensures p < |Do(s, a).procs| && Do(s, a).procs[p].maker.Replace?
    ensures Follows(p, Do(s, a).procs[p].maker.pc, own + [a])
  {
    if a.Swap? { assert PrevFits(s.procs, p); }
    OwnMoves(s, a, p);
    MovesFollows(p, s.procs[p].maker.pc, a, Do(s, a).procs[p].maker.pc, own);
  }

  lemma OthersKeepMaker(s: State, a: Action, p: Id)
    requires Valid(s.pool) && Enabled(s, a) && !Own(a, p) && p < |s.procs|
    ensures p < |Do(s, a).procs| && Do(s, a).procs[p].maker == s.procs[p].maker
  {
    if IsReplaceStep(a) { ReplaceStepIsLocal(s, a, p); } else { OthersLeaveMakers(s, a, p); }
  }

  /** What a replacement's record says fits its steps so far. */
  predicate RecordFollows(procs: seq<Proc>, p: Id, own: seq<Action>) {
    if p < |procs| then procs[p].maker.Replace? ==> Follows(p, procs[p].maker.pc, own) else own == []
  }

  lemma NextFollows(s: State, a: Action, p: Id, own: seq<Action>)
    requires Valid(s.pool) && MakersFit(s.procs) && Enabled(s, a) && RecordFollows(s.procs, p, own)
    ensures RecordFollows(Do(s, a).procs, p, own + if Own(a, p) then [a] else [])
  {
    if Own(a, p) {
      OwnFollows(s, a, p, own);
    } else {
      assert own + [] == own;
      if p < |s.procs| { OthersKeepMaker(s, a, p); } else { BornFresh(s, a); }
    }
  }

  lemma FollowsAt(tr: seq<State>, acts: seq<Action>, n: nat, p: Id, own: seq<Action>)
    requires IsRun(tr, acts) && n < |acts| && RecordFollows(tr[n].procs, p, own)
    ensures RecordFollows(tr[n + 1].procs, p, own + if Own(acts[n], p) then [acts[n]] else [])
  {
    InvHolds(tr, acts, n);
    assert StepAt(tr, acts, n);
    NextFollows(tr[n], acts[n], p, own);
  }

  lemma {:induction false} RecordsFollow(tr: seq<State>, acts: seq<Action>, n: nat, p: Id)
    requires IsRun(tr, acts) && n < |tr|
    ensures RecordFollows(tr[n].procs, p, OwnActions(acts, p, n))
  {
    if n > 0 {
      RecordsFollow(tr, acts, n - 1, p);
      FollowsAt(tr, acts, n - 1, p, OwnActions(acts, p, n - 1));
    }
  }

  /** In every run, the steps of a replacement are those the code has before its place there: it is
      started before it is polled, polled up to 30 times, stops the old process before the swap, and
      is stopped before its ports are given back. */
  lemma ReplaceInOrder(tr: seq<State>, acts: seq<Action>, n: nat, p: Id)
    requires IsRun(tr, acts) && n < |tr| && p < |tr[n].procs| && tr[n].procs[p].maker.Replace?
    ensures Follows(p, tr[n].procs[p].maker.pc, OwnActions(acts, p, n))
  {
    RecordsFollow(tr, acts, n, p);
  }

  // ---------------------------------------------------------------------------------------
  // Deletes and their workers

  predicate OfThread(a: Action, t: nat) {
    match a
    case StopTarget(u) => u == t
    case UnregisterProcess(u) => u == t
    case PollWorker(u, _) => u == t
    case RemoveProcess(u) => u == t
    case ReceiveNotice(u) => u == t
    case _ => false
  }

  function ThreadActions(acts: seq<Action>, t: nat, n: nat): seq<Action>
    requires n <= |acts|
  {
    if n == 0 then [] else ThreadActions(acts, t, n - 1) + if OfThread(acts[n - 1], t) then [acts[n - 1]] else []
  }

  /** So many polls that found the process not ended. */
  function Waited(t: nat, i: nat): seq<Action> { seq(i, _ => PollWorker(t, false)) }

  /** All polls found the process not ended, or the last of at most that many found it ended. */
  predicate Looked(t: nat, own: seq<Action>) {
    || own == Waited(t, WAIT_COUNT)
    || (Then(own, PollWorker(t, true)) && |own| <= WAIT_COUNT && Front(own) == Waited(t, |own| - 1))
  }

  /** A last look found the process ended. */
  predicate FoundEnded(t: nat, own: seq<Action>) { Then(own, PollWorker(t, true)) && Looked(t, Front(own)) }

  predicate ThreadFollows(t: nat, th: Thread, own: seq<Action>) {
    match th
    case DeleteFound(_) => own == []
    case DeleteStopped(_) => own == [StopTarget(t)]
    case DeleteReturned(_) => own == [StopTarget(t), UnregisterProcess(t)]
    case Worker(_, pc) =>
      match pc
      case Waiting(i) => i < WAIT_COUNT && own == Waited(t, i)
      case Rechecking => Looked(t, own)
      case Removing => FoundEnded(t, own)
      case GaveUp => Then(own, PollWorker(t, false)) && Looked(t, Front(own))
      case Notifying(_) => Then(own, RemoveProcess(t)) && FoundEnded(t, Front(own))
      case Notified(_, _) =>
        Then(own, ReceiveNotice(t)) && Then(Front(own), RemoveProcess(t)) && FoundEnded(t, Front(Front(own)))
  }

  predicate ThreadMoves(t: nat, th: Thread, a: Action, th': Thread) {
    match a
    case StopTarget(u) => u == t && th.DeleteFound? && th'.DeleteStopped?
    case UnregisterProcess(u) => u == t && th.DeleteStopped? && th'.DeleteReturned?
    case PollWorker(u, ended) =>
      u == t && th.Worker? && th'.Worker? && (th.pc.Waiting? || th.pc.Rechecking?) && th'.pc == AfterLook(th.pc, ended)
    case RemoveProcess(u) => u == t && th.Worker? && th'.Worker? && th.pc == Removing && th'.pc.Notifying?
    case ReceiveNotice(u) => u == t && th.Worker? && th'.Worker? && th.pc.Notifying? && th'.pc.Notified?
    case _ => false
  }

  lemma ThreadStep(s: State, a: Action, t: nat)
    requires Valid(s.pool) && Enabled(s, a) && t < |s.threads|
    ensures t < |Do(s, a).threads|
    ensures OfThread(a, t) ==> ThreadMoves(t, s.threads[t], a, Do(s, a).threads[t])
    ensures !OfThread(a, t) ==> Do(s, a).threads[t] == s.threads[t]
  {
  }

  lemma ThreadBorn(s: State, a: Action, t: nat)
    requires Valid(s.pool) && Enabled(s, a) && |s.threads| <= t < |Do(s, a).threads|
    ensures !OfThread(a, t)
    ensures var th := Do(s, a).threads[t]; th.DeleteFound? || (th.Worker? && th.pc == Waiting(0))
  {
  }

  lemma ThreadMovesFollows(t: nat, th: Thread, a: Action, th': Thread, own: seq<Action>)
    requires ThreadFollows(t, th, own) && ThreadMoves(t, th, a, th')
    ensures ThreadFollows(t, th', own + [a])
  {
    assert Front(own + [a]) == own;
    if a.PollWorker? && th.pc.Waiting? {
      assert !a.ended ==> Waited(t, th.pc.polls) + [a] == Waited(t, th.pc.polls + 1);
    }
  }

  lemma NobodysStep(s: State, a: Action, t: nat)
    requires Enabled(s, a) && t >= |s.threads|
    ensures !OfThread(a, t)
  {
  }

  predicate RecordThreadFollows(threads: seq<Thread>, t: nat, own: seq<Action>) {
    if t < |threads| then ThreadFollows(t, threads[t], own) else own == []
  }

  lemma NextThreadFollows(s: State, a: Action, t: nat, own: seq<Action>)
    requires Valid(s.pool) && Enabled(s, a) && RecordThreadFollows(s.threads, t, own)
    ensures RecordThreadFollows(Do(s, a).threads, t, own + if OfThread(a, t) then [a] else [])
  {
    assert own + [] == own;
    if t < |s.threads| {
      ThreadStep(s, a, t);
      if OfThread(a, t) { ThreadMovesFollows(t, s.threads[t], a, Do(s, a).threads[t], own); }
    } else {
      NobodysStep(s, a, t);
      if t < |Do(s, a).threads| {
        ThreadBorn(s, a, t);
        assert Waited(t, 0) == [];
      }
    }
  }

  lemma ThreadFollowsAt(tr: seq<State>, acts: seq<Action>, n: nat, t: nat, own: seq<Action>)
    requires IsRun(tr, acts) && n < |acts| && RecordThreadFollows(tr[n].threads, t, own)
    ensures RecordThreadFollows(tr[n + 1].threads, t, own + if OfThread(acts[n], t) then [acts[n]] else [])
  {
    assert StepAt(tr, acts, n);
    NextThreadFollows(tr[n], acts[n], t, own);
  }

  lemma {:induction false} ThreadRecordsFollow(tr: seq<State>, acts: seq<Action>, n: nat, t: nat)
    requires IsRun(tr, acts) && n < |tr|
    ensures RecordThreadFollows(tr[n].threads, t, ThreadActions(acts, t, n))
  {
    if n > 0 {
      ThreadRecordsFollow(tr, acts, n - 1, t);
      ThreadFollowsAt(tr, acts, n - 1, t, ThreadActions(acts, t, n - 1));
    }
  }

  /** In every run, the steps of a delete, and those of a worker, are those the code has before its
      place there. So a worker that has given up made a last look that found the process not ended,
      and before it either all 600 polls or a poll that found it ended; one that has made its look in
      the critical section reports, whatever it found there. */
  lemma DeleteInOrder(tr: seq<State>, acts: seq<Action>, n: nat, t: nat)
    requires IsRun(tr, acts) && n < |tr| && t < |tr[n].threads|
    ensures ThreadFollows(t, tr[n].threads[t], ThreadActions(acts, t, n))
  {
    ThreadRecordsFollow(tr, acts, n, t);
  }

  // ---------------------------------------------------------------------------------------
  // When creates and replaces take effect

  /** The request is well formed, and the pool has the ports. */
  ghost predicate CanReserve(pool: Pool, spec: Spec)
    requires Valid(pool)
  {
    && |spec.portArgs| <= spec.portCount
    && (spec.portCount == 0 ||
        !(AllUseless(RunsFrom(pool.free, pool.start), spec.portCount, false) &&
          AllUseless(RunsFrom(pool.free, 0), spec.portCount, false)))
  }

  lemma ReserveIff(pool: Pool, spec: Spec)
    requires Valid(pool)
    ensures Reserve(pool, spec).Some? <==> CanReserve(pool, spec)
  {
    if spec.portCount > 0 { AllocateRefusesIff(pool, spec.portCount); }
  }

  /** A create changes something if and only if name and binary are given, the name is new, and the
      ports can be reserved. */
  lemma CreateTakesEffectIff(s: State, spec: Spec)
    requires Valid(s.pool)
    ensures Do(s, RegisterProcess(spec)) != s <==>
            spec.name != "" && spec.binary != "" && spec.name !in s.registry && CanReserve(s.pool, spec)
  {
    ReserveIff(s.pool, spec);
    if spec.name != "" && spec.binary != "" && spec.name !in s.registry && CanReserve(s.pool, spec) {
      assert |Do(s, RegisterProcess(spec)).procs| == |s.procs| + 1;
    }
  }

  /** A replace reserves ports if and only if name and binary are given, the signal is SIGHUP, the
      name is registered, and the ports can be reserved. */
  lemma ReplaceTakesEffectIff(s: State, spec: Spec, signal: string)
    requires Valid(s.pool)
    ensures Do(s, InitReplace(spec, signal)) != s <==>
            && spec.name != "" && spec.binary != "" && signal == "SIGHUP" && spec.name in s.registry
            && CanReserve(s.pool, spec)
  {
    ReserveIff(s.pool, spec);
    if CanReserve(s.pool, spec) && Do(s, InitReplace(spec, signal)) == s {
      assert |Do(s, InitReplace(spec, signal)).procs| == |s.procs|;
    }
  }
}
