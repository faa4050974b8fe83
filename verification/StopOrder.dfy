/** What a stop call and its worker have done by the time they are at some place, in every run:
    the steps come in the order of the code, and none is left out. */
module StopOrder {
  import opened Wrappers
  import opened ProcessState
  import opened Lifecycle

  /** What a stop call finds under the lock: a process that is not ending; one that has been ending
      for longer than the timeout; or nothing to do. */
  datatype Call = Effective | Late | Idle

  /** What happened to one stop call: what it found; whether there was a command; whether that was
      seen running; signals sent; what the polls found (ended or not); kills; whether the two reads
      of the state found it Stopped, and in Error; and writes of Stopped. */
  datatype StopLog = StopLog(
    calls: seq<Call>,
    caps: seq<bool>,
    looks: seq<bool>,
    sent: nat,
    polls: seq<bool>,
    kills: nat,
    saw: seq<bool>,
    writes: nat)

  const NOTHING: StopLog := StopLog([], [], [], 0, [], 0, [], 0)

  function CallOf(l: Life, now: nat): Call {
    if !Ending(l.state) then Effective
    else if l.deletedAt.Some? && l.deletedAt.value + TIMEOUT < now then Late
    else Idle
  }

  /** The log of stop call `k` after the action `a` from `l` to `l'`. */
  function Record(log: StopLog, l: Life, a: Action, l': Life, k: nat): StopLog
    requires Enabled(l, a)
  {
    if !IsStopStep(a) || a.k != k then log
    else
      match a
      case StopLock(_) => log.(calls := log.calls + [CallOf(l, l.stoppers[k].now)])
      case StopCapture(_) => log.(caps := log.caps + [l.cmd])
      case WorkerLooks(_, running) =>
        log.(looks := log.looks + [running], sent := log.sent + if l'.h.signals > l.h.signals then 1 else 0)
      case WorkerPolls(_) => log.(polls := log.polls + [Ended(l.state)])
      case WorkerKills(_) => log.(kills := log.kills + if l'.h.kills == l.h.kills + [l.clock] then 1 else 0)
      case WorkerReads(_) => log.(saw := log.saw + [l.state == Stopped])
      case WorkerReadsAgain(_) => log.(saw := log.saw + [l.state == Error])
      case WorkerWrites(_) => log.(writes := log.writes + if l'.state == Stopped then 1 else 0)
      case _ => log
  }

  ghost function LogOf(tr: seq<Life>, acts: seq<Action>, k: nat, n: nat): StopLog
    requires IsPath(tr, acts) && n <= |acts|
  {
    if n == 0 then NOTHING
    else
      assert StepAt(tr, acts, n - 1);
      Record(LogOf(tr, acts, k, n - 1), tr[n - 1], acts[n - 1], tr[n], k)
  }

  // ---------------------------------------------------------------------------------------
  // The order

  function Nots(i: nat): seq<bool> { seq(i, _ => false) }

  /** The command, if any, was not running. */
  predicate NotFound(log: StopLog) {
    && (log.calls == [Effective] || log.calls == [Late])
    && |log.caps| == 1 && |log.looks| == 1 && !(log.caps[0] && log.looks[0])
    && log.sent == 0 && log.polls == [] && log.kills == 0
  }

  /** The command was running, and the process not ended at any of 600 polls; or it was not polled,
      having been ending for too long already. */
  predicate ToBeKilled(log: StopLog) {
    && log.caps == [true] && log.looks == [true] && log.saw == [] && log.writes == 0
    && if log.calls == [Effective] then log.sent == 1 && AllPolled(log)
       else log.calls == [Late] && log.sent == 0 && log.polls == []
  }

  /** All polls found the process not ended; the last round of the loop only finds the count used
      up. */
  predicate AllPolled(log: StopLog) { |log.polls| == WAIT_COUNT + 1 && log.polls[..WAIT_COUNT] == Nots(WAIT_COUNT) }

  /** The last of at most 600 polls found the process ended. */
  predicate SawEnd(log: StopLog) { 1 <= |log.polls| <= WAIT_COUNT && log.polls == Nots(|log.polls| - 1) + [true] }

  predicate Signalled(log: StopLog) {
    && log.calls == [Effective] && log.caps == [true] && log.looks == [true] && log.sent == 1 && log.kills == 0
    && log.saw == [] && log.writes == 0
  }

  /** All ways for a stop call to be done. */
  predicate Done(log: StopLog) {
    || log == NOTHING.(calls := [Idle])
    || (NotFound(log) && log.writes == 0 && (log.saw == [true] || log.saw == [false, true]))
    || (NotFound(log) && log.writes == 1 && log.saw == [false, false])
    || (Signalled(log) && SawEnd(log))
    || (ToBeKilled(log) && log.kills == 1)
  }

  predicate Follows(pc: StopPc, log: StopLog) {
    match pc
    case Called(_) => log == NOTHING
    case Decided(needStop) => log == NOTHING.(calls := [if needStop then Effective else Late])
    case Captured(needStop, cmd) => log == NOTHING.(calls := [if needStop then Effective else Late], caps := [cmd])
    case ReadState => NotFound(log) && log.saw == [] && log.writes == 0
    case ReadAgain => NotFound(log) && log.saw == [false] && log.writes == 0
    case WriteStopped => NotFound(log) && log.saw == [false, false] && log.writes == 0
    case Waiting(i, _) => i <= WAIT_COUNT && Signalled(log) && log.polls == Nots(i)
    case Killing => ToBeKilled(log) && log.kills == 0
    case StopDone => Done(log)
  }

  predicate RecordFollows(stoppers: seq<StopPc>, k: nat, log: StopLog) {
    if k < |stoppers| then Follows(stoppers[k], log) else log == NOTHING
  }

  lemma CallFollows(l: Life, a: Action, k: nat, log: StopLog)
    requires Enabled(l, a) && (a == StopLock(k) || a == StopCapture(k)) && Follows(l.stoppers[k], log)
    ensures k < |Do(l, a).stoppers| && Follows(Do(l, a).stoppers[k], Record(log, l, a, Do(l, a), k))
  {
  }

  lemma LookFollows(l: Life, a: Action, k: nat, log: StopLog)
    requires Enabled(l, a) && a.WorkerLooks? && a.k == k && Follows(l.stoppers[k], log)
    ensures k < |Do(l, a).stoppers| && Follows(Do(l, a).stoppers[k], Record(log, l, a, Do(l, a), k))
  {
  }

  lemma PollFollows(l: Life, k: nat, log: StopLog)
    requires Enabled(l, WorkerPolls(k)) && Follows(l.stoppers[k], log)
    ensures var l' := Do(l, WorkerPolls(k));
            k < |l'.stoppers| && Follows(l'.stoppers[k], Record(log, l, WorkerPolls(k), l', k))
  {
    var i := l.stoppers[k].polls;
    assert Nots(i) + [false] == Nots(i + 1);
    assert (Nots(i) + [Ended(l.state)])[..i] == Nots(i);
  }

  lemma FinishFollows(l: Life, a: Action, k: nat, log: StopLog)
    requires a == WorkerReads(k) || a == WorkerReadsAgain(k) || a == WorkerWrites(k) || a == WorkerKills(k)
    requires Enabled(l, a) && Follows(l.stoppers[k], log)
    ensures k < |Do(l, a).stoppers| && Follows(Do(l, a).stoppers[k], Record(log, l, a, Do(l, a), k))
  {
    if a.WorkerReads? {
      assert log.saw + [l.state == Stopped] == [l.state == Stopped];
    } else if a.WorkerReadsAgain? {
      assert log.saw + [l.state == Error] == [false, l.state == Error];
    }
  }

  lemma NextFollows(l: Life, a: Action, k: nat, log: StopLog)
    requires Enabled(l, a) && RecordFollows(l.stoppers, k, log)
    ensures RecordFollows(Do(l, a).stoppers, k, Record(log, l, a, Do(l, a), k))
  {
    if IsStopStep(a) && a.k == k {
      match a
      case StopLock(_) => CallFollows(l, a, k, log);
      case StopCapture(_) => CallFollows(l, a, k, log);
      case WorkerLooks(_, _) => LookFollows(l, a, k, log);
      case WorkerPolls(_) => PollFollows(l, k, log);
      case _ => FinishFollows(l, a, k, log);
    } else if IsStopStep(a) {
      StopStepIsLocal(l, a);
    } else {
      OtherStepsStopNothing(l, a);
    }
  }

  lemma {:induction false} RecordsFollow(tr: seq<Life>, acts: seq<Action>, n: nat, k: nat)
    requires IsRun(tr, acts) && n < |tr|
    ensures RecordFollows(tr[n].stoppers, k, LogOf(tr, acts, k, n))
  {
    if n > 0 {
      RecordsFollow(tr, acts, n - 1, k);
      assert StepAt(tr, acts, n - 1);
      NextFollows(tr[n - 1], acts[n - 1], k, LogOf(tr, acts, k, n - 1));
    }
  }

  /** In every run, what a stop call has done is what the code does up to its place there. */
  lemma StopInOrder(tr: seq<Life>, acts: seq<Action>, n: nat, k: nat)
    requires IsRun(tr, acts) && n < |tr| && k < |tr[n].stoppers|
    ensures Follows(tr[n].stoppers[k], LogOf(tr, acts, k, n))
  {
    RecordsFollow(tr, acts, n, k);
  }

  /** So once a stop call is done: if it took effect and found the command running, it has sent the
      signal, once, and has either found the process ended at a poll, or polled 600 times and then
      killed it; if the wait had timed out and the command was running, it has killed it at once;
      if there was nothing to do, it did nothing. */
  lemma SignalledThenEndedOrKilled(tr: seq<Life>, acts: seq<Action>, n: nat, k: nat)
    requires IsRun(tr, acts) && n < |tr| && k < |tr[n].stoppers| && tr[n].stoppers[k] == StopDone
    ensures var log := LogOf(tr, acts, k, n);
            && |log.calls| == 1
            && match log.calls[0]
               case Idle => log == NOTHING.(calls := [Idle])
               case Late => Found(log) ==> log.sent == 0 && log.polls == [] && log.kills == 1
               case Effective =>
                 Found(log) ==> log.sent == 1 && ((log.kills == 0 && SawEnd(log)) || (log.kills == 1 && AllPolled(log)))
  {
    StopInOrder(tr, acts, n, k);
  }

  /** There was a command, and it was seen running. */
  predicate Found(log: StopLog) { log.caps == [true] && log.looks == [true] }
}
