/** The states a process reports. */
module ProcessState {

  /** How often the waiting loops poll before they give up. */
  const WAIT_COUNT: nat := 600

  datatype ProcState = Starting | Running | Stopping | Stopped | Error

  /** What `IsStopped` answers. */
  predicate Ended(s: ProcState) { s == Stopped || s == Error }

  /** The states in which a stop request changes nothing. */
  predicate Ending(s: ProcState) { s == Stopping || Ended(s) }
}
