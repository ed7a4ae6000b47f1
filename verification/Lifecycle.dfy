module Options {
  datatype Option<+T> = None | Some(value: T)
}

/** The lifecycle constants shared by the recorder, the stats store and the HTTP gate. */
module Lifecycle {
  /** `Unrecognised` stands for a matchState that is missing, not a string, or any other string. */
  datatype MatchState =
    | InProgress
    | WaitingToStart
    | Warmup
    | WaitingPostMatch
    | EndState
    | Unrecognised

  const CONFIRM_TICKS := 3

  predicate KnownInactive(m: MatchState) {
    m in {WaitingToStart, Warmup, WaitingPostMatch, EndState}
  }

  datatype RecordingPhase = Active | Finalized | Unverified
}
