/** Runs of the recorder, and what their history alone says: which ticks follow each other, which frames
    were accepted for a match, and what counts as evidence that it ended. */
module RecorderHistory {
  import opened Options
  import opened Lifecycle
  import opened Recorder

  /** A snapshot followed by the position frames sampled before the next one, or the end of
      the process: a graceful shutdown closes the open recording, a crash only drops it. */
  datatype Event =
    | Tick(snap: Snap, stem: string, positions: seq<string>)
    | Restart(graceful: bool)

  type History = seq<Event>

  ghost predicate Stream(h: History) {
    forall i :: 0 <= i < |h| && h[i].Tick? ==> h[i].snap.at == i
  }

  function WritePositions(b: Box, texts: seq<string>): Box {
    if texts == [] then b
    else WritePosition(WritePositions(b, texts[..|texts| - 1]), texts[|texts| - 1])
  }

  /** A new process: the box starts empty over the directory the old one left. */
  function Reboot(b: Box, graceful: bool): Box {
    EmptyBox(if b.cur.None? then b.disk
             else if graceful then CloseFile(b.disk, b.cur.value, 0, false)
             else if b.cur.value.path in b.disk then
               b.disk[b.cur.value.path := b.disk[b.cur.value.path].(open := false)]
             else b.disk)
  }

  function Apply(b: Box, e: Event, minTicks: nat): Box {
    match e
    case Tick(s, stem, positions) => WritePositions(Step(b, s, stem, minTicks), positions)
    case Restart(graceful) => Reboot(b, graceful)
  }

  /** The state after the first n events, from an empty directory. */
  function Run(h: History, n: nat, minTicks: nat): Box
    requires n <= |h|
  {
    if n == 0 then EmptyBox(map[]) else Apply(Run(h, n - 1, minTicks), h[n - 1], minTicks)
  }

  /* ----- the history, read without the state machine ----- */

  /** Some snapshot since the last restart carried a tick id. */
  predicate Sequenced(h: History, n: nat)
    requires n <= |h|
  {
    n > 0 && h[n - 1].Tick? && (h[n - 1].snap.tick.Some? || Sequenced(h, n - 1))
  }

  /** Frames without a tick id are dropped once sequenced ones have been seen. */
  predicate Accepted(h: History, i: nat)
    requires i < |h|
  {
    h[i].Tick? && (h[i].snap.tick.Some? || !Sequenced(h, i))
  }

  predicate ActiveAs(h: History, i: nat, id: string)
    requires i < |h|
  {
    Accepted(h, i) && IsActive(h[i].snap) && IdOf(h[i].snap) == Some(id)
  }

  predicate AcceptedInactive(h: History, i: nat)
    requires i < |h|
  {
    Accepted(h, i) && KnownInactive(h[i].snap.state)
  }

  /** The accepted InProgress frames of one match among events from..until, in order. */
  function Selected(h: History, from: nat, until: nat, id: string): seq<Snap>
    requires until <= |h|
  {
    if until <= from then []
    else Selected(h, from, until - 1, id) + if ActiveAs(h, until - 1, id) then [h[until - 1].snap] else []
  }

  /** Event i is a snapshot directly after another one, with no gap in the tick ids. */
  predicate Follows(h: History, i: nat)
    requires i < |h|
  {
    && i > 0 && h[i].Tick? && h[i - 1].Tick?
    && (h[i - 1].snap.tick.Some? ==> h[i].snap.tick == Some(h[i - 1].snap.tick.value + 1))
  }

  /** Three gap-free accepted ticks ending at n that prove the match `id` is over. */
  ghost predicate Evidence(h: History, n: nat, id: string)
    requires n < |h|
  {
    && 2 <= n && Follows(h, n - 1) && Follows(h, n)
    && (|| (AcceptedInactive(h, n - 2) && AcceptedInactive(h, n - 1) && AcceptedInactive(h, n))
        || exists other ::
             other != id && ActiveAs(h, n - 2, other) && ActiveAs(h, n - 1, other) && ActiveAs(h, n, other))
  }

  /* ----- what is in a file ----- */

  function FullFrames(lines: seq<Line>): seq<Snap> {
    if lines == [] then []
    else FullFrames(lines[..|lines| - 1]) +
         match lines[|lines| - 1] { case Full(s) => [s] case Position(_) => [] }
  }

  function PositionCount(lines: seq<Line>): nat {
    if lines == [] then 0
    else PositionCount(lines[..|lines| - 1]) + if lines[|lines| - 1].Position? then 1 else 0
  }

  function Peak(frames: seq<Snap>): nat {
    if frames == [] then 0
    else
      var rest := Peak(frames[..|frames| - 1]);
      if frames[|frames| - 1].players > rest then frames[|frames| - 1].players else rest
  }

  lemma {:induction false} EmptyCounts()
    ensures FullFrames([]) == [] && PositionCount([]) == 0 && Peak([]) == 0
  {
  }

  lemma {:induction false} AppendedLine(lines: seq<Line>, line: Line)
    ensures FullFrames(lines + [line]) == FullFrames(lines) + if line.Full? then [line.snap] else []
    ensures PositionCount(lines + [line]) == PositionCount(lines) + if line.Full? then 0 else 1
  {
    assert (lines + [line])[..|lines|] == lines;
  }

  lemma {:induction false} AppendedPeak(frames: seq<Snap>, s: Snap)
    ensures Peak(frames + [s]) == if s.players > Peak(frames) then s.players else Peak(frames)
  {
    assert (frames + [s])[..|frames|] == frames;
  }
}
