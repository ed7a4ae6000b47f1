/** What holds for every run of the recorder: what a recording contains, when it may be called
    finished, and that nothing is shared or touched afterwards. */
module RecorderResults {
  import opened Options
  import opened Lifecycle
  import opened Recorder
  import opened RecorderHistory
  import opened RecorderInvariant

  /** Every recording holds exactly the accepted frames of its match, in order, from its first buffered
      frame until it closes: an open one up to now, a finalized one up to the event that proved the
      end, and any other one up to the end of its process. */
  lemma {:induction false} RecordingsAreFaithful(h: History, n: nat, minTicks: nat, path: string)
    requires Stream(h) && n <= |h| && path in Run(h, n, minTicks).disk
    ensures var f := Run(h, n, minTicks).disk[path];
            && Frames(f) != []
            && exists until :: 0 < until <= n
                 && Frames(f) == Selected(h, Frames(f)[0].at, until, f.meta.matchId)
                 && (f.open ==> until == n)
                 && (f.meta.phase.Finalized? ==> Evidence(h, until - 1, f.meta.matchId))
                 && (!f.open && !f.meta.phase.Finalized? ==> until < n && h[until].Restart?)
  {
    RunInv(h, n, minTicks);
    var f := Run(h, n, minTicks).disk[path];
    var until :| 0 < until <= n && Holds(h, f, until) && EndsAt(h, n, f, until);
    if f.open {
      assert Frames(f) == Selected(h, Frames(f)[0].at, n, f.meta.matchId);
    }
  }

  ghost predicate Ascends(frames: seq<Snap>) {
    forall i, j :: 0 <= i < j < |frames| ==> frames[i].at < frames[j].at
  }

  lemma {:induction false} AscendsAppend(frames: seq<Snap>, s: Snap)
    requires Ascends(frames) && Before(frames, s.at)
    ensures Ascends(frames + [s])
  {
    forall i | 0 <= i < |frames|
      ensures frames[i].at < s.at
    {
      assert frames[i] in frames;
    }
  }

  lemma {:induction false} SelectedAscends(h: History, from: nat, until: nat, id: string)
    requires Stream(h) && until <= |h|
    ensures Ascends(Selected(h, from, until, id))
  {
    if from < until {
      var rest := Selected(h, from, until - 1, id);
      SelectedAscends(h, from, until - 1, id);
      SelectedNonempty(h, from, until - 1, id);
      if ActiveAs(h, until - 1, id) {
        AscendsAppend(rest, h[until - 1].snap);
      } else {
        assert Selected(h, from, until, id) == rest;
      }
    }
  }

  lemma {:induction false} FileAscends(h: History, n: nat, f: File)
    requires Stream(h) && n <= |h| && Faithful(h, n, f)
    ensures Ascends(Frames(f))
  {
    var until :| 0 < until <= n && Holds(h, f, until) && EndsAt(h, n, f, until);
    SelectedAscends(h, Frames(f)[0].at, until, f.meta.matchId);
  }

  /** No snapshot is written twice, neither in one recording nor in two. */
  lemma {:induction false} NoFrameTwice(h: History, n: nat, minTicks: nat, p: string, q: string, i: nat, j: nat)
    requires Stream(h) && n <= |h|
    requires var d := Run(h, n, minTicks).disk; p in d && q in d && i < |Frames(d[p])| && j < |Frames(d[q])|
    requires var d := Run(h, n, minTicks).disk; Frames(d[p])[i].at == Frames(d[q])[j].at
    ensures p == q && i == j
  {
    RunInv(h, n, minTicks);
    var d := Run(h, n, minTicks).disk;
    TagsApart(n, d, p, q, i, j);
    FileAscends(h, n, d[p]);
  }

  lemma {:induction false} TagsApart(n: nat, d: Disk, p: string, q: string, i: nat, j: nat)
    requires Tidy(n, d) && p in d && q in d && i < |Frames(d[p])| && j < |Frames(d[q])|
    requires Frames(d[p])[i].at == Frames(d[q])[j].at
    ensures p == q
  {
    assert Frames(d[p])[i] in Frames(d[p]) && Frames(d[q])[j] in Frames(d[q]);
  }

  /** At most one writer is open, it is the current recording's, and while it is open nothing
      waits in the pre-open buffer. */
  lemma {:induction false} OneWriter(h: History, n: nat, minTicks: nat)
    requires Stream(h) && n <= |h|
    ensures var b := Run(h, n, minTicks);
            && (forall p, q :: p in b.disk && q in b.disk && b.disk[p].open && b.disk[q].open ==> p == q)
            && (forall p :: p in b.disk && b.disk[p].open ==> b.cur.Some? && b.cur.value.path == p)
            && (b.cur.Some? ==> b.cur.value.path in b.disk && b.disk[b.cur.value.path].open && b.buffer == [])
  {
    RunInv(h, n, minTicks);
  }

  /** A snapshot ends the open recording exactly when it completes three gap-free accepted
      ticks that are all known-inactive, or all InProgress with one same other id. */
  lemma {:induction false} EndsExactlyOnEvidence(h: History, n: nat, minTicks: nat)
    requires Stream(h) && n < |h| && h[n].Tick? && Run(h, n, minTicks).cur.Some?
    ensures var id := Run(h, n, minTicks).cur.value.matchId;
            Ended(Run(h, n + 1, minTicks), id) <==> Evidence(h, n, id)
  {
    RunInv(h, n, minTicks);
    TickEnds(h, n, Run(h, n, minTicks), minTicks);
  }

  lemma {:induction false} TickEnds(h: History, n: nat, b: Box, minTicks: nat)
    requires Stream(h) && n < |h| && h[n].Tick? && Inv(h, n, b) && b.cur.Some?
    ensures Ended(Apply(b, h[n], minTicks), b.cur.value.matchId) <==> Evidence(h, n, b.cur.value.matchId)
  {
    StepKeeps(h, n, b, minTicks);
    PositionsKeep(h, n + 1, Step(b, h[n].snap, h[n].stem, minTicks), h[n].positions);
    SameRecording(Step(b, h[n].snap, h[n].stem, minTicks), Apply(b, h[n], minTicks), b.cur.value.matchId);
  }

  lemma {:induction false} SameRecording(b: Box, b': Box, id: string)
    requires OnlyPositions(b, b')
    ensures Ended(b', id) <==> Ended(b, id)
  {
  }

  /** `path`, if it is not the open recording of `b`, is the same file in `b'`. */
  predicate Untouched(b: Box, b': Box, path: string) {
    path in b.disk && (b.cur.Some? ==> path != b.cur.value.path) ==>
      path in b'.disk && b'.disk[path] == b.disk[path]
  }

  lemma {:induction false} StepLeavesOthers(b: Box, s: Snap, stem: string, minTicks: nat, path: string)
    ensures Untouched(b, Step(b, s, stem, minTicks), path)
  {
    if Accepts(b, s) && IsActive(s) {
      ActiveEffect(b, s, stem, minTicks);
      ActiveLeavesOthers(Track(b, s).(inactive := 0, idle := 0), s, stem, minTicks, path);
    }
  }

  lemma {:induction false} ActiveLeavesOthers(b: Box, s: Snap, stem: string, minTicks: nat, path: string)
    requires IsActive(s)
    ensures Untouched(b, StepActive(b, s, stem, minTicks), path)
  {
    if b.cur.None? {
      BufferingLeavesOthers(ClearPending(b), s, stem, path);
    } else if b.cur.value.matchId != IdOf(s).value {
      var b1 := ClearPending(Close(b, minTicks, true)).(buffer := PendingAfter(b, s)[..|PendingAfter(b, s)| - 1]);
      BufferingLeavesOthers(b1, s, stem, path);
    }
  }

  lemma {:induction false} BufferingLeavesOthers(b: Box, s: Snap, stem: string, path: string)
    requires b.cur.None? && IsActive(s)
    ensures Untouched(b, StepBuffering(b, s, stem), path)
  {
    OpenLeavesOthers(b, IdOf(s).value, stem, Buffered(b.buffer, s), path);
  }

  lemma {:induction false} OpenLeavesOthers(b: Box, id: string, stem: string, buffer: seq<Snap>, path: string)
    requires b.cur.None?
    ensures Untouched(b, WriteFrames(Open(b, id, stem), buffer), path)
    ensures var b' := WriteFrames(Open(b, id, stem), buffer); b'.cur.Some? && b'.cur.value.matchId == id
  {
    OpenEffect(b.disk, Open(b, id, stem), id, FreshPath(stem, 1, b.disk.Keys), buffer);
  }

  /** Once closed, a recording is never reopened, extended, rewritten or deleted by the recorder,
      not even by a later process. */
  lemma {:induction false} ClosedForever(h: History, n: nat, k: nat, minTicks: nat, path: string)
    requires Stream(h) && n <= k <= |h|
    requires path in Run(h, n, minTicks).disk && !Run(h, n, minTicks).disk[path].open
    ensures path in Run(h, k, minTicks).disk
    ensures Run(h, k, minTicks).disk[path] == Run(h, n, minTicks).disk[path]
  {
    hide Inv, Apply, Stream;
    if n < k {
      ClosedForever(h, n, k - 1, minTicks, path);
      RunInv(h, k - 1, minTicks);
      EventLeavesClosed(h, k - 1, Run(h, k - 1, minTicks), minTicks, path);
    }
  }

  lemma {:induction false} EventLeavesClosed(h: History, n: nat, b: Box, minTicks: nat, path: string)
    requires Stream(h) && n < |h| && Inv(h, n, b) && path in b.disk && !b.disk[path].open
    ensures path in Apply(b, h[n], minTicks).disk && Apply(b, h[n], minTicks).disk[path] == b.disk[path]
  {
    hide Inv, Step, WritePositions;
    WriterIsOpen(h, n, b);
    match h[n] {
      case Tick(s, stem, positions) =>
        StepLeavesOthers(b, s, stem, minTicks, path);
        StepKeeps(h, n, b, minTicks);
        PositionsKeep(h, n + 1, Step(b, s, stem, minTicks), positions);
      case Restart(graceful) =>
    }
  }

  lemma {:induction false} WriterIsOpen(h: History, n: nat, b: Box)
    requires n <= |h| && Inv(h, n, b)
    ensures b.cur.Some? ==> b.cur.value.path in b.disk && b.disk[b.cur.value.path].open
  {
    hide AllFaithful, Tidy, BufferOk, Confirming, Tracked;
  }

  /** The sidecar written at close says what re-reading the file end to end would find, and says
      that the match is over exactly when it is marked finalized. */
  lemma {:induction false} SidecarMatchesFile(h: History, n: nat, minTicks: nat, path: string)
    requires Stream(h) && n <= |h| && path in Run(h, n, minTicks).disk
    ensures var f := Run(h, n, minTicks).disk[path];
            && (f.meta.inProgress <==> !f.meta.phase.Finalized?)
            && (f.open ==> !f.meta.phase.Finalized?)
            && (!f.meta.phase.Active? ==>
                f.meta == Extracted(f.lines, f.meta.matchId).(phase := f.meta.phase, inProgress := f.meta.inProgress))
  {
    RunInv(h, n, minTicks);
  }

  /** The metadata a re-read derives; only the recorder itself may claim that a match is over. */
  function Extracted(lines: seq<Line>, matchId: string): Meta {
    Meta(matchId, Unverified, true, |FullFrames(lines)|, PositionCount(lines), Peak(FullFrames(lines)))
  }

  /** The self-heal path: derive the metadata of a file by reading it line by line. */
  method ExtractMetadata(lines: seq<Line>, matchId: string) returns (meta: Meta)
    ensures meta == Extracted(lines, matchId)
  {
    var ticks, positionFrames, peakPlayers := 0, 0, 0;
    var i := 0;
    while i < |lines|
      invariant 0 <= i <= |lines|
      invariant ticks == |FullFrames(lines[..i])| && positionFrames == PositionCount(lines[..i])
      invariant peakPlayers == Peak(FullFrames(lines[..i]))
    {
      AppendedLine(lines[..i], lines[i]);
      assert lines[..i] + [lines[i]] == lines[..i + 1];
      match lines[i] {
        case Position(_) =>
          positionFrames := positionFrames + 1;
          assert FullFrames(lines[..i]) + [] == FullFrames(lines[..i]);
        case Full(s) =>
          AppendedPeak(FullFrames(lines[..i]), s);
          ticks := ticks + 1;
          if s.players > peakPlayers {
            peakPlayers := s.players;
          }
      }
      i := i + 1;
    }
    assert lines[..i] == lines;
    meta := Meta(matchId, Unverified, true, ticks, positionFrames, peakPlayers);
  }

  /* ----- opening ----- */

  /** What an accepted frame with a populated map and mode does to the open recording. */
  lemma {:induction false} NamedFrame(b: Box, s: Snap, stem: string, minTicks: nat)
    requires Accepts(b, s) && IsActive(s) && s.named
    requires forall x :: x in b.pending ==> IdOf(x) == b.pendingId
    ensures var b' := Step(b, s, stem, minTicks);
            && (b.cur.None? ==>
                  if |Buffered(b.buffer, s)| < CONFIRM_TICKS then b'.cur.None? && b'.buffer == Buffered(b.buffer, s)
                  else b'.cur.Some? && Some(b'.cur.value.matchId) == IdOf(s))
            && (b.cur.Some? ==>
                  && b'.cur.Some?
                  && (b'.cur.value.matchId == b.cur.value.matchId || Some(b'.cur.value.matchId) == IdOf(s)))
  {
    ActiveEffect(b, s, stem, minTicks);
    var b1 := Track(b, s).(inactive := 0, idle := 0);
    if b1.cur.None? {
      OpenLeavesOthers(ClearPending(b1), IdOf(s).value, stem, Buffered(b.buffer, s), "");
    } else if IdOf(s) != Some(b1.cur.value.matchId) {
      ForeignEffect(b, s, stem, minTicks);
      var pending := PendingAfter(Track(b, s), s);
      if |pending| >= CONFIRM_TICKS {
        var b2 := ClearPending(Close(b1, minTicks, true)).(buffer := pending[..|pending| - 1]);
        assert Buffered(b2.buffer, s) == pending;
        OpenLeavesOthers(b2, IdOf(s).value, stem, pending, "");
      }
    }
  }

  lemma {:induction false} NamedTick(h: History, n: nat, b: Box, minTicks: nat, id: string)
    requires Stream(h) && n < |h| && Inv(h, n, b) && ActiveAs(h, n, id) && h[n].snap.named
    ensures var b' := Apply(b, h[n], minTicks);
            && (b.cur.None? ==>
                  if |Buffered(b.buffer, h[n].snap)| < CONFIRM_TICKS
                  then b'.cur.None? && b'.buffer == Buffered(b.buffer, h[n].snap)
                  else b'.cur.Some? && b'.cur.value.matchId == id)
            && (b.cur.Some? ==>
                  && b'.cur.Some? && b'.cur.value.matchId in {b.cur.value.matchId, id}
                  && (b'.cur.value.matchId != b.cur.value.matchId <==> Evidence(h, n, b.cur.value.matchId)))
  {
    hide Settled, Confirming, Evidence, Step, Stream, Buffered;
    var s, b1 := h[n].snap, Step(b, h[n].snap, h[n].stem, minTicks);
    PendingIds(h, n, b);
    NamedFrame(b, s, h[n].stem, minTicks);
    StepKeeps(h, n, b, minTicks);
    PositionsKeep(h, n + 1, b1, h[n].positions);
  }

  lemma {:induction false} PendingIds(h: History, n: nat, b: Box)
    requires Stream(h) && n <= |h| && Confirming(h, n, b)
    ensures forall x :: x in b.pending ==> IdOf(x) == b.pendingId
  {
    if b.cur.Some? && b.pendingId.Some? {
      SelectedNonempty(h, n - |b.pending|, n, b.pendingId.value);
    }
  }

  /* ----- opening across gaps ----- */

  /** The known-inactive ticks since the last frame of the match, among the events from..n. */
  function IdleSince(h: History, from: nat, n: nat, id: string): nat
    requires n <= |h|
  {
    if n <= from || ActiveAs(h, n - 1, id) then 0
    else IdleSince(h, from, n - 1, id) + if AcceptedInactive(h, n - 1) then 1 else 0
  }

  /** From a frame of the match on there are only frames of it, dropped ticks, and never more than two
      known-inactive ticks between two of its frames. Tick ids may skip and repeat at will. */
  ghost predicate Undisturbed(h: History, from: nat, n: nat, id: string)
    requires n <= |h|
  {
    && from < n && ActiveAs(h, from, id)
    && (forall i :: from <= i < n ==> h[i].Tick? && (!Accepted(h, i) || ActiveAs(h, i, id) || AcceptedInactive(h, i)))
    && (forall i :: from < i <= n ==> IdleSince(h, from, i, id) < CONFIRM_TICKS)
  }

  /** The frames in the file being written, or in the pre-open buffer while there is none. */
  function Holding(b: Box): seq<Snap> {
    match b.cur
    case Some(r) => if r.path in b.disk then Frames(b.disk[r.path]) else []
    case None => b.buffer
  }

  /** What the pre-open buffer already holds of match `id`. */
  function Early(b: Box, id: string): seq<Snap> {
    if b.buffer != [] && IdOf(b.buffer[0]) == Some(id) then b.buffer else []
  }

  /** The match is being recorded or buffered, with all its frames: the `early` ones and every one since. */
  ghost predicate Opening(h: History, from: nat, n: nat, id: string, early: seq<Snap>, b: Box)
    requires n <= |h|
  {
    && Holding(b) == early + Selected(h, from, n, id)
    && match b.cur
       case Some(r) => r.path in b.disk && r.matchId == id && b.inactive <= IdleSince(h, from, n, id)
       case None => b.buffer != [] && IdOf(b.buffer[0]) == Some(id) && b.idle == IdleSince(h, from, n, id)
  }

  /** A frame of the match by which a recording is due: its third if the file can be named, else its tenth. */
  predicate Due(h: History, from: nat, k: nat, id: string)
    requires k < |h|
  {
    && ActiveAs(h, k, id)
    && |Selected(h, from, k + 1, id)| >= if h[k].snap.named then CONFIRM_TICKS else FILENAME_BUFFER_LIMIT
  }

  lemma {:induction false} PositionsKeepOpening(b: Box, b': Box, h: History, from: nat, n: nat, id: string,
          early: seq<Snap>)
    requires n <= |h| && OnlyPositions(b, b')
    ensures Opening(h, from, n, id, early, b) ==> Opening(h, from, n, id, early, b')
    ensures b.cur.Some? ==> b'.cur.Some? && b'.cur.value.matchId == b.cur.value.matchId
  {
  }

  /** A frame of the match when nothing is recorded. */
  lemma {:induction false} FrameOpens(b: Box, s: Snap, stem: string, minTicks: nat)
    requires Accepts(b, s) && IsActive(s) && b.cur.None?
    ensures var b' := Step(b, s, stem, minTicks);
            var buffer := Buffered(b.buffer, s);
            && (b'.cur.None? ==> b'.buffer == buffer && b'.idle == 0)
            && (b'.cur.Some? ==> Some(b'.cur.value.matchId) == IdOf(s) && b'.inactive == 0)
            && (|buffer| >= (if s.named then CONFIRM_TICKS else FILENAME_BUFFER_LIMIT) ==> b'.cur.Some?)
  {
    hide FreshPath, WriteFrames;
    var b1 := ClearPending(Track(b, s).(inactive := 0, idle := 0));
    OpenLeavesOthers(b1, IdOf(s).value, stem, Buffered(b.buffer, s), "");
    FramesKeepCounters(Open(b1, IdOf(s).value, stem), Buffered(b.buffer, s));
  }

  /** ... and the buffer or the new file then holds it after the others. */
  lemma {:induction false} FrameHeld(b: Box, s: Snap, stem: string, minTicks: nat)
    requires Accepts(b, s) && IsActive(s) && b.cur.None?
    ensures var b' := Step(b, s, stem, minTicks);
            && Holding(b') == Buffered(b.buffer, s)
            && (b'.cur.Some? ==> b'.cur.value.path in b'.disk)
  {
    hide FreshPath, WriteFrames, FullFrames;
    var b1 := ClearPending(Track(b, s).(inactive := 0, idle := 0));
    var id := IdOf(s).value;
    OpenEffect(b.disk, Open(b1, id, stem), id, FreshPath(stem, 1, b.disk.Keys), Buffered(b.buffer, s));
  }

  /** A frame of the match being recorded goes to the end of its file. */
  lemma {:induction false} FrameAppended(b: Box, s: Snap, stem: string, minTicks: nat)
    requires Accepts(b, s) && IsActive(s) && b.cur.Some? && IdOf(s) == Some(b.cur.value.matchId)
    requires b.cur.value.path in b.disk
    ensures var b' := Step(b, s, stem, minTicks);
            && b'.cur.Some? && b'.cur.value.matchId == b.cur.value.matchId && b'.cur.value.path in b'.disk
            && b'.inactive == 0 && Holding(b') == Holding(b) + [s]
  {
    hide FullFrames;
    AppendedLine(b.disk[b.cur.value.path].lines, Full(s));
  }

  lemma {:induction false} FramesKeepCounters(b: Box, frames: seq<Snap>)
    ensures WriteFrames(b, frames).inactive == b.inactive
  {
    if frames != [] {
      FramesKeepCounters(b, frames[..|frames| - 1]);
    }
  }

  lemma {:induction false} SelectedMore(h: History, from: nat, n: nat, id: string)
    requires from <= n < |h|
    ensures Selected(h, from, n + 1, id) == Selected(h, from, n, id) + if ActiveAs(h, n, id) then [h[n].snap] else []
  {
  }

  lemma {:induction false} OpeningGoesOn(h: History, from: nat, n: nat, id: string, early: seq<Snap>, b: Box,
          minTicks: nat)
    requires from < n < |h| && Undisturbed(h, from, n + 1, id) && Tracked(h, n, b)
    requires Opening(h, from, n, id, early, b)
    ensures var b' := Step(b, h[n].snap, h[n].stem, minTicks);
            && Opening(h, from, n + 1, id, early, b') && (Due(h, from, n, id) ==> b'.cur.Some?)
  {
    hide Selected, Step, Opening, Tracked;
    if ActiveAs(h, n, id) {
      FrameGoesOn(h, from, n, id, early, b, minTicks);
    } else {
      NoFrameGoesOn(h, from, n, id, early, b, minTicks);
    }
  }

  lemma {:induction false} FrameGoesOn(h: History, from: nat, n: nat, id: string, early: seq<Snap>, b: Box,
          minTicks: nat)
    requires from < n < |h| && ActiveAs(h, n, id) && Tracked(h, n, b) && Opening(h, from, n, id, early, b)
    ensures var b' := Step(b, h[n].snap, h[n].stem, minTicks);
            && Opening(h, from, n + 1, id, early, b') && (Due(h, from, n, id) ==> b'.cur.Some?)
  {
    hide Selected, Step, FullFrames;
    var s := h[n].snap;
    SelectedMore(h, from, n, id);
    assert early + Selected(h, from, n, id) + [s] == early + (Selected(h, from, n, id) + [s]);
    assert Accepts(b, s);
    if b.cur.None? {
      FrameOpens(b, s, h[n].stem, minTicks);
      FrameHeld(b, s, h[n].stem, minTicks);
    } else {
      FrameAppended(b, s, h[n].stem, minTicks);
    }
  }

  /** Nothing moves on a tick that is dropped, or known-inactive but not the third such. */
  lemma {:induction false} NoFrameGoesOn(h: History, from: nat, n: nat, id: string, early: seq<Snap>, b: Box,
          minTicks: nat)
    requires from < n < |h| && Undisturbed(h, from, n + 1, id) && !ActiveAs(h, n, id)
    requires Tracked(h, n, b) && Opening(h, from, n, id, early, b)
    ensures Opening(h, from, n + 1, id, early, Step(b, h[n].snap, h[n].stem, minTicks))
  {
    hide Selected, FullFrames, Step;
    SelectedMore(h, from, n, id);
    assert h[n].Tick? && (!Accepted(h, n) || AcceptedInactive(h, n));
    assert IdleSince(h, from, n + 1, id) < CONFIRM_TICKS;
    assert Accepts(b, h[n].snap) == Accepted(h, n);
    QuietStep(b, h[n].snap, h[n].stem, minTicks);
  }

  lemma {:induction false} QuietStep(b: Box, s: Snap, stem: string, minTicks: nat)
    requires !Accepts(b, s) || (!IsActive(s) && KnownInactive(s.state))
    requires Accepts(b, s) ==>
               if b.cur.None? then b.buffer != [] && b.idle + 1 < CONFIRM_TICKS else b.inactive + 1 < CONFIRM_TICKS
    ensures var b', more := Step(b, s, stem, minTicks), if Accepts(b, s) then 1 else 0;
            && b'.cur == b.cur && b'.disk == b.disk && b'.buffer == b.buffer
            && (b.cur.None? ==> b'.idle == b.idle + more) && (b.cur.Some? ==> b'.inactive <= b.inactive + more)
  {
  }

  lemma {:induction false} OpeningReached(h: History, from: nat, n: nat, minTicks: nat, id: string)
    requires Stream(h) && from < n <= |h| && Undisturbed(h, from, n, id) && Run(h, from, minTicks).cur.None?
    ensures Opening(h, from, n, id, Early(Run(h, from, minTicks), id), Run(h, n, minTicks))
    ensures Due(h, from, n - 1, id) ==> Run(h, n, minTicks).cur.Some?
  {
    hide Inv, Apply, Stream, Opening, Step, Selected, Accepted, IdleSince, Due, Early;
    var e, b := h[n - 1], Run(h, n - 1, minTicks);
    var early := Early(Run(h, from, minTicks), id);
    RunInv(h, n - 1, minTicks);
    assert e.Tick?;
    var b1 := Step(b, e.snap, e.stem, minTicks);
    InvTracked(h, n - 1, b);
    if n == from + 1 {
      FirstFrame(h, from, id, b, minTicks);
    } else {
      assert Undisturbed(h, from, n - 1, id);
      OpeningReached(h, from, n - 1, minTicks, id);
      OpeningGoesOn(h, from, n - 1, id, early, b, minTicks);
    }
    StepThenPositions(h, n - 1, b, minTicks);
    PositionsKeepOpening(b1, Run(h, n, minTicks), h, from, n, id, early);
  }

  lemma {:induction false} InvTracked(h: History, n: nat, b: Box)
    requires n <= |h| && Inv(h, n, b)
    ensures Tracked(h, n, b)
  {
  }

  lemma {:induction false} StepThenPositions(h: History, n: nat, b: Box, minTicks: nat)
    requires Stream(h) && n < |h| && h[n].Tick? && Inv(h, n, b)
    ensures OnlyPositions(Step(b, h[n].snap, h[n].stem, minTicks), Apply(b, h[n], minTicks))
  {
    hide Inv, Step, OnlyPositions;
    StepKeeps(h, n, b, minTicks);
    PositionsKeep(h, n + 1, Step(b, h[n].snap, h[n].stem, minTicks), h[n].positions);
  }

  lemma {:induction false} FirstFrame(h: History, n: nat, id: string, b: Box, minTicks: nat)
    requires n < |h| && ActiveAs(h, n, id) && Tracked(h, n, b) && b.cur.None?
    ensures var b' := Step(b, h[n].snap, h[n].stem, minTicks);
            && Opening(h, n, n + 1, id, Early(b, id), b') && !Due(h, n, n, id)
  {
    hide Step, FullFrames, Selected, Early, Buffered;
    FrameOpens(b, h[n].snap, h[n].stem, minTicks);
    FrameHeld(b, h[n].snap, h[n].stem, minTicks);
    BufferedIsEarly(b, h[n].snap, id);
    SelectedFirst(h, n, id);
  }

  lemma {:induction false} BufferedIsEarly(b: Box, s: Snap, id: string)
    requires IdOf(s) == Some(id)
    ensures Buffered(b.buffer, s) == Early(b, id) + [s] && IdOf(Buffered(b.buffer, s)[0]) == Some(id)
  {
  }

  lemma {:induction false} SelectedFirst(h: History, n: nat, id: string)
    requires n < |h| && ActiveAs(h, n, id)
    ensures Selected(h, n, n + 1, id) == [h[n].snap]
  {
    assert Selected(h, n, n, id) == [];
  }

  /** With no writer open, the third accepted frame of a match opens its recording if its map and mode
      are populated by then, and the tenth in any case, whatever tick ids are missing, whatever ticks are
      dropped, and though the state reads inactive up to twice in a row in between. It stays open, and
      its file holds what was buffered of the match before and every accepted frame since. */
  lemma {:induction false} OpensAcrossGaps(h: History, from: nat, n: nat, minTicks: nat, id: string)
    requires Stream(h) && from < n <= |h| && Undisturbed(h, from, n, id) && Run(h, from, minTicks).cur.None?
    requires exists k :: from <= k < n && Due(h, from, k, id)
    ensures var b := Run(h, n, minTicks);
            && b.cur.Some? && b.cur.value.matchId == id && b.cur.value.path in b.disk
            && Frames(b.disk[b.cur.value.path]) == Early(Run(h, from, minTicks), id) + Selected(h, from, n, id)
  {
    hide Inv, Apply, Stream, Step, Selected, Accepted, IdleSince, Due, Early;
    OpeningReached(h, from, n, minTicks, id);
    var k :| from <= k < n && Due(h, from, k, id);
    StaysOpen(h, from, k + 1, n, minTicks, id);
  }

  lemma {:induction false} StaysOpen(h: History, from: nat, k: nat, n: nat, minTicks: nat, id: string)
    requires Stream(h) && from < k <= n <= |h| && Undisturbed(h, from, n, id) && Run(h, from, minTicks).cur.None?
    requires Due(h, from, k - 1, id)
    ensures Run(h, n, minTicks).cur.Some?
    decreases n
  {
    hide Inv, Apply, Stream, Step, Selected, Accepted, IdleSince, Opening, Due, Early;
    var early := Early(Run(h, from, minTicks), id);
    if n == k {
      OpeningReached(h, from, n, minTicks, id);
    } else {
      assert Undisturbed(h, from, n - 1, id);
      StaysOpen(h, from, k, n - 1, minTicks, id);
      var b := Run(h, n - 1, minTicks);
      OpeningReached(h, from, n - 1, minTicks, id);
      RunInv(h, n - 1, minTicks);
      InvTracked(h, n - 1, b);
      OpenStays(h, from, n - 1, id, early, b, minTicks);
      StepThenPositions(h, n - 1, b, minTicks);
      PositionsKeepOpening(Step(b, h[n - 1].snap, h[n - 1].stem, minTicks), Run(h, n, minTicks), h, from, n, id, early);
    }
  }

  lemma {:induction false} OpenStays(h: History, from: nat, n: nat, id: string, early: seq<Snap>, b: Box,
          minTicks: nat)
    requires from < n < |h| && Undisturbed(h, from, n + 1, id) && Tracked(h, n, b)
    requires Opening(h, from, n, id, early, b) && b.cur.Some?
    ensures Step(b, h[n].snap, h[n].stem, minTicks).cur.Some?
  {
    hide Selected;
    assert h[n].Tick? && (!Accepted(h, n) || ActiveAs(h, n, id) || AcceptedInactive(h, n));
    assert IdleSince(h, from, n + 1, id) < CONFIRM_TICKS;
    assert Accepts(b, h[n].snap) == Accepted(h, n);
  }

  /** Whatever the state before, three frames of one match in a row with a populated map and mode leave
      that match being recorded; only where another match is being recorded, the three must be
      gap-free. */
  lemma {:induction false} RecordsWhenStable(h: History, n: nat, minTicks: nat, id: string)
    requires Stream(h) && n + 3 <= |h|
    requires forall i :: n <= i < n + 3 ==> ActiveAs(h, i, id) && h[i].snap.named
    requires var r := Run(h, n, minTicks).cur;
             r.Some? && r.value.matchId != id ==> Follows(h, n + 1) && Follows(h, n + 2)
    ensures var b := Run(h, n + 3, minTicks); b.cur.Some? && b.cur.value.matchId == id
  {
    hide Run, Stream, ActiveAs, Follows, Evidence, Towards;
    var other := Other(Run(h, n, minTicks), id);
    assert ActiveAs(h, n, id) && ActiveAs(h, n + 1, id) && ActiveAs(h, n + 2, id);
    TowardsFirst(Run(h, n, minTicks), id);
    OneTickNearer(h, n, n + 1, minTicks, id, 0, other);
    OneTickNearer(h, n + 1, n + 2, minTicks, id, 1, other);
    OneTickNearer(h, n + 2, n + 3, minTicks, id, 2, other);
    if other.Some? {
      ThreeAreEvidence(h, n + 2, id, other.value);
    }
    TowardsLast(Run(h, n + 3, minTicks), id, other);
  }

  /** The match being recorded, if it is another one. */
  function Other(b: Box, id: string): Option<string> {
    if b.cur.Some? && b.cur.value.matchId != id then Some(b.cur.value.matchId) else None
  }

  /** After k frames: the match is being recorded, the other one still is, or at least k of the match
      are buffered. */
  ghost predicate Towards(b: Box, id: string, k: nat, other: Option<string>) {
    match b.cur
    case Some(r) => r.matchId == id || Some(r.matchId) == other
    case None => k < CONFIRM_TICKS && |b.buffer| >= k && (k > 0 ==> IdOf(b.buffer[0]) == Some(id))
  }

  lemma {:induction false} TowardsFirst(b: Box, id: string)
    ensures Towards(b, id, 0, Other(b, id))
  {
  }

  lemma {:induction false} TowardsLast(b: Box, id: string, other: Option<string>)
    requires Towards(b, id, CONFIRM_TICKS, other) && Other(b, id).None?
    ensures b.cur.Some? && b.cur.value.matchId == id
  {
  }

  lemma {:induction false} ThreeAreEvidence(h: History, n: nat, id: string, other: string)
    requires 2 <= n < |h| && id != other && Follows(h, n - 1) && Follows(h, n)
    requires ActiveAs(h, n - 2, id) && ActiveAs(h, n - 1, id) && ActiveAs(h, n, id)
    ensures Evidence(h, n, other)
  {
  }

  lemma {:induction false} OneTickNearer(h: History, n: nat, m: nat, minTicks: nat, id: string, k: nat,
          other: Option<string>)
    requires Stream(h) && m == n + 1 <= |h| && ActiveAs(h, n, id) && h[n].snap.named
    requires k < CONFIRM_TICKS && Towards(Run(h, n, minTicks), id, k, other)
    ensures Towards(Run(h, m, minTicks), id, k + 1, other)
    ensures Other(Run(h, m, minTicks), id).Some? ==> other.Some? && !Evidence(h, n, other.value)
  {
    hide Inv, Apply, Stream, Evidence;
    RunInv(h, n, minTicks);
    NamedTick(h, n, Run(h, n, minTicks), minTicks, id);
  }
}
