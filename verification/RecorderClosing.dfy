/** What becomes of a recording that is open: how it grows, and whether it is there after its end. */
module RecorderClosing {
  import opened Options
  import opened Lifecycle
  import opened Recorder
  import opened RecorderHistory
  import opened RecorderInvariant

  function Noted(texts: seq<string>): seq<Line> {
    seq(|texts|, k requires 0 <= k < |texts| => Position(texts[k]))
  }

  /** The frame of this event, if it is one of the match. */
  function Framed(h: History, n: nat, id: string): seq<Line>
    requires n < |h|
  {
    if ActiveAs(h, n, id) then [Full(h[n].snap)] else []
  }

  /** The name is free, or a recording of the match that took over has it. */
  predicate LeftTo(d: Disk, path: string, id: string, next: Option<string>) {
    path in d ==> d[path].open && d[path].meta.matchId != id && Some(d[path].meta.matchId) == next
  }

  /** A recording goes on, one line after the other, until there is evidence that its match is over. Then it
      is kept as finalized if it has at least `minTicks` frames, and deleted if not. A graceful shutdown
      keeps it as unverified, a crash as it is. */
  lemma {:induction false} WhatBecomesOfARecording(h: History, n: nat, minTicks: nat, path: string)
    requires Stream(h) && n < |h|
    requires var d := Run(h, n, minTicks).disk; path in d && d[path].open
    ensures var f, d' := Run(h, n, minTicks).disk[path], Run(h, n + 1, minTicks).disk;
            var id := f.meta.matchId;
            match h[n]
            case Restart(graceful) =>
              && path in d' && !d'[path].open && d'[path].lines == f.lines && d'[path].meta.matchId == id
              && d'[path].meta.phase == if graceful then Unverified else Active
            case Tick(s, _, positions) =>
              if !Evidence(h, n, id) then
                && path in d' && d'[path].open && d'[path].meta == f.meta
                && d'[path].lines == f.lines + Framed(h, n, id) + Noted(positions)
              else if |Frames(f)| >= minTicks then
                && path in d' && !d'[path].open && d'[path].lines == f.lines
                && d'[path].meta.phase == Finalized && d'[path].meta.matchId == id
              else LeftTo(d', path, id, IdOf(s))
  {
    hide Inv, Stream, Evidence, LeftTo, Step, Reboot, WritePositions, Framed, Noted, FullFrames, CloseFile;
    var b := Run(h, n, minTicks);
    RunInv(h, n, minTicks);
    InvFacts(h, n, b, path);
    match h[n]
    case Restart(graceful) => RestartKeeps(b, graceful);
    case Tick(s, stem, positions) =>
      StepKeeps(h, n, b, minTicks);
      AcceptsAlike(h, n, b);
      StepOnFile(b, s, stem, minTicks);
      var b1 := Step(b, s, stem, minTicks);
      InvOpen(h, n + 1, b1);
      PositionsKeep(h, n + 1, b1, positions);
      PositionsOnFile(b1, positions);
      PositionsElsewhere(b1, WritePositions(b1, positions), path);
      FramedIs(h, n, b, b.cur.value.matchId);
      KeptExactly(b.disk, b.cur.value, minTicks);
      if Evidence(h, n, b.cur.value.matchId) && b.cur.value.ticks < minTicks {
        NameIsFree(b, b1, s, minTicks);
      }
      PositionsLeave(b1, WritePositions(b1, positions), path, b.cur.value.matchId, IdOf(s));
  }

  lemma {:induction false} InvFacts(h: History, n: nat, b: Box, path: string)
    requires n <= |h| && Inv(h, n, b) && path in b.disk && b.disk[path].open
    ensures b.cur.Some? && b.cur.value.path == path && b.disk[path].meta.matchId == b.cur.value.matchId
    ensures b.cur.value.ticks == |Frames(b.disk[path])| && b.disk[path].meta.phase == Active
  {
  }

  lemma {:induction false} InvOpen(h: History, n: nat, b: Box)
    requires n <= |h| && Inv(h, n, b)
    ensures b.cur.Some? ==>
              && b.cur.value.path in b.disk && b.disk[b.cur.value.path].open
              && b.disk[b.cur.value.path].meta.matchId == b.cur.value.matchId
    ensures forall p :: p in b.disk && b.disk[p].open ==> b.cur.Some? && b.cur.value.path == p
  {
  }

  lemma {:induction false} AcceptsAlike(h: History, n: nat, b: Box)
    requires n < |h| && Inv(h, n, b) && h[n].Tick?
    ensures Accepts(b, h[n].snap) == Accepted(h, n)
  {
  }

  lemma {:induction false} RestartKeeps(b: Box, graceful: bool)
    requires b.cur.Some? && b.cur.value.path in b.disk && b.disk[b.cur.value.path].meta.matchId == b.cur.value.matchId
    requires b.disk[b.cur.value.path].meta.phase == Active
    ensures var path, d' := b.cur.value.path, Reboot(b, graceful).disk;
            && path in d' && !d'[path].open && d'[path].lines == b.disk[path].lines
            && d'[path].meta.matchId == b.disk[path].meta.matchId
            && d'[path].meta.phase == if graceful then Unverified else Active
  {
  }

  /** The line a step adds to the open recording. */
  function LineOf(b: Box, s: Snap): seq<Line>
    requires b.cur.Some?
  {
    if Accepts(b, s) && IsActive(s) && IdOf(s) == Some(b.cur.value.matchId) then [Full(s)] else []
  }

  lemma {:induction false} FramedIs(h: History, n: nat, b: Box, id: string)
    requires n < |h| && h[n].Tick? && b.cur.Some? && b.cur.value.matchId == id
    requires Accepts(b, h[n].snap) == Accepted(h, n)
    ensures LineOf(b, h[n].snap) == Framed(h, n, id)
  {
  }

  /** A step adds its frame to the open recording, or closes it and leaves what closing leaves of it. */
  ghost predicate OnFile(b: Box, b': Box, s: Snap, minTicks: nat)
    requires b.cur.Some? && b.cur.value.path in b.disk
  {
    var r, d := b.cur.value, CloseFile(b.disk, b.cur.value, minTicks, true);
    if Ended(b', r.matchId) then
      if r.path in d then r.path in b'.disk && b'.disk[r.path] == d[r.path]
      else r.path in b'.disk ==>
             b'.cur.Some? && b'.cur.value.path == r.path && Some(b'.cur.value.matchId) == IdOf(s) != Some(r.matchId)
    else
      && b'.cur.value.path == r.path && r.path in b'.disk
      && b'.disk[r.path] == b.disk[r.path].(lines := b.disk[r.path].lines + LineOf(b, s))
  }

  lemma {:induction false} StepOnFile(b: Box, s: Snap, stem: string, minTicks: nat)
    requires b.cur.Some? && b.cur.value.path in b.disk
    ensures OnFile(b, Step(b, s, stem, minTicks), s, minTicks)
  {
    if Accepts(b, s) && IsActive(s) {
      ActiveEffect(b, s, stem, minTicks);
      if IdOf(s) != Some(b.cur.value.matchId) {
        ForeignOnFile(b, s, stem, minTicks);
      } else {
        hide Step, OnFile;
        OwnOnFile(b, s, stem, minTicks);
      }
    } else {
      QuietOnFile(b, s, stem, minTicks);
    }
  }

  lemma {:induction false} OwnOnFile(b: Box, s: Snap, stem: string, minTicks: nat)
    requires b.cur.Some? && b.cur.value.path in b.disk
    requires Accepts(b, s) && IsActive(s) && IdOf(s) == Some(b.cur.value.matchId)
    ensures OnFile(b, Step(b, s, stem, minTicks), s, minTicks)
  {
  }

  lemma {:induction false} QuietOnFile(b: Box, s: Snap, stem: string, minTicks: nat)
    requires b.cur.Some? && b.cur.value.path in b.disk && !(Accepts(b, s) && IsActive(s))
    ensures OnFile(b, Step(b, s, stem, minTicks), s, minTicks)
  {
    assert b.disk[b.cur.value.path].lines + [] == b.disk[b.cur.value.path].lines;
  }

  lemma {:induction false} ForeignOnFile(b: Box, s: Snap, stem: string, minTicks: nat)
    requires b.cur.Some? && b.cur.value.path in b.disk
    requires Accepts(b, s) && IsActive(s) && IdOf(s) != Some(b.cur.value.matchId)
    ensures OnFile(b, Step(b, s, stem, minTicks), s, minTicks)
  {
    hide Step, CloseFile, Track;
    ForeignEffect(b, s, stem, minTicks);
    TrackKeepsFiles(b, s);
    var b1 := Track(b, s).(inactive := 0, idle := 0);
    var pending := PendingAfter(Track(b, s), s);
    assert b.disk[b.cur.value.path].lines + [] == b.disk[b.cur.value.path].lines;
    if |pending| >= CONFIRM_TICKS {
      BufferingAdds(ClearPending(Close(b1, minTicks, true)).(buffer := pending[..|pending| - 1]), s, stem);
    }
  }

  lemma {:induction false} TrackKeepsFiles(b: Box, s: Snap)
    ensures Track(b, s).disk == b.disk && Track(b, s).cur == b.cur
  {
  }

  /** Buffering a frame leaves all files alone, and adds one at most: the one it opens. */
  lemma {:induction false} BufferingAdds(b: Box, s: Snap, stem: string)
    requires b.cur.None? && IsActive(s)
    ensures var b' := StepBuffering(b, s, stem);
            && (forall p :: p in b.disk ==> p in b'.disk && b'.disk[p] == b.disk[p])
            && (forall p :: p in b'.disk && p !in b.disk ==> b'.cur.Some? && b'.cur.value.path == p)
            && (b'.cur.Some? ==> Some(b'.cur.value.matchId) == IdOf(s))
  {
    hide WriteFrames, FreshPath;
    var id := IdOf(s).value;
    OpenEffect(b.disk, Open(b, id, stem), id, FreshPath(stem, 1, b.disk.Keys), Buffered(b.buffer, s));
  }

  /** Closing keeps a recording exactly if it is long enough. */
  lemma {:induction false} KeptExactly(d: Disk, r: Rec, minTicks: nat)
    requires r.path in d
    ensures var d' := CloseFile(d, r, minTicks, true);
            && (r.path in d' <==> r.ticks >= minTicks)
            && (r.path in d' ==>
                  && d'[r.path].lines == d[r.path].lines && !d'[r.path].open
                  && d'[r.path].meta.phase == Finalized && d'[r.path].meta.matchId == r.matchId)
  {
  }

  /** A deleted recording leaves its name. */
  lemma {:induction false} NameIsFree(b: Box, b': Box, s: Snap, minTicks: nat)
    requires b.cur.Some? && b.cur.value.path in b.disk && b.cur.value.ticks < minTicks
    requires OnFile(b, b', s, minTicks) && Ended(b', b.cur.value.matchId)
    requires b'.cur.Some? ==>
               && b'.cur.value.path in b'.disk && b'.disk[b'.cur.value.path].open
               && b'.disk[b'.cur.value.path].meta.matchId == b'.cur.value.matchId
    ensures LeftTo(b'.disk, b.cur.value.path, b.cur.value.matchId, IdOf(s))
  {
  }

  /* ----- position frames ----- */

  lemma {:induction false} PositionsOnFile(b: Box, texts: seq<string>)
    requires b.cur.Some? ==> b.cur.value.path in b.disk
    ensures var b' := WritePositions(b, texts);
            && (b.cur.None? ==> b' == b)
            && (b.cur.Some? ==>
                  var path := b.cur.value.path;
                  && b'.cur.Some? && b'.cur.value.path == path && path in b'.disk
                  && b'.disk[path] == b.disk[path].(lines := b.disk[path].lines + Noted(texts)))
  {
    hide AppendLine;
    if texts == [] {
      if b.cur.Some? {
        assert b.disk[b.cur.value.path].lines + Noted(texts) == b.disk[b.cur.value.path].lines;
      }
    } else {
      var rest := texts[..|texts| - 1];
      PositionsOnFile(b, rest);
      OnePosition(WritePositions(b, rest), texts[|texts| - 1]);
      assert Noted(texts) == Noted(rest) + [Position(texts[|texts| - 1])];
    }
  }

  lemma {:induction false} OnePosition(b: Box, text: string)
    requires b.cur.Some? ==> b.cur.value.path in b.disk
    ensures var b' := WritePosition(b, text);
            && (b.cur.None? ==> b' == b)
            && (b.cur.Some? ==>
                  var path := b.cur.value.path;
                  && b'.cur.Some? && b'.cur.value.path == path && path in b'.disk
                  && b'.disk[path] == b.disk[path].(lines := b.disk[path].lines + [Position(text)]))
  {
  }

  lemma {:induction false} PositionsElsewhere(b: Box, b': Box, path: string)
    requires OnlyPositions(b, b')
    ensures path in b'.disk <==> path in b.disk
    ensures path in b.disk && !b.disk[path].open ==> b'.disk[path] == b.disk[path]
  {
  }

  lemma {:induction false} PositionsLeave(b: Box, b': Box, path: string, id: string, next: Option<string>)
    requires OnlyPositions(b, b')
    ensures LeftTo(b.disk, path, id, next) ==> LeftTo(b'.disk, path, id, next)
  {
  }

  /* ----- new recordings ----- */

  /** The recording was opened by this snapshot, under the first of its names that was free. */
  ghost predicate OpenedBy(d: Disk, path: string, f: File, s: Snap, stem: string) {
    && f.open && Some(f.meta.matchId) == IdOf(s)
    && f.meta == Meta(f.meta.matchId, Active, true, 0, 0, 0)
    && exists j :: 1 <= j && path == PathName(stem, j) && forall i :: 1 <= i < j ==> PathName(stem, i) in d
  }

  /** A recording that was not there before was opened by the snapshot, and is marked as not final. */
  lemma {:induction false} NewRecordings(h: History, n: nat, minTicks: nat, path: string)
    requires Stream(h) && n < |h|
    requires path !in Run(h, n, minTicks).disk && path in Run(h, n + 1, minTicks).disk
    ensures h[n].Tick?
         && OpenedBy(Run(h, n, minTicks).disk, path, Run(h, n + 1, minTicks).disk[path], h[n].snap, h[n].stem)
  {
    hide Inv, Stream, Step, WritePositions, OpenedBy;
    var b := Run(h, n, minTicks);
    RunInv(h, n, minTicks);
    if h[n].Tick? {
      var b1 := Step(b, h[n].snap, h[n].stem, minTicks);
      StepKeeps(h, n, b, minTicks);
      PositionsKeep(h, n + 1, b1, h[n].positions);
      PositionsElsewhere(b1, WritePositions(b1, h[n].positions), path);
      StepOpens(b, h[n].snap, h[n].stem, minTicks, path);
      StillOpenedBy(b.disk, path, b1.disk[path], WritePositions(b1, h[n].positions).disk[path], h[n].snap, h[n].stem);
    } else {
      RestartAdds(b, h[n].graceful);
    }
  }

  lemma {:induction false} RestartAdds(b: Box, graceful: bool)
    ensures forall p :: p in Reboot(b, graceful).disk ==> p in b.disk
  {
  }

  lemma {:induction false} StillOpenedBy(d: Disk, path: string, f: File, f': File, s: Snap, stem: string)
    requires OpenedBy(d, path, f, s, stem) && f' == f.(lines := f'.lines)
    ensures OpenedBy(d, path, f', s, stem)
  {
  }

  lemma {:induction false} StepOpens(b: Box, s: Snap, stem: string, minTicks: nat, path: string)
    requires path !in b.disk && path in Step(b, s, stem, minTicks).disk
    ensures OpenedBy(b.disk, path, Step(b, s, stem, minTicks).disk[path], s, stem)
  {
    hide OpenedBy, Step, Accepts, IsActive;
    if !Accepts(b, s) || !IsActive(s) {
      QuietOpensNothing(b, s, stem, minTicks);
    } else if b.cur.None? {
      FirstOpens(b, s, stem, minTicks, path);
    } else if IdOf(s) == Some(b.cur.value.matchId) {
      OwnOpensNothing(b, s, stem, minTicks);
    } else {
      ForeignOpens(b, s, stem, minTicks, path);
    }
  }

  lemma {:induction false} QuietOpensNothing(b: Box, s: Snap, stem: string, minTicks: nat)
    requires !Accepts(b, s) || !IsActive(s)
    ensures forall p :: p in Step(b, s, stem, minTicks).disk ==> p in b.disk
  {
    hide CloseFile;
    if b.cur.Some? {
      ClosingAddsNothing(b.disk, b.cur.value, minTicks);
    }
  }

  lemma {:induction false} ClosingAddsNothing(d: Disk, r: Rec, minTicks: nat)
    ensures forall p :: p in CloseFile(d, r, minTicks, true) ==> p in d
  {
  }

  lemma {:induction false} OwnOpensNothing(b: Box, s: Snap, stem: string, minTicks: nat)
    requires Accepts(b, s) && IsActive(s) && b.cur.Some? && IdOf(s) == Some(b.cur.value.matchId)
    ensures forall p :: p in Step(b, s, stem, minTicks).disk ==> p in b.disk
  {
    hide StepBuffering, Close;
  }

  lemma {:induction false} FirstOpens(b: Box, s: Snap, stem: string, minTicks: nat, path: string)
    requires Accepts(b, s) && IsActive(s) && b.cur.None?
    requires path !in b.disk && path in Step(b, s, stem, minTicks).disk
    ensures OpenedBy(b.disk, path, Step(b, s, stem, minTicks).disk[path], s, stem)
  {
    hide OpenedBy, Step, StepBuffering, Track;
    ActiveEffect(b, s, stem, minTicks);
    TrackKeepsFiles(b, s);
    BufferingOpens(ClearPending(Track(b, s).(inactive := 0, idle := 0)), b.disk, s, stem, path);
  }

  lemma {:induction false} ForeignOpens(b: Box, s: Snap, stem: string, minTicks: nat, path: string)
    requires Accepts(b, s) && IsActive(s) && b.cur.Some? && IdOf(s) != Some(b.cur.value.matchId)
    requires path !in b.disk && path in Step(b, s, stem, minTicks).disk
    ensures OpenedBy(b.disk, path, Step(b, s, stem, minTicks).disk[path], s, stem)
  {
    hide OpenedBy, Step, StepBuffering, Track, CloseFile;
    ForeignEffect(b, s, stem, minTicks);
    TrackKeepsFiles(b, s);
    ClosingAddsNothing(b.disk, b.cur.value, minTicks);
    var pending := PendingAfter(Track(b, s), s);
    if |pending| >= CONFIRM_TICKS {
      var b1 := Track(b, s).(inactive := 0, idle := 0);
      var b2 := ClearPending(Close(b1, minTicks, true)).(buffer := pending[..|pending| - 1]);
      BufferingOpens(b2, b.disk, s, stem, path);
    }
  }

  lemma {:induction false} BufferingOpens(b: Box, d: Disk, s: Snap, stem: string, path: string)
    requires b.cur.None? && IsActive(s) && forall p :: p in b.disk ==> p in d
    requires path !in d && path in StepBuffering(b, s, stem).disk
    ensures OpenedBy(d, path, StepBuffering(b, s, stem).disk[path], s, stem)
  {
    hide WriteFrames, FreshPath;
    var id, name := IdOf(s).value, FreshPath(stem, 1, b.disk.Keys);
    OpenEffect(b.disk, Open(b, id, stem), id, name, Buffered(b.buffer, s));
    FreshIsFirst(stem, 1, b.disk.Keys);
    var j :| 1 <= j && name == PathName(stem, j) && forall i :: 1 <= i < j ==> PathName(stem, i) in b.disk.Keys;
    assert forall i :: 1 <= i < j ==> PathName(stem, i) in d;
  }

  /** The peak in a sidecar is the most players that any frame shows. */
  lemma {:induction false} PeakIsTheMost(frames: seq<Snap>)
    ensures forall s :: s in frames ==> s.players <= Peak(frames)
    ensures frames != [] ==> exists s :: s in frames && s.players == Peak(frames)
  {
    if frames != [] {
      var rest, last := frames[..|frames| - 1], frames[|frames| - 1];
      PeakIsTheMost(rest);
      assert frames == rest + [last];
      if last.players > Peak(rest) {
        assert last in frames && last.players == Peak(frames);
      } else if rest == [] {
        assert last in frames && last.players == 0;
      } else {
        var s :| s in rest && s.players == Peak(rest);
        assert s in frames;
      }
    }
  }
}
