/** What the recorder does to the two files of one recording are the moves that the HTTP gate's cache is
    proved against. */
module RecorderFiles {
  import opened Options
  import opened Lifecycle
  import opened Recorder
  import opened RecorderHistory
  import opened RecorderInvariant
  import M = MetaCache

  type Moves = seq<M.EnvStep>

  function MetaOf(m: Meta): M.Meta {
    M.Meta(Some(m.phase), Some(m.inProgress), Some(m.ticks))
  }

  function Find(d: Disk, path: string): Option<File> {
    if path in d then Some(d[path]) else None
  }

  /** The two files are what the recorder's directory holds under a path. */
  predicate Shows(m: M.Disk, f: Option<File>) {
    match f
    case None => m.sqrx.None? && m.side.None? && !m.retired
    case Some(file) =>
      && m.sqrx.Some? && m.sqrx.value.lines == file.lines && m.sqrx.value.open == file.open
      && m.side.Some? && m.side.value.meta == Some(MetaOf(file.meta))
      && m.retired == file.meta.phase.Finalized?
  }

  /** From any files that show the first directory, the moves lead to files that show the second. */
  ghost predicate Lead(moves: Moves, d: Disk, d': Disk, path: string) {
    forall m: M.Disk {:trigger M.Steps(m, moves)} ::
      Shows(m, Find(d, path)) ==> Shows(M.Steps(m, moves), Find(d', path))
  }

  lemma {:induction false} StepsConcat(m: M.Disk, a: Moves, b: Moves)
    ensures M.Steps(m, a + b) == M.Steps(M.Steps(m, a), b)
  {
    if b == [] {
      assert a + b == a;
    } else {
      StepsConcat(m, a, b[..|b| - 1]);
      assert (a + b)[..|a + b| - 1] == a + b[..|b| - 1];
    }
  }

  lemma {:induction false} LeadConcat(a: Moves, b: Moves, d: Disk, d': Disk, d'': Disk, path: string)
    requires Lead(a, d, d', path) && Lead(b, d', d'', path)
    ensures Lead(a + b, d, d'', path)
  {
    hide Shows;
    forall m: M.Disk | Shows(m, Find(d, path))
      ensures Shows(M.Steps(m, a + b), Find(d'', path))
    {
      StepsConcat(m, a, b);
    }
  }

  lemma {:induction false} NoMove(d: Disk, d': Disk, path: string)
    requires Find(d, path) == Find(d', path)
    ensures Lead([], d, d', path)
  {
  }

  lemma {:induction false} OneMove(m: M.Disk, s: M.EnvStep)
    ensures M.Steps(m, [s]) == M.Step(m, s)
  {
    assert [s][..0] == [];
  }

  lemma {:induction false} TwoMoves(m: M.Disk, s: M.EnvStep, t: M.EnvStep)
    ensures M.Steps(m, [s, t]) == M.Step(M.Step(m, s), t)
  {
    OneMove(m, s);
    assert [s, t][..1] == [s];
  }

  lemma {:induction false} ThreeMoves(m: M.Disk, s: M.EnvStep, t: M.EnvStep, u: M.EnvStep)
    ensures M.Steps(m, [s, t, u]) == M.Step(M.Step(M.Step(m, s), t), u)
  {
    TwoMoves(m, s, t);
    assert [s, t, u][..2] == [s, t];
  }

  /* ----- what each operation does ----- */

  function Appending(at: string, path: string, line: Line): Moves {
    if path == at then [M.Append(line)] else []
  }

  lemma {:induction false} AppendLeads(d: Disk, at: string, path: string, line: Line)
    requires at in d && d[at].open
    ensures Lead(Appending(at, path, line), d, AppendLine(d, at, line), path)
  {
    forall m: M.Disk | Shows(m, Find(d, path))
      ensures Shows(M.Steps(m, Appending(at, path, line)), Find(AppendLine(d, at, line), path))
    {
      OneMove(m, M.Append(line));
    }
  }

  function Closing(r: Rec, path: string, minTicks: nat, confirmed: bool): Moves {
    if path != r.path then []
    else if r.ticks < minTicks then [M.CloseWriter, M.UnlinkRecording, M.UnlinkSidecar]
    else [M.CloseWriter, M.WriteFinalSidecar(confirmed, r.ticks)]
  }

  lemma {:induction false} CloseLeads(d: Disk, r: Rec, path: string, minTicks: nat, confirmed: bool)
    requires r.path in d && d[r.path].open && !d[r.path].meta.phase.Finalized?
    ensures Lead(Closing(r, path, minTicks, confirmed), d, CloseFile(d, r, minTicks, confirmed), path)
  {
    var moves := Closing(r, path, minTicks, confirmed);
    forall m: M.Disk | Shows(m, Find(d, path))
      ensures Shows(M.Steps(m, moves), Find(CloseFile(d, r, minTicks, confirmed), path))
    {
      TwoMoves(m, M.CloseWriter, M.WriteFinalSidecar(confirmed, r.ticks));
      ThreeMoves(m, M.CloseWriter, M.UnlinkRecording, M.UnlinkSidecar);
    }
  }

  function Beginning(at: string, path: string): Moves {
    if path == at then [M.OpenRecording, M.WriteActiveSidecar] else []
  }

  lemma {:induction false} OpenLeads(d: Disk, at: string, id: string, path: string)
    requires at !in d
    ensures Lead(Beginning(at, path), d, d[at := File([], true, Meta(id, Active, true, 0, 0, 0))], path)
  {
    var d' := d[at := File([], true, Meta(id, Active, true, 0, 0, 0))];
    forall m: M.Disk | Shows(m, Find(d, path))
      ensures Shows(M.Steps(m, Beginning(at, path)), Find(d', path))
    {
      TwoMoves(m, M.OpenRecording, M.WriteActiveSidecar);
    }
  }

  /** The current recording's file is there, open, and not finalized. */
  predicate Writable(b: Box) {
    b.cur.Some? ==>
      var path := b.cur.value.path;
      path in b.disk && b.disk[path].open && !b.disk[path].meta.phase.Finalized?
  }

  lemma {:induction false} FrameLeads(b: Box, s: Snap, path: string) returns (moves: Moves)
    requires Writable(b)
    ensures Writable(WriteFrame(b, s)) && Lead(moves, b.disk, WriteFrame(b, s).disk, path)
  {
    if b.cur.None? {
      moves := [];
      NoMove(b.disk, b.disk, path);
    } else {
      moves := Appending(b.cur.value.path, path, Full(s));
      AppendLeads(b.disk, b.cur.value.path, path, Full(s));
    }
  }

  lemma {:induction false} FramesLead(b: Box, frames: seq<Snap>, path: string) returns (moves: Moves)
    requires Writable(b)
    ensures Writable(WriteFrames(b, frames)) && Lead(moves, b.disk, WriteFrames(b, frames).disk, path)
  {
    hide Lead, WriteFrame, Writable;
    if frames == [] {
      moves := [];
      NoMove(b.disk, b.disk, path);
    } else {
      var most := WriteFrames(b, frames[..|frames| - 1]);
      var first := FramesLead(b, frames[..|frames| - 1], path);
      var last := FrameLeads(most, frames[|frames| - 1], path);
      LeadConcat(first, last, b.disk, most.disk, WriteFrames(b, frames).disk, path);
      moves := first + last;
    }
  }

  lemma {:induction false} PositionsLead(b: Box, texts: seq<string>, path: string) returns (moves: Moves)
    requires Writable(b)
    ensures Writable(WritePositions(b, texts)) && Lead(moves, b.disk, WritePositions(b, texts).disk, path)
  {
    if texts == [] {
      moves := [];
      NoMove(b.disk, b.disk, path);
    } else {
      var most := WritePositions(b, texts[..|texts| - 1]);
      var first := PositionsLead(b, texts[..|texts| - 1], path);
      if most.cur.None? {
        moves := first;
      } else {
        var line := Position(texts[|texts| - 1]);
        AppendLeads(most.disk, most.cur.value.path, path, line);
        var last := Appending(most.cur.value.path, path, line);
        LeadConcat(first, last, b.disk, most.disk, WritePositions(b, texts).disk, path);
        moves := first + last;
      }
    }
  }

  lemma {:induction false} BufferingLeads(b: Box, s: Snap, stem: string, path: string) returns (moves: Moves)
    requires IsActive(s) && b.cur.None?
    ensures Writable(StepBuffering(b, s, stem)) && Lead(moves, b.disk, StepBuffering(b, s, stem).disk, path)
  {
    var buffer := Buffered(b.buffer, s);
    if |buffer| < CONFIRM_TICKS || (!s.named && |buffer| < FILENAME_BUFFER_LIMIT) {
      moves := [];
      NoMove(b.disk, b.disk, path);
    } else {
      hide Lead;
      var at := FreshPath(stem, 1, b.disk.Keys);
      var b1 := Open(b, IdOf(s).value, stem);
      OpenLeads(b.disk, at, IdOf(s).value, path);
      var rest := FramesLead(b1, buffer, path);
      LeadConcat(Beginning(at, path), rest, b.disk, b1.disk, WriteFrames(b1, buffer).disk, path);
      moves := Beginning(at, path) + rest;
    }
  }

  lemma {:induction false} ActiveLeads(b: Box, s: Snap, stem: string, minTicks: nat, path: string)
    returns (moves: Moves)
    requires IsActive(s) && Writable(b)
    ensures var b' := StepActive(b, s, stem, minTicks); Writable(b') && Lead(moves, b.disk, b'.disk, path)
  {
    hide Lead, StepBuffering;
    if b.cur.None? {
      moves := BufferingLeads(ClearPending(b), s, stem, path);
    } else if b.cur.value.matchId == IdOf(s).value {
      moves := FrameLeads(ClearPending(b), s, path);
    } else {
      var pending := PendingAfter(b, s);
      if |pending| < CONFIRM_TICKS {
        moves := [];
        NoMove(b.disk, b.disk, path);
      } else {
        var r := b.cur.value;
        var b1 := ClearPending(Close(b, minTicks, true)).(buffer := pending[..|pending| - 1]);
        CloseLeads(b.disk, r, path, minTicks, true);
        var rest := BufferingLeads(b1, s, stem, path);
        LeadConcat(Closing(r, path, minTicks, true), rest, b.disk, b1.disk, StepBuffering(b1, s, stem).disk, path);
        moves := Closing(r, path, minTicks, true) + rest;
      }
    }
  }

  lemma {:induction false} InactiveLeads(b: Box, minTicks: nat, path: string) returns (moves: Moves)
    requires Writable(b)
    ensures Writable(StepInactive(b, minTicks)) && Lead(moves, b.disk, StepInactive(b, minTicks).disk, path)
  {
    hide Lead;
    if b.cur.Some? && b.inactive + 1 >= CONFIRM_TICKS {
      moves := Closing(b.cur.value, path, minTicks, true);
      CloseLeads(b.disk, b.cur.value, path, minTicks, true);
    } else {
      moves := [];
      NoMove(b.disk, b.disk, path);
    }
  }

  lemma {:induction false} SnapLeads(b: Box, s: Snap, stem: string, minTicks: nat, path: string) returns (moves: Moves)
    requires Writable(b)
    ensures Writable(Step(b, s, stem, minTicks)) && Lead(moves, b.disk, Step(b, s, stem, minTicks).disk, path)
  {
    hide Lead, StepActive, StepInactive;
    var b1 := Track(b, s);
    if Accepts(b, s) && IsActive(s) {
      moves := ActiveLeads(b1.(inactive := 0, idle := 0), s, stem, minTicks, path);
    } else if Accepts(b, s) && KnownInactive(s.state) {
      moves := InactiveLeads(ClearPending(b1), minTicks, path);
    } else {
      moves := [];
      NoMove(b.disk, b.disk, path);
    }
  }

  lemma {:induction false} RebootLeads(b: Box, graceful: bool, path: string) returns (moves: Moves)
    requires Writable(b)
    ensures Lead(moves, b.disk, Reboot(b, graceful).disk, path)
  {
    if b.cur.None? {
      moves := [];
    } else if graceful {
      moves := Closing(b.cur.value, path, 0, false);
      CloseLeads(b.disk, b.cur.value, path, 0, false);
    } else {
      moves := if path == b.cur.value.path then [M.CloseWriter] else [];
      forall m: M.Disk | Shows(m, Find(b.disk, path))
        ensures Shows(M.Steps(m, moves), Find(Reboot(b, graceful).disk, path))
      {
        OneMove(m, M.CloseWriter);
      }
    }
  }

  /* ----- whole runs ----- */

  /** Every event of the recorder, a restart too, changes the two files of each path by a sequence of the
      moves that the cache allows for, whatever their versions and times are. */
  lemma {:induction false} EveryEventIsMoves(h: History, n: nat, minTicks: nat, path: string) returns (moves: Moves)
    requires n < |h|
    ensures Writable(Run(h, n, minTicks))
    ensures Lead(moves, Run(h, n, minTicks).disk, Run(h, n + 1, minTicks).disk, path)
  {
    hide Lead, Step, Writable, Reboot;
    RunWritable(h, n, minTicks);
    var b := Run(h, n, minTicks);
    match h[n] {
      case Tick(s, stem, positions) =>
        var first := SnapLeads(b, s, stem, minTicks, path);
        var b1 := Step(b, s, stem, minTicks);
        var rest := PositionsLead(b1, positions, path);
        LeadConcat(first, rest, b.disk, b1.disk, Run(h, n + 1, minTicks).disk, path);
        moves := first + rest;
      case Restart(graceful) =>
        moves := RebootLeads(b, graceful, path);
    }
  }

  lemma {:induction false} RunWritable(h: History, n: nat, minTicks: nat)
    requires n <= |h|
    ensures Writable(Run(h, n, minTicks))
  {
    hide Lead, Step, WritePositions;
    if n > 0 {
      RunWritable(h, n - 1, minTicks);
      var b := Run(h, n - 1, minTicks);
      if h[n - 1].Tick? {
        var _ := SnapLeads(b, h[n - 1].snap, h[n - 1].stem, minTicks, "");
        var _ := PositionsLead(Step(b, h[n - 1].snap, h[n - 1].stem, minTicks), h[n - 1].positions, "");
      }
    }
  }

  const NOTHING := M.Disk(None, None, 0, 0, false)

  lemma {:induction false} LifeLeads(h: History, n: nat, minTicks: nat, path: string) returns (moves: Moves)
    requires n <= |h|
    ensures Lead(moves, map[], Run(h, n, minTicks).disk, path)
  {
    hide Lead, Writable, Run, Stream;
    if n == 0 {
      moves := [];
      NothingMoved(h, minTicks, path);
    } else {
      var first := LifeLeads(h, n - 1, minTicks, path);
      var last := EveryEventIsMoves(h, n - 1, minTicks, path);
      LeadConcat(first, last, map[], Run(h, n - 1, minTicks).disk, Run(h, n, minTicks).disk, path);
      moves := first + last;
    }
  }

  lemma {:induction false} NothingMoved(h: History, minTicks: nat, path: string)
    ensures Lead([], map[], Run(h, 0, minTicks).disk, path)
  {
    hide Lead;
    NoMove(map[], map[], path);
  }

  /** The whole life of the two files of a path, from an empty directory on. */
  lemma {:induction false} LifeIsMoves(h: History, n: nat, minTicks: nat, path: string) returns (moves: Moves)
    requires n <= |h|
    ensures Shows(M.Steps(NOTHING, moves), Find(Run(h, n, minTicks).disk, path)) && M.DiskOk(M.Steps(NOTHING, moves))
  {
    moves := LifeLeads(h, n, minTicks, path);
    assert Shows(NOTHING, Find(map[], path));
    hide Shows, Run, M.Steps;
    M.StepsOk(NOTHING, moves);
  }

  /** In any run, a request that is left in peace, with nothing cached, is served a recording exactly if it was
      finalized, and then all its lines. */
  method ServeRecorded(m: M.Disk, ghost h: History, ghost n: nat, ghost minTicks: nat, ghost path: string)
    returns (r: Option<seq<Line>>)
    requires n <= |h| && M.DiskOk(m) && Shows(m, Find(Run(h, n, minTicks).disk, path))
    ensures var d := Run(h, n, minTicks).disk;
            r == if path in d && d[path].meta.phase == Finalized then Some(d[path].lines) else None
  {
    hide Run, M.HistoryOk, M.Later, M.Answer, M.ServedAt, M.Served;
    var w := new M.World(m, _ => [], _ => None, _ => false);
    var cache := new M.Cache(w);
    r := cache.Serve();
  }
}
