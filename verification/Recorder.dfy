/** The recording state machine: one `.sqrx` file per match, start, appended to and closed
    from a stream of snapshots. */
module Recorder {
  import opened Decimals
  import opened Options
  import opened Lifecycle

  const FILENAME_BUFFER_LIMIT := 10

  /** What a step reads of a snapshot. `named` says that the map and the mode are populated.
      `at` is the snapshot's position in the stream; it stands for the identity of the
      snapshot object, and no step branches on it. */
  datatype Snap = Snap(state: MatchState, rawId: Option<string>, tick: Option<int>,
                       named: bool, players: nat, at: nat)

  function IdOf(s: Snap): Option<string> {
    if s.rawId == Some("") then None else s.rawId
  }

  predicate IsActive(s: Snap) {
    s.state.InProgress? && IdOf(s).Some?
  }

  datatype Line = Full(snap: Snap) | Position(text: string)

  /** The `.meta.json` sidecar. */
  datatype Meta = Meta(matchId: string, phase: RecordingPhase, inProgress: bool,
                       ticks: nat, positions: nat, peak: nat)

  /** A `.sqrx` file with its sidecar; `open` says that a writer holds it. */
  datatype File = File(lines: seq<Line>, open: bool, meta: Meta)

  type Disk = map<string, File>

  datatype Rec = Rec(matchId: string, path: string, ticks: nat, positions: nat, peak: nat)

  datatype Box = Box(cur: Option<Rec>, pendingId: Option<string>, pending: seq<Snap>,
                     sequenced: bool, lastTick: Option<int>, inactive: nat, idle: nat,
                     buffer: seq<Snap>, disk: Disk)

  function EmptyBox(disk: Disk): Box {
    Box(None, None, [], false, None, 0, 0, [], disk)
  }

  /* ----- file names ----- */

  /** The k-th name tried for a recording: no suffix first, then `_2`, `_3`, ... */
  function PathName(stem: string, k: nat): string {
    if k < 2 then stem + ".sqrx" else stem + "_" + Decimal(k) + ".sqrx"
  }

  lemma PathNameInjective(stem: string, j: nat, k: nat)
    requires 1 <= j < k
    ensures PathName(stem, j) != PathName(stem, k)
  {
    var p, q := PathName(stem, j), PathName(stem, k);
    assert |q| > |stem + ".sqrx"|;
    if p == q && 2 <= j {
      assert p[|stem| + 1..|p| - 5] == Decimal(j);
      assert q[|stem| + 1..|q| - 5] == Decimal(k);
      DecimalInjective(j, k);
    }
  }

  /** The first name, from the k-th on, that is not taken. */
  function FreshPath(stem: string, k: nat, taken: set<string>): (path: string)
    requires 1 <= k
    ensures path !in taken
    ensures exists j :: k <= j && path == PathName(stem, j)
    decreases |taken|
  {
    var name := PathName(stem, k);
    if name !in taken then name
    else
      var rest := taken - {name};
      assert |rest| < |taken|;
      var path := FreshPath(stem, k + 1, rest);
      assert path != name by {
        var j :| k + 1 <= j && path == PathName(stem, j);
        PathNameInjective(stem, k, j);
      }
      path
  }

  lemma FreshPathSkips(stem: string, k: nat, taken: set<string>, name: string)
    requires 1 <= k
    requires forall j :: k <= j ==> PathName(stem, j) != name
    ensures FreshPath(stem, k, taken) == FreshPath(stem, k, taken - {name})
    decreases |taken|
  {
    if name in taken {
      assert |taken - {name}| < |taken|;
      var head := PathName(stem, k);
      if head in taken {
        assert taken - {head} - {name} == taken - {name} - {head};
        assert |taken - {head}| < |taken|;
        FreshPathSkips(stem, k + 1, taken - {head}, name);
      }
    } else {
      assert taken - {name} == taken;
    }
  }

  lemma {:induction false} FreshIsFirst(stem: string, k: nat, taken: set<string>)
    requires 1 <= k
    ensures exists j :: k <= j && FreshPath(stem, k, taken) == PathName(stem, j)
                     && forall i :: k <= i < j ==> PathName(stem, i) in taken
    decreases |taken|
  {
    var name := PathName(stem, k);
    if name in taken {
      var rest := taken - {name};
      assert |rest| < |taken|;
      FreshIsFirst(stem, k + 1, rest);
      var j :| k + 1 <= j && FreshPath(stem, k + 1, rest) == PathName(stem, j)
               && forall i :: k + 1 <= i < j ==> PathName(stem, i) in rest;
      assert forall i :: k <= i < j ==> PathName(stem, i) in taken;
    }
  }

  /* ----- what each operation does to the directory and to the state box ----- */

  function AppendLine(d: Disk, path: string, line: Line): Disk {
    if path in d then d[path := d[path].(lines := d[path].lines + [line])] else d
  }

  /** Closing a writer: a recording shorter than `minTicks` is deleted, any other gets its
      final sidecar. Only a confirmed end is written as finalized. */
  function CloseFile(d: Disk, r: Rec, minTicks: nat, confirmed: bool): Disk {
    if r.ticks < minTicks || r.path !in d then d - {r.path}
    else
      d[r.path := File(d[r.path].lines, false,
                       Meta(r.matchId, if confirmed then Finalized else Unverified, !confirmed,
                            r.ticks, r.positions, r.peak))]
  }

  function Close(b: Box, minTicks: nat, confirmed: bool): Box {
    if b.cur.None? then b
    else b.(cur := None, disk := CloseFile(b.disk, b.cur.value, minTicks, confirmed))
  }

  function Open(b: Box, id: string, stem: string): Box {
    var path := FreshPath(stem, 1, b.disk.Keys);
    b.(cur := Some(Rec(id, path, 0, 0, 0)),
       disk := b.disk[path := File([], true, Meta(id, Active, true, 0, 0, 0))])
  }

  function WriteFrame(b: Box, s: Snap): Box {
    if b.cur.None? then b
    else
      var r := b.cur.value;
      b.(cur := Some(r.(ticks := r.ticks + 1, peak := if s.players > r.peak then s.players else r.peak)),
         disk := AppendLine(b.disk, r.path, Full(s)))
  }

  function WriteFrames(b: Box, frames: seq<Snap>): Box {
    if frames == [] then b
    else WriteFrame(WriteFrames(b, frames[..|frames| - 1]), frames[|frames| - 1])
  }

  function WritePosition(b: Box, text: string): Box {
    if b.cur.None? then b
    else
      var r := b.cur.value;
      b.(cur := Some(r.(positions := r.positions + 1)),
         disk := AppendLine(b.disk, r.path, Position(text)))
  }

  function ClearPending(b: Box): Box {
    b.(pendingId := None, pending := [])
  }

  /** Does the tick id of `s` break the sequence seen so far? */
  predicate SequenceBroken(b: Box, s: Snap) {
    match s.tick
    case Some(t) => b.lastTick.Some? && t != b.lastTick.value + 1
    case None => b.sequenced
  }

  /** A snapshot without a tick id is dropped once a sequenced one has been seen. */
  predicate Accepts(b: Box, s: Snap) {
    s.tick.Some? || !b.sequenced
  }

  /** The tick bookkeeping: a broken sequence voids every confirmation in progress. */
  function Track(b: Box, s: Snap): Box {
    var b1 := if s.tick.Some? then b.(sequenced := true, lastTick := s.tick)
              else if b.sequenced then b.(lastTick := None) else b;
    if SequenceBroken(b, s) then ClearPending(b1.(inactive := 0)) else b1
  }

  /** The effect of one snapshot on the state box. */
  function Step(b: Box, s: Snap, stem: string, minTicks: nat): Box {
    var b1 := Track(b, s);
    if !Accepts(b, s) then b1
    else if IsActive(s) then StepActive(b1.(inactive := 0, idle := 0), s, stem, minTicks)
    else if KnownInactive(s.state) then StepInactive(ClearPending(b1), minTicks)
    else ClearPending(b1).(inactive := 0, buffer := if b1.cur.None? then [] else b1.buffer)
  }

  function StepInactive(b: Box, minTicks: nat): Box {
    if b.cur.None? then
      if b.buffer != [] && b.idle + 1 < CONFIRM_TICKS then b.(idle := b.idle + 1)
      else b.(idle := 0, buffer := [], inactive := 0)
    else if b.inactive + 1 < CONFIRM_TICKS then b.(inactive := b.inactive + 1)
    else Close(b.(inactive := 0, buffer := []), minTicks, true)
  }

  function StepActive(b: Box, s: Snap, stem: string, minTicks: nat): Box
    requires IsActive(s)
  {
    var id := IdOf(s);
    if b.cur.Some? && b.cur.value.matchId == id.value then WriteFrame(ClearPending(b), s)
    else if b.cur.Some? then
      var pending := PendingAfter(b, s);
      if |pending| < CONFIRM_TICKS then b.(pendingId := id, pending := pending)
      else
        StepBuffering(ClearPending(Close(b, minTicks, true)).(buffer := pending[..|pending| - 1]), s, stem)
    else StepBuffering(ClearPending(b), s, stem)
  }

  /** A frame of another match than the one recorded joins the pending run of its id, or starts one. */
  function PendingAfter(b: Box, s: Snap): seq<Snap> {
    if b.pendingId == IdOf(s) then b.pending + [s] else [s]
  }

  /** The buffer a frame leaves behind: it joins the frames of its own match, or replaces
      those of another. */
  function Buffered(buffer: seq<Snap>, s: Snap): seq<Snap> {
    if buffer != [] && IdOf(buffer[0]) != IdOf(s) then [s] else buffer + [s]
  }

  /** No writer is open: buffer the frame, and open one when the id is stable and the file
      can be named. */
  function StepBuffering(b: Box, s: Snap, stem: string): Box
    requires IsActive(s)
  {
    var buffer := Buffered(b.buffer, s);
    if |buffer| < CONFIRM_TICKS || (!s.named && |buffer| < FILENAME_BUFFER_LIMIT) then b.(buffer := buffer)
    else WriteFrames(Open(b, IdOf(s).value, stem), buffer).(buffer := [])
  }

  /* ----- the imperative recorder ----- */

  /** Bookkeeping of the recording in progress. */
  class RecordingState {
    const matchId: string
    const path: string
    var tickCount: nat
    var positionCount: nat
    var peakPlayers: nat

    constructor (matchId: string, path: string)
      ensures View() == Rec(matchId, path, 0, 0, 0)
    {
      this.matchId, this.path := matchId, path;
      tickCount, positionCount, peakPlayers := 0, 0, 0;
    }

    ghost function View(): Rec
      reads this
    {
      Rec(matchId, path, tickCount, positionCount, peakPlayers)
    }
  }

  class Recorder {
    var current: RecordingState?
    var pendingId: Option<string>
    var pending: seq<Snap>
    var sequenced: bool
    var lastTick: Option<int>
    var inactive: nat
    var idle: nat
    var buffer: seq<Snap>
    var disk: Disk

    ghost predicate Valid()
      reads this, current
    {
      current != null ==> current.path in disk
    }

    ghost function View(): Box
      reads this, current
    {
      Box(if current == null then None else Some(current.View()), pendingId, pending,
          sequenced, lastTick, inactive, idle, buffer, disk)
    }

    constructor (disk: Disk)
      ensures Valid() && View() == EmptyBox(disk)
    {
      current, pendingId, pending := null, None, [];
      sequenced, lastTick, inactive, idle := false, None, 0, 0;
      buffer := [];
      this.disk := disk;
    }

    method WriteLine(s: Snap)
      requires Valid() && current != null
      modifies this`disk, current
      ensures Valid() && View() == WriteFrame(old(View()), s)
    {
      disk := disk[current.path := disk[current.path].(lines := disk[current.path].lines + [Full(s)])];
      current.tickCount := current.tickCount + 1;
      if s.players > current.peakPlayers {
        current.peakPlayers := s.players;
      }
    }

    /** Appends to the open recording, if any, and touches nothing else. */
    method WritePositionFrame(text: string)
      requires Valid()
      modifies this`disk, current
      ensures Valid() && View() == WritePosition(old(View()), text)
    {
      if current == null {
        return;
      }
      disk := disk[current.path := disk[current.path].(lines := disk[current.path].lines + [Position(text)])];
      current.positionCount := current.positionCount + 1;
    }

    method FinalizeRecording(minTicks: nat, confirmedEnded: bool)
      requires Valid() && current != null
      modifies this`disk, this`current
      ensures current == null && View() == Close(old(View()), minTicks, confirmedEnded)
    {
      var file := disk[current.path].(open := false);
      if current.tickCount < minTicks {
        disk := disk - {current.path};
      } else {
        var phase := if confirmedEnded then Finalized else Unverified;
        disk := disk[current.path := file.(meta := Meta(current.matchId, phase, !confirmedEnded,
                     current.tickCount, current.positionCount, current.peakPlayers))];
      }
      current := null;
    }

    /** The collision guard: never reuse, and so never truncate, an existing recording. */
    method ChoosePath(stem: string) returns (path: string)
      ensures path == FreshPath(stem, 1, disk.Keys) && path !in disk
      ensures exists j :: 1 <= j && path == PathName(stem, j) && forall i :: 1 <= i < j ==> PathName(stem, i) in disk
    {
      FreshIsFirst(stem, 1, disk.Keys);
      path := PathName(stem, 1);
      var k := 1;
      ghost var untried := disk.Keys;
      while path in disk
        invariant 1 <= k && path == PathName(stem, k)
        invariant untried <= disk.Keys
        invariant path in disk ==> path in untried
        invariant forall name :: name in disk && name !in untried ==>
                  exists j :: 1 <= j < k && name == PathName(stem, j)
        invariant FreshPath(stem, 1, disk.Keys) == FreshPath(stem, k, untried)
        decreases |untried|
      {
        untried := untried - {path};
        forall name | name in disk && name !in untried
          ensures exists j :: 1 <= j < k + 1 && name == PathName(stem, j)
        {
          if name == path {
            assert name == PathName(stem, k);
          }
        }
        k := k + 1;
        path := PathName(stem, k);
        forall j | 1 <= j < k {
          PathNameInjective(stem, j, k);
        }
      }
    }

    /** One snapshot. */
    method HandleSnap(s: Snap, stem: string, minTicks: nat)
      requires Valid()
      modifies this, current
      ensures Valid() && View() == Step(old(View()), s, stem, minTicks)
    {
      hide Track, Accepts, StepActive, StepInactive;
      var proceed := TrackSequence(s);
      if !proceed {
        return;
      }
      var isActive := s.state.InProgress? && IdOf(s).Some?;
      if !isActive && !KnownInactive(s.state) {
        inactive := 0;
        ClearPendingMatch();
        if current == null {
          buffer := [];
        }
        return;
      }
      if !isActive {
        ClearPendingMatch();
        HandleInactive(minTicks);
        return;
      }
      inactive, idle := 0, 0;
      HandleActive(s, stem, minTicks);
    }

    /** Follows the producer's tick ids; says whether the snapshot may be acted on. */
    method TrackSequence(s: Snap) returns (proceed: bool)
      modifies this`sequenced, this`lastTick, this`inactive, this`pendingId, this`pending
      ensures View() == Track(old(View()), s)
      ensures proceed == Accepts(old(View()), s)
    {
      var sequenceRequired := sequenced;
      var sequenceBroken := false;
      if s.tick.Some? {
        sequenced := true;
        if lastTick.Some? && s.tick.value != lastTick.value + 1 {
          sequenceBroken := true;
        }
        lastTick := s.tick;
      } else if sequenceRequired {
        sequenceBroken := true;
        lastTick := None;
      }
      proceed := true;
      if sequenceBroken {
        inactive := 0;
        ClearPendingMatch();
        proceed := s.tick.Some?;
      }
    }

    method HandleActive(s: Snap, stem: string, minTicks: nat)
      requires Valid() && IsActive(s)
      modifies this, current
      ensures Valid() && View() == StepActive(old(View()), s, stem, minTicks)
    {
      var matchId := IdOf(s);
      if current != null && Some(current.matchId) != matchId {
        if pendingId == matchId {
          pending := pending + [s];
        } else {
          pendingId, pending := matchId, [s];
        }
        if |pending| < CONFIRM_TICKS {
          return;
        }
        FinalizeRecording(minTicks, true);
        buffer := pending[..|pending| - 1];
        ClearPendingMatch();
      } else {
        ClearPendingMatch();
      }
      if current == null {
        BufferOrOpen(s, stem);
      } else {
        WriteLine(s);
      }
    }

    method ClearPendingMatch()
      modifies this`pendingId, this`pending
      ensures View() == ClearPending(old(View()))
    {
      pendingId, pending := None, [];
    }

    method HandleInactive(minTicks: nat)
      requires Valid()
      modifies this, current
      ensures Valid() && View() == StepInactive(old(View()), minTicks)
    {
      if current == null {
        if buffer != [] {
          idle := idle + 1;
          if idle < CONFIRM_TICKS {
            return;
          }
        }
        idle, buffer, inactive := 0, [], 0;
        return;
      }
      inactive := inactive + 1;
      if inactive < CONFIRM_TICKS {
        return;
      }
      inactive := 0;
      FinalizeRecording(minTicks, true);
      buffer := [];
    }

    method BufferOrOpen(s: Snap, stem: string)
      requires IsActive(s) && current == null
      modifies this
      ensures Valid() && View() == StepBuffering(old(View()), s, stem)
    {
      hide FreshPath, WriteFrames;
      if buffer != [] && IdOf(buffer[0]) != IdOf(s) {
        buffer := [];
      }
      buffer := buffer + [s];
      if |buffer| < CONFIRM_TICKS {
        return;
      }
      if !s.named && |buffer| < FILENAME_BUFFER_LIMIT {
        return;
      }
      var id := IdOf(s).value;
      var path := ChoosePath(stem);
      disk := disk[path := File([], true, Meta(id, Active, true, 0, 0, 0))];
      current := new RecordingState(id, path);
      assert View() == Open(old(View()), id, stem).(buffer := buffer);
      WriteFramesBuffer(Open(old(View()), id, stem), buffer, buffer);
      WriteBuffer();
      buffer := [];
    }

    /** The buffered frames, first one first. */
    method WriteBuffer()
      requires Valid() && current != null
      modifies this`disk, current
      ensures Valid() && View() == WriteFrames(old(View()), buffer)
    {
      hide WriteFrame;
      assert buffer[..0] == [];
      var i := 0;
      while i < |buffer|
        invariant 0 <= i <= |buffer| && Valid()
        invariant View() == WriteFrames(old(View()), buffer[..i])
      {
        assert buffer[..i + 1][..i] == buffer[..i];
        WriteLine(buffer[i]);
        i := i + 1;
      }
      assert buffer[..i] == buffer;
    }
  }

  /** Writing frames neither reads nor changes the pre-open buffer. */
  lemma WriteFramesBuffer(b: Box, frames: seq<Snap>, buffer: seq<Snap>)
    ensures WriteFrames(b.(buffer := buffer), frames) == WriteFrames(b, frames).(buffer := buffer)
  {
  }
}
