/** What every event keeps: how the state box and the directory relate to the history so far. */
module RecorderInvariant {
  import opened Options
  import opened Lifecycle
  import opened Recorder
  import opened RecorderHistory

  /* ----- the invariant ----- */

  function Frames(f: File): seq<Snap> {
    FullFrames(f.lines)
  }

  /** The file holds exactly the accepted frames of its match between its first buffered frame
      and event `until`. */
  ghost predicate Holds(h: History, f: File, until: nat)
    requires until <= |h|
  {
    && Frames(f) != [] && Frames(f)[0].at < until
    && Frames(f) == Selected(h, Frames(f)[0].at, until, f.meta.matchId)
  }

  /** A finalized recording ends with the event that proved the end; any other closed one right before
      the end of its process. */
  ghost predicate EndsAt(h: History, n: nat, f: File, until: nat)
    requires 0 < until <= n <= |h|
  {
    && (f.meta.phase.Finalized? ==> Evidence(h, until - 1, f.meta.matchId))
    && (!f.open && !f.meta.phase.Finalized? ==> until < n && h[until].Restart?)
  }

  ghost predicate Faithful(h: History, n: nat, f: File)
    requires n <= |h|
  {
    exists until :: 0 < until <= n && Holds(h, f, until) && EndsAt(h, n, f, until)
  }

  /** What a re-read of the file would count. */
  ghost predicate Counted(f: File, ticks: nat, positions: nat, peak: nat) {
    ticks == |Frames(f)| && positions == PositionCount(f.lines) && peak == Peak(Frames(f))
  }

  ghost predicate Before(frames: seq<Snap>, n: nat) {
    forall s :: s in frames ==> s.at < n
  }

  ghost predicate Apart(a: seq<Snap>, b: seq<Snap>) {
    forall s, t :: s in a && t in b ==> s.at != t.at
  }

  ghost predicate AllFaithful(h: History, n: nat, d: Disk)
    requires n <= |h|
  {
    forall p :: p in d ==> Faithful(h, n, d[p])
  }

  ghost predicate SidecarOk(f: File) {
    && (!f.open && !f.meta.phase.Active? ==> Counted(f, f.meta.ticks, f.meta.positions, f.meta.peak))
    && (f.open ==> f.meta.phase.Active?)
    && (f.meta.inProgress <==> !f.meta.phase.Finalized?)
  }

  ghost predicate Tidy(n: nat, d: Disk) {
    && (forall p :: p in d ==> Before(Frames(d[p]), n) && SidecarOk(d[p]))
    && (forall p, q :: p in d && q in d && p != q ==> Apart(Frames(d[p]), Frames(d[q])))
  }

  /** Frames waiting for a file are in no file yet. */
  ghost predicate Waiting(d: Disk, frames: seq<Snap>) {
    forall p :: p in d ==> Apart(Frames(d[p]), frames)
  }

  ghost predicate WriterOk(h: History, n: nat, d: Disk, r: Rec)
    requires n <= |h|
  {
    && r.path in d && d[r.path].meta.matchId == r.matchId
    && Holds(h, d[r.path], n)
    && Counted(d[r.path], r.ticks, r.positions, r.peak)
  }

  ghost predicate BufferOk(h: History, n: nat, d: Disk, buffer: seq<Snap>)
    requires n <= |h|
  {
    buffer != [] ==>
      && IdOf(buffer[0]).Some? && buffer[0].at < n
      && buffer == Selected(h, buffer[0].at, n, IdOf(buffer[0]).value)
      && Waiting(d, buffer)
  }

  /** Events from..until are the longest gap-free run, ending there, of frames of match `id`. */
  ghost predicate ActiveRun(h: History, from: int, until: nat, id: string)
    requires until <= |h|
  {
    && 0 <= from < until
    && (forall i {:trigger ActiveAs(h, i, id)} :: from <= i < until ==> ActiveAs(h, i, id))
    && (forall i :: from < i < until ==> Follows(h, i))
    && (from > 0 && Follows(h, from) ==> !ActiveAs(h, from - 1, id))
  }

  /** The same for known-inactive ticks; such a run may be empty. */
  ghost predicate InactiveRun(h: History, from: int, until: nat)
    requires until <= |h|
  {
    && 0 <= from <= until
    && (forall i {:trigger AcceptedInactive(h, i)} :: from <= i < until ==> AcceptedInactive(h, i))
    && (forall i :: from < i < until ==> Follows(h, i))
    && (0 < from < until && Follows(h, from) ==> !AcceptedInactive(h, from - 1))
    && (0 < from == until ==> !AcceptedInactive(h, from - 1))
  }

  /** The pending frames are a longest gap-free run of one other id, ending at n. */
  ghost predicate PendingOk(h: History, n: nat, b: Box)
    requires n <= |h| && b.cur.Some?
  {
    && |b.pending| < CONFIRM_TICKS
    && (b.pending == [] <==> b.pendingId.None?)
    && (b.pendingId.Some? ==>
          && b.pendingId.value != b.cur.value.matchId
          && ActiveRun(h, n - |b.pending|, n, b.pendingId.value)
          && b.pending == Selected(h, n - |b.pending|, n, b.pendingId.value))
    && (b.pendingId.None? && n > 0 ==> !IsForeign(h, n - 1, b.cur.value.matchId))
    && Waiting(b.disk, b.pending)
  }

  predicate IsForeign(h: History, i: nat, id: string)
    requires i < |h|
  {
    Accepted(h, i) && IsActive(h[i].snap) && IdOf(h[i].snap) != Some(id)
  }

  /** The tick bookkeeping agrees with the history. */
  ghost predicate Tracked(h: History, n: nat, b: Box)
    requires n <= |h|
  {
    && b.sequenced == Sequenced(h, n)
    && b.lastTick == (if n > 0 && h[n - 1].Tick? then h[n - 1].snap.tick else None)
  }

  /** The directory, the open recording and the pre-open buffer hold what they should. */
  ghost predicate Settled(h: History, n: nat, b: Box)
    requires n <= |h|
  {
    && AllFaithful(h, n, b.disk) && Tidy(n, b.disk)
    && (forall p :: p in b.disk ==> (b.disk[p].open <==> b.cur.Some? && b.cur.value.path == p))
    && (b.cur.Some? ==> WriterOk(h, n, b.disk, b.cur.value) && b.buffer == [])
    && (b.cur.None? ==> BufferOk(h, n, b.disk, b.buffer))
  }

  /** The confirmations in progress count exactly the runs they should. */
  ghost predicate Confirming(h: History, n: nat, b: Box)
    requires n <= |h|
  {
    && (b.cur.Some? ==>
          && PendingOk(h, n, b)
          && b.inactive < CONFIRM_TICKS && InactiveRun(h, n - b.inactive, n))
    && (b.cur.None? ==> b.pending == [] && b.pendingId.None? && b.inactive == 0)
  }

  ghost predicate Inv(h: History, n: nat, b: Box)
    requires n <= |h|
  {
    Tracked(h, n, b) && Settled(h, n, b) && Confirming(h, n, b)
  }

  /* ----- one event keeps it ----- */

  lemma {:induction false} SelectedNonempty(h: History, from: nat, until: nat, id: string)
    requires Stream(h) && until <= |h|
    ensures forall s :: s in Selected(h, from, until, id) ==>
              from <= s.at < until && h[s.at].Tick? && h[s.at].snap == s && ActiveAs(h, s.at, id)
  {
    if from < until {
      SelectedNonempty(h, from, until - 1, id);
    }
  }

  lemma {:induction false} SelectedRun(h: History, from: nat, until: nat, id: string)
    requires from <= until <= |h|
    requires forall i :: from <= i < until ==> ActiveAs(h, i, id)
    ensures |Selected(h, from, until, id)| == until - from
    ensures from < until ==> h[from].Tick? && Selected(h, from, until, id)[0] == h[from].snap
  {
    if from < until {
      SelectedRun(h, from, until - 1, id);
      assert ActiveAs(h, until - 1, id);
    }
  }

  lemma {:induction false} FaithfulLater(h: History, n: nat, d: Disk)
    requires n < |h| && AllFaithful(h, n, d)
    ensures AllFaithful(h, n + 1, d)
  {
    forall p | p in d
      ensures Faithful(h, n + 1, d[p])
    {
      var until :| 0 < until <= n && Holds(h, d[p], until) && EndsAt(h, n, d[p], until);
      assert EndsAt(h, n + 1, d[p], until);
    }
  }

  lemma {:induction false} TidyUpdate(n: nat, d: Disk, path: string, f: File)
    requires Tidy(n, d) && Before(Frames(f), n) && SidecarOk(f)
    requires forall p :: p in d && p != path ==> Apart(Frames(d[p]), Frames(f))
    ensures Tidy(n, d[path := f])
  {
  }

  lemma {:induction false} TidyLater(n: nat, d: Disk)
    requires Tidy(n, d)
    ensures Tidy(n + 1, d)
  {
  }

  /** An event that is no frame of the open recording leaves what it should hold unchanged. */
  lemma {:induction false} WriterLater(h: History, n: nat, d: Disk, r: Rec)
    requires n < |h| && WriterOk(h, n, d, r) && !ActiveAs(h, n, r.matchId)
    ensures WriterOk(h, n + 1, d, r)
  {
    var f := d[r.path];
    assert Selected(h, Frames(f)[0].at, n + 1, r.matchId) == Selected(h, Frames(f)[0].at, n, r.matchId) + [];
  }

  lemma {:induction false} BufferLater(h: History, n: nat, d: Disk, buffer: seq<Snap>)
    requires n < |h| && BufferOk(h, n, d, buffer)
    requires buffer != [] ==> !ActiveAs(h, n, IdOf(buffer[0]).value)
    ensures BufferOk(h, n + 1, d, buffer)
  {
    if buffer != [] {
      var id := IdOf(buffer[0]).value;
      assert Selected(h, buffer[0].at, n + 1, id) == Selected(h, buffer[0].at, n, id) + [];
    }
  }

  lemma {:induction false} WriteFramesEffect(b: Box, frames: seq<Snap>)
    requires b.cur.Some? && b.cur.value.path in b.disk
    requires var r := b.cur.value; Counted(b.disk[r.path], r.ticks, r.positions, r.peak)
    ensures WriteFrames(b, frames).cur.Some?
    ensures var b' := WriteFrames(b, frames);
            var r, r' := b.cur.value, b'.cur.value;
            && b' == b.(cur := b'.cur, disk := b'.disk)
            && r' == r.(ticks := r'.ticks, peak := r'.peak)
            && b'.disk.Keys == b.disk.Keys && b'.disk[r.path] == b.disk[r.path].(lines := b'.disk[r.path].lines)
            && (forall p :: p in b.disk && p != r.path ==> b'.disk[p] == b.disk[p])
            && Frames(b'.disk[r.path]) == Frames(b.disk[r.path]) + frames
            && Counted(b'.disk[r.path], r'.ticks, r'.positions, r'.peak)
  {
    hide FullFrames, PositionCount, Peak;
    if frames == [] {
      assert Frames(b.disk[b.cur.value.path]) + frames == Frames(b.disk[b.cur.value.path]);
    } else {
      var rest, s := frames[..|frames| - 1], frames[|frames| - 1];
      WriteFramesEffect(b, rest);
      var b1 := WriteFrames(b, rest);
      AppendedLine(b1.disk[b.cur.value.path].lines, Full(s));
      AppendedPeak(Frames(b1.disk[b.cur.value.path]), s);
      assert Frames(b.disk[b.cur.value.path]) + rest + [s] == Frames(b.disk[b.cur.value.path]) + frames;
    }
  }

  /** Appending one more frame of its match to the open recording. */
  lemma {:induction false} AppendFaithful(h: History, n: nat, f: File, f': File, s: Snap)
    requires n < |h| && Holds(h, f, n) && ActiveAs(h, n, f.meta.matchId) && s == h[n].snap
    requires Frames(f') == Frames(f) + [s] && f'.meta == f.meta && f.meta.phase.Active? && f'.open
    ensures Holds(h, f', n + 1) && Faithful(h, n + 1, f')
  {
    assert Selected(h, Frames(f)[0].at, n + 1, f.meta.matchId) == Selected(h, Frames(f)[0].at, n, f.meta.matchId) + [s];
    assert Holds(h, f', n + 1) && EndsAt(h, n + 1, f', n + 1);
  }

  lemma {:induction false} StepAppend(h: History, n: nat, b: Box)
    requires n < |h| && AllFaithful(h, n, b.disk)
    requires b.cur.Some? && WriterOk(h, n, b.disk, b.cur.value)
    requires ActiveAs(h, n, b.cur.value.matchId)
    requires b.disk[b.cur.value.path].meta.phase.Active? && b.disk[b.cur.value.path].open
    ensures var b' := WriteFrames(b, [h[n].snap]);
            AllFaithful(h, n + 1, b'.disk) && b'.cur.Some? && WriterOk(h, n + 1, b'.disk, b'.cur.value)
  {
    var s, r := h[n].snap, b.cur.value;
    WriteFramesEffect(b, [s]);
    var b' := WriteFrames(b, [s]);
    AppendFaithful(h, n, b.disk[r.path], b'.disk[r.path], s);
    FaithfulLater(h, n, b.disk);
  }

  lemma {:induction false} AppendTidy(n: nat, b: Box, s: Snap)
    requires b.cur.Some? && b.cur.value.path in b.disk && b.disk[b.cur.value.path].open && Tidy(n, b.disk)
    requires Counted(b.disk[b.cur.value.path], b.cur.value.ticks, b.cur.value.positions, b.cur.value.peak)
    requires s.at == n
    ensures Tidy(n + 1, WriteFrames(b, [s]).disk)
  {
    WriteFramesEffect(b, [s]);
    var path := b.cur.value.path;
    var f := WriteFrames(b, [s]).disk[path];
    TidyLater(n, b.disk);
    assert WriteFrames(b, [s]).disk == b.disk[path := f];
    TidyUpdate(n + 1, b.disk, path, f);
  }

  /** A confirmed end: the recording is deleted, or finalized and complete up to event n. */
  lemma {:induction false} StepClose(h: History, n: nat, d: Disk, r: Rec, minTicks: nat)
    requires n < |h| && AllFaithful(h, n, d) && WriterOk(h, n, d, r)
    requires Evidence(h, n, r.matchId) && !ActiveAs(h, n, r.matchId)
    ensures AllFaithful(h, n + 1, CloseFile(d, r, minTicks, true))
  {
    FaithfulLater(h, n, d);
    var d' := CloseFile(d, r, minTicks, true);
    if r.path in d' {
      WriterLater(h, n, d, r);
      assert Holds(h, d'[r.path], n + 1) && EndsAt(h, n + 1, d'[r.path], n + 1);
    }
  }

  lemma {:induction false} CloseTidy(n: nat, d: Disk, r: Rec, minTicks: nat, confirmed: bool)
    requires Tidy(n, d) && r.path in d && Counted(d[r.path], r.ticks, r.positions, r.peak)
    ensures Tidy(n, CloseFile(d, r, minTicks, confirmed))
  {
    if minTicks <= r.ticks {
      TidyUpdate(n, d, r.path, CloseFile(d, r, minTicks, confirmed)[r.path]);
    }
  }

  /** A file that stops being written without proof that its match ended. */
  lemma {:induction false} Abandoned(h: History, n: nat, d: Disk, r: Rec, f: File)
    requires n < |h| && h[n].Restart? && AllFaithful(h, n, d) && WriterOk(h, n, d, r)
    requires f.lines == d[r.path].lines && f.meta.matchId == r.matchId && !f.meta.phase.Finalized?
    ensures AllFaithful(h, n + 1, d[r.path := f])
  {
    FaithfulLater(h, n, d);
    assert Holds(h, f, n) && EndsAt(h, n + 1, f, n);
  }

  lemma {:induction false} RebootSettles(h: History, n: nat, d: Disk, r: Rec, f: File)
    requires n < |h| && h[n].Restart? && AllFaithful(h, n, d) && Tidy(n, d) && WriterOk(h, n, d, r)
    requires f.lines == d[r.path].lines && f.meta.matchId == r.matchId && !f.meta.phase.Finalized? && SidecarOk(f)
    ensures AllFaithful(h, n + 1, d[r.path := f]) && Tidy(n + 1, d[r.path := f])
  {
    hide Faithful, Holds, SidecarOk;
    Abandoned(h, n, d, r, f);
    TidyUpdate(n + 1, d, r.path, f);
  }

  /** The files the end of a process leaves behind. */
  lemma {:induction false} RebootEffect(b: Box, graceful: bool)
    requires b.cur.Some? && b.cur.value.path in b.disk
    requires SidecarOk(b.disk[b.cur.value.path]) && b.disk[b.cur.value.path].open
    requires var r := b.cur.value; Counted(b.disk[r.path], r.ticks, r.positions, r.peak)
    requires b.disk[b.cur.value.path].meta.matchId == b.cur.value.matchId
    ensures b.cur.value.path in Reboot(b, graceful).disk
    ensures var f := Reboot(b, graceful).disk[b.cur.value.path];
            && Reboot(b, graceful) == EmptyBox(b.disk[b.cur.value.path := f])
            && f.lines == b.disk[b.cur.value.path].lines && !f.open && SidecarOk(f)
            && f.meta.matchId == b.cur.value.matchId && !f.meta.phase.Finalized?
  {
    hide FullFrames, PositionCount, Peak;
  }

  lemma {:induction false} WriterFacts(h: History, n: nat, b: Box)
    requires n <= |h| && Settled(h, n, b) && b.cur.Some?
    ensures var r := b.cur.value;
            && r.path in b.disk && b.disk[r.path].open && b.disk[r.path].meta.matchId == r.matchId
            && SidecarOk(b.disk[r.path]) && Counted(b.disk[r.path], r.ticks, r.positions, r.peak)
  {
  }

  lemma {:induction false} StepReboot(h: History, n: nat, b: Box, graceful: bool)
    requires n < |h| && h[n] == Restart(graceful) && Inv(h, n, b)
    ensures Inv(h, n + 1, Reboot(b, graceful))
  {
    hide AllFaithful, Tidy, WriterOk, PendingOk, InactiveRun, Counted, SidecarOk;
    if b.cur.Some? {
      WriterFacts(h, n, b);
      RebootEffect(b, graceful);
      RebootSettles(h, n, b.disk, b.cur.value, Reboot(b, graceful).disk[b.cur.value.path]);
    } else {
      FaithfulLater(h, n, b.disk);
      TidyLater(n, b.disk);
    }
  }

  /** A fresh file takes a whole buffer. */
  lemma {:induction false} OpenEffect(d: Disk, b: Box, id: string, path: string, buffer: seq<Snap>)
    requires path !in d && b.cur == Some(Rec(id, path, 0, 0, 0))
    requires b.disk == d[path := File([], true, Meta(id, Active, true, 0, 0, 0))]
    ensures WriteFrames(b, buffer).cur.Some? && path in WriteFrames(b, buffer).disk
    ensures var b' := WriteFrames(b, buffer);
            && b' == b.(cur := b'.cur, disk := b'.disk)
            && b'.cur.value.path == path && b'.cur.value.matchId == id
            && var f := b'.disk[path];
            && b'.disk == d[path := f] && Frames(f) == buffer
            && f.open && f.meta == Meta(id, Active, true, 0, 0, 0)
            && Counted(f, b'.cur.value.ticks, b'.cur.value.positions, b'.cur.value.peak)
  {
    hide FullFrames, PositionCount, Peak, WriteFrames;
    EmptyCounts();
    WriteFramesEffect(b, buffer);
    assert [] + buffer == buffer;
    assert WriteFrames(b, buffer).disk == d[path := WriteFrames(b, buffer).disk[path]];
  }

  lemma {:induction false} OpenTidy(n: nat, d: Disk, path: string, f: File)
    requires Tidy(n, d) && path !in d && Before(Frames(f), n) && Waiting(d, Frames(f)) && SidecarOk(f)
    ensures Tidy(n, d[path := f])
  {
    TidyUpdate(n, d, path, f);
  }

  /** ... and holds the accepted frames of its match up to snapshot n, the last one buffered. */
  lemma {:induction false} OpenFaithful(h: History, n: nat, d: Disk, path: string, f: File, r: Rec)
    requires n < |h| && AllFaithful(h, n + 1, d) && path == r.path && r.matchId == f.meta.matchId
    requires f.open && f.meta.phase.Active? && Counted(f, r.ticks, r.positions, r.peak)
    requires Holds(h, f, n + 1)
    ensures AllFaithful(h, n + 1, d[path := f]) && WriterOk(h, n + 1, d[path := f], r)
  {
    assert EndsAt(h, n + 1, f, n + 1);
  }

  /* ----- the counters mean what they should ----- */

  lemma {:induction false} ExtendActive(h: History, from: int, n: nat, id: string)
    requires n < |h| && ActiveAs(h, n, id)
    requires if Follows(h, n) && ActiveAs(h, n - 1, id) then ActiveRun(h, from, n, id) else from == n
    ensures ActiveRun(h, from, n + 1, id)
  {
  }

  lemma {:induction false} ExtendInactive(h: History, from: int, n: nat)
    requires n < |h| && AcceptedInactive(h, n)
    requires if Follows(h, n) then InactiveRun(h, from, n) else from == n
    ensures InactiveRun(h, from, n + 1)
  {
    if Follows(h, n) && from < n {
      assert AcceptedInactive(h, n - 1);
    }
  }

  /** Tracking keeps a confirmation in progress exactly when the tick ids are gap-free. */
  lemma {:induction false} TrackKeeps(h: History, n: nat, b: Box)
    requires n < |h| && h[n].Tick? && Accepted(h, n)
    requires b.sequenced == Sequenced(h, n)
    requires b.lastTick == (if n > 0 && h[n - 1].Tick? then h[n - 1].snap.tick else None)
    ensures n > 0 && h[n - 1].Tick? ==> (SequenceBroken(b, h[n].snap) <==> !Follows(h, n))
    ensures Accepts(b, h[n].snap)
  {
  }

  lemma {:induction false} BufferExtends(h: History, n: nat, d: Disk, buffer: seq<Snap>, s: Snap)
    requires Stream(h) && n < |h| && h[n].Tick? && s == h[n].snap && Accepted(h, n) && IsActive(s)
    requires forall p :: p in d ==> Before(Frames(d[p]), n)
    requires BufferOk(h, n, d, buffer)
    ensures var b' := Buffered(buffer, s);
            BufferOk(h, n + 1, d, b') && IdOf(b'[0]) == IdOf(s) && Before(b', n + 1) && b'[0].at <= n
  {
    hide Stream, Waiting, Frames;
    SnapAt(h, n);
    if Buffered(buffer, s) == [s] {
      NothingWaits(d);
      WaitsToo(d, [], s);
      assert [] + [s] == [s] == Selected(h, n, n + 1, IdOf(s).value);
    } else {
      SelectedNonempty(h, buffer[0].at, n, IdOf(s).value);
      WaitsToo(d, buffer, s);
    }
  }

  lemma {:induction false} SnapAt(h: History, n: nat)
    requires Stream(h) && n < |h| && h[n].Tick?
    ensures h[n].snap.at == n
  {
  }

  lemma {:induction false} NothingWaits(d: Disk)
    ensures Waiting(d, [])
  {
  }

  /** A frame newer than all that is in files waits with the others. */
  lemma {:induction false} WaitsToo(d: Disk, frames: seq<Snap>, s: Snap)
    requires Waiting(d, frames) && forall p :: p in d ==> Before(Frames(d[p]), s.at)
    ensures Waiting(d, frames + [s])
  {
    hide Frames;
  }

  lemma {:induction false} OpenSettles(h: History, n: nat, b: Box, s: Snap, stem: string, buffer: seq<Snap>)
    requires n < |h| && b.cur.None? && AllFaithful(h, n + 1, b.disk) && Tidy(n + 1, b.disk)
    requires forall p :: p in b.disk ==> !b.disk[p].open
    requires buffer != [] && IdOf(buffer[0]) == IdOf(s) && IdOf(s).Some?
    requires BufferOk(h, n + 1, b.disk, buffer) && Before(buffer, n + 1)
    ensures var b' := WriteFrames(Open(b, IdOf(s).value, stem), buffer).(buffer := []);
            Settled(h, n + 1, b') && b'.cur.Some? && b'.cur.value.matchId == IdOf(s).value
  {
    hide FullFrames, WriteFrames, Selected, Faithful, Tidy;
    var id, path := IdOf(s).value, FreshPath(stem, 1, b.disk.Keys);
    OpenEffect(b.disk, Open(b, id, stem), id, path, buffer);
    var b' := WriteFrames(Open(b, id, stem), buffer);
    var f := b'.disk[path];
    assert Holds(h, f, n + 1);
    OpenTidy(n + 1, b.disk, path, f);
    OpenFaithful(h, n, b.disk, path, f, b'.cur.value);
  }

  lemma {:induction false} BufferingSettles(h: History, n: nat, b: Box, s: Snap, stem: string)
    requires Stream(h) && n < |h| && h[n].Tick? && s == h[n].snap && Accepted(h, n) && IsActive(s)
    requires b.cur.None? && AllFaithful(h, n + 1, b.disk) && Tidy(n, b.disk)
    requires forall p :: p in b.disk ==> !b.disk[p].open
    requires BufferOk(h, n, b.disk, b.buffer)
    ensures var b' := StepBuffering(b, s, stem);
            Settled(h, n + 1, b') && (b'.cur.Some? ==> Some(b'.cur.value.matchId) == IdOf(s))
  {
    var buffer := Buffered(b.buffer, s);
    BufferExtends(h, n, b.disk, b.buffer, s);
    TidyLater(n, b.disk);
    if |buffer| < CONFIRM_TICKS || (!s.named && |buffer| < FILENAME_BUFFER_LIMIT) {
      assert StepBuffering(b, s, stem) == b.(buffer := buffer);
    } else {
      OpenSettles(h, n, b, s, stem, buffer);
    }
  }

  lemma {:induction false} BufferingKeeps(b: Box, s: Snap, stem: string)
    requires b.cur.None? && IsActive(s)
    ensures var b' := StepBuffering(b, s, stem);
            b' == b.(cur := b'.cur, disk := b'.disk, buffer := b'.buffer)
  {
    var id := IdOf(s).value;
    OpenEffect(b.disk, Open(b, id, stem), id, FreshPath(stem, 1, b.disk.Keys), Buffered(b.buffer, s));
  }

  /* ----- the branches of a step ----- */

  lemma {:induction false} TrackingKept(b: Box, s: Snap, stem: string, minTicks: nat)
    ensures var b', b1 := Step(b, s, stem, minTicks), Track(b, s);
            b'.sequenced == b1.sequenced && b'.lastTick == b1.lastTick
  {
    if IsActive(s) && Accepts(b, s) {
      var b1 := Track(b, s).(inactive := 0, idle := 0);
      if b1.cur.None? {
        BufferingKeeps(ClearPending(b1), s, stem);
      } else if b1.cur.value.matchId != IdOf(s).value {
        var pending := if b1.pendingId == IdOf(s) then b1.pending + [s] else [s];
        BufferingKeeps(ClearPending(Close(b1, minTicks, true)).(buffer := pending[..|pending| - 1]), s, stem);
      }
    }
  }

  lemma {:induction false} TickTracked(h: History, n: nat, b: Box, minTicks: nat)
    requires n < |h| && h[n].Tick? && Tracked(h, n, b)
    ensures Tracked(h, n + 1, Step(b, h[n].snap, h[n].stem, minTicks))
  {
    TrackingKept(b, h[n].snap, h[n].stem, minTicks);
  }

  /** Closing on a confirmed end settles the directory. */
  lemma {:induction false} CloseSettles(h: History, n: nat, b: Box, minTicks: nat)
    requires n < |h| && Settled(h, n, b) && b.cur.Some?
    requires Evidence(h, n, b.cur.value.matchId) && !ActiveAs(h, n, b.cur.value.matchId)
    ensures var b' := Close(b, minTicks, true);
            && AllFaithful(h, n + 1, b'.disk) && Tidy(n, b'.disk)
            && (forall p :: p in b'.disk ==> !b'.disk[p].open)
  {
    hide AllFaithful, Tidy, Evidence, Holds, Counted;
    WriterFacts(h, n, b);
    StepClose(h, n, b.disk, b.cur.value, minTicks);
    CloseTidy(n, b.disk, b.cur.value, minTicks, true);
  }

  /** An event that changes neither the directory nor the buffer settles too. */
  lemma {:induction false} SameSettles(h: History, n: nat, b: Box, b': Box)
    requires n < |h| && Settled(h, n, b)
    requires b'.disk == b.disk && b'.cur == b.cur
    requires b.cur.Some? ==> b'.buffer == [] && !ActiveAs(h, n, b.cur.value.matchId)
    requires b.cur.None? && b'.buffer != [] ==> b'.buffer == b.buffer && !ActiveAs(h, n, IdOf(b.buffer[0]).value)
    ensures Settled(h, n + 1, b')
  {
    FaithfulLater(h, n, b.disk);
    TidyLater(n, b.disk);
    if b.cur.Some? {
      WriterLater(h, n, b.disk, b.cur.value);
    } else if b'.buffer != [] {
      BufferLater(h, n, b.disk, b.buffer);
    }
  }

  lemma {:induction false} InactiveStep(h: History, n: nat, b: Box, minTicks: nat)
    requires n < |h| && h[n].Tick? && Inv(h, n, b) && AcceptedInactive(h, n)
    ensures var b' := Step(b, h[n].snap, h[n].stem, minTicks);
            && Settled(h, n + 1, b') && Confirming(h, n + 1, b')
            && (b.cur.Some? ==> (Ended(b', b.cur.value.matchId) <==> Evidence(h, n, b.cur.value.matchId)))
  {
    hide AllFaithful, Tidy, WriterOk, PendingOk, InactiveRun, Evidence, Close;
    TrackKeeps(h, n, b);
    if b.cur.None? {
      SameSettles(h, n, b, Step(b, h[n].snap, h[n].stem, minTicks));
    } else {
      InactiveStepOpen(h, n, b, minTicks);
    }
  }

  lemma {:induction false} InactiveStepOpen(h: History, n: nat, b: Box, minTicks: nat)
    requires n < |h| && h[n].Tick? && Inv(h, n, b) && AcceptedInactive(h, n) && b.cur.Some?
    requires Accepts(b, h[n].snap) && (n > 0 && h[n - 1].Tick? ==> (SequenceBroken(b, h[n].snap) <==> !Follows(h, n)))
    ensures var b' := Step(b, h[n].snap, h[n].stem, minTicks);
            && Settled(h, n + 1, b') && Confirming(h, n + 1, b')
            && (Ended(b', b.cur.value.matchId) <==> Evidence(h, n, b.cur.value.matchId))
  {
    hide AllFaithful, Tidy, WriterOk, PendingOk, InactiveRun, Evidence;
    var b1 := ClearPending(Track(b, h[n].snap));
    var b' := StepInactive(b1, minTicks);
    assert Step(b, h[n].snap, h[n].stem, minTicks) == b';
    CountInactive(h, n, b);
    RunIsEvidence(h, n, n - b1.inactive, b.cur.value.matchId);
    if b1.inactive + 1 == CONFIRM_TICKS {
      CloseSettles(h, n, b, minTicks);
      TidyLater(n, b'.disk);
    } else {
      SameSettles(h, n, b, b');
      NothingPending(h, n, b');
    }
  }

  lemma {:induction false} NothingPending(h: History, n: nat, b: Box)
    requires n < |h| && b.cur.Some? && b.pending == [] && b.pendingId.None?
    requires !IsForeign(h, n, b.cur.value.matchId)
    requires b.inactive < CONFIRM_TICKS && InactiveRun(h, n + 1 - b.inactive, n + 1)
    ensures Confirming(h, n + 1, b)
  {
  }

  /** After tracking, the inactive count is the run that tick n extends. */
  lemma {:induction false} CountInactive(h: History, n: nat, b: Box)
    requires n < |h| && h[n].Tick? && Confirming(h, n, b) && AcceptedInactive(h, n) && b.cur.Some?
    requires n > 0 && h[n - 1].Tick? ==> (SequenceBroken(b, h[n].snap) <==> !Follows(h, n))
    ensures InactiveRun(h, n - Track(b, h[n].snap).inactive, n + 1)
    ensures Track(b, h[n].snap).inactive < CONFIRM_TICKS
  {
    var b1 := Track(b, h[n].snap);
    if b.inactive > 0 {
      assert AcceptedInactive(h, n - 1);
    }
    ExtendInactive(h, n - b1.inactive, n);
  }

  lemma {:induction false} RunIsEvidence(h: History, n: nat, from: int, id: string)
    requires n < |h| && InactiveRun(h, from, n + 1) && AcceptedInactive(h, n) && n + 1 - from <= CONFIRM_TICKS
    ensures Evidence(h, n, id) <==> n + 1 - from == CONFIRM_TICKS
  {
    if n + 1 - from == CONFIRM_TICKS {
      assert AcceptedInactive(h, n - 2) && AcceptedInactive(h, n - 1);
    }
  }

  /** A frame that is not known-inactive ends any run of known-inactive ticks. */
  lemma {:induction false} NoInactiveRun(h: History, n: nat)
    requires n < |h| && !AcceptedInactive(h, n)
    ensures InactiveRun(h, n + 1, n + 1)
  {
  }

  /** A dropped or ambiguous tick changes no file and voids every confirmation. */
  lemma {:induction false} VoidEffect(b: Box, s: Snap, stem: string, minTicks: nat)
    requires !Accepts(b, s) || (!IsActive(s) && !KnownInactive(s.state))
    requires b.cur.None? ==> b.inactive == 0
    ensures var b' := Step(b, s, stem, minTicks);
            && b'.disk == b.disk && b'.cur == b.cur
            && b'.pending == [] && b'.pendingId.None? && b'.inactive == 0
            && (b'.buffer == b.buffer || (b.cur.None? && b'.buffer == []))
            && (b'.buffer == [] || b'.buffer == b.buffer)
  {
  }

  lemma {:induction false} VoidSettles(h: History, n: nat, b: Box, b': Box)
    requires n < |h| && Inv(h, n, b)
    requires !Accepted(h, n) || !IsActive(h[n].snap)
    requires !AcceptedInactive(h, n)
    requires b'.disk == b.disk && b'.cur == b.cur
    requires b'.pending == [] && b'.pendingId.None? && b'.inactive == 0
    requires b'.buffer == b.buffer || (b.cur.None? && b'.buffer == [])
    ensures Settled(h, n + 1, b') && Confirming(h, n + 1, b')
  {
    SameSettles(h, n, b, b');
    if b.cur.Some? {
      NoInactiveRun(h, n);
      NothingPending(h, n, b');
    }
  }

  lemma {:induction false} VoidStep(h: History, n: nat, b: Box, minTicks: nat)
    requires n < |h| && h[n].Tick? && Inv(h, n, b)
    requires !Accepted(h, n) || (!IsActive(h[n].snap) && !KnownInactive(h[n].snap.state))
    ensures var b' := Step(b, h[n].snap, h[n].stem, minTicks);
            && Settled(h, n + 1, b') && Confirming(h, n + 1, b') && b'.cur == b.cur
            && (b.cur.Some? ==> !Evidence(h, n, b.cur.value.matchId))
  {
    VoidEffect(b, h[n].snap, h[n].stem, minTicks);
    VoidSettles(h, n, b, Step(b, h[n].snap, h[n].stem, minTicks));
  }

  /* ----- an active tick ----- */

  lemma {:induction false} ActiveEffect(b: Box, s: Snap, stem: string, minTicks: nat)
    requires Accepts(b, s) && IsActive(s)
    ensures Step(b, s, stem, minTicks) == StepActive(Track(b, s).(inactive := 0, idle := 0), s, stem, minTicks)
  {
  }

  lemma {:induction false} OneFrame(b: Box, s: Snap)
    requires b.cur.Some? && b.cur.value.path in b.disk
    ensures WriteFrames(b, [s]) == WriteFrame(b, s) && WriteFrame(b, s).cur.Some?
    ensures var b' := WriteFrame(b, s);
            && b' == b.(cur := b'.cur, disk := b'.disk)
            && b'.cur.value.matchId == b.cur.value.matchId && b'.cur.value.path == b.cur.value.path
            && b'.disk.Keys == b.disk.Keys
            && (forall p :: p in b.disk ==> b'.disk[p].open == b.disk[p].open)
  {
    assert [s][..0] == [];
    assert WriteFrames(b, [s][..0]) == b;
  }

  lemma {:induction false} OwnFrameSettles(h: History, n: nat, b: Box, b': Box)
    requires Stream(h) && n < |h| && h[n].Tick? && Settled(h, n, b) && b.cur.Some?
    requires ActiveAs(h, n, b.cur.value.matchId)
    requires b' == WriteFrames(b, [h[n].snap]) && b'.cur.Some? && b'.buffer == []
    requires b'.cur.value.matchId == b.cur.value.matchId && b'.cur.value.path == b.cur.value.path
    requires b'.disk.Keys == b.disk.Keys && forall p :: p in b.disk ==> b'.disk[p].open == b.disk[p].open
    ensures Settled(h, n + 1, b')
  {
    StepAppend(h, n, b);
    AppendTidy(n, b, h[n].snap);
  }

  lemma {:induction false} FrameConfirms(h: History, n: nat, b: Box)
    requires n < |h| && h[n].Tick? && IsActive(h[n].snap) && b.cur.Some?
    requires b.pending == [] && b.pendingId.None? && b.inactive == 0
    requires IdOf(h[n].snap) == Some(b.cur.value.matchId)
    ensures Confirming(h, n + 1, b)
  {
    NoInactiveRun(h, n);
    NothingPending(h, n, b);
  }

  /** The frames that end with snapshot n: a longest gap-free run of match `id`, in no file yet. */
  ghost predicate PendingRun(h: History, n: nat, d: Disk, id: string, pending: seq<Snap>)
    requires n < |h|
  {
    && 0 < |pending| <= CONFIRM_TICKS
    && ActiveRun(h, n + 1 - |pending|, n + 1, id)
    && pending == Selected(h, n + 1 - |pending|, n + 1, id)
    && Waiting(d, pending)
  }

  /** A frame of another match: it joins or restarts the pending run. */
  lemma {:induction false} ForeignRun(h: History, n: nat, b: Box)
    requires n < |h| && h[n].Tick? && Confirming(h, n, b) && b.cur.Some?
    requires IsForeign(h, n, b.cur.value.matchId)
    requires n > 0 && h[n - 1].Tick? ==> (SequenceBroken(b, h[n].snap) <==> !Follows(h, n))
    ensures var s, b1 := h[n].snap, Track(b, h[n].snap);
            var pending := PendingAfter(b1, s);
            && 0 < |pending| <= CONFIRM_TICKS
            && ActiveRun(h, n + 1 - |pending|, n + 1, IdOf(s).value)
            && pending == Selected(h, n + 1 - |pending|, n + 1, IdOf(s).value)
  {
    var s, b1 := h[n].snap, Track(b, h[n].snap);
    var id, pending := IdOf(s).value, PendingAfter(b1, s);
    if b.pendingId.Some? {
      assert ActiveAs(h, n - 1, b.pendingId.value);
    }
    ExtendActive(h, n + 1 - |pending|, n, id);
    if pending == [s] {
      assert Selected(h, n, n + 1, id) == [] + [s];
    }
  }

  /** Three gap-free frames of another match are evidence, fewer are not. */
  lemma {:induction false} ForeignEvidence(h: History, n: nat, from: int, id: string, other: string)
    requires n < |h| && ActiveRun(h, from, n + 1, other) && other != id && n + 1 - from <= CONFIRM_TICKS
    ensures Evidence(h, n, id) <==> n + 1 - from == CONFIRM_TICKS
  {
    assert ActiveAs(h, n, other);
    if n + 1 - from == CONFIRM_TICKS {
      assert ActiveAs(h, n - 2, other) && ActiveAs(h, n - 1, other);
    }
    if Evidence(h, n, id) {
      assert ActiveAs(h, n - 2, other) && ActiveAs(h, n - 1, other);
    }
  }

  lemma {:induction false} PendingSettles(h: History, n: nat, b: Box, b': Box)
    requires Stream(h) && n < |h| && h[n].Tick? && Settled(h, n, b) && b.cur.Some?
    requires IsForeign(h, n, b.cur.value.matchId)
    requires b' == b.(pendingId := IdOf(h[n].snap), pending := b'.pending, inactive := 0,
                      idle := b'.idle, sequenced := b'.sequenced, lastTick := b'.lastTick)
    requires 0 < |b'.pending| < CONFIRM_TICKS
    requires ActiveRun(h, n + 1 - |b'.pending|, n + 1, IdOf(h[n].snap).value)
    requires b'.pending == Selected(h, n + 1 - |b'.pending|, n + 1, IdOf(h[n].snap).value)
    requires Waiting(b.disk, b'.pending)
    ensures Settled(h, n + 1, b') && Confirming(h, n + 1, b')
  {
    hide ActiveRun, Selected, Waiting, Confirming, AllFaithful, Tidy, WriterOk;
    PendingConfirms(h, n, b');
    SameSettles(h, n, b, b');
  }

  lemma {:induction false} PendingConfirms(h: History, n: nat, b: Box)
    requires n < |h| && h[n].Tick? && b.cur.Some? && b.inactive == 0
    requires IsForeign(h, n, b.cur.value.matchId) && b.pendingId == IdOf(h[n].snap)
    requires 0 < |b.pending| < CONFIRM_TICKS
    requires ActiveRun(h, n + 1 - |b.pending|, n + 1, IdOf(h[n].snap).value)
    requires b.pending == Selected(h, n + 1 - |b.pending|, n + 1, IdOf(h[n].snap).value)
    requires Waiting(b.disk, b.pending)
    ensures Confirming(h, n + 1, b)
  {
    hide ActiveRun, Selected, Waiting;
    NoInactiveRun(h, n);
  }

  lemma {:induction false} WaitingMore(n: nat, d: Disk, frames: seq<Snap>, s: Snap)
    requires Tidy(n, d) && Waiting(d, frames) && s.at == n
    ensures Waiting(d, frames + [s]) && Waiting(d, [s])
  {
  }

  /** The confirmed frames of the next match, all but the last, seed its buffer. */
  lemma {:induction false} SeedBuffer(h: History, n: nat, d: Disk, pending: seq<Snap>, id: string)
    requires Stream(h) && n < |h| && 2 <= |pending| <= n + 1
    requires ActiveRun(h, n + 1 - |pending|, n + 1, id)
    requires pending == Selected(h, n + 1 - |pending|, n + 1, id)
    requires Waiting(d, pending)
    ensures BufferOk(h, n, d, pending[..|pending| - 1])
  {
    var from, seed := n + 1 - |pending|, pending[..|pending| - 1];
    assert ActiveAs(h, n, id);
    assert Selected(h, from, n + 1, id) == Selected(h, from, n, id) + [h[n].snap];
    assert seed == Selected(h, from, n, id);
    assert forall i :: from <= i < n ==> ActiveAs(h, i, id);
    SelectedRun(h, from, n, id);
    assert ActiveAs(h, from, id);
  }

  lemma {:induction false} BufferingStep(h: History, n: nat, b: Box, s: Snap, stem: string)
    requires Stream(h) && n < |h| && h[n].Tick? && s == h[n].snap && Accepted(h, n) && IsActive(s)
    requires b.cur.None? && AllFaithful(h, n + 1, b.disk) && Tidy(n, b.disk)
    requires forall p :: p in b.disk ==> !b.disk[p].open
    requires BufferOk(h, n, b.disk, b.buffer)
    requires b.pending == [] && b.pendingId.None? && b.inactive == 0
    ensures var b' := StepBuffering(b, s, stem);
            && Settled(h, n + 1, b') && Confirming(h, n + 1, b')
            && (b'.cur.Some? ==> Some(b'.cur.value.matchId) == IdOf(s))
  {
    BufferingSettles(h, n, b, s, stem);
    BufferingKeeps(b, s, stem);
    BufferingConfirms(h, n, b, StepBuffering(b, s, stem));
  }

  lemma {:induction false} BufferingConfirms(h: History, n: nat, b: Box, b': Box)
    requires n < |h| && h[n].Tick? && IsActive(h[n].snap)
    requires b.pending == [] && b.pendingId.None? && b.inactive == 0
    requires b' == b.(cur := b'.cur, disk := b'.disk, buffer := b'.buffer)
    requires b'.cur.Some? ==> Some(b'.cur.value.matchId) == IdOf(h[n].snap)
    ensures Confirming(h, n + 1, b')
  {
    if b'.cur.Some? {
      FrameConfirms(h, n, b');
    }
  }

  /** The third frame of a new match: the old recording is finished, the new match begins. */
  lemma {:induction false} SwitchStep(h: History, n: nat, b: Box, b1: Box, pending: seq<Snap>, minTicks: nat)
    requires Stream(h) && n < |h| && h[n].Tick? && Settled(h, n, b) && b.cur.Some?
    requires IsForeign(h, n, b.cur.value.matchId) && Evidence(h, n, b.cur.value.matchId)
    requires b1.disk == b.disk && b1.cur == b.cur && b1.inactive == 0
    requires |pending| == CONFIRM_TICKS <= n + 1
    requires ActiveRun(h, n + 1 - |pending|, n + 1, IdOf(h[n].snap).value)
    requires pending == Selected(h, n + 1 - |pending|, n + 1, IdOf(h[n].snap).value) && Waiting(b.disk, pending)
    ensures var b2 := ClearPending(Close(b1, minTicks, true)).(buffer := pending[..|pending| - 1]);
            var b' := StepBuffering(b2, h[n].snap, h[n].stem);
            && Settled(h, n + 1, b') && Confirming(h, n + 1, b')
            && (b'.cur.Some? ==> Some(b'.cur.value.matchId) == IdOf(h[n].snap))
  {
    var b2 := ClearPending(Close(b1, minTicks, true)).(buffer := pending[..|pending| - 1]);
    CloseSettles(h, n, b, minTicks);
    assert b2.disk == Close(b, minTicks, true).disk;
    WaitingLess(b.disk, b.cur.value, minTicks, pending);
    SeedBuffer(h, n, b2.disk, pending, IdOf(h[n].snap).value);
    BufferingStep(h, n, b2, h[n].snap, h[n].stem);
  }

  lemma {:induction false} WaitingLess(d: Disk, r: Rec, minTicks: nat, frames: seq<Snap>)
    requires Waiting(d, frames)
    ensures Waiting(CloseFile(d, r, minTicks, true), frames)
  {
  }

  /** The recording of match `id` is no longer the open one. */
  predicate Ended(b: Box, id: string) {
    b.cur.None? || b.cur.value.matchId != id
  }

  /** A frame of another match is pended, or completes the confirmation and switches over. */
  lemma {:induction false} ForeignEffect(b: Box, s: Snap, stem: string, minTicks: nat)
    requires Accepts(b, s) && IsActive(s) && b.cur.Some? && IdOf(s) != Some(b.cur.value.matchId)
    ensures var b1 := Track(b, s).(inactive := 0, idle := 0);
            var pending := PendingAfter(Track(b, s), s);
            Step(b, s, stem, minTicks) ==
              if |pending| < CONFIRM_TICKS then b1.(pendingId := IdOf(s), pending := pending)
              else StepBuffering(ClearPending(Close(b1, minTicks, true)).(buffer := pending[..|pending| - 1]), s, stem)
  {
  }

  lemma {:induction false} ForeignFacts(h: History, n: nat, b: Box)
    requires Stream(h) && n < |h| && h[n].Tick? && Inv(h, n, b) && b.cur.Some?
    requires IsForeign(h, n, b.cur.value.matchId)
    ensures Accepts(b, h[n].snap) && |PendingAfter(Track(b, h[n].snap), h[n].snap)| <= n + 1
    ensures PendingRun(h, n, b.disk, IdOf(h[n].snap).value, PendingAfter(Track(b, h[n].snap), h[n].snap))
  {
    TrackKeeps(h, n, b);
    ForeignRun(h, n, b);
    PendingWaits(n, b, h[n].snap);
  }

  lemma {:induction false} ForeignStep(h: History, n: nat, b: Box, minTicks: nat)
    requires Stream(h) && n < |h| && h[n].Tick? && Inv(h, n, b) && b.cur.Some?
    requires IsForeign(h, n, b.cur.value.matchId)
    ensures var b' := Step(b, h[n].snap, h[n].stem, minTicks);
            && Settled(h, n + 1, b') && Confirming(h, n + 1, b')
            && (Ended(b', b.cur.value.matchId) <==> Evidence(h, n, b.cur.value.matchId))
  {
    hide AllFaithful, Tidy, WriterOk, BufferOk, PendingOk, InactiveRun, PendingRun, Step, StepActive, PendingAfter;
    var s := h[n].snap;
    ForeignFacts(h, n, b);
    ForeignEffect(b, s, h[n].stem, minTicks);
    ForeignCases(h, n, b, Track(b, s).(inactive := 0, idle := 0), PendingAfter(Track(b, s), s),
                 Step(b, s, h[n].stem, minTicks), minTicks);
  }

  lemma {:induction false} ForeignCases(h: History, n: nat, b: Box, b1: Box, pending: seq<Snap>, b': Box, minTicks: nat)
    requires Stream(h) && n < |h| && h[n].Tick? && Settled(h, n, b) && b.cur.Some?
    requires IsForeign(h, n, b.cur.value.matchId)
    requires IdOf(h[n].snap).Some? && IdOf(h[n].snap) != Some(b.cur.value.matchId) && |pending| <= n + 1
    requires b1 == b.(inactive := 0, idle := 0, pendingId := b1.pendingId, pending := b1.pending,
                      sequenced := b1.sequenced, lastTick := b1.lastTick)
    requires PendingRun(h, n, b.disk, IdOf(h[n].snap).value, pending)
    requires b' == if |pending| < CONFIRM_TICKS then b1.(pendingId := IdOf(h[n].snap), pending := pending)
                   else StepBuffering(ClearPending(Close(b1, minTicks, true)).(buffer := pending[..|pending| - 1]),
                                      h[n].snap, h[n].stem)
    ensures Settled(h, n + 1, b') && Confirming(h, n + 1, b')
    ensures Ended(b', b.cur.value.matchId) <==> Evidence(h, n, b.cur.value.matchId)
  {
    hide Faithful, Tidy, Selected, ActiveRun, Waiting, Evidence, StepBuffering, Close, IsForeign;
    ForeignEvidence(h, n, n + 1 - |pending|, b.cur.value.matchId, IdOf(h[n].snap).value);
    if |pending| < CONFIRM_TICKS {
      PendingSettles(h, n, b, b');
    } else {
      SwitchStep(h, n, b, b1, pending, minTicks);
    }
  }

  lemma {:induction false} PendingWaits(n: nat, b: Box, s: Snap)
    requires Tidy(n, b.disk) && Waiting(b.disk, b.pending) && s.at == n
    ensures Waiting(b.disk, PendingAfter(Track(b, s), s))
  {
    WaitingMore(n, b.disk, b.pending, s);
    WaitingMore(n, b.disk, [], s);
    assert [] + [s] == [s];
  }

  lemma {:induction false} OwnIsNoEvidence(h: History, n: nat, id: string)
    requires n < |h| && ActiveAs(h, n, id)
    ensures !Evidence(h, n, id)
  {
  }

  lemma {:induction false} OwnStep(h: History, n: nat, b: Box, minTicks: nat)
    requires Stream(h) && n < |h| && h[n].Tick? && Inv(h, n, b) && b.cur.Some?
    requires ActiveAs(h, n, b.cur.value.matchId)
    ensures var b' := Step(b, h[n].snap, h[n].stem, minTicks);
            && Settled(h, n + 1, b') && Confirming(h, n + 1, b')
            && !Ended(b', b.cur.value.matchId) && !Evidence(h, n, b.cur.value.matchId)
  {
    hide AllFaithful, Tidy, BufferOk, PendingOk, InactiveRun, Evidence, Holds, Counted;
    var s := h[n].snap;
    TrackKeeps(h, n, b);
    OwnIsNoEvidence(h, n, b.cur.value.matchId);
    ActiveEffect(b, s, h[n].stem, minTicks);
    var b1 := ClearPending(Track(b, s).(inactive := 0, idle := 0));
    OneFrame(b1, s);
    OwnFrameSettles(h, n, b1, WriteFrame(b1, s));
    FrameConfirms(h, n, WriteFrame(b1, s));
  }

  lemma {:induction false} FirstFrames(h: History, n: nat, b: Box, minTicks: nat)
    requires Stream(h) && n < |h| && h[n].Tick? && Inv(h, n, b) && b.cur.None?
    requires Accepted(h, n) && IsActive(h[n].snap)
    ensures var b' := Step(b, h[n].snap, h[n].stem, minTicks);
            Settled(h, n + 1, b') && Confirming(h, n + 1, b')
  {
    var s := h[n].snap;
    TrackKeeps(h, n, b);
    ActiveEffect(b, s, h[n].stem, minTicks);
    FaithfulLater(h, n, b.disk);
    BufferingStep(h, n, ClearPending(Track(b, s).(inactive := 0, idle := 0)), s, h[n].stem);
  }

  /* ----- whole runs ----- */

  lemma {:induction false} StepKeeps(h: History, n: nat, b: Box, minTicks: nat)
    requires Stream(h) && n < |h| && h[n].Tick? && Inv(h, n, b)
    ensures var b' := Step(b, h[n].snap, h[n].stem, minTicks);
            && Inv(h, n + 1, b')
            && (b.cur.Some? ==> (Ended(b', b.cur.value.matchId) <==> Evidence(h, n, b.cur.value.matchId)))
  {
    hide AllFaithful, Tidy, WriterOk, BufferOk, PendingOk, InactiveRun, Evidence, StepActive, StepInactive, Track;
    TickTracked(h, n, b, minTicks);
    if !Accepted(h, n) || (!IsActive(h[n].snap) && !KnownInactive(h[n].snap.state)) {
      VoidStep(h, n, b, minTicks);
    } else if !IsActive(h[n].snap) {
      InactiveStep(h, n, b, minTicks);
    } else if b.cur.None? {
      FirstFrames(h, n, b, minTicks);
    } else if IdOf(h[n].snap) == Some(b.cur.value.matchId) {
      OwnStep(h, n, b, minTicks);
    } else {
      ForeignStep(h, n, b, minTicks);
    }
  }

  /** Position frames go to the open recording only, and change no full frame and no count of them. */
  lemma {:induction false} PositionsKeep(h: History, n: nat, b: Box, texts: seq<string>)
    requires n <= |h| && Inv(h, n, b)
    ensures Inv(h, n, WritePositions(b, texts)) && OnlyPositions(b, WritePositions(b, texts))
  {
    if texts != [] {
      PositionsKeep(h, n, b, texts[..|texts| - 1]);
      PositionKeeps(h, n, WritePositions(b, texts[..|texts| - 1]), texts[|texts| - 1]);
    }
  }

  /** Only position frames were added, to the open recording. */
  ghost predicate OnlyPositions(b: Box, b': Box) {
    && b'.disk.Keys == b.disk.Keys
    && (b.cur.None? ==> b' == b)
    && (b.cur.Some? ==>
          && b'.cur.Some? && b' == b.(cur := b'.cur, disk := b'.disk)
          && b'.cur.value == b.cur.value.(positions := b'.cur.value.positions))
    && (forall p :: p in b.disk ==>
          && Frames(b'.disk[p]) == Frames(b.disk[p])
          && b'.disk[p] == b.disk[p].(lines := b'.disk[p].lines)
          && (!b.disk[p].open ==> b'.disk[p] == b.disk[p]))
  }

  lemma {:induction false} PositionEffect(b: Box, text: string)
    requires b.cur.Some? ==> b.cur.value.path in b.disk && b.disk[b.cur.value.path].open
    requires b.cur.Some? ==> b.cur.value.positions == PositionCount(b.disk[b.cur.value.path].lines)
    ensures OnlyPositions(b, WritePosition(b, text))
    ensures b.cur.Some? ==>
              var r := WritePosition(b, text).cur.value;
              r.positions == PositionCount(WritePosition(b, text).disk[r.path].lines)
  {
    if b.cur.Some? {
      AppendedLine(b.disk[b.cur.value.path].lines, Position(text));
    }
  }

  lemma {:induction false} PositionSettles(h: History, n: nat, b: Box, b': Box)
    requires n <= |h| && Settled(h, n, b) && OnlyPositions(b, b')
    requires b.cur.Some? ==> b'.cur.value.positions == PositionCount(b'.disk[b'.cur.value.path].lines)
    ensures Settled(h, n, b')
  {
    PositionFaithful(h, n, b, b');
  }

  lemma {:induction false} PositionFaithful(h: History, n: nat, b: Box, b': Box)
    requires n <= |h| && AllFaithful(h, n, b.disk) && OnlyPositions(b, b')
    ensures AllFaithful(h, n, b'.disk)
  {
    forall p | p in b'.disk
      ensures Faithful(h, n, b'.disk[p])
    {
      var f := b.disk[p];
      var until :| 0 < until <= n && Holds(h, f, until) && EndsAt(h, n, f, until);
      assert Holds(h, b'.disk[p], until) && EndsAt(h, n, b'.disk[p], until);
    }
  }

  lemma {:induction false} PositionKeeps(h: History, n: nat, b: Box, text: string)
    requires n <= |h| && Inv(h, n, b)
    ensures Inv(h, n, WritePosition(b, text)) && OnlyPositions(b, WritePosition(b, text))
  {
    PositionEffect(b, text);
    PositionSettles(h, n, b, WritePosition(b, text));
    PositionConfirms(h, n, b, WritePosition(b, text));
  }

  lemma {:induction false} PositionConfirms(h: History, n: nat, b: Box, b': Box)
    requires n <= |h| && Confirming(h, n, b) && OnlyPositions(b, b')
    ensures Confirming(h, n, b')
  {
    hide ActiveRun, InactiveRun, Selected, IsForeign;
  }

  lemma {:induction false} EmptyInv(h: History)
    ensures Inv(h, 0, EmptyBox(map[]))
  {
  }

  lemma {:induction false} RunInv(h: History, n: nat, minTicks: nat)
    requires Stream(h) && n <= |h|
    ensures Inv(h, n, Run(h, n, minTicks))
  {
    hide Inv, Apply, Stream;
    if n == 0 {
      EmptyInv(h);
    } else {
      RunInv(h, n - 1, minTicks);
      EventKeeps(h, n - 1, Run(h, n - 1, minTicks), minTicks);
    }
  }

  lemma {:induction false} EventKeeps(h: History, n: nat, b: Box, minTicks: nat)
    requires Stream(h) && n < |h| && Inv(h, n, b)
    ensures Inv(h, n + 1, Apply(b, h[n], minTicks))
  {
    match h[n]
    case Tick(s, stem, positions) =>
      StepKeeps(h, n, b, minTicks);
      PositionsKeep(h, n + 1, Step(b, s, stem, minTicks), positions);
    case Restart(graceful) =>
      StepReboot(h, n, b, graceful);
  }
}
