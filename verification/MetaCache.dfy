/** The HTTP gate's metadata cache, interleaved with the recorder, with retention and with other
    requests that all work on the same two files: a recording and its sidecar. */
module MetaCache {
  import opened Options
  import opened Lifecycle
  import R = Recorder

  const IN_PROGRESS_WINDOW_SEC := 8

  /** A sidecar's content; `phase` is None for one written before the lifecycle field existed. */
  datatype Meta = Meta(phase: Option<RecordingPhase>, inProgress: Option<bool>, ticks: Option<nat>)

  /** A version number stands for a stat signature: every write makes a new one. A file that is not a
      JSON object has no meta. */
  datatype Side = Side(version: nat, meta: Option<Meta>)

  datatype Sqrx = Sqrx(version: nat, lines: seq<R.Line>, open: bool, mtime: int)

  /** `retired` says that the recording was once finalized. */
  datatype Disk = Disk(sqrx: Option<Sqrx>, side: Option<Side>, clock: int, nextVersion: nat, retired: bool)

  /** What may happen to the two files between two looks of a request. A step that is not possible
      does nothing. */
  datatype EnvStep =
    | OpenRecording
    | Append(line: R.Line)
    | WriteActiveSidecar
    | CloseWriter
    | WriteFinalSidecar(confirmed: bool, ticks: nat)
    | HealSidecar(ticks: nat)
    | UnlinkRecording
    | UnlinkSidecar
    | Wait(seconds: nat)

  predicate Finished(m: Meta) {
    m.phase == Some(Finalized)
  }

  predicate SideFinished(d: Disk) {
    d.side.Some? && d.side.value.meta.Some? && Finished(d.side.value.meta.value)
  }

  function WithSide(d: Disk, m: Option<Meta>): Disk {
    d.(side := Some(Side(d.nextVersion, m)), nextVersion := d.nextVersion + 1)
  }

  const HEALED := Meta(Some(Unverified), Some(true), None)

  function Step(d: Disk, s: EnvStep): Disk {
    match s
    case OpenRecording =>
      // a name carries the second it was opened in: a finished one is never used again
      if d.sqrx.None? && !d.retired then
        d.(sqrx := Some(Sqrx(d.nextVersion, [], true, d.clock)), nextVersion := d.nextVersion + 1)
      else d
    case Append(line) =>
      if d.sqrx.Some? && d.sqrx.value.open then
        d.(sqrx := Some(Sqrx(d.nextVersion, d.sqrx.value.lines + [line], true, d.clock)),
            nextVersion := d.nextVersion + 1)
      else d
    case WriteActiveSidecar =>
      if d.sqrx.Some? && d.sqrx.value.open then WithSide(d, Some(Meta(Some(Active), Some(true), Some(0)))) else d
    case CloseWriter =>
      if d.sqrx.Some? then d.(sqrx := Some(d.sqrx.value.(open := false))) else d
    case WriteFinalSidecar(confirmed, ticks) =>
      if d.sqrx.Some? ==> !d.sqrx.value.open then
        WithSide(d, Some(Meta(Some(if confirmed then Finalized else Unverified), Some(!confirmed), Some(ticks))))
          .(retired := d.retired || confirmed)
      else d
    case HealSidecar(ticks) => WithSide(d, Some(HEALED.(ticks := Some(ticks))))
    case UnlinkRecording => d.(sqrx := None)
    case UnlinkSidecar => if d.sqrx.None? then d.(side := None) else d
    case Wait(seconds) => d.(clock := d.clock + seconds)
  }

  function Steps(d: Disk, steps: seq<EnvStep>): Disk {
    if steps == [] then d else Step(Steps(d, steps[..|steps| - 1]), steps[|steps| - 1])
  }

  /** The recorder's promise: a sidecar says finalized only over a closed recording. */
  predicate DiskOk(d: Disk) {
    && (SideFinished(d) ==> d.side.value.meta.value.inProgress == Some(false) && d.retired)
    && (d.retired && d.sqrx.Some? ==> !d.sqrx.value.open)
    && (d.sqrx.Some? ==> d.sqrx.value.version < d.nextVersion)
    && (d.side.Some? ==> d.side.value.version < d.nextVersion)
  }

  predicate SameRecording(d: Disk, d': Disk) {
    d.sqrx.Some? && d'.sqrx.Some? && d.sqrx.value.version == d'.sqrx.value.version
  }

  /** A version that is there later and was already possible before was there before; while a recording
      keeps its version, its bytes stay, its writer is not opened again and its sidecar is not removed; and a
      finished recording gets no successor. */
  predicate Later(d: Disk, d': Disk) {
    && d.nextVersion <= d'.nextVersion
    && (d.retired ==> d'.retired && (d'.sqrx.Some? ==> SameRecording(d, d')))
    && (d'.sqrx.Some? && d'.sqrx.value.version < d.nextVersion ==> SameRecording(d, d'))
    && (d'.side.Some? && d'.side.value.version < d.nextVersion ==> d.side == d'.side)
    && (SameRecording(d, d') ==>
          && d.sqrx.value.lines == d'.sqrx.value.lines
          && (!d.sqrx.value.open ==> !d'.sqrx.value.open)
          && (d.side.Some? ==> d'.side.Some?))
  }

  lemma {:induction false} LaterTransitive(a: Disk, b: Disk, c: Disk)
    requires DiskOk(a) && Later(a, b) && Later(b, c)
    ensures Later(a, c)
  {
  }

  lemma {:induction false} StepOk(d: Disk, s: EnvStep)
    requires DiskOk(d)
    ensures DiskOk(Step(d, s)) && Later(d, Step(d, s))
  {
  }

  lemma {:induction false} StepsOk(d: Disk, steps: seq<EnvStep>)
    requires DiskOk(d)
    ensures DiskOk(Steps(d, steps)) && Later(d, Steps(d, steps))
  {
    if steps != [] {
      var d' := Steps(d, steps[..|steps| - 1]);
      StepsOk(d, steps[..|steps| - 1]);
      StepOk(d', steps[|steps| - 1]);
      LaterTransitive(d, d', Steps(d, steps));
    }
  }

  /** Once its writer is closed, a recording never gains another byte: whatever happens, it is there
      as it was, or it is gone and any other file of its name is a newer one. */
  lemma {:induction false} ClosedGainsNothing(d: Disk, steps: seq<EnvStep>)
    requires DiskOk(d) && d.sqrx.Some? && !d.sqrx.value.open
    ensures var d' := Steps(d, steps);
            d'.sqrx == d.sqrx || (d'.sqrx.Some? ==> d'.sqrx.value.version >= d.nextVersion)
  {
    if steps != [] {
      ClosedGainsNothing(d, steps[..|steps| - 1]);
      StepsOk(d, steps[..|steps| - 1]);
    }
  }

  /** What a finished sidecar was found over is final: whatever happens after, the recording is there with
      the same bytes and closed, or it is not there. */
  lemma {:induction false} FinishedIsFinal(d: Disk, steps: seq<EnvStep>)
    requires DiskOk(d) && SideFinished(d) && d.sqrx.Some?
    ensures var d' := Steps(d, steps);
            d'.sqrx.Some? ==> d'.sqrx.value.lines == d.sqrx.value.lines && !d'.sqrx.value.open
  {
    StepsOk(d, steps);
  }

  /* ----- what a request observes ----- */

  datatype Entry = Entry(sqrxVersion: nat, sideVersion: Option<nat>, meta: Meta)

  function SideVersion(d: Disk): Option<nat> {
    if d.side.Some? then Some(d.side.value.version) else None
  }

  /** This version of the recording is not there, and never comes back. */
  predicate Gone(d: Disk, version: nat) {
    version < d.nextVersion && (d.sqrx.Some? ==> d.sqrx.value.version != version)
  }

  /** Metadata that says finished was the content of a sidecar over the recording version it is filed
      under; it is filed under that sidecar's own version, or the recording is gone. */
  predicate Filed(past: seq<Disk>, i: nat, e: Entry)
    requires past != []
  {
    var last := past[|past| - 1];
    && (e.sideVersion.Some? ==> e.sideVersion.value < last.nextVersion)
    && (Finished(e.meta) ==>
          && i < |past|
          && past[i].sqrx.Some? && past[i].sqrx.value.version == e.sqrxVersion
          && past[i].side.Some? && past[i].side.value.meta == Some(e.meta)
          && (e.sideVersion == Some(past[i].side.value.version) || Gone(last, e.sqrxVersion)))
  }

  ghost predicate EntryOk(past: seq<Disk>, e: Entry)
    requires past != []
  {
    exists i: nat :: Filed(past, i, e)
  }

  ghost predicate HistoryOk(past: seq<Disk>) {
    && past != []
    && (forall i :: 0 <= i < |past| ==> DiskOk(past[i]))
    && (forall i, j :: 0 <= i <= j < |past| ==> Later(past[i], past[j]))
  }

  lemma {:induction false} HistoryGrows(past: seq<Disk>, d: Disk)
    requires HistoryOk(past) && DiskOk(d) && Later(past[|past| - 1], d)
    ensures HistoryOk(past + [d])
  {
    forall i | 0 <= i < |past|
      ensures Later(past[i], d)
    {
      LaterTransitive(past[i], past[|past| - 1], d);
    }
  }

  lemma {:induction false} LastOk(past: seq<Disk>)
    requires HistoryOk(past)
    ensures past != [] && DiskOk(past[|past| - 1])
  {
    assert DiskOk(past[|past| - 1]);
  }

  lemma {:induction false} EntryStays(past: seq<Disk>, d: Disk, e: Entry)
    requires past != [] && Later(past[|past| - 1], d) && EntryOk(past, e)
    ensures EntryOk(past + [d], e)
  {
    var i: nat :| Filed(past, i, e);
    assert Filed(past + [d], i, e);
  }

  /** The two files, the shared cache entry of their name, and everything they were so far. Before its
      k-th look a request lets the others go on: the steps schedule(k) happen, and another request may
      leave the entry puts(k), read at the moment puts(k) names; the k-th access itself may fail. */
  class World {
    var disk: Disk
    var entry: Option<Entry>
    var past: seq<Disk>
    const schedule: nat -> seq<EnvStep>
    const puts: nat -> Option<(Entry, nat)>
    const fails: nat -> bool

    ghost predicate Valid()
      reads this
    {
      HistoryOk(past) && past[|past| - 1] == disk && (entry.Some? ==> EntryOk(past, entry.value))
    }

    /** Nobody else is at work and nothing fails. */
    ghost predicate Quiet() {
      forall k :: schedule(k) == [] && puts(k).None? && !fails(k)
    }

    constructor (disk: Disk, schedule: nat -> seq<EnvStep>, puts: nat -> Option<(Entry, nat)>, fails: nat -> bool)
      requires DiskOk(disk)
      ensures Valid() && this.disk == disk && entry.None?
      ensures this.schedule == schedule && this.puts == puts && this.fails == fails
    {
      this.disk, entry, past := disk, None, [disk];
      this.schedule, this.puts, this.fails := schedule, puts, fails;
    }

    method Become(d: Disk)
      requires Valid() && DiskOk(d) && Later(disk, d)
      modifies this`disk, this`past
      ensures Valid() && disk == d && past == old(past) + [d]
    {
      HistoryGrows(past, d);
      if entry.Some? {
        EntryStays(past, d, entry.value);
      }
      disk, past := d, past + [d];
    }

    /** Lets the others go on, up to the moment of this request's next access. */
    method Look()
      requires Valid()
      modifies this
      ensures Valid() && past == old(past) + [disk]
      ensures Quiet() ==> disk == old(disk) && entry == old(entry)
    {
      var k := |past| - 1;
      StepsOk(disk, schedule(k));
      Become(Steps(disk, schedule(k)));
      if puts(k).Some? {
        var (e, i) := puts(k).value;
        if Filed(past, i, e) {
          entry := Some(e);
        }
      }
    }

    /** The same before an access that may fail. */
    method Access() returns (ok: bool)
      requires Valid()
      modifies this
      ensures Valid() && past == old(past) + [disk]
      ensures Quiet() ==> disk == old(disk) && entry == old(entry) && ok
    {
      Look();
      ok := !fails(|past| - 1);
    }

    /** Replaces the sidecar by metadata that does not say finished. */
    method ReplaceSidecar(m: Meta)
      requires Valid() && !Finished(m)
      modifies this
      ensures Valid() && disk == WithSide(old(disk), Some(m)) && past == old(past) + [disk] && entry == old(entry)
    {
      Become(WithSide(disk, Some(m)));
    }

    method Store(e: Entry)
      requires Valid() && EntryOk(past, e)
      modifies this`entry
      ensures Valid() && entry == Some(e)
    {
      entry := Some(e);
    }
  }

  /* ----- the cache ----- */

  /** A lifecycle state is authoritative; only metadata without one falls back on the file's age. */
  function MarkInProgress(m: Meta, mtime: int, now: int): Meta {
    if m.phase == Some(Finalized) && m.inProgress == Some(false) then m
    else if m.phase == Some(Active) || m.phase == Some(Unverified) then m.(inProgress := Some(true))
    else m.(inProgress := Some(now - mtime < IN_PROGRESS_WINDOW_SEC))
  }

  const STUB := Meta(Some(Unverified), Some(true), None)

  /** What a scan of the recording says of it; it cannot know that the match really ended. */
  function Extract(s: Sqrx): Meta {
    Meta(Some(Unverified), Some(true), Some(|s.lines|))
  }

  /** The test both recording handlers apply before they serve a byte. */
  predicate Served(m: Option<Meta>) {
    m.Some? && m.value.phase == Some(Finalized) && m.value.inProgress == Some(false)
  }

  /** At this moment the sidecar held exactly this metadata and the recording was there, closed. */
  predicate FinishedAt(past: seq<Disk>, i: nat, m: Meta) {
    && i < |past|
    && past[i].side.Some? && past[i].side.value.meta == Some(m)
    && past[i].sqrx.Some? && !past[i].sqrx.value.open
  }

  predicate Readable(d: Disk) {
    d.side.Some? && d.side.value.meta.Some?
  }

  predicate Hit(d: Disk, e: Option<Entry>) {
    e.Some? && d.sqrx.Some? && e.value.sqrxVersion == d.sqrx.value.version && e.value.sideVersion == SideVersion(d)
  }

  /** What a request is told when nobody else is at work. */
  function Answer(d: Disk, e: Option<Entry>): Option<Meta> {
    if d.sqrx.None? then None
    else
      var mtime := d.sqrx.value.mtime;
      if Hit(d, e) then Some(MarkInProgress(e.value.meta, mtime, d.clock))
      else if Readable(d) then Some(MarkInProgress(d.side.value.meta.value, mtime, d.clock))
      else if d.clock - mtime < IN_PROGRESS_WINDOW_SEC then Some(STUB)
      else Some(Extract(d.sqrx.value))
  }

  /** The metadata a request finds when it is not cached and needs no scan. */
  function Behind(d: Disk): Meta {
    if Readable(d) then d.side.value.meta.value else STUB
  }

  predicate Heals(d: Disk, e: Option<Entry>) {
    d.sqrx.Some? && !Hit(d, e) && !Readable(d) && d.clock - d.sqrx.value.mtime >= IN_PROGRESS_WINDOW_SEC
  }

  /** What is cached for the present files, if anything is, is what the sidecar says. */
  predicate Honest(d: Disk, e: Option<Entry>) {
    Hit(d, e) ==> d.side.Some? && d.side.value.meta == Some(e.value.meta)
  }

  /** Is a request left in peace told that the match may still be live? Never over a finished sidecar, always
      over one that says active or unverified; metadata without a state, or none, counts as live for as long
      as the recording is younger than 8 seconds; metadata made up for a recording, always. */
  predicate Live(d: Disk)
    requires d.sqrx.Some?
  {
    if !Readable(d) then true
    else
      match d.side.value.meta.value.phase
      case Some(Finalized) => false
      case Some(_) => true
      case None => d.clock < d.sqrx.value.mtime + 8
  }

  lemma {:induction false} AnswerMeans(d: Disk, e: Option<Entry>)
    requires DiskOk(d) && Honest(d, e)
    ensures var r := Answer(d, e);
            && (r.None? <==> d.sqrx.None?)
            && (r.Some? ==> r.value.inProgress == Some(Live(d)))
            && (r.Some? && Readable(d) ==>
                  r.value.phase == d.side.value.meta.value.phase && r.value.ticks == d.side.value.meta.value.ticks)
            && (r.Some? && !Readable(d) ==>
                  && r.value.phase == Some(Unverified)
                  && r.value.ticks == if d.clock < d.sqrx.value.mtime + 8 then None else Some(|d.sqrx.value.lines|))
    ensures Served(Answer(d, e)) <==> SideFinished(d) && d.sqrx.Some?
  {
  }

  /** The cache after a request that was left in peace and had nothing to heal. */
  function CachedAfter(d: Disk, e: Option<Entry>): Option<Entry> {
    if d.sqrx.None? || Hit(d, e) then e else Some(Entry(d.sqrx.value.version, SideVersion(d), Behind(d)))
  }

  /** A healed sidecar answers as the scan did. */
  lemma {:induction false} AfterHealing(past: seq<Disk>, d: Disk, e: Option<Entry>)
    requires past != [] && past[|past| - 1] == d && (e.Some? ==> EntryOk(past, e.value)) && Heals(d, e)
    ensures var d' := WithSide(d, Answer(d, e));
            && !Heals(d', e) && !Hit(d', e) && Answer(d', e) == Answer(d, e)
            && d' == WithSide(d, Some(Extract(d.sqrx.value))) && Behind(d') == Extract(d.sqrx.value)
  {
    if e.Some? {
      var i: nat :| Filed(past, i, e.value);
    }
  }

  /** Metadata that says finished and was read in moment r was read between the stats. */
  ghost predicate ReadBetween(past: seq<Disk>, from: nat, m: Meta) {
    Finished(m) ==> exists r: nat :: from <= r < |past| && HeldAt(past, r, m)
  }

  predicate HeldAt(past: seq<Disk>, r: nat, m: Meta) {
    r < |past| && past[r].side.Some? && past[r].side.value.meta == Some(m)
  }

  lemma {:induction false} HeldStays(past: seq<Disk>, past': seq<Disk>, r: nat, m: Meta)
    requires past <= past' && HeldAt(past, r, m)
    ensures HeldAt(past', r, m)
  {
    assert past[r] == past'[r];
  }

  /** Metadata read between two equal stats of the recording, which was therefore there all along. */
  lemma {:induction false} ReadIsStable(past: seq<Disk>, a: nat, r: nat, c: nat, m: Meta)
    requires HistoryOk(past) && a <= r <= c < |past| && SameRecording(past[a], past[c])
    requires Finished(m) && HeldAt(past, r, m)
    ensures FinishedAt(past, r, m) && m.inProgress == Some(false) && SameRecording(past[a], past[r])
  {
    assert Later(past[a], past[r]) && Later(past[r], past[c]) && DiskOk(past[a]) && DiskOk(past[r]);
  }

  /** It may then be cached under the two signatures, if the sidecar's did not change either. */
  lemma {:induction false} ReadIsFiled(past: seq<Disk>, a: nat, b: nat, r: nat, c: nat, m: Meta)
    requires HistoryOk(past) && a <= b <= r <= c < |past| && SameRecording(past[a], past[c])
    requires Finished(m) ==> HeldAt(past, r, m)
    requires SideVersion(past[b]) == SideVersion(past[|past| - 1])
    ensures Filed(past, r, Entry(past[a].sqrx.value.version, SideVersion(past[b]), m))
  {
    var last := past[|past| - 1];
    assert DiskOk(last) && DiskOk(past[a]);
    if Finished(m) {
      ReadIsStable(past, a, r, c, m);
      assert Later(past[b], past[r]) && Later(past[r], last) && Later(past[b], last) && Later(past[a], last);
      assert DiskOk(past[b]);
    }
  }

  /** A hit between two equal stats of both files is current: both files were so at one moment. */
  lemma {:induction false} HitIsCurrent(past: seq<Disk>, early: seq<Disk>, a: nat, b: nat, c: nat, d: nat, e: Entry)
    requires HistoryOk(past) && a <= b <= c < d < |past| && SameRecording(past[a], past[c])
    requires early <= past && b < |early| <= c + 1
    requires e.sqrxVersion == past[a].sqrx.value.version
    requires SideVersion(past[b]) == SideVersion(past[d]) == e.sideVersion
    requires Finished(e.meta) && EntryOk(early, e)
    ensures FinishedAt(past, b, e.meta) && e.meta.inProgress == Some(false)
  {
    var i: nat :| Filed(early, i, e);
    var f := |early| - 1;
    assert early[f] == past[f] && early[i] == past[i];
    assert Later(past[a], past[f]) && Later(past[f], past[c]) && DiskOk(past[a]);
    assert Later(past[b], past[c]) && Later(past[a], past[b]) && DiskOk(past[b]) && DiskOk(past[i]);
    if i <= b {
      assert Later(past[i], past[b]);
    } else {
      assert Later(past[b], past[i]);
    }
  }

  datatype Attempted = Done(answer: Option<Meta>) | Retry

  /** At some moment from `from` on, the metadata was what the sidecar of a closed recording held. */
  ghost predicate ServedFrom(past: seq<Disk>, from: nat, answer: Option<Meta>) {
    Served(answer) ==> exists i: nat :: from <= i < |past| && FinishedAt(past, i, answer.value)
  }

  /** Two looks at the recording agreed, and so did two looks at the sidecar around the second. */
  predicate Agree(past: seq<Disk>, a: nat, b: nat, c: nat, d: nat) {
    a <= b < c < d < |past| && SameRecording(past[a], past[c]) && SideVersion(past[b]) == SideVersion(past[d])
  }

  lemma {:induction false} TheyAgree(past: seq<Disk>, a: nat, b: nat, c: nat, d: nat)
    requires a <= b < c < d < |past| && SameRecording(past[a], past[c]) && SideVersion(past[b]) == SideVersion(past[d])
    ensures LooksAgree(past, a)
  {
    assert Agree(past, a, b, c, d);
  }

  ghost predicate LooksAgree(past: seq<Disk>, from: nat) {
    exists a: nat, b: nat, c: nat, d: nat :: from <= a && Agree(past, a, b, c, d)
  }

  class Cache {
    const w: World

    constructor (w: World)
      ensures this.w == w
    {
      this.w := w;
    }

    /** Reads the sidecar; without a readable one, an old enough recording is scanned and its sidecar
        healed. */
    method Load(st: Sqrx) returns (m: Meta)
      requires w.Valid()
      modifies w
      ensures w.Quiet() ==> w.disk.sqrx == old(w.disk).sqrx
      ensures w.Valid() && old(w.past) < w.past
      ensures ReadBetween(w.past, |old(w.past)|, m)
      ensures w.Quiet() && old(w.disk).sqrx == Some(st) && !Hit(old(w.disk), old(w.entry)) ==>
                && w.entry == old(w.entry)
                && Answer(old(w.disk), old(w.entry)) == Some(MarkInProgress(m, st.mtime, w.disk.clock))
                && (if Heals(old(w.disk), old(w.entry))
                    then m == Extract(st) && w.disk == WithSide(old(w.disk), Some(m))
                    else m == Behind(old(w.disk)) && w.disk == old(w.disk))
    {
      hide HistoryOk, Later, DiskOk, Filed, EntryOk, Step, Steps;
      w.Look();
      if w.disk.side.Some? {
        var readable := w.Access();
        if readable && Readable(w.disk) {
          m := w.disk.side.value.meta.value;
          assert HeldAt(w.past, |w.past| - 1, m);
          return;
        }
      }
      if w.disk.clock - st.mtime < IN_PROGRESS_WINDOW_SEC {
        return STUB;
      }
      var scanned := w.Access();
      if !scanned || w.disk.sqrx.None? {
        return STUB;
      }
      m := Extract(w.disk.sqrx.value);
      var writable := w.Access();
      if writable {
        w.ReplaceSidecar(m);
      }
    }

    /** A cached entry that matches both first stats is used if both second stats match too. */
    method Recheck(e: Entry, ghost a: nat, ghost b: nat) returns (r: Attempted)
      requires w.Valid() && a <= b < |w.past| && w.past[a].sqrx.Some? && EntryOk(w.past, e)
      requires e.sqrxVersion == w.past[a].sqrx.value.version && e.sideVersion == SideVersion(w.past[b])
      modifies w
      ensures w.Quiet() ==> w.disk.sqrx == old(w.disk).sqrx
      ensures w.Valid() && old(w.past) < w.past
      ensures r.Done? ==> ServedFrom(w.past, b, r.answer)
      ensures r.Done? && r.answer.Some? ==> LooksAgree(w.past, a)
      ensures w.Quiet() && Hit(old(w.disk), Some(e)) ==> r == Done(Answer(old(w.disk), Some(e)))
      ensures w.Quiet() ==> w.disk == old(w.disk) && w.entry == old(w.entry)
    {
      hide HistoryOk, Later, DiskOk, Filed, EntryOk, FinishedAt, Step, Steps;
      ghost var early := w.past;
      w.Look();
      ghost var c := |w.past| - 1;
      if w.disk.sqrx.None? {
        return Done(None);
      }
      var after := w.disk.sqrx.value;
      w.Look();
      if after.version != e.sqrxVersion || SideVersion(w.disk) != e.sideVersion {
        return Retry;
      }
      assert Agree(w.past, a, b, c, |w.past| - 1);
      r := Done(Some(MarkInProgress(e.meta, after.mtime, w.disk.clock)));
      if Finished(e.meta) {
        HitIsCurrent(w.past, early, a, b, c, |w.past| - 1, e);
      }
    }

    /** Loaded metadata is used, and cached, if both second stats match the first ones. */
    method Confirm(m: Meta, before: Sqrx, side: Option<nat>, ghost a: nat, ghost b: nat, ghost moment: nat)
      returns (r: Attempted)
      requires w.Valid() && a <= b <= moment < |w.past|
      requires w.past[a].sqrx == Some(before) && SideVersion(w.past[b]) == side
      requires Finished(m) ==> HeldAt(w.past, moment, m)
      modifies w
      ensures w.Valid() && old(w.past) < w.past
      ensures w.Quiet() ==> w.disk.sqrx == old(w.disk).sqrx
      ensures r.Done? ==> ServedFrom(w.past, b, r.answer)
      ensures r.Done? && r.answer.Some? ==> LooksAgree(w.past, a)
      ensures var d := old(w.disk);
              w.Quiet() && d.sqrx == Some(before) ==>
                && w.disk == d
                && if SideVersion(d) == side then
                     && r == Done(Some(MarkInProgress(m, before.mtime, d.clock)))
                     && w.entry == Some(Entry(before.version, side, m))
                   else r == Retry && w.entry == old(w.entry)
    {
      hide HistoryOk, Later, DiskOk, Filed, EntryOk, HeldAt, FinishedAt, Step, Steps, Agree;
      ghost var atLoad := w.past;
      w.Look();
      ghost var c := |w.past| - 1;
      if w.disk.sqrx.None? {
        return Done(None);
      }
      var after := w.disk.sqrx.value;
      w.Look();
      if after.version != before.version || SideVersion(w.disk) != side {
        return Retry;
      }
      TheyAgree(w.past, a, b, c, |w.past| - 1);
      if Finished(m) {
        HeldStays(atLoad, w.past, moment, m);
        ReadIsStable(w.past, a, moment, c, m);
      }
      ReadIsFiled(w.past, a, b, moment, c, m);
      w.Store(Entry(before.version, side, m));
      r := Done(Some(MarkInProgress(m, after.mtime, w.disk.clock)));
    }

    method LoadAndRecheck(before: Sqrx, side: Option<nat>, ghost a: nat, ghost b: nat) returns (r: Attempted)
      requires w.Valid() && a <= b < |w.past| && w.past[a].sqrx == Some(before) && SideVersion(w.past[b]) == side
      modifies w
      ensures w.Valid() && old(w.past) < w.past
      ensures w.Quiet() ==> w.disk.sqrx == old(w.disk).sqrx
      ensures r.Done? ==> ServedFrom(w.past, b, r.answer)
      ensures r.Done? && r.answer.Some? ==> LooksAgree(w.past, a)
      ensures var d := old(w.disk); var e := old(w.entry);
              w.Quiet() && d.sqrx == Some(before) && SideVersion(d) == side && !Hit(d, e) ==>
                if Heals(d, e) then r == Retry && w.entry == e && w.disk == WithSide(d, Answer(d, e))
                else
                  && r == Done(Answer(d, e)) && w.disk == d
                  && w.entry == Some(Entry(before.version, side, Behind(d)))
    {
      hide HistoryOk, Later, Filed, EntryOk, HeldAt, ServedFrom, LooksAgree, Answer, Hit, Heals;
      LastOk(w.past);
      var m := Load(before);
      ghost var moment: nat := |w.past| - 1;
      if Finished(m) {
        moment :| |old(w.past)| <= moment < |w.past| && HeldAt(w.past, moment, m);
      }
      r := Confirm(m, before, side, a, b, moment);
    }

    /** One round: stat both files, find or load the metadata, stat both again. */
    method Attempt() returns (r: Attempted)
      requires w.Valid()
      modifies w
      ensures w.Quiet() ==> w.disk.sqrx == old(w.disk).sqrx
      ensures w.Valid() && old(w.past) < w.past
      ensures r.Done? ==> ServedFrom(w.past, |old(w.past)|, r.answer)
      ensures r.Done? && r.answer.Some? ==> LooksAgree(w.past, |old(w.past)|)
      ensures w.Quiet() && !Heals(old(w.disk), old(w.entry)) ==>
                && r == Done(Answer(old(w.disk), old(w.entry))) && w.disk == old(w.disk)
                && w.entry == CachedAfter(old(w.disk), old(w.entry))
      ensures w.Quiet() && Heals(old(w.disk), old(w.entry)) ==>
                && r == Retry && w.entry == old(w.entry)
                && w.disk == WithSide(old(w.disk), Answer(old(w.disk), old(w.entry)))
    {
      hide HistoryOk, Later, DiskOk, Filed, EntryOk, FinishedAt, Step, Steps;
      w.Look();
      ghost var a := |w.past| - 1;
      if w.disk.sqrx.None? {
        return Done(None);
      }
      var before := w.disk.sqrx.value;
      w.Look();
      ghost var b := |w.past| - 1;
      var side := SideVersion(w.disk);
      w.Look();
      var entry := w.entry;
      if entry.Some? && entry.value.sqrxVersion == before.version && entry.value.sideVersion == side {
        r := Recheck(entry.value, a, b);
      } else {
        r := LoadAndRecheck(before, side, a, b);
      }
    }

    /** Whatever the recorder, retention and other requests do meanwhile: metadata that passes the gate
        was, at some moment during this call, exactly what the sidecar said of a recording that was
        there and closed. When no two looks agree, nothing but the stub is answered; left in peace, a
        request gets the metadata that is there. */
    method Get() returns (r: Option<Meta>)
      requires w.Valid()
      modifies w
      ensures w.Quiet() ==> w.disk.sqrx == old(w.disk).sqrx
      ensures w.Valid() && old(w.past) < w.past
      ensures ServedFrom(w.past, |old(w.past)|, r)
      ensures r.Some? && r != Some(STUB) ==> LooksAgree(w.past, |old(w.past)|)
      ensures w.Quiet() ==> r == Answer(old(w.disk), old(w.entry))
      ensures var d := old(w.disk);
              w.Quiet() ==>
                if Heals(d, old(w.entry)) then
                  && w.disk == WithSide(d, Some(Extract(d.sqrx.value))) && Hit(w.disk, w.entry)
                  && w.entry.value.meta == Extract(d.sqrx.value)
                else w.disk == d && w.entry == CachedAfter(d, old(w.entry))
      ensures var d := old(w.disk);
              w.Quiet() && Honest(d, old(w.entry)) ==>
                && (r.None? <==> d.sqrx.None?)
                && (r.Some? ==> r.value.inProgress == Some(Live(d)))
                && (r.Some? && Readable(d) ==>
                      r.value.phase == d.side.value.meta.value.phase && r.value.ticks == d.side.value.meta.value.ticks)
                && (r.Some? && !Readable(d) ==>
                      && r.value.phase == Some(Unverified)
                      && r.value.ticks == if d.clock < d.sqrx.value.mtime + 8 then None else Some(|d.sqrx.value.lines|))
    {
      hide HistoryOk, Later, DiskOk, Filed, EntryOk, Step, Steps, FinishedAt, Answer, Live, Behind, Readable;
      LastOk(w.past);
      if Honest(w.disk, w.entry) {
        AnswerMeans(w.disk, w.entry);
      }
      var attempt := 0;
      while attempt < 3
        invariant 0 <= attempt <= 3
        invariant w.Valid() && old(w.past) <= w.past
        invariant w.Quiet() ==> w.disk.sqrx == old(w.disk).sqrx
        invariant attempt > 0 ==> old(w.past) < w.past
        invariant w.Quiet() && attempt == 0 ==> w.disk == old(w.disk) && w.entry == old(w.entry)
        invariant w.Quiet() && attempt > 0 ==>
                    && attempt == 1 && Heals(old(w.disk), old(w.entry))
                    && !Heals(w.disk, w.entry) && !Hit(w.disk, w.entry)
                    && w.disk == WithSide(old(w.disk), Some(Extract(old(w.disk).sqrx.value)))
                    && Behind(w.disk) == Extract(old(w.disk).sqrx.value)
                    && Answer(w.disk, w.entry) == Answer(old(w.disk), old(w.entry))
      {
        ghost var start := w.past;
        LastOk(w.past);
        if Heals(w.disk, w.entry) {
          AfterHealing(w.past, w.disk, w.entry);
        }
        var a := Attempt();
        if a.Done? {
          assert ServedFrom(w.past, |start|, a.answer) && (a.answer.Some? ==> LooksAgree(w.past, |start|));
          return a.answer;
        }
        attempt := attempt + 1;
      }
      r := Some(STUB);
    }

    /** A request for a recording: the gate, and then the file, at some later moment. */
    method Serve() returns (r: Option<seq<R.Line>>)
      requires w.Valid()
      modifies w
      ensures w.Valid() && old(w.past) < w.past
      ensures r.Some? ==> exists i: nat :: |old(w.past)| <= i < |w.past| && ServedAt(w.past, i, r.value)
      ensures w.Quiet() ==>
                r == if Served(Answer(old(w.disk), old(w.entry))) then Some(old(w.disk).sqrx.value.lines) else None
      ensures w.Quiet() && Honest(old(w.disk), old(w.entry)) ==>
                r == if SideFinished(old(w.disk)) && old(w.disk).sqrx.Some? then Some(old(w.disk).sqrx.value.lines)
                     else None
    {
      hide HistoryOk, Later, DiskOk, Filed, EntryOk, Step, Steps, FinishedAt, ServedAt, LooksAgree, Answer, Live;
      LastOk(w.past);
      if Honest(w.disk, w.entry) {
        AnswerMeans(w.disk, w.entry);
      }
      ghost var from := |w.past|;
      var meta := Get();
      if !Served(meta) {
        return None;
      }
      ghost var atGate := w.past;
      ghost var i: nat :| from <= i < |w.past| && FinishedAt(w.past, i, meta.value);
      w.Look();
      if w.disk.sqrx.None? {
        return None;
      }
      r := Some(w.disk.sqrx.value.lines);
      StillServed(atGate, w.past, i, meta.value);
    }
  }

  /** A recording without a sidecar that is asked for within 8 seconds and again at any later time: as long as
      neither file changes, it is told the same, and no sidecar is made for it. */
  method AskedTwice(d: Disk, seconds: nat) returns (first: Option<Meta>, second: Option<Meta>, after: Disk)
    requires DiskOk(d) && d.sqrx.Some? && d.side.None? && d.clock < d.sqrx.value.mtime + 8
    ensures first == second == Some(Meta(Some(Unverified), Some(true), None))
    ensures after == d.(clock := d.clock + seconds)
  {
    hide HistoryOk, Later, Filed, EntryOk, Steps, Served, ServedFrom, LooksAgree;
    var w := new World(d, _ => [], _ => None, _ => false);
    var cache := new Cache(w);
    first := cache.Get();
    StepOk(w.disk, Wait(seconds));
    w.Become(Step(w.disk, Wait(seconds)));
    assert Hit(w.disk, w.entry);
    second := cache.Get();
    after := w.disk;
  }

  /** At this moment the recording was finished, and these were its bytes. */
  predicate ServedAt(past: seq<Disk>, i: nat, lines: seq<R.Line>) {
    && i < |past| && SideFinished(past[i])
    && past[i].sqrx.Some? && !past[i].sqrx.value.open && past[i].sqrx.value.lines == lines
  }

  lemma {:induction false} StillServed(atGate: seq<Disk>, past: seq<Disk>, i: nat, m: Meta)
    requires HistoryOk(past) && atGate <= past && FinishedAt(atGate, i, m) && Served(Some(m))
    requires past[|past| - 1].sqrx.Some?
    ensures ServedAt(past, i, past[|past| - 1].sqrx.value.lines)
  {
    assert past[i] == atGate[i] && DiskOk(past[i]) && Later(past[i], past[|past| - 1]);
  }
}
