/** The self-update protocol: stage, swap between two processes, count boots, then confirm, roll
    back or refuse. */
module Updater {
  import opened Decimals
  import opened Options
  import opened Versions

  const MAX_BOOT_ATTEMPTS := 2

  /** An executable: its bytes, and the version it reports about itself when run. */
  datatype Binary = Binary(bytes: nat, version: string)

  /** A file that holds a binary, completely or cut off by a crash. */
  datatype Copy = Whole(binary: Binary) | Torn

  /** The pending-release marker. A sha256 is modelled by the binary it pins. */
  datatype Marker = Marker(version: string, artifact: string, hasPath: bool, sha: Option<Binary>,
                           applied: bool, attempts: nat, refused: bool)

  datatype Manifest = Manifest(platform: string, version: string, artifact: string, sha: Option<Binary>, signed: bool)

  datatype Release = Release(version: string, artifact: string, sha: Binary)

  /** What the disk holds, and the version of the serving process, if one is up. */
  datatype Agent = Agent(marker: Option<Marker>, artifacts: map<string, Copy>, target: Copy, beside: Option<Copy>,
                         backup: Option<Copy>, running: Option<string>)

  predicate SafeName(name: string) {
    1 <= |name| <= 128 && forall c :: c in name ==> IsDigit(c) || 'a' <= c <= 'z' || 'A' <= c <= 'Z' || c in "._-"
  }

  /** A manifest is accepted iff it is signed, for this platform, well formed, and strictly newer both
      than the running version and than the last version handled. */
  function Accept(m: Manifest, current: string, minApplied: string, platform: string): (r: Option<Release>)
    ensures r.Some? ==>
              && m.signed && IsNewer(m.version, current) && (minApplied != "" ==> IsNewer(m.version, minApplied))
              && r.value.version == m.version != "" && r.value.artifact == m.artifact && m.sha == Some(r.value.sha)
  {
    if (if m.platform == "" then "linux" else m.platform) != platform then None
    else if m.version == "" || !IsNewer(m.version, current) then None
    else if minApplied != "" && !IsNewer(m.version, minApplied) then None
    else if !SafeName(m.artifact) || m.sha.None? then None
    else if !m.signed then None
    else Some(Release(m.version, m.artifact, m.sha.value))
  }

  /** What is accepted, and what is not. */
  lemma {:induction false} AcceptsExactly(m: Manifest, current: string, minApplied: string, platform: string)
    ensures Accept(m, current, minApplied, platform).Some? <==>
              && m.signed && m.sha.Some?
              && (if m.platform == "" then platform == "linux" else m.platform == platform)
              && 1 <= |m.artifact| <= 128
              && (forall c :: c in m.artifact ==>
                    '0' <= c <= '9' || 'a' <= c <= 'z' || 'A' <= c <= 'Z' || c == '.' || c == '_' || c == '-')
              && Ahead(VerTuple(m.version), VerTuple(current))
              && (minApplied != "" ==> Ahead(VerTuple(m.version), VerTuple(minApplied)))
  {
    NewerIsAhead(m.version, current);
    NewerIsAhead(m.version, minApplied);
    EmptyIsNotAhead(current);
    hide IsNewer, VerTuple, Ahead;
    SafeNameMeans(m.artifact);
    hide SafeName;
  }

  lemma {:induction false} SafeNameMeans(name: string)
    ensures SafeName(name) <==>
              && 1 <= |name| <= 128
              && (forall c :: c in name ==>
                    '0' <= c <= '9' || 'a' <= c <= 'z' || 'A' <= c <= 'Z' || c == '.' || c == '_' || c == '-')
  {
    var marks := "._-";
    assert marks[0] == '.' && marks[1] == '_' && marks[2] == '-' && |marks| == 3;
    assert forall c :: c in marks <==> c == '.' || c == '_' || c == '-';
  }

  lemma {:induction false} EmptyIsNotAhead(current: string)
    ensures !Ahead(VerTuple(""), VerTuple(current))
  {
    assert Split("") == [""] && Digits("") == [];
    NumbersAre([""], 0);
    var _ := EveryTextHasAKey(current);
  }

  function StagedVersion(a: Agent): string {
    if a.marker.Some? then a.marker.value.version else ""
  }

  /** The marker, unless its release was refused. */
  function Pending(a: Agent): Option<Marker> {
    if a.marker.Some? && !a.marker.value.refused then a.marker else None
  }

  /** The artifact is written first, and then the marker, unless that fails or the process dies between. */
  function Stage(a: Agent, r: Release, data: Binary, marks: bool): Agent {
    var staged := a.(artifacts := a.artifacts[r.artifact := Whole(data)]);
    if marks then staged.(marker := Some(Marker(r.version, r.artifact, true, Some(r.sha), false, 0, false))) else staged
  }

  /** How far the refusal of a release gets, should one be due: the process dies before the marker is
      written, or it dies or fails before the artifact is removed, or it is complete. */
  datatype Ending = Unwritten | NotUnlinked | Complete

  function Refuse(a: Agent, e: Ending): Agent {
    if a.marker.None? || e.Unwritten? then a
    else
      var m := a.marker.value;
      a.(marker := Some(m.(applied := false, attempts := 0, refused := true, hasPath := false)),
         artifacts := if m.hasPath && e.Complete? then a.artifacts - {m.artifact} else a.artifacts)
  }

  /** How far an installation step gets: it completes, meets an error it handles, or the process dies.
      The step is run by the installed release itself: one that cannot run it dies at once, before it
      has done anything. */
  datatype Outcome =
    | Completes
    | DiesAtOnce
    | CopyFails | SmokeFails | BackupFails | ReplaceFails | RestoreFails
    | DiesCopying | DiesBeforeBackup | DiesInBackup | DiesBeforeReplace | DiesBeforeMark

  predicate Dies(o: Outcome) {
    || o.DiesAtOnce? || o.DiesCopying? || o.DiesBeforeBackup? || o.DiesInBackup? || o.DiesBeforeReplace?
    || o.DiesBeforeMark?
  }

  function Swap(a: Agent, m: Marker, o: Outcome, e: Ending): Agent {
    if !m.hasPath || m.artifact !in a.artifacts then Refuse(a, e)
    else
      var art := a.artifacts[m.artifact];
      if m.sha.Some? && art != Whole(m.sha.value) then Refuse(a, e)
      else
        match o
        case CopyFails => Refuse(a, e)
        case DiesCopying => a.(beside := Some(Torn))
        case SmokeFails => Refuse(a.(beside := None), e)
        case DiesBeforeBackup => a.(beside := Some(art))
        case BackupFails => Refuse(a.(beside := None, backup := Some(Torn)), e)
        case DiesInBackup => a.(beside := Some(art), backup := Some(Torn))
        case DiesBeforeReplace => a.(beside := Some(art), backup := Some(a.target))
        case ReplaceFails => Refuse(a.(beside := None, backup := Some(a.target)), e)
        case DiesBeforeMark => a.(beside := None, backup := Some(a.target), target := art)
        case _ => a.(beside := None, backup := Some(a.target), target := art,
                     marker := Some(m.(applied := true, attempts := 0)))
  }

  function Rollback(a: Agent, o: Outcome, e: Ending): Agent {
    if a.backup.None? || o.RestoreFails? then Refuse(a, e)
    else if o.DiesCopying? then a
    else if o.DiesBeforeMark? then a.(target := a.backup.value)
    else Refuse(a.(target := a.backup.value), e)
  }

  /** The install step, run between two processes. */
  function Apply(a: Agent, installed: bool, o: Outcome, e: Ending): Agent {
    var a := a.(running := None);
    match Pending(a)
    case None => a
    case Some(m) =>
      if o.DiesAtOnce? then a
      else if !installed then a.(marker := None)
      else if !m.applied then Swap(a, m, o, e)
      else
        var counted := a.(marker := Some(m.(attempts := m.attempts + 1)));
        if m.attempts + 1 <= MAX_BOOT_ATTEMPTS then counted else Rollback(counted, o, e)
  }

  /** The serving process starts; it is up, and a pending release confirmed, only if it gets far
      enough to report its version. */
  function Boot(a: Agent, reaches: bool): Agent {
    if !reaches || a.target.Torn? then a
    else
      var up := a.(running := Some(a.target.binary.version));
      match Pending(a)
      case Some(m) =>
        if m.applied && m.version == a.target.binary.version then
          up.(marker := None, artifacts := if m.hasPath then a.artifacts - {m.artifact} else a.artifacts)
        else up
      case None => up
  }

  /** A check-in of the serving process: an accepted release whose download matches is staged. */
  function CheckIn(a: Agent, installed: bool, manifest: Manifest, data: Option<Binary>, marks: bool, platform: string)
      : Agent {
    if a.running.None? || !installed then a
    else
      match Accept(manifest, a.running.value, StagedVersion(a), platform)
      case None => a
      case Some(r) => if data == Some(r.sha) then Stage(a, r, data.value, marks) else a
  }

  /* ----- the imperative updater ----- */

  class StateDir {
    var marker: Option<Marker>
    var artifacts: map<string, Copy>
    var target: Copy
    var beside: Option<Copy>
    var backup: Option<Copy>
    var running: Option<string>
    const installed: bool

    ghost function View(): Agent
      reads this
    {
      Agent(marker, artifacts, target, beside, backup, running)
    }

    method StageRelease(r: Release, data: Binary, marks: bool)
      modifies this`marker, this`artifacts
      ensures View() == Stage(old(View()), r, data, marks)
    {
      artifacts := artifacts[r.artifact := Whole(data)];
      if !marks {
        return;
      }
      marker := Some(Marker(r.version, r.artifact, true, Some(r.sha), false, 0, false));
    }

    method MarkRefused(e: Ending)
      modifies this`marker, this`artifacts
      ensures View() == Refuse(old(View()), e)
    {
      if marker.Some? {
        if e.Unwritten? {
          return;
        }
        var m := marker.value;
        var path := m.hasPath;
        marker := Some(m.(applied := false, attempts := 0, refused := true, hasPath := false));
        if path && e.Complete? {
          artifacts := artifacts - {m.artifact};
        }
      }
    }

    method NoteBootAttempt(m: Marker) returns (n: nat)
      requires marker == Some(m)
      modifies this`marker
      ensures n == m.attempts + 1 && View() == old(View()).(marker := Some(m.(attempts := n)))
    {
      n := m.attempts + 1;
      marker := Some(m.(attempts := n));
    }

    method SwapBinary(m: Marker, o: Outcome, ghost e: Ending) returns (ok: bool, died: bool)
      requires marker == Some(m)
      modifies this`beside, this`backup, this`target
      ensures !died && !ok ==> Refuse(View(), e) == Swap(old(View()), m, o, e)
      ensures died ==> View() == Swap(old(View()), m, o, e)
      ensures ok && !died ==> View().(marker := Some(m.(applied := true, attempts := 0))) == Swap(old(View()), m, o, e)
    {
      hide Refuse;
      ok, died := false, false;
      if !m.hasPath || m.artifact !in artifacts {
        return;
      }
      var art := artifacts[m.artifact];
      if m.sha.Some? && art != Whole(m.sha.value) {
        return;
      }
      if o.CopyFails? {
        return;
      }
      beside := Some(if o.DiesCopying? then Torn else art);
      if o.DiesCopying? || o.DiesBeforeBackup? {
        died := true;
        return;
      }
      if o.SmokeFails? {
        beside := None;
        return;
      }
      if o.BackupFails? || o.DiesInBackup? {
        backup := Some(Torn);
        if o.BackupFails? {
          beside := None;
        }
        died := o.DiesInBackup?;
        return;
      }
      backup := Some(target);
      if o.DiesBeforeReplace? {
        died := true;
        return;
      }
      if o.ReplaceFails? {
        beside := None;
        return;
      }
      target, beside := art, None;
      ok, died := true, o.DiesBeforeMark?;
    }

    method RollbackBinary(o: Outcome) returns (ok: bool)
      modifies this`target
      ensures ok == (backup.Some? && !o.RestoreFails? && !o.DiesCopying?)
      ensures View() == old(View()).(target := if ok then backup.value else old(target))
    {
      ok := backup.Some? && !o.RestoreFails? && !o.DiesCopying?;
      if ok {
        target := backup.value;
      }
    }

    method ApplyStagedUpdate(o: Outcome, e: Ending)
      modifies this
      ensures View() == Apply(old(View()), installed, o, e)
    {
      hide Swap, Rollback, Refuse;
      running := None;
      if marker.None? || marker.value.refused || o.DiesAtOnce? {
        return;
      }
      if !installed {
        marker := None;
        return;
      }
      if marker.value.applied {
        CountOrRollBack(marker.value, o, e);
      } else {
        Install(marker.value, o, e);
      }
    }

    /** A release that is installed and not confirmed: one more start, or the old binary again. */
    method CountOrRollBack(m: Marker, o: Outcome, e: Ending)
      requires marker == Some(m)
      modifies this`marker, this`artifacts, this`target
      ensures var counted := old(View()).(marker := Some(m.(attempts := m.attempts + 1)));
              View() == if m.attempts + 1 <= MAX_BOOT_ATTEMPTS then counted else Rollback(counted, o, e)
    {
      hide Refuse;
      var n := NoteBootAttempt(m);
      if n <= MAX_BOOT_ATTEMPTS {
        return;
      }
      var ok := RollbackBinary(o);
      if backup.Some? && !o.RestoreFails? && (o.DiesCopying? || o.DiesBeforeMark?) {
        return;
      }
      MarkRefused(e);
    }

    /** A staged release: swap it in and mark it applied, or refuse it. */
    method Install(m: Marker, o: Outcome, e: Ending)
      requires marker == Some(m)
      modifies this`marker, this`artifacts, this`target, this`beside, this`backup
      ensures View() == Swap(old(View()), m, o, e)
    {
      hide Swap, Refuse;
      var ok, died := SwapBinary(m, o, e);
      if died {
        return;
      }
      if !ok {
        MarkRefused(e);
        return;
      }
      marker := Some(m.(applied := true, attempts := 0));
    }

    method ConfirmBoot(reaches: bool)
      modifies this
      ensures View() == Boot(old(View()), reaches)
    {
      if !reaches || target.Torn? {
        return;
      }
      running := Some(target.binary.version);
      if marker.None? || marker.value.refused || !marker.value.applied {
        return;
      }
      var m := marker.value;
      if m.version != target.binary.version {
        return;
      }
      marker := None;
      if m.hasPath {
        artifacts := artifacts - {m.artifact};
      }
    }

    method CheckUpdate(manifest: Manifest, data: Option<Binary>, marks: bool, platform: string)
      modifies this`marker, this`artifacts
      ensures View() == CheckIn(old(View()), installed, manifest, data, marks, platform)
    {
      if running.None? || !installed {
        return;
      }
      var minApplied := if marker.Some? then marker.value.version else "";
      var got := Accept(manifest, running.value, minApplied, platform);
      if got.Some? && data == Some(got.value.sha) {
        StageRelease(got.value, data.value, marks);
      }
    }
  }
}
