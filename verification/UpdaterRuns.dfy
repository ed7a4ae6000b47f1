/** Whole lives of an updating agent, across restarts, failures and deaths of the install step. */
module UpdaterRuns {
  import opened Options
  import opened Versions
  import opened Updater

  /** A check-in of the serving process, or a restart: the install step, and then a start of the target
      that may or may not get far enough to serve. The target is started though the step died. */
  datatype Event =
    | Check(manifest: Manifest, data: Option<Binary>, marks: bool)
    | Cycle(outcome: Outcome, ending: Ending, reaches: bool)

  /** What happened so far: the versions staged, the target when the last one was staged, the target
      just before the last swap, whether the last staged release was swapped in, how often it was
      started since, how many install steps died over it, and whether one died between swapping it in
      and marking it applied. */
  datatype Log = Log(staged: seq<string>, stagedOver: Copy, beforeSwap: Copy, swapped: bool, starts: nat, deaths: nat,
                     interrupted: bool)

  datatype World = World(agent: Agent, log: Log)

  predicate Swaps(a: Agent, installed: bool, o: Outcome) {
    installed && Pending(a).Some? && !Pending(a).value.applied &&
    var m := Pending(a).value;
    && m.hasPath && m.artifact in a.artifacts
    && (m.sha.Some? ==> a.artifacts[m.artifact] == Whole(m.sha.value))
    && (o.Completes? || o.RestoreFails? || o.DiesBeforeMark?)
  }

  predicate Stages(a: Agent, installed: bool, manifest: Manifest, data: Option<Binary>, platform: string) {
    && a.running.Some? && installed
    && var r := Accept(manifest, a.running.value, StagedVersion(a), platform);
    r.Some? && data == Some(r.value.sha)
  }

  predicate InTrial(a: Agent) {
    Pending(a).Some? && Pending(a).value.applied
  }

  /** The install step died over a release: it is still pending, and this start was not counted, or not
      one of those allowed. */
  predicate Died(a: Agent, installed: bool, o: Outcome, e: Ending) {
    var a' := Apply(a, installed, o, e);
    Pending(a').Some? && (o.DiesAtOnce? || !(InTrial(a') && a'.marker.value.attempts <= MAX_BOOT_ATTEMPTS))
  }

  function Logged(w: World, installed: bool, o: Outcome, e: Ending): Log {
    var log := w.log.(deaths := w.log.deaths + if Died(w.agent, installed, o, e) then 1 else 0);
    if Swaps(w.agent, installed, o) then
      log.(beforeSwap := w.agent.target, swapped := true, interrupted := log.interrupted || o.DiesBeforeMark?)
    else log
  }

  /** The target is started; that counts for the release while it is swapped in and not settled. */
  function Started(w: World, reaches: bool): World {
    World(Boot(w.agent, reaches),
          if Pending(w.agent).Some? && w.log.swapped then w.log.(starts := w.log.starts + 1) else w.log)
  }

  function After(w: World, e: Event, installed: bool, platform: string): World {
    var a, log := w.agent, w.log;
    match e
    case Check(manifest, data, marks) =>
      var a' := CheckIn(a, installed, manifest, data, marks, platform);
      if !marks || !Stages(a, installed, manifest, data, platform) then World(a', log)
      else World(a', Log(log.staged + [manifest.version], a.target, log.beforeSwap, false, 0, 0, false))
    case Cycle(o, ending, reaches) =>
      Started(World(Apply(a, installed, o, ending), Logged(w, installed, o, ending)), reaches)
  }

  function Start(target: Binary): World {
    World(Agent(None, map[], Whole(target), None, None, None),
          Log([], Whole(target), Whole(target), false, 0, 0, false))
  }

  function Run(target: Binary, events: seq<Event>, n: nat, installed: bool, platform: string): World
    requires n <= |events|
  {
    if n == 0 then Start(target)
    else After(Run(target, events, n - 1, installed, platform), events[n - 1], installed, platform)
  }

  /** A is not newer than B. */
  predicate AtMost(a: string, b: string) {
    !IsNewer(a, b)
  }

  ghost predicate Rising(versions: seq<string>) {
    forall i, j :: 0 <= i < j < |versions| ==> IsNewer(versions[j], versions[i])
  }

  lemma {:induction false} RisingMore(versions: seq<string>, v: string)
    requires Rising(versions) && (versions != [] ==> IsNewer(v, versions[|versions| - 1]))
    ensures Rising(versions + [v])
  {
    hide IsNewer;
    forall i | 0 <= i < |versions|
      ensures IsNewer(v, versions[i])
    {
      NewerIsStrictOrder(versions[i], versions[|versions| - 1], v);
    }
  }

  function Capped(attempts: nat): nat {
    if attempts <= MAX_BOOT_ATTEMPTS then attempts else MAX_BOOT_ATTEMPTS
  }

  /** Files are complete, and the serving process runs the target. */
  predicate Intact(w: World, installed: bool) {
    var a := w.agent;
    && (!installed ==> a.marker.None? && w.log.staged == [])
    && a.target.Whole? && w.log.stagedOver.Whole?
    && (forall name :: name in a.artifacts ==> a.artifacts[name].Whole?)
    && (a.running.Some? ==> a.running.value == a.target.binary.version)
    && (a.marker.Some? ==> a.marker.value.version != "" && a.marker.value.sha.Some?)
  }

  /** The last version handled is known from the marker or from the running release. */
  ghost predicate Handled(w: World) {
    var a, staged := w.agent, w.log.staged;
    && a.target.Whole?
    && (a.marker.Some? ==> staged != [] && staged[|staged| - 1] == a.marker.value.version)
    && (a.marker.None? && staged != [] ==> AtMost(staged[|staged| - 1], a.target.binary.version))
    && Rising(staged)
  }

  /** The starts of an unsettled release are bounded; `more` of them are about to be made. */
  predicate Bounded(w: World, more: nat) {
    var a, log := w.agent, w.log;
    Pending(a).Some? && (log.swapped || more == 0) ==>
      log.starts + more <= log.deaths + if InTrial(a) then Capped(a.marker.value.attempts) + 1 else 0
  }

  /** A release on trial can be taken back, and what that brings back is known. */
  predicate Restorable(w: World) {
    var a, log := w.agent, w.log;
    && (InTrial(a) ==> log.swapped && a.backup == Some(log.beforeSwap) && log.beforeSwap.Whole?)
    && (Pending(a).Some? && a.marker.value.sha.Some? ==>
          (if InTrial(a) then log.beforeSwap else a.target)
            == if log.interrupted then Whole(a.marker.value.sha.value) else log.stagedOver)
  }

  ghost predicate Sound(w: World, installed: bool) {
    Intact(w, installed) && Handled(w) && Bounded(w, 0) && Restorable(w)
  }

  lemma {:induction false} CheckIsIntact(w: World, e: Event, installed: bool, platform: string)
    requires Intact(w, installed) && e.Check?
    ensures Intact(After(w, e, installed, platform), installed)
  {
    hide IsNewer, SafeName;
  }

  lemma {:induction false} CheckIsHandled(w: World, e: Event, installed: bool, platform: string)
    requires Intact(w, installed) && Handled(w) && e.Check?
    ensures Handled(After(w, e, installed, platform))
  {
    hide IsNewer, Rising, Accept, Stages, AtMost;
    CheckInIs(w.agent, e, installed, platform);
    if e.marks && Stages(w.agent, installed, e.manifest, e.data, platform) {
      StagedIsNewer(w, e, installed, platform);
      RisingMore(w.log.staged, e.manifest.version);
    }
  }

  lemma {:induction false} CheckInIs(a: Agent, e: Event, installed: bool, platform: string)
    requires e.Check?
    ensures var a' := CheckIn(a, installed, e.manifest, e.data, e.marks, platform);
            && a'.target == a.target
            && if e.marks && Stages(a, installed, e.manifest, e.data, platform)
               then a'.marker.Some? && a'.marker.value.version == e.manifest.version
               else a'.marker == a.marker
  {
    hide IsNewer, SafeName;
  }

  /** What is staged is newer than what was staged before. */
  lemma {:induction false} StagedIsNewer(w: World, e: Event, installed: bool, platform: string)
    requires Intact(w, installed) && Handled(w) && e.Check?
    requires Stages(w.agent, installed, e.manifest, e.data, platform)
    ensures var staged := w.log.staged; staged != [] ==> IsNewer(e.manifest.version, staged[|staged| - 1])
  {
    hide IsNewer, Rising, SafeName;
    var staged := w.log.staged;
    if staged != [] {
      NewerIsStrictOrder(staged[|staged| - 1], w.agent.running.value, e.manifest.version);
    }
  }

  lemma {:induction false} CheckIsBounded(w: World, e: Event, installed: bool, platform: string)
    requires Bounded(w, 0) && Restorable(w) && e.Check?
    ensures Bounded(After(w, e, installed, platform), 0) && Restorable(After(w, e, installed, platform))
  {
    hide IsNewer, SafeName;
  }

  lemma {:induction false} CheckIsSound(w: World, e: Event, installed: bool, platform: string)
    requires Sound(w, installed) && e.Check?
    ensures Sound(After(w, e, installed, platform), installed)
  {
    hide Intact, Handled, Bounded, Restorable, After;
    CheckIsIntact(w, e, installed, platform);
    CheckIsHandled(w, e, installed, platform);
    CheckIsBounded(w, e, installed, platform);
  }

  function Applied(w: World, o: Outcome, e: Ending, installed: bool): World {
    World(Apply(w.agent, installed, o, e), Logged(w, installed, o, e))
  }

  predicate KeepsMarker(a: Agent, a': Agent) {
    && a.marker.Some? && a'.marker.Some?
    && a'.marker.value.version == a.marker.value.version && a'.marker.value.sha == a.marker.value.sha
  }

  lemma {:induction false} SwapKeepsMarker(a: Agent, m: Marker, o: Outcome, e: Ending)
    requires a.marker == Some(m)
    ensures KeepsMarker(a, Swap(a, m, o, e))
  {
  }

  lemma {:induction false} RollbackKeepsMarker(a: Agent, o: Outcome, e: Ending)
    requires a.marker.Some?
    ensures KeepsMarker(a, Rollback(a, o, e))
  {
  }

  lemma {:induction false} SwapTarget(a: Agent, m: Marker, o: Outcome, e: Ending)
    ensures var a' := Swap(a, m, o, e);
            a'.target == a.target || (m.sha.Some? ==> a'.target == Whole(m.sha.value))
  {
  }

  lemma {:induction false} RollbackTarget(a: Agent, o: Outcome, e: Ending)
    ensures var a' := Rollback(a, o, e);
            a'.target == a.target || Some(a'.target) == a.backup
  {
  }

  lemma {:induction false} SwapFiles(a: Agent, m: Marker, o: Outcome, e: Ending)
    ensures var a' := Swap(a, m, o, e);
            && a'.running == a.running
            && forall name :: name in a'.artifacts ==> name in a.artifacts && a'.artifacts[name] == a.artifacts[name]
  {
  }

  lemma {:induction false} SwapIsIntact(w: World, o: Outcome, e: Ending)
    requires Intact(w, true) && Pending(w.agent).Some? && !InTrial(w.agent)
    ensures var w' := Applied(w, o, e, true); Intact(w', true) && w'.agent.running.None?
  {
    hide Rollback, Swaps, Swap, Died;
    var a, m := w.agent.(running := None), w.agent.marker.value;
    SwapFiles(a, m, o, e);
    SwapKeepsMarker(a, m, o, e);
    SwapTarget(a, m, o, e);
  }

  lemma {:induction false} SwapIsRestorable(w: World, o: Outcome, e: Ending)
    requires Intact(w, true) && Restorable(w) && Pending(w.agent).Some? && !InTrial(w.agent)
    ensures Restorable(Applied(w, o, e, true))
  {
    hide Rollback, Intact, Swap, Swaps, Died;
    IntactMeans(w);
    var a, m := w.agent.(running := None), w.agent.marker.value;
    SwapsAlike(w.agent, a, o);
    if !o.DiesAtOnce? {
      SwapMeans(a, m, o, e);
    }
  }

  /** The step swaps the release in and, unless it dies right then, marks it so; or it leaves the target
      and the marker alone, or refuses the release. */
  lemma {:induction false} SwapMeans(a: Agent, m: Marker, o: Outcome, e: Ending)
    requires a.marker == Some(m) && Pending(a).Some? && !m.applied && !o.DiesAtOnce?
    ensures var a' := Swap(a, m, o, e);
            if Swaps(a, true, o) then
              && a'.backup == Some(a.target) && (m.sha.Some? ==> a'.target == Whole(m.sha.value))
              && a'.marker == if o.DiesBeforeMark? then a.marker else Some(m.(applied := true, attempts := 0))
            else a'.target == a.target && a'.marker.Some? && (a'.marker == a.marker || a'.marker.value.refused)
  {
  }

  lemma {:induction false} SwapsAlike(a: Agent, b: Agent, o: Outcome)
    requires b.marker == a.marker && b.artifacts == a.artifacts
    ensures Swaps(a, true, o) == Swaps(b, true, o)
  {
  }

  lemma {:induction false} IntactMeans(w: World)
    requires Intact(w, true)
    ensures w.agent.target.Whole? && (w.agent.marker.Some? ==> w.agent.marker.value.sha.Some?)
  {
  }

  lemma {:induction false} TrialIsIntact(w: World, o: Outcome, e: Ending)
    requires Intact(w, true) && Restorable(w) && InTrial(w.agent)
    ensures var w' := Applied(w, o, e, true); Intact(w', true) && Restorable(w') && w'.agent.running.None?
  {
    hide Swap;
  }

  lemma {:induction false} ApplyIsIntact(w: World, o: Outcome, e: Ending, installed: bool)
    requires Intact(w, installed) && Restorable(w)
    ensures var w' := Applied(w, o, e, installed); Intact(w', installed) && Restorable(w') && w'.agent.running.None?
  {
    if !installed || Pending(w.agent).None? {
      hide Swap, Rollback;
    } else {
      hide Applied, Intact, Restorable;
      if InTrial(w.agent) {
        TrialIsIntact(w, o, e);
      } else {
        SwapIsIntact(w, o, e);
        SwapIsRestorable(w, o, e);
      }
    }
  }

  lemma {:induction false} ApplyIsHandled(w: World, o: Outcome, e: Ending, installed: bool)
    requires Intact(w, installed) && Restorable(w) && Handled(w)
    ensures Handled(Applied(w, o, e, installed))
  {
    hide Apply, Restorable, Intact, AtMost, Rising, Logged, Died, Swaps;
    ApplyIsIntact(w, o, e, installed);
    IntactTargets(w, installed);
    IntactTargets(Applied(w, o, e, installed), installed);
    MarkerStays(w.agent, o, e, installed);
    LoggedStaged(w, o, e, installed);
  }

  lemma {:induction false} IntactTargets(w: World, installed: bool)
    requires Intact(w, installed)
    ensures w.agent.target.Whole? && (!installed ==> w.agent.marker.None? && w.log.staged == [])
  {
  }

  lemma {:induction false} LoggedStaged(w: World, o: Outcome, e: Ending, installed: bool)
    ensures Logged(w, installed, o, e).staged == w.log.staged
  {
  }

  /** Where the marker stays, it stays the marker of that release; where it does not, nothing was
      installed. */
  lemma {:induction false} MarkerStays(a: Agent, o: Outcome, e: Ending, installed: bool)
    ensures var a' := Apply(a, installed, o, e);
            && (a.marker.None? ==> a'.marker.None? && a'.target == a.target)
            && (a.marker.Some? && installed ==> a'.marker.Some? && a'.marker.value.version == a.marker.value.version)
  {
    hide Swap, Rollback;
    if Pending(a).Some? && installed {
      var m := a.marker.value;
      SwapKeepsMarker(a.(running := None), m, o, e);
      RollbackKeepsMarker(a.(marker := Some(m.(attempts := m.attempts + 1)), running := None), o, e);
    }
  }

  lemma {:induction false} ApplyIsBounded(w: World, o: Outcome, e: Ending, installed: bool)
    requires Intact(w, installed) && Bounded(w, 0) && Restorable(w)
    ensures Bounded(Applied(w, o, e, installed), 0) && Bounded(Applied(w, o, e, installed), 1)
  {
  }

  lemma {:induction false} ApplyIsSound(w: World, o: Outcome, e: Ending, installed: bool)
    requires Sound(w, installed)
    ensures var w' := Applied(w, o, e, installed); Sound(w', installed) && w'.agent.running.None? && Bounded(w', 1)
  {
    hide Intact, Handled, Bounded, Restorable, Apply, Logged;
    ApplyIsIntact(w, o, e, installed);
    ApplyIsHandled(w, o, e, installed);
    ApplyIsBounded(w, o, e, installed);
  }

  lemma {:induction false} BootIsSound(w: World, installed: bool, reaches: bool)
    requires Sound(w, installed) && w.agent.running.None? && Bounded(w, 1)
    ensures Sound(Started(w, reaches), installed)
  {
    hide Intact, Handled, Bounded, Restorable, Boot;
    BootIsIntact(w, installed, reaches);
    BootIsHandled(w, reaches);
    BootIsBounded(w, reaches);
  }

  lemma {:induction false} BootIsIntact(w: World, installed: bool, reaches: bool)
    requires Intact(w, installed) && w.agent.running.None?
    ensures Intact(Started(w, reaches), installed)
  {
  }

  lemma {:induction false} BootIsHandled(w: World, reaches: bool)
    requires Handled(w)
    ensures Handled(Started(w, reaches))
  {
    hide Rising, IsNewer;
    if w.agent.marker.Some? {
      NewerIsStrictOrder(w.agent.marker.value.version, w.agent.marker.value.version, "");
    }
  }

  lemma {:induction false} BootIsBounded(w: World, reaches: bool)
    requires Bounded(w, 0) && Bounded(w, 1) && Restorable(w)
    ensures Bounded(Started(w, reaches), 0) && Restorable(Started(w, reaches))
  {
  }

  lemma {:induction false} AlwaysSound(target: Binary, events: seq<Event>, n: nat, installed: bool, platform: string)
    requires n <= |events|
    ensures Sound(Run(target, events, n, installed, platform), installed)
  {
    if n > 0 {
      hide Sound, Apply, Boot, CheckIn;
      AlwaysSound(target, events, n - 1, installed, platform);
      var w := Run(target, events, n - 1, installed, platform);
      match events[n - 1]
      case Check(_, _, _) => CheckIsSound(w, events[n - 1], installed, platform);
      case Cycle(o, e, reaches) =>
        ApplyIsSound(w, o, e, installed);
        BootIsSound(Applied(w, o, e, installed), installed, reaches);
    }
  }

  /** Staged versions strictly increase, so no release is staged twice: not after a refusal, a
      rollback, a confirmation or any number of restarts. */
  lemma {:induction false} StagedVersionsRise(target: Binary, events: seq<Event>, n: nat, installed: bool,
          platform: string)
    requires n <= |events|
    ensures var staged := Run(target, events, n, installed, platform).log.staged;
            forall i, j :: 0 <= i < j < |staged| ==> IsNewer(staged[j], staged[i]) && staged[i] != staged[j]
  {
    AlwaysSound(target, events, n, installed, platform);
    var staged := Run(target, events, n, installed, platform).log.staged;
    forall i, j | 0 <= i < j < |staged|
      ensures staged[i] != staged[j]
    {
      NewerIsStrictOrder(staged[i], staged[j], "");
    }
  }

  /** A release that is swapped in and not confirmed, rolled back or refused is started at most
      MAX_BOOT_ATTEMPTS + 1 times, and once more for each install step that died over it. */
  lemma {:induction false} TrialIsBounded(target: Binary, events: seq<Event>, n: nat, installed: bool, platform: string)
    requires n <= |events|
    ensures var w := Run(target, events, n, installed, platform);
            Pending(w.agent).Some? ==> w.log.starts <= MAX_BOOT_ATTEMPTS + 1 + w.log.deaths
  {
    AlwaysSound(target, events, n, installed, platform);
  }

  /** Where the target's bytes may come from: it is the one it was, the staged artifact that matches
      its checksum, or the bytes from before the last swap. */
  ghost predicate TargetExplained(w: World, target: Copy) {
    || target == w.agent.target
    || (Pending(w.agent).Some? && Pending(w.agent).value.sha.Some? && target == Whole(Pending(w.agent).value.sha.value))
    || (InTrial(w.agent) && target == w.log.beforeSwap)
  }

  lemma {:induction false} ApplyExplained(w: World, o: Outcome, e: Ending, installed: bool)
    requires Sound(w, installed)
    ensures TargetExplained(w, Apply(w.agent, installed, o, e).target)
  {
    hide Handled, Bounded, Swap, Rollback;
    if installed && Pending(w.agent).Some? {
      var a, m := w.agent.(running := None), w.agent.marker.value;
      SwapTarget(a, m, o, e);
      RollbackTarget(a.(marker := Some(m.(attempts := m.attempts + 1))), o, e);
    }
  }

  lemma {:induction false} OnlyApplyMovesTarget(w: World, e: Event, installed: bool, platform: string)
    ensures After(w, e, installed, platform).agent.target ==
              if e.Check? then w.agent.target else Apply(w.agent, installed, e.outcome, e.ending).target
  {
    hide Accept, Apply;
  }

  /** The target is a complete binary after every event, whatever failed or died. */
  lemma {:induction false} TargetIsAlwaysWhole(target: Binary, events: seq<Event>, n: nat, installed: bool,
          platform: string)
    requires n < |events|
    ensures var w, w' := Run(target, events, n, installed, platform), Run(target, events, n + 1, installed, platform);
            w'.agent.target.Whole? && TargetExplained(w, w'.agent.target)
  {
    AlwaysSound(target, events, n + 1, installed, platform);
    AlwaysSound(target, events, n, installed, platform);
    var w := Run(target, events, n, installed, platform);
    hide TargetExplained, IsNewer, Rising, AtMost, Apply, After;
    OnlyApplyMovesTarget(w, events[n], installed, platform);
    if events[n].Cycle? {
      ApplyExplained(w, events[n].outcome, events[n].ending, installed);
    } else {
      SameExplained(w);
    }
  }

  lemma {:induction false} SameExplained(w: World)
    ensures TargetExplained(w, w.agent.target)
  {
  }

  /** The restart that gives a release up puts back the bytes present just before the last swap, and
      remembers the release as refused. */
  lemma {:induction false} RollbackRestores(target: Binary, events: seq<Event>, n: nat, installed: bool,
          platform: string, o: Outcome)
    requires n <= |events| && !Dies(o) && !o.RestoreFails?
    requires var a := Run(target, events, n, installed, platform).agent;
             InTrial(a) && a.marker.value.attempts + 1 > MAX_BOOT_ATTEMPTS
    ensures var w := Run(target, events, n, installed, platform);
            var a' := Apply(w.agent, installed, o, Complete);
            && a'.target == w.log.beforeSwap
            && a'.marker
                == Some(w.agent.marker.value.(applied := false, attempts := 0, refused := true, hasPath := false))
  {
    AlwaysSound(target, events, n, installed, platform);
    hide IsNewer, Rising;
  }

  /** What a rollback restores is the binary the release was staged over, exactly when no install step
      died between swapping that release in and marking it applied: such a death makes the next
      one keep the new release itself as the rollback copy. */
  lemma {:induction false} RollbackReachesOldRelease(target: Binary, events: seq<Event>, n: nat, installed: bool,
          platform: string)
    requires n <= |events|
    requires var w := Run(target, events, n, installed, platform);
             && InTrial(w.agent) && w.agent.marker.value.sha.Some?
             && Whole(w.agent.marker.value.sha.value) != w.log.stagedOver
    ensures var w := Run(target, events, n, installed, platform);
            w.agent.backup == Some(w.log.stagedOver) <==> !w.log.interrupted
  {
    AlwaysSound(target, events, n, installed, platform);
    hide IsNewer, Rising;
  }

  /** A release is believed, and its marker dropped, only when the process that runs it reports the
      version it was staged as; a process that reports another leaves the trial open. */
  lemma {:induction false} OnlyItselfConfirms(a: Agent, reaches: bool)
    requires InTrial(a) && a.target.Whole?
    ensures Boot(a, reaches).marker.None? <==> reaches && a.target.binary.version == a.marker.value.version
    ensures Boot(a, reaches).marker.Some? ==> Boot(a, reaches).marker == a.marker
    ensures var a', m := Boot(a, reaches), a.marker.value;
            && a'.target == a.target && a'.backup == a.backup
            && (reaches ==> a'.running == Some(a.target.binary.version))
            && a'.artifacts == if a'.marker.None? && m.hasPath then a.artifacts - {m.artifact} else a.artifacts
  {
  }

  /* ----- a release that never comes up ----- */

  /** A restart whose start does not get far enough to serve, or a check-in, which then finds no serving
      process. */
  predicate Unserved(e: Event) {
    e.Check? || !e.reaches
  }

  /** The install step gets as far as counting the start. */
  predicate Counts(e: Event) {
    e.Cycle? && !e.outcome.DiesAtOnce?
  }

  function Counted(events: seq<Event>, n: nat, k: nat): nat
    requires k <= |events|
  {
    if k <= n then 0 else Counted(events, n, k - 1) + if Counts(events[k - 1]) then 1 else 0
  }

  /** A release on trial after some more counted starts, none of which was the last. */
  predicate StillTried(w: World, counted: nat, a: Agent)
    requires InTrial(w.agent)
  {
    var m := w.agent.marker.value;
    a == w.agent.(marker := Some(m.(attempts := m.attempts + counted)), running := None)
  }

  lemma {:induction false} OneMoreTry(w: World, counted: nat, w1: World, e: Event, platform: string)
    requires InTrial(w.agent) && StillTried(w, counted, w1.agent) && Unserved(e)
    requires Counts(e) ==> w.agent.marker.value.attempts + counted + 1 <= MAX_BOOT_ATTEMPTS
    ensures StillTried(w, counted + if Counts(e) then 1 else 0, After(w1, e, true, platform).agent)
  {
    hide Swap, Rollback, Accept, Swaps, Died;
  }

  /** Before the last allowed start is counted nothing is taken back, whatever else fails or dies: a
      release that never comes up stays installed and on trial, and restarts whose install step dies at
      once do not even count, however many there are. */
  lemma {:induction false} TrialGoesOn(target: Binary, events: seq<Event>, n: nat, k: nat, platform: string)
    requires n <= k <= |events| && forall i :: n <= i < k ==> Unserved(events[i])
    requires var a := Run(target, events, n, true, platform).agent; InTrial(a) && a.running.None?
    requires var a := Run(target, events, n, true, platform).agent;
             Counted(events, n, k) == 0 || a.marker.value.attempts + Counted(events, n, k) <= MAX_BOOT_ATTEMPTS
    ensures StillTried(Run(target, events, n, true, platform), Counted(events, n, k),
                       Run(target, events, k, true, platform).agent)
  {
    hide After, Unserved, Counts;
    if n < k {
      TrialGoesOn(target, events, n, k - 1, platform);
      OneMoreTry(Run(target, events, n, true, platform), Counted(events, n, k - 1),
                 Run(target, events, k - 1, true, platform), events[k - 1], platform);
    }
  }

  /** An install step that dies at once, or meets no error. */
  predicate Failing(e: Event) {
    Unserved(e) && (e.Cycle? ==> e.outcome.DiesAtOnce? || (e.outcome.Completes? && e.ending.Complete?))
  }

  /** What became of a release on trial after some failing restarts. */
  predicate Loops(w: World, counted: nat, a: Agent)
    requires InTrial(w.agent)
  {
    if counted == 0 || w.agent.marker.value.attempts + counted <= MAX_BOOT_ATTEMPTS then StillTried(w, counted, a)
    else
      && a.running.None? && a.target == w.log.beforeSwap
      && a.marker.Some? && a.marker.value.refused && a.marker.value.version == w.agent.marker.value.version
  }

  lemma {:induction false} OneMoreFailure(w: World, counted: nat, w1: World, e: Event, platform: string)
    requires InTrial(w.agent) && w.agent.target.Whole?
    requires w.agent.backup == Some(w.log.beforeSwap) && w.log.beforeSwap.Whole?
    requires Loops(w, counted, w1.agent) && Failing(e)
    ensures Loops(w, counted + if Counts(e) then 1 else 0, After(w1, e, true, platform).agent)
  {
    hide Swap, Accept, Swaps, Died;
  }

  /** A release that never comes up is rolled back and refused by the step that counts one start more than
      is allowed, neither before nor, when that step meets no error, later; and so it stays, with any
      check-ins in between. A release that cannot even run the install step is therefore never taken
      back. */
  lemma {:induction false} CrashLoopEnds(target: Binary, events: seq<Event>, n: nat, k: nat, platform: string)
    requires n <= k <= |events| && forall i :: n <= i < k ==> Failing(events[i])
    requires var a := Run(target, events, n, true, platform).agent; InTrial(a) && a.running.None?
    ensures Loops(Run(target, events, n, true, platform), Counted(events, n, k),
                  Run(target, events, k, true, platform).agent)
  {
    hide Sound, Loops, After, Failing, Counts;
    var w := Run(target, events, n, true, platform);
    if n == k {
      NoFailureYet(w);
    } else {
      CrashLoopEnds(target, events, n, k - 1, platform);
      TrialFacts(target, events, n, platform);
      OneMoreFailure(w, Counted(events, n, k - 1), Run(target, events, k - 1, true, platform), events[k - 1], platform);
    }
  }

  /** In such a loop the old bytes come back exactly when more starts were counted than are allowed. */
  lemma {:induction false} RolledBackExactlyWhenCounted(target: Binary, events: seq<Event>, n: nat, k: nat,
          platform: string)
    requires n <= k <= |events| && forall i :: n <= i < k ==> Failing(events[i])
    requires var a := Run(target, events, n, true, platform).agent;
             InTrial(a) && a.running.None? && a.marker.value.attempts == 0
    ensures var w, a := Run(target, events, n, true, platform), Run(target, events, k, true, platform).agent;
            && (Counted(events, n, k) >= MAX_BOOT_ATTEMPTS + 1 <==> a.marker.Some? && a.marker.value.refused)
            && a.target == if Counted(events, n, k) >= MAX_BOOT_ATTEMPTS + 1 then w.log.beforeSwap else w.agent.target
  {
    hide After, Failing, Sound;
    CrashLoopEnds(target, events, n, k, platform);
  }

  lemma {:induction false} NoFailureYet(w: World)
    requires InTrial(w.agent) && w.agent.running.None?
    ensures Loops(w, 0, w.agent)
  {
  }

  lemma {:induction false} TrialFacts(target: Binary, events: seq<Event>, n: nat, platform: string)
    requires n <= |events|
    ensures var w := Run(target, events, n, true, platform);
            && w.agent.target.Whole?
            && (InTrial(w.agent) ==>
                  w.log.swapped && w.agent.backup == Some(w.log.beforeSwap) && w.log.beforeSwap.Whole?)
  {
    AlwaysSound(target, events, n, true, platform);
  }

  const STOPPED := Cycle(DiesAtOnce, Complete, false)

  /** Each restart whose install step dies at once is one more start and one more death. */
  lemma {:induction false} StopsAreStarts(target: Binary, events: seq<Event>, n: nat, k: nat, platform: string)
    requires n <= k <= |events| && forall i :: n <= i < k ==> events[i] == STOPPED
    requires var a := Run(target, events, n, true, platform).agent; InTrial(a) && a.running.None?
    ensures var w, w' := Run(target, events, n, true, platform), Run(target, events, k, true, platform);
            && w'.agent == w.agent
            && w'.log == w.log.(starts := w.log.starts + (k - n), deaths := w.log.deaths + (k - n))
  {
    hide Run, After, InTrial;
    if n < k {
      StopsAreStarts(target, events, n, k - 1, platform);
      TrialFacts(target, events, n, platform);
      StopIsAStart(Run(target, events, k - 1, true, platform), platform);
      RunStep(target, events, k - 1, platform);
    }
  }

  lemma {:induction false} RunStep(target: Binary, events: seq<Event>, n: nat, platform: string)
    requires n < |events|
    ensures Run(target, events, n + 1, true, platform)
              == After(Run(target, events, n, true, platform), events[n], true, platform)
  {
  }

  lemma {:induction false} StopIsAStart(w: World, platform: string)
    requires InTrial(w.agent) && w.agent.running.None? && w.log.swapped
    ensures After(w, STOPPED, true, platform)
              == World(w.agent, w.log.(starts := w.log.starts + 1, deaths := w.log.deaths + 1))
  {
    hide Swap, Rollback;
  }

  /** For any two releases and any number, a run in which the bound on starts is reached: the release
      passes the smoke run, comes up no more than that, uses up its allowed starts, and then cannot run
      the install step. It is never taken back. */
  lemma {:induction false} BoundIsReached(previous: Binary, bad: Binary, offer: Manifest, platform: string, k: nat)
    requires Accept(offer, previous.version, "", platform).Some? && offer.sha == Some(bad)
    ensures var up, fails := Cycle(Completes, Complete, true), Cycle(Completes, Complete, false);
            var events := [up, Check(offer, Some(bad), true), fails, fails, fails] + seq(k, _ => STOPPED);
            var w := Run(previous, events, 5 + k, true, platform);
            && InTrial(w.agent) && w.agent.target == Whole(bad)
            && w.log.deaths == k && w.log.starts == MAX_BOOT_ATTEMPTS + 1 + k
  {
    var up, fails := Cycle(Completes, Complete, true), Cycle(Completes, Complete, false);
    var events := [up, Check(offer, Some(bad), true), fails, fails, fails] + seq(k, _ => STOPPED);
    var w2 := OfferStaged(previous, bad, offer, events, platform);
    hide After, Accept;
    RunStep(previous, events, 2, platform);
    RunStep(previous, events, 3, platform);
    RunStep(previous, events, 4, platform);
    var w3 := Run(previous, events, 3, true, platform);
    FirstSwap(w2, platform);
    CountedStart(w3, platform);
    CountedStart(Run(previous, events, 4, true, platform), platform);
    StopsAreStarts(previous, events, 5, 5 + k, platform);
  }

  /** An agent that comes up and is offered a newer release. */
  lemma {:induction false} OfferStaged(previous: Binary, bad: Binary, offer: Manifest, events: seq<Event>,
          platform: string)
    returns (w: World)
    requires Accept(offer, previous.version, "", platform).Some? && offer.sha == Some(bad)
    requires |events| >= 2 && events[0] == Cycle(Completes, Complete, true)
    requires events[1] == Check(offer, Some(bad), true)
    ensures w == Run(previous, events, 2, true, platform)
    ensures Swaps(w.agent, true, Completes) && Swaps(w.agent, true, DiesBeforeMark)
    ensures w.agent.artifacts[w.agent.marker.value.artifact] == Whole(bad) && w.log.starts == 0 && w.log.deaths == 0
    ensures w.log.stagedOver == Whole(previous)
  {
    assert Run(previous, events, 0, true, platform) == Start(previous);
    var w1 := Run(previous, events, 1, true, platform);
    assert w1 == After(Start(previous), events[0], true, platform) && w1.agent.running == Some(previous.version);
    w := Run(previous, events, 2, true, platform);
    assert w == After(w1, events[1], true, platform);
  }

  lemma {:induction false} FirstSwap(w: World, platform: string)
    requires Swaps(w.agent, true, Completes) && w.log.starts == 0 && w.log.deaths == 0
    ensures var w' := After(w, Cycle(Completes, Complete, false), true, platform);
            && InTrial(w'.agent) && w'.agent.running.None? && w'.agent.marker.value.attempts == 0
            && w'.agent.target == w.agent.artifacts[w.agent.marker.value.artifact]
            && w'.log.swapped && w'.log.starts == 1 && w'.log.deaths == 0
  {
    hide Rollback;
  }

  lemma {:induction false} CountedStart(w: World, platform: string)
    requires InTrial(w.agent) && w.log.swapped && w.agent.marker.value.attempts + 1 <= MAX_BOOT_ATTEMPTS
    ensures var w' := After(w, Cycle(Completes, Complete, false), true, platform);
            && InTrial(w'.agent) && w'.agent.running.None? && w'.agent.target == w.agent.target
            && w'.agent.marker.value.attempts == w.agent.marker.value.attempts + 1
            && w'.log == w.log.(starts := w.log.starts + 1)
  {
    hide Swap, Rollback;
  }

  /* ----- a release that is lost ----- */

  /** When the install step dies between the swap and the marker, and no start gets far enough to serve,
      the next one swaps the failing release in over itself, and the rollback that follows its last
      allowed start brings the failing release back. */
  lemma {:induction false} UnmarkedSwapLosesTheOldRelease(target: Binary, events: seq<Event>, n: nat, j: nat, k: nat,
          platform: string)
    requires n < j < k <= |events| && events[n] == Cycle(DiesBeforeMark, Complete, false)
    requires forall i :: n < i < k ==> Failing(events[i])
    requires Counts(events[j]) && Counted(events, n + 1, j) == 0 && Counted(events, j + 1, k) > MAX_BOOT_ATTEMPTS
    requires Swaps(Run(target, events, n, true, platform).agent, true, DiesBeforeMark)
    ensures var bad := Run(target, events, n, true, platform).agent;
            var a := Run(target, events, k, true, platform).agent;
            a.target == bad.artifacts[bad.marker.value.artifact] && a.marker.Some? && a.marker.value.refused
  {
    hide After, Loops, InTrial, Swaps;
    var w0, w1 := Run(target, events, n, true, platform), Run(target, events, n + 1, true, platform);
    var w2 := Run(target, events, j + 1, true, platform);
    DiesUnmarked(w0, platform);
    NothingHappens(target, events, n + 1, j, platform);
    assert Failing(events[j]) && events[j] == Cycle(Completes, Complete, false);
    SwapsOverItself(Run(target, events, j, true, platform), platform);
    CrashLoopEnds(target, events, j + 1, k, platform);
    LoopIsOver(w2, Counted(events, j + 1, k), Run(target, events, k, true, platform).agent);
  }

  /** What a death between the swap and the marker leaves behind. */
  lemma {:induction false} DiesUnmarked(w: World, platform: string)
    requires Swaps(w.agent, true, DiesBeforeMark)
    ensures var a, a' := w.agent, After(w, Cycle(DiesBeforeMark, Complete, false), true, platform).agent;
            && a'.running.None? && Swaps(a', true, Completes)
            && a'.target == a.artifacts[a.marker.value.artifact] == a'.artifacts[a'.marker.value.artifact]
  {
    hide Rollback;
  }

  lemma {:induction false} SwapsOverItself(w: World, platform: string)
    requires Swaps(w.agent, true, Completes)
    ensures var w' := After(w, Cycle(Completes, Complete, false), true, platform);
            && InTrial(w'.agent) && w'.agent.running.None? && w'.log.beforeSwap == w.agent.target
  {
    hide Rollback;
  }

  lemma {:induction false} LoopIsOver(w: World, counted: nat, a: Agent)
    requires InTrial(w.agent) && Loops(w, counted, a) && counted > MAX_BOOT_ATTEMPTS
    ensures a.target == w.log.beforeSwap && a.marker.Some? && a.marker.value.refused
  {
  }

  /** Without a serving process check-ins change nothing, and neither do steps that die at once. */
  lemma {:induction false} NothingHappens(target: Binary, events: seq<Event>, n: nat, k: nat, platform: string)
    requires n <= k <= |events| && Counted(events, n, k) == 0 && forall i :: n <= i < k ==> Unserved(events[i])
    requires Run(target, events, n, true, platform).agent.running.None?
    ensures Run(target, events, k, true, platform).agent == Run(target, events, n, true, platform).agent
  {
    hide Run, After, Unserved, Counts;
    if n < k {
      NothingHappens(target, events, n, k - 1, platform);
      RunStep(target, events, k - 1, platform);
      UncountedStep(Run(target, events, k - 1, true, platform), events[k - 1], platform);
    }
  }

  lemma {:induction false} UncountedStep(w: World, e: Event, platform: string)
    requires w.agent.running.None? && Unserved(e) && !Counts(e)
    ensures After(w, e, true, platform).agent == w.agent
  {
    hide Accept, Swap, Rollback, Swaps, Died;
  }

  /** Such a run exists: the agent comes up, is offered a newer release that does not run, and its
      install step dies once in the wrong place. */
  lemma {:induction false} OldReleaseLost(previous: Binary, bad: Binary, offer: Manifest, platform: string)
    requires Accept(offer, previous.version, "", platform).Some? && offer.sha == Some(bad)
    ensures var up, fails := Cycle(Completes, Complete, true), Cycle(Completes, Complete, false);
            var dies := Cycle(DiesBeforeMark, Complete, false);
            var events := [up, Check(offer, Some(bad), true), dies, fails, fails, fails, fails];
            var a := Run(previous, events, 7, true, platform).agent;
            a.target == Whole(bad) && a.marker.Some? && a.marker.value.refused
  {
    var up, fails := Cycle(Completes, Complete, true), Cycle(Completes, Complete, false);
    var dies := Cycle(DiesBeforeMark, Complete, false);
    var events := [up, Check(offer, Some(bad), true), dies, fails, fails, fails, fails];
    hide Run, Accept, Swaps, Counted;
    var _ := OfferStaged(previous, bad, offer, events, platform);
    FailuresCount(events, 3, 7);
    UnmarkedSwapLosesTheOldRelease(previous, events, 2, 3, 7, platform);
  }

  lemma {:induction false} FailuresCount(events: seq<Event>, n: nat, k: nat)
    requires n + 4 == k <= |events| && forall i :: n <= i < k ==> events[i] == Cycle(Completes, Complete, false)
    ensures Counted(events, n, n) == 0 && Counted(events, n + 1, k) == 3
  {
    assert Counted(events, n + 1, n + 2) == 1 && Counted(events, n + 1, n + 3) == 2;
  }

  /** When staging stops between the artifact and the marker, an older release that was pending under the
      same file name is refused by the next install step that gets anywhere, and the newer one is still
      accepted. */
  lemma {:induction false} HalfStagedRefusesTheOlder(a: Agent, manifest: Manifest, data: Binary, o: Outcome,
          platform: string)
    requires Stages(a, true, manifest, Some(data), platform) && Pending(a).Some? && !InTrial(a)
    requires Pending(a).value.hasPath && manifest.artifact == Pending(a).value.artifact
    requires Pending(a).value.sha.Some? && Pending(a).value.sha != Some(data) && !o.DiesAtOnce?
    ensures var a1 := CheckIn(a, true, manifest, Some(data), false, platform);
            var a2 := Apply(a1, true, o, Complete);
            && a2.target == a.target
            && a2.marker == Some(Pending(a).value.(applied := false, attempts := 0, refused := true, hasPath := false))
            && Accept(manifest, a.running.value, StagedVersion(a2), platform).Some?
  {
    hide IsNewer;
  }

  /* ----- one step, in full ----- */

  /** Nothing is staged but what is signed, ahead of the running version and of the last one handled, and has
      the bytes of the signed checksum; nothing else changes. */
  lemma {:induction false} OnlyVerifiedIsStaged(a: Agent, installed: bool, m: Manifest, data: Option<Binary>,
          marks: bool, platform: string)
    ensures var a' := CheckIn(a, installed, m, data, marks, platform);
            a' == a ||
            (&& a.running.Some? && installed && m.signed && data.Some? && m.sha == data
             && Ahead(VerTuple(m.version), VerTuple(a.running.value))
             && (a.marker.Some? && a.marker.value.version != "" ==>
                   Ahead(VerTuple(m.version), VerTuple(a.marker.value.version)))
             && a'.artifacts == a.artifacts[m.artifact := Whole(data.value)]
             && a'.marker == (if marks then Some(Marker(m.version, m.artifact, true, m.sha, false, 0, false))
                              else a.marker)
             && a'.(artifacts := a.artifacts, marker := a.marker) == a)
  {
    if a.running.Some? {
      AcceptsExactly(m, a.running.value, StagedVersion(a), platform);
    }
    hide Ahead, IsNewer, VerTuple, SafeName;
  }

  /** The staged file is there and has the bytes that its marker pins. */
  predicate Sealed(a: Agent, m: Marker) {
    m.hasPath && m.artifact in a.artifacts && (m.sha.Some? ==> a.artifacts[m.artifact] == Whole(m.sha.value))
  }

  /** The install step of a staged release: it takes the place of the old one, which becomes the backup; or
      something fails, the old one stays and the release is refused for good; or the process dies, and the
      old one stays unless it died between the swap and the marker. */
  lemma {:induction false} InstallsOrRefuses(a: Agent, o: Outcome, e: Ending)
    requires Pending(a).Some? && !Pending(a).value.applied && !o.DiesAtOnce?
    ensures var m, a' := Pending(a).value, Apply(a, true, o, e);
            if Sealed(a, m) && (o.Completes? || o.RestoreFails?) then
              && a'.target == a.artifacts[m.artifact] && a'.backup == Some(a.target)
              && a'.marker == Some(m.(applied := true, attempts := 0))
            else if Sealed(a, m) && o.DiesBeforeMark? then
              a'.target == a.artifacts[m.artifact] && a'.backup == Some(a.target) && a'.marker == a.marker
            else if Sealed(a, m) && Dies(o) then a'.target == a.target && a'.marker == a.marker
            else
              && a'.target == a.target
              && (if e.Unwritten? then a'.marker == a.marker
                  else a'.marker.Some? && a'.marker.value.refused && a'.marker.value.version == m.version)
              && (m.hasPath && e.Complete? ==> m.artifact !in a'.artifacts)
  {
  }

  /** The install step of a release on trial: one more boot is counted; after the last allowed one the backup
      comes back, if there is one that can be put back, and the release is refused in any case, unless the
      process dies on the way. */
  lemma {:induction false} CountsOrTakesBack(a: Agent, o: Outcome, e: Ending)
    requires InTrial(a) && !o.DiesAtOnce?
    ensures var m, a' := a.marker.value, Apply(a, true, o, e);
            var counted := Some(m.(attempts := m.attempts + 1));
            if m.attempts < 2 then a'.target == a.target && a'.marker == counted
            else
              var back := a.backup.Some? && !o.RestoreFails? && !o.DiesCopying?;
              var died := a.backup.Some? && (o.DiesCopying? || o.DiesBeforeMark?);
              && a'.target == (if back then a.backup.value else a.target)
              && (if died || e.Unwritten? then a'.marker == counted
                  else a'.marker.Some? && a'.marker.value.refused && a'.marker.value.version == m.version)
  {
  }
}
