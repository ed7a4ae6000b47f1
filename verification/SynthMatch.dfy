/** Synthetic match ids for servers that report none: minted once per match and then held. */
module SynthMatch {
  import opened Options
  import opened Rounding

  const CONFIRM_TICKS := 3
  const ELAPSED_SLACK_SEC := 3
  const ANCHOR_DRIFT_RATE := 0.1
  const ANCHOR_GRACE_SEC := 60.0
  const PERSIST_EVERY_SEC := 30.0

  /** A gameState; a field that is absent or of the wrong type is None. */
  datatype GameState = GameState(inProgress: bool, matchId: Option<string>, synthetic: bool, serverStart: Option<int>,
                                 elapsed: Option<int>, worldTime: Option<real>, mapName: Option<string>)

  datatype Obs = Obs(serverStart: int, elapsed: int, anchor: real, mapName: Option<string>)

  /** An observation and the wall time it was made at. */
  datatype Sighting = Sighting(obs: Obs, seenAt: real)

  datatype Held = Held(last: Sighting, id: string)

  /** Hashes (server start, wall-clock match start, map) to a match id. */
  type Mint = (int, int, string) -> string

  function HasRealId(gs: GameState): bool {
    gs.matchId.Some? && gs.matchId.value != ""
  }

  function Observe(gs: GameState): Option<Obs> {
    if gs.serverStart.None? || gs.serverStart.value <= 0 then None
    else if gs.elapsed.None? || gs.elapsed.value < 0 then None
    else if gs.worldTime.None? || gs.worldTime.value < 0.0 then None
    else Some(Obs(gs.serverStart.value, gs.elapsed.value, gs.worldTime.value - gs.elapsed.value as real,
                  if gs.mapName == Some("") then None else gs.mapName))
  }

  function Abs(x: real): real {
    if x < 0.0 then -x else x
  }

  function Envelope(gap: real): real {
    ANCHOR_DRIFT_RATE * (if gap < 0.0 then 0.0 else gap) + ANCHOR_GRACE_SEC
  }

  /** Is `obs`, made now, the same match as the earlier sighting? */
  predicate Continues(prev: Sighting, obs: Obs, now: real) {
    && prev.obs.serverStart == obs.serverStart
    && prev.obs.mapName == obs.mapName
    && obs.elapsed >= prev.obs.elapsed - ELAPSED_SLACK_SEC
    && Abs(obs.anchor - prev.obs.anchor) <= Envelope(now - prev.seenAt)
  }

  predicate ContinuesHeld(held: Option<Held>, obs: Obs, now: real) {
    held.Some? && Continues(held.value.last, obs, now)
  }

  function MintId(obs: Obs, mint: Mint): string {
    mint(obs.serverStart, Round(obs.serverStart as real + obs.anchor),
         if obs.mapName.Some? then obs.mapName.value else "")
  }

  datatype Synth = Synth(held: Option<Held>, pending: Option<Sighting>, pendingCount: nat, lastPersist: real,
          disk: Option<Held>)

  /** A readable tick of a match in progress on a server that gave it no id. */
  predicate Readable(gs: GameState) {
    gs.inProgress && !HasRealId(gs) && Observe(gs).Some?
  }

  function Persist(s: Synth, now: real): Synth {
    s.(disk := s.held, lastPersist := now)
  }

  function Hold(s: Synth, held: Held, now: real): Synth {
    var kept := s.(held := Some(held), pending := None, pendingCount := 0);
    if now - s.lastPersist >= PERSIST_EVERY_SEC then Persist(kept, now) else kept
  }

  function Confirm(s: Synth, obs: Obs, now: real, mint: Mint): (Synth, Option<string>) {
    if s.pending.None? || !Continues(s.pending.value, obs, now) then
      (s.(pending := Some(Sighting(obs, now)), pendingCount := 1), None)
    else if s.pendingCount + 1 < CONFIRM_TICKS then
      (s.(pending := Some(Sighting(obs, now)), pendingCount := s.pendingCount + 1), None)
    else
      var id := MintId(obs, mint);
      (Persist(s.(held := Some(Held(Sighting(obs, now), id)), pending := None, pendingCount := 0), now), Some(id))
  }

  /** One tick: the new state, and the id supplied, if any. */
  function Supply(s: Synth, gs: GameState, now: real, mint: Mint): (Synth, Option<string>) {
    if !gs.inProgress then (s.(pending := None, pendingCount := 0), None)
    else if HasRealId(gs) then (s, None)
    else
      match Observe(gs)
      case None => (s, None)
      case Some(obs) =>
        if ContinuesHeld(s.held, obs, now) then
          (Hold(s, Held(Sighting(obs, now), s.held.value.id), now), Some(s.held.value.id))
        else Confirm(s, obs, now, mint)
  }

  function Loaded(disk: Option<Held>): Synth {
    Synth(disk, None, 0, 0.0, disk)
  }

  class SyntheticMatchIds {
    var state: Option<Held>
    var pending: Option<Sighting>
    var pendingCount: nat
    var lastPersist: real
    var disk: Option<Held>
    const mint: Mint

    ghost function View(): Synth
      reads this
    {
      Synth(state, pending, pendingCount, lastPersist, disk)
    }

    constructor (disk: Option<Held>, mint: Mint)
      ensures View() == Loaded(disk) && this.mint == mint
    {
      state, pending, pendingCount, lastPersist, this.disk := disk, None, 0, 0.0, disk;
      this.mint := mint;
    }

    /** Fills in the match id of a snapshot that lacks one; says which id was supplied. */
    method Apply(gs: GameState, now: real) returns (out: GameState, supplied: Option<string>)
      modifies this
      ensures (View(), supplied) == Supply(old(View()), gs, now, mint)
      ensures out == if supplied.Some? then gs.(matchId := supplied, synthetic := true) else gs
    {
      out, supplied := gs, None;
      if !gs.inProgress {
        pending, pendingCount := None, 0;
        return;
      }
      if gs.matchId.Some? && gs.matchId.value != "" {
        return;
      }
      var obs := Observe(gs);
      if obs.None? {
        return;
      }
      if state.Some? && Continues(state.value.last, obs.value, now) {
        state := Some(Held(Sighting(obs.value, now), state.value.id));
        pending, pendingCount := None, 0;
        if now - lastPersist >= PERSIST_EVERY_SEC {
          PersistNow(now);
        }
        supplied := Some(state.value.id);
      } else {
        supplied := ConfirmNew(obs.value, now);
        if supplied.None? {
          return;
        }
      }
      out := gs.(matchId := supplied, synthetic := true);
    }

    method ConfirmNew(obs: Obs, now: real) returns (minted: Option<string>)
      modifies this
      ensures (View(), minted) == Confirm(old(View()), obs, now, mint)
    {
      if pending.None? || !Continues(pending.value, obs, now) {
        pending, pendingCount := Some(Sighting(obs, now)), 1;
        return None;
      }
      pending, pendingCount := Some(Sighting(obs, now)), pendingCount + 1;
      if pendingCount < CONFIRM_TICKS {
        return None;
      }
      var id := MintId(obs, mint);
      state := Some(Held(Sighting(obs, now), id));
      pending, pendingCount := None, 0;
      PersistNow(now);
      return Some(id);
    }

    method PersistNow(now: real)
      modifies this`disk, this`lastPersist
      ensures View() == Persist(old(View()), now)
    {
      disk, lastPersist := state, now;
    }
  }

  /* ----- whole runs ----- */

  datatype Event = Tick(gs: GameState, now: real) | Restart

  function After(s: Synth, e: Event, mint: Mint): Synth {
    match e
    case Tick(gs, now) => Supply(s, gs, now, mint).0
    case Restart => Loaded(s.disk)
  }

  function Run(s: Synth, h: seq<Event>, n: nat, mint: Mint): Synth
    requires n <= |h|
  {
    if n == 0 then s else After(Run(s, h, n - 1, mint), h[n - 1], mint)
  }

  predicate ReadableAt(h: seq<Event>, i: nat) {
    i < |h| && h[i].Tick? && Readable(h[i].gs)
  }

  function SightingAt(h: seq<Event>, i: nat): Sighting
    requires ReadableAt(h, i)
  {
    Sighting(Observe(h[i].gs).value, h[i].now)
  }

  /** Two sightings of one match, in order: the counter fell by no more than the jitter, and the anchor
      drifted by at most a tenth of the wall time, and a minute. */
  predicate SameMatch(a: Sighting, b: Sighting) {
    && a.obs.serverStart == b.obs.serverStart && a.obs.mapName == b.obs.mapName
    && a.obs.elapsed - ELAPSED_SLACK_SEC <= b.obs.elapsed && a.seenAt <= b.seenAt
    && Abs(b.obs.anchor - a.obs.anchor) <= ANCHOR_DRIFT_RATE * (b.seenAt - a.seenAt) + ANCHOR_GRACE_SEC
  }

  ghost predicate OneMatch(ss: seq<Sighting>) {
    forall i, j :: 0 <= i < j < |ss| ==> SameMatch(ss[i], ss[j])
  }

  /** Which readable ticks show the match as it is; the other readable ones are torn. */
  type Truth = nat -> bool

  predicate GoodAt(h: seq<Event>, i: nat, truth: Truth) {
    ReadableAt(h, i) && truth(i)
  }

  predicate TornAt(h: seq<Event>, i: nat, truth: Truth) {
    ReadableAt(h, i) && !truth(i)
  }

  /** Earlier sightings, then the good ones among the first n events. */
  function Sightings(earlier: seq<Sighting>, h: seq<Event>, n: nat, truth: Truth): seq<Sighting>
    requires n <= |h|
  {
    if n == 0 then earlier
    else Sightings(earlier, h, n - 1, truth) + if GoodAt(h, n - 1, truth) then [SightingAt(h, n - 1)] else []
  }

  /** The torn tick does not look like the match held at that time. */
  predicate Stray(s: Synth, h: seq<Event>, i: nat, mint: Mint)
    requires ReadableAt(h, i)
  {
    !ContinuesHeld(Run(s, h, i, mint).held, SightingAt(h, i).obs, SightingAt(h, i).seenAt)
  }

  /** A tick that the confirmation neither counts nor resets on. */
  predicate Ignored(e: Event) {
    e.Tick? && e.gs.inProgress && !Readable(e.gs)
  }

  ghost predicate Quiet(h: seq<Event>, i: nat, j: nat)
    requires j <= |h|
  {
    forall k :: i < k < j ==> Ignored(h[k])
  }

  /** Torn at p, then nothing readable and no break before n. */
  ghost predicate TornBefore(h: seq<Event>, p: nat, n: nat, truth: Truth)
    requires n <= |h|
  {
    p < n && TornAt(h, p, truth) && Quiet(h, p, n)
  }

  /** Two torn ticks in a row, the second of which looks like the match of the first. */
  ghost predicate TornPair(h: seq<Event>, q: nat, p: nat, n: nat, truth: Truth)
    requires n <= |h|
  {
    TornBefore(h, p, n, truth) && TornBefore(h, q, p, truth)
    && Continues(SightingAt(h, q), SightingAt(h, p).obs, SightingAt(h, p).seenAt)
  }

  /** The tick is the third of three torn ones in a row that agree with each other. */
  ghost predicate ThirdTorn(h: seq<Event>, n: nat, truth: Truth)
    requires n < |h|
  {
    TornAt(h, n, truth) &&
    exists q, p :: TornPair(h, q, p, n, truth)
                   && Continues(SightingAt(h, p), SightingAt(h, n).obs, SightingAt(h, n).seenAt)
  }

  /** Both the held state and the one on disk carry this id and were seen in this list. */
  ghost predicate Carries(s: Synth, id: string, seen: seq<Sighting>) {
    && s.held.Some? && s.held.value.id == id && s.held.value.last in seen
    && s.disk.Some? && s.disk.value.id == id && s.disk.value.last in seen
  }

  /** What is pending are the torn ticks since the last good one, and not yet three. */
  ghost predicate Doubting(s: Synth, h: seq<Event>, n: nat, truth: Truth)
    requires n <= |h|
  {
    && s.pendingCount < CONFIRM_TICKS && (s.pendingCount == 0 <==> s.pending.None?)
    && (forall p :: TornBefore(h, p, n, truth) ==> s.pending == Some(SightingAt(h, p)))
    && (forall q, p :: TornPair(h, q, p, n, truth) ==> s.pendingCount == 2)
    && (s.pendingCount >= 1 ==> exists p :: TornBefore(h, p, n, truth))
    && (s.pendingCount == 2 ==> exists q, p :: TornPair(h, q, p, n, truth))
  }

  lemma {:induction false} SameContinues(a: Sighting, b: Sighting)
    requires SameMatch(a, b)
    ensures Continues(a, b.obs, b.seenAt)
  {
  }

  lemma {:induction false} OneMatchPrefix(seen: seq<Sighting>, now: Sighting)
    requires OneMatch(seen + [now])
    ensures OneMatch(seen)
    ensures forall a :: a in seen ==> SameMatch(a, now)
  {
    var all := seen + [now];
    forall i, j | 0 <= i < j < |seen|
      ensures SameMatch(seen[i], seen[j])
    {
      assert all[i] == seen[i] && all[j] == seen[j];
    }
    forall a | a in seen
      ensures SameMatch(a, now)
    {
      var i :| 0 <= i < |seen| && seen[i] == a;
      assert all[i] == a && all[|seen|] == now;
    }
  }

  lemma {:induction false} HeldThroughTick(s: Synth, gs: GameState, now: real, mint: Mint, id: string,
          seen: seq<Sighting>)
    requires Carries(s, id, seen) && Readable(gs)
    requires SameMatch(s.held.value.last, Sighting(Observe(gs).value, now))
    ensures var (s', supplied) := Supply(s, gs, now, mint);
            && Carries(s', id, seen + [Sighting(Observe(gs).value, now)]) && supplied == Some(id)
            && s'.pending.None? && s'.pendingCount == 0
  {
    SameContinues(s.held.value.last, Sighting(Observe(gs).value, now));
    hide Continues, SameMatch;
  }

  /** Nothing torn is pending after a good tick, a break or a restart. */
  lemma {:induction false} DoubtEnds(s: Synth, h: seq<Event>, n: nat, m: nat, truth: Truth)
    requires n < |h| && m == n + 1 && !Ignored(h[n]) && !TornAt(h, n, truth) && s.pending.None? && s.pendingCount == 0
    ensures Doubting(s, h, m, truth)
  {
    forall p: nat | TornAt(h, p, truth) && p < m
      ensures !Quiet(h, p, m)
    {
      assert p < n && n < m;
    }
    assert forall p: nat :: !TornBefore(h, p, m, truth);
  }

  lemma {:induction false} DoubtWaits(s: Synth, h: seq<Event>, n: nat, m: nat, truth: Truth)
    requires n < |h| && m == n + 1 && Ignored(h[n]) && Doubting(s, h, n, truth)
    ensures Doubting(s, h, m, truth)
  {
    hide Continues;
    forall p: nat
      ensures TornBefore(h, p, m, truth) == TornBefore(h, p, n, truth)
    {
      QuietGrows(h, p, n, m);
    }
    forall q: nat, p: nat
      ensures TornPair(h, q, p, m, truth) == TornPair(h, q, p, n, truth)
    {
      assert TornBefore(h, p, m, truth) == TornBefore(h, p, n, truth);
    }
  }

  lemma {:induction false} QuietGrows(h: seq<Event>, p: nat, n: nat, m: nat)
    requires n < |h| && m == n + 1 && Ignored(h[n])
    ensures p < n ==> Quiet(h, p, m) == Quiet(h, p, n)
  {
    if p < n && Quiet(h, p, n) {
      forall k | p < k < m
        ensures Ignored(h[k])
      {
      }
    }
    if p < n && Quiet(h, p, m) {
      forall k | p < k < n
        ensures Ignored(h[k])
      {
      }
    }
  }

  lemma {:induction false} NothingReadable(h: seq<Event>, p: nat, n: nat)
    requires n <= |h| && Quiet(h, p, n)
    ensures forall k :: p < k < n ==> !ReadableAt(h, k)
  {
    forall k | p < k < n
      ensures !ReadableAt(h, k)
    {
      assert Ignored(h[k]);
    }
  }

  lemma {:induction false} OneTornBefore(h: seq<Event>, p: nat, p': nat, n: nat, truth: Truth)
    requires n <= |h| && TornBefore(h, p, n, truth) && TornBefore(h, p', n, truth)
    ensures p == p'
  {
    NothingReadable(h, p, n);
    NothingReadable(h, p', n);
  }

  /** A stray torn tick is answered with nothing, and changes neither what is held nor what is on disk,
      exactly unless it is the third of its kind. */
  lemma {:induction false} StrayTick(s: Synth, h: seq<Event>, n: nat, truth: Truth, mint: Mint)
    requires n < |h| && TornAt(h, n, truth) && Doubting(s, h, n, truth)
    requires !ContinuesHeld(s.held, SightingAt(h, n).obs, SightingAt(h, n).seenAt)
    ensures var (s', supplied) := Supply(s, h[n].gs, h[n].now, mint);
            if ThirdTorn(h, n, truth) then supplied == Some(MintId(SightingAt(h, n).obs, mint))
            else supplied.None? && s'.held == s.held && s'.disk == s.disk && Doubting(s', h, n + 1, truth)
  {
    hide Continues, ContinuesHeld, MintId;
    var now := SightingAt(h, n);
    var (s', supplied) := Supply(s, h[n].gs, h[n].now, mint);
    if s.pending.Some? {
      var p :| TornBefore(h, p, n, truth);
      if s.pendingCount == 2 {
        var q, p' :| TornPair(h, q, p', n, truth);
        OneTornBefore(h, p, p', n, truth);
      }
    }
    if !ThirdTorn(h, n, truth) {
      var m := n + 1;
      assert TornBefore(h, n, m, truth);
      forall p | TornBefore(h, p, m, truth)
        ensures p == n
      {
        OneTornBefore(h, p, n, m, truth);
      }
      if s'.pendingCount == 2 {
        var p :| TornBefore(h, p, n, truth);
        assert TornPair(h, p, n, m, truth);
      }
    }
  }

  /** An id that is held, with a copy on disk that may show an earlier sighting, is supplied on every good
      tick of its match, across unreadable ticks, breaks and restarts at any point, and across stray torn
      ticks as long as no three of these in a row agree with each other; to a stray tick nothing is
      answered. */
  lemma {:induction false} IdIsHeld(s: Synth, id: string, earlier: seq<Sighting>, h: seq<Event>, n: nat, truth: Truth,
          mint: Mint)
    requires n <= |h| && Carries(s, id, earlier) && s.pending.None? && s.pendingCount == 0
    requires OneMatch(Sightings(earlier, h, n, truth))
    requires forall i :: 0 <= i < n && TornAt(h, i, truth) ==> Stray(s, h, i, mint) && !ThirdTorn(h, i, truth)
    ensures Carries(Run(s, h, n, mint), id, Sightings(earlier, h, n, truth))
    ensures Doubting(Run(s, h, n, mint), h, n, truth)
    ensures n > 0 && ReadableAt(h, n - 1) ==>
              Supply(Run(s, h, n - 1, mint), h[n - 1].gs, h[n - 1].now, mint).1
                == if truth(n - 1) then Some(id) else None
  {
    hide SameMatch, Doubting, ThirdTorn, Continues;
    if n == 0 {
      NoDoubtYet(s, h, truth);
    } else {
      var seen := Sightings(earlier, h, n - 1, truth);
      var before := Run(s, h, n - 1, mint);
      if GoodAt(h, n - 1, truth) {
        OneMatchPrefix(seen, SightingAt(h, n - 1));
        IdIsHeld(s, id, earlier, h, n - 1, truth, mint);
        hide Supply, OneMatch;
        HeldThroughTick(before, h[n - 1].gs, h[n - 1].now, mint, id, seen);
        DoubtEnds(Run(s, h, n, mint), h, n - 1, n, truth);
      } else {
        assert Sightings(earlier, h, n, truth) == seen;
        IdIsHeld(s, id, earlier, h, n - 1, truth, mint);
        OtherTick(before, h, n - 1, truth, mint);
      }
    }
  }

  lemma {:induction false} NoDoubtYet(s: Synth, h: seq<Event>, truth: Truth)
    requires s.pending.None? && s.pendingCount == 0
    ensures Doubting(s, h, 0, truth)
  {
  }

  lemma {:induction false} OtherTick(s: Synth, h: seq<Event>, n: nat, truth: Truth, mint: Mint)
    requires n < |h| && !GoodAt(h, n, truth) && Doubting(s, h, n, truth) && s.held.Some?
    requires TornAt(h, n, truth) ==>
               && !ContinuesHeld(s.held, SightingAt(h, n).obs, SightingAt(h, n).seenAt) && !ThirdTorn(h, n, truth)
    ensures var s' := After(s, h[n], mint);
            && Doubting(s', h, n + 1, truth) && s'.disk == s.disk && (s'.held == s.held || s'.held == s.disk)
            && (ReadableAt(h, n) ==> Supply(s, h[n].gs, h[n].now, mint).1.None?)
  {
    hide Doubting, ThirdTorn, Continues, ContinuesHeld;
    if TornAt(h, n, truth) {
      StrayTick(s, h, n, truth, mint);
    } else if Ignored(h[n]) {
      DoubtWaits(s, h, n, n + 1, truth);
    } else {
      DoubtEnds(After(s, h[n], mint), h, n, n + 1, truth);
    }
  }

  /** Under the same conditions, a stray torn tick splits the match exactly when it is the third of
      three in a row that agree with each other. */
  lemma {:induction false} OnlyThreeTornSplit(s: Synth, id: string, earlier: seq<Sighting>, h: seq<Event>, n: nat,
          truth: Truth, mint: Mint)
    requires n < |h| && Carries(s, id, earlier) && s.pending.None? && s.pendingCount == 0
    requires OneMatch(Sightings(earlier, h, n, truth))
    requires forall i :: 0 <= i < n && TornAt(h, i, truth) ==> Stray(s, h, i, mint) && !ThirdTorn(h, i, truth)
    requires TornAt(h, n, truth) && Stray(s, h, n, mint)
    ensures Supply(Run(s, h, n, mint), h[n].gs, h[n].now, mint).1
              == if ThirdTorn(h, n, truth) then Some(MintId(SightingAt(h, n).obs, mint)) else None
  {
    hide SameMatch, Doubting, ThirdTorn, Continues, ContinuesHeld;
    IdIsHeld(s, id, earlier, h, n, truth, mint);
    StrayTick(Run(s, h, n, mint), h, n, truth, mint);
  }

  /* ----- a torn tick that looks like the match held ----- */

  lemma {:induction false} QuietKeeps(s: Synth, h: seq<Event>, i: nat, j: nat, mint: Mint)
    requires i < j <= |h| && Quiet(h, i, j)
    ensures Run(s, h, j, mint) == Run(s, h, i + 1, mint)
  {
    if i + 1 < j {
      QuietKeeps(s, h, i, j - 1, mint);
      assert Ignored(h[j - 1]);
    }
  }

  /** The answer to a readable tick. */
  function AnswerAt(s: Synth, h: seq<Event>, i: nat, mint: Mint): Option<string>
    requires ReadableAt(h, i)
  {
    Supply(Run(s, h, i, mint), h[i].gs, h[i].now, mint).1
  }

  predicate ContinuesAt(h: seq<Event>, i: nat, j: nat)
    requires ReadableAt(h, i) && ReadableAt(h, j)
  {
    Continues(SightingAt(h, i), SightingAt(h, j).obs, SightingAt(h, j).seenAt)
  }

  /** A readable tick that continues what is held becomes what the next one is compared with, torn or
      not: the next readable tick keeps the id exactly when it continues that tick, which is when its
      elapsed is at most three seconds lower and its anchor within the envelope. */
  lemma {:induction false} NextIsComparedWithTheLast(s: Synth, h: seq<Event>, n: nat, m: nat, mint: Mint)
    requires n < m && ReadableAt(h, n) && ReadableAt(h, m) && Quiet(h, n, m)
    requires !Stray(s, h, n, mint)
    ensures var id := Run(s, h, n, mint).held.value.id;
            && AnswerAt(s, h, n, mint) == Some(id)
            && Run(s, h, m, mint).held == Some(Held(SightingAt(h, n), id))
            && AnswerAt(s, h, m, mint) == (if ContinuesAt(h, n, m) then Some(id) else None)
            && (ContinuesAt(h, n, m) <==>
                  var a, b := SightingAt(h, n), SightingAt(h, m);
                  && a.obs.serverStart == b.obs.serverStart && a.obs.mapName == b.obs.mapName
                  && a.obs.elapsed - b.obs.elapsed <= 3
                  && var drift := b.obs.anchor - a.obs.anchor;
                     var gap := if b.seenAt < a.seenAt then 0.0 else b.seenAt - a.seenAt;
                     -60.0 - gap / 10.0 <= drift <= 60.0 + gap / 10.0)
  {
    QuietKeeps(s, h, n, m, mint);
    ContinuesMeans(SightingAt(h, n), SightingAt(h, m));
    hide MintId, Continues;
  }

  /** One sighting continues another exactly if server and map are the same, the elapsed time fell by 3 seconds
      at most, and the start it implies moved by at most a tenth of the time between them, and a minute. */
  lemma {:induction false} ContinuesMeans(a: Sighting, b: Sighting)
    ensures Continues(a, b.obs, b.seenAt) <==>
              && a.obs.serverStart == b.obs.serverStart && a.obs.mapName == b.obs.mapName
              && a.obs.elapsed - b.obs.elapsed <= 3
              && var drift := b.obs.anchor - a.obs.anchor;
                 var gap := if b.seenAt < a.seenAt then 0.0 else b.seenAt - a.seenAt;
                 -60.0 - gap / 10.0 <= drift <= 60.0 + gap / 10.0
  {
  }

  /** After such a torn tick, three good ones in a row that agree with each other: the match keeps its id
      exactly when one of the three still continues the torn tick, and is split otherwise. */
  lemma {:induction false} AbsorbedTearSplits(s: Synth, h: seq<Event>, n: nat, a: nat, b: nat, c: nat, mint: Mint)
    requires n < a < b < c && ReadableAt(h, n) && ReadableAt(h, a) && ReadableAt(h, b) && ReadableAt(h, c)
    requires Quiet(h, n, a) && Quiet(h, a, b) && Quiet(h, b, c)
    requires !Stray(s, h, n, mint) && ContinuesAt(h, a, b) && ContinuesAt(h, b, c)
    ensures AnswerAt(s, h, c, mint)
              == if ContinuesAt(h, n, a) || ContinuesAt(h, n, b) || ContinuesAt(h, n, c)
                 then Some(Run(s, h, n, mint).held.value.id)
                 else Some(MintId(SightingAt(h, c).obs, mint))
  {
    NextIsComparedWithTheLast(s, h, n, a, mint);
    QuietKeeps(s, h, n, a, mint);
    QuietKeeps(s, h, a, b, mint);
    QuietKeeps(s, h, b, c, mint);
    hide MintId, Continues, Supply;
    var id := Run(s, h, n, mint).held.value.id;
    NoneDoubted(Run(s, h, n, mint), h[n].gs, h[n].now, mint);
    ThreeAfterATear(Run(s, h, a, mint), SightingAt(h, n), id,
                    h[a].gs, h[a].now, h[b].gs, h[b].now, h[c].gs, h[c].now, mint);
  }

  lemma {:induction false} NoneDoubted(s: Synth, gs: GameState, now: real, mint: Mint)
    requires Readable(gs) && ContinuesHeld(s.held, Observe(gs).value, now)
    ensures Supply(s, gs, now, mint).0.pending.None?
  {
  }

  lemma {:induction false} ThreeAfterATear(s: Synth, tear: Sighting, id: string, ga: GameState, ta: real,
          gb: GameState, tb: real, gc: GameState, tc: real, mint: Mint)
    requires s.held == Some(Held(tear, id)) && s.pending.None?
    requires Readable(ga) && Readable(gb) && Readable(gc)
    requires Continues(Sighting(Observe(ga).value, ta), Observe(gb).value, tb)
    requires Continues(Sighting(Observe(gb).value, tb), Observe(gc).value, tc)
    ensures var s2 := Supply(Supply(s, ga, ta, mint).0, gb, tb, mint).0;
            Supply(s2, gc, tc, mint).1
              == if Continues(tear, Observe(ga).value, ta) || Continues(tear, Observe(gb).value, tb)
                    || Continues(tear, Observe(gc).value, tc)
                 then Some(id) else Some(MintId(Observe(gc).value, mint))
  {
    hide MintId, Continues, Observe, Readable;
    hide HasRealId;
    ReadableMeans(ga);
    ReadableMeans(gb);
    ReadableMeans(gc);
  }

  lemma {:induction false} ReadableMeans(gs: GameState)
    ensures Readable(gs) ==> gs.inProgress && !HasRealId(gs) && Observe(gs).Some?
  {
  }

  /** Half a second apart: a match held at elapsed 100, one tick whose elapsed is read as 150, and three
      good ticks. The match gets a second id. */
  lemma {:induction false} OneTornTickSplitsAMatch(id: string, mint: Mint)
    ensures var s := Loaded(Some(Held(Sighting(Obs(1000, 100, 1000.0, Some("Gorodok")), 10000.0), id)));
            var h := [Seen(150, 1100.5, 10000.5), Seen(101, 1101.0, 10001.0),
                      Seen(101, 1101.5, 10001.5), Seen(102, 1102.0, 10002.0)];
            && ReadableAt(h, 0) && ReadableAt(h, 1) && ReadableAt(h, 2) && ReadableAt(h, 3)
            && AnswerAt(s, h, 0, mint) == Some(id) && AnswerAt(s, h, 1, mint) == None
            && AnswerAt(s, h, 2, mint) == None && AnswerAt(s, h, 3, mint) == Some(mint(1000, 2000, "Gorodok"))
  {
    var s := Loaded(Some(Held(Sighting(Obs(1000, 100, 1000.0, Some("Gorodok")), 10000.0), id)));
    var h := [Seen(150, 1100.5, 10000.5), Seen(101, 1101.0, 10001.0),
              Seen(101, 1101.5, 10001.5), Seen(102, 1102.0, 10002.0)];
    assert Run(s, h, 0, mint) == s;
    NextIsComparedWithTheLast(s, h, 0, 1, mint);
    assert !ContinuesAt(h, 0, 2);
    assert Run(s, h, 2, mint).pendingCount == 1;
    assert Run(s, h, 3, mint).pendingCount == 2;
    AbsorbedTearSplits(s, h, 0, 1, 2, 3, mint);
  }

  function Seen(elapsed: int, world: real, now: real): Event {
    Tick(GameState(true, None, false, Some(1000), Some(elapsed), Some(world), Some("Gorodok")), now)
  }

  /* ----- what a new id needs ----- */

  /** The last readable tick before n was at p, the sighting there is pending, and it did not continue
      what is held. */
  ghost predicate PendingAt(h: seq<Event>, n: nat, held: Option<Held>, p: nat)
    requires n <= |h|
  {
    && p < n && ReadableAt(h, p) && Quiet(h, p, n)
    && !ContinuesHeld(held, SightingAt(h, p).obs, SightingAt(h, p).seenAt)
  }

  /** Two readable ticks in a row, the second continuing the first, neither continuing what is held. */
  ghost predicate PairAt(h: seq<Event>, n: nat, held: Option<Held>, p: nat)
    requires n <= |h|
  {
    PendingAt(h, n, held, p) &&
    exists q :: PendingAt(h, p, held, q) && Continues(SightingAt(h, q), SightingAt(h, p).obs, SightingAt(h, p).seenAt)
  }

  ghost predicate Confirming(h: seq<Event>, n: nat, s: Synth)
    requires n <= |h|
  {
    match s.pendingCount
    case 0 => s.pending.None?
    case 1 => exists p :: PendingAt(h, n, s.held, p) && s.pending == Some(SightingAt(h, p))
    case 2 => exists p :: PairAt(h, n, s.held, p) && s.pending == Some(SightingAt(h, p))
    case _ => false
  }

  lemma {:induction false} ConfirmingLater(h: seq<Event>, n: nat, s: Synth)
    requires n < |h| && Ignored(h[n]) && Confirming(h, n, s)
    ensures Confirming(h, n + 1, s)
  {
    if s.pendingCount == 1 {
      var p :| PendingAt(h, n, s.held, p) && s.pending == Some(SightingAt(h, p));
      assert PendingAt(h, n + 1, s.held, p);
    } else if s.pendingCount == 2 {
      var p :| PairAt(h, n, s.held, p) && s.pending == Some(SightingAt(h, p));
      assert PairAt(h, n + 1, s.held, p);
    }
  }

  lemma {:induction false} ConfirmingStep(h: seq<Event>, n: nat, s: Synth, mint: Mint)
    requires n < |h| && Confirming(h, n, s)
    ensures Confirming(h, n + 1, After(s, h[n], mint))
  {
    if Ignored(h[n]) {
      ConfirmingLater(h, n, s);
    } else if ReadableAt(h, n) && !ContinuesHeld(s.held, SightingAt(h, n).obs, SightingAt(h, n).seenAt) {
      assert PendingAt(h, n + 1, s.held, n);
      if s.pendingCount == 1 && Continues(s.pending.value, SightingAt(h, n).obs, SightingAt(h, n).seenAt) {
        var p :| PendingAt(h, n, s.held, p) && s.pending == Some(SightingAt(h, p));
        assert PairAt(h, n + 1, s.held, n);
      }
    }
  }

  lemma {:induction false} RunConfirming(h: seq<Event>, n: nat, disk: Option<Held>, mint: Mint)
    requires n <= |h|
    ensures Confirming(h, n, Run(Loaded(disk), h, n, mint))
  {
    if n > 0 {
      RunConfirming(h, n - 1, disk, mint);
      ConfirmingStep(h, n - 1, Run(Loaded(disk), h, n - 1, mint), mint);
    }
  }

  /** A new id is minted only on the third of three readable ticks in a row, with nothing between them but
      ticks that say nothing, each continuing the one before and none continuing the match held. */
  lemma {:induction false} NewIdNeedsThree(h: seq<Event>, n: nat, disk: Option<Held>, mint: Mint)
    requires n < |h| && ReadableAt(h, n)
    requires var s := Run(Loaded(disk), h, n, mint);
             && Supply(s, h[n].gs, h[n].now, mint).1.Some?
             && !ContinuesHeld(s.held, SightingAt(h, n).obs, SightingAt(h, n).seenAt)
    ensures var held := Run(Loaded(disk), h, n, mint).held;
            exists p :: PairAt(h, n, held, p)
                && Continues(SightingAt(h, p), SightingAt(h, n).obs, SightingAt(h, n).seenAt)
    ensures Supply(Run(Loaded(disk), h, n, mint), h[n].gs, h[n].now, mint).1 == Some(MintId(SightingAt(h, n).obs, mint))
  {
    RunConfirming(h, n, disk, mint);
    var s := Run(Loaded(disk), h, n, mint);
    assert s.pendingCount == 2;
  }

  /** Whatever was held or pending, three readable ticks in a row of one match end with an id. */
  lemma {:induction false} ThreeSuffice(s: Synth, h: seq<Event>, mint: Mint)
    requires |h| == 3 && ReadableAt(h, 0) && ReadableAt(h, 1) && ReadableAt(h, 2)
    requires Continues(SightingAt(h, 0), SightingAt(h, 1).obs, SightingAt(h, 1).seenAt)
    requires Continues(SightingAt(h, 1), SightingAt(h, 2).obs, SightingAt(h, 2).seenAt)
    requires s.pending.Some? ==> s.pendingCount >= 1
    ensures Supply(Run(s, h, 2, mint), h[2].gs, h[2].now, mint).1.Some?
  {
    hide Continues, MintId;
    var s1 := Supply(s, h[0].gs, h[0].now, mint).0;
    var s2 := Supply(s1, h[1].gs, h[1].now, mint).0;
    assert Run(s, h, 0, mint) == s && Run(s, h, 1, mint) == s1 && Run(s, h, 2, mint) == s2;
  }

  /** A real id is never altered, and seeing one changes nothing. */
  lemma {:induction false} RealIdsUntouched(s: Synth, gs: GameState, now: real, mint: Mint)
    requires HasRealId(gs)
    ensures Supply(s, gs, now, mint).1.None?
    ensures Supply(s, gs, now, mint).0.held == s.held && Supply(s, gs, now, mint).0.disk == s.disk
    ensures gs.inProgress ==> Supply(s, gs, now, mint).0 == s
  {
  }

  /** Another match gets another id on the third of three ticks that agree with each other and not with the
      match held; until then nothing is supplied. */
  lemma {:induction false} AnotherMatchGetsAnId(s: Synth, h: seq<Event>, mint: Mint)
    requires |h| == 3 && ReadableAt(h, 0) && ReadableAt(h, 1) && ReadableAt(h, 2)
    requires ContinuesAt(h, 0, 1) && ContinuesAt(h, 1, 2) && s.pending.None?
    requires forall i :: 0 <= i < 3 ==> !ContinuesHeld(s.held, SightingAt(h, i).obs, SightingAt(h, i).seenAt)
    ensures var c := SightingAt(h, 2);
            var id := mint(c.obs.serverStart, Round(c.obs.serverStart as real + c.obs.anchor),
                           if c.obs.mapName.Some? then c.obs.mapName.value else "");
            && AnswerAt(s, h, 0, mint).None? && AnswerAt(s, h, 1, mint).None? && AnswerAt(s, h, 2, mint) == Some(id)
            && Run(s, h, 3, mint).held == Run(s, h, 3, mint).disk == Some(Held(c, id))
  {
    hide Continues, Observe, Round;
    assert !ContinuesHeld(s.held, SightingAt(h, 0).obs, SightingAt(h, 0).seenAt);
    assert !ContinuesHeld(s.held, SightingAt(h, 1).obs, SightingAt(h, 1).seenAt);
    assert !ContinuesHeld(s.held, SightingAt(h, 2).obs, SightingAt(h, 2).seenAt);
    var s1 := Supply(s, h[0].gs, h[0].now, mint).0;
    var s2 := Supply(s1, h[1].gs, h[1].now, mint).0;
    assert Run(s, h, 0, mint) == s && Run(s, h, 1, mint) == s1 && Run(s, h, 2, mint) == s2;
  }

  /* ----- the copy on disk ----- */

  /** The disk knows the id held, and when it was written, unless nothing was written yet. */
  predicate DiskKnows(s: Synth) {
    s.held.Some? ==>
      && s.disk.Some? && s.disk.value.id == s.held.value.id
      && (s.lastPersist == 0.0 || s.disk.value.last.seenAt == s.lastPersist)
  }

  lemma {:induction false} DiskAlwaysKnows(disk: Option<Held>, h: seq<Event>, n: nat, mint: Mint)
    requires n <= |h|
    ensures DiskKnows(Run(Loaded(disk), h, n, mint))
  {
    hide Continues, Observe, MintId;
    if n > 0 {
      DiskAlwaysKnows(disk, h, n - 1, mint);
    }
  }

  /** Whenever an id is supplied the disk has it, with a sighting less than 30 seconds old, so that a restart at
      any time goes on with it. */
  lemma {:induction false} DiskIsRecent(disk: Option<Held>, h: seq<Event>, n: nat, mint: Mint)
    requires n < |h| && ReadableAt(h, n) && h[n].now >= 30.0
    ensures var id, s' := AnswerAt(Loaded(disk), h, n, mint), Run(Loaded(disk), h, n + 1, mint);
            id.Some? ==>
              s'.disk.Some? && s'.disk.value.id == id.value && h[n].now - s'.disk.value.last.seenAt < 30.0
  {
    hide Continues, Observe, MintId;
    DiskAlwaysKnows(disk, h, n, mint);
  }
}
