/** The match rows, read off the committed ticks alone. */
module StatsHistory {
  import opened Options
  import opened Lifecycle
  import opened Stats

  /** A committed tick of the match. */
  predicate Plays(h: seq<Event>, i: nat, id: string)
    requires i < |h|
  {
    h[i].Observe? && h[i].commits && ActiveId(h[i].snap) == Some(id)
  }

  /** The open match: that of the last committed active tick, unless an end was committed since, or the
      process was started again. */
  ghost function OpenAt(h: seq<Event>, n: nat): Option<string>
    requires n <= |h|
  {
    if n == 0 || h[n - 1].Restart? then None
    else if h[n - 1].commits && ActiveId(h[n - 1].snap).Some? then ActiveId(h[n - 1].snap)
    else if h[n - 1].commits && Evidence(h, n - 1) then None
    else OpenAt(h, n - 1)
  }

  /** The last committed active frame of this process. */
  function LastActive(h: seq<Event>, n: nat): Option<Snap>
    requires n <= |h|
  {
    if n == 0 || h[n - 1].Restart? then None
    else if h[n - 1].commits && ActiveId(h[n - 1].snap).Some? then Some(h[n - 1].snap)
    else LastActive(h, n - 1)
  }

  function Times(h: seq<Event>, n: nat, id: string): nat
    requires n <= |h|
  {
    if n == 0 then 0 else Times(h, n - 1, id) + if Plays(h, n - 1, id) then 1 else 0
  }

  function FirstTime(h: seq<Event>, n: nat, id: string): int
    requires n <= |h| && Times(h, n, id) > 0
  {
    if Times(h, n - 1, id) > 0 then FirstTime(h, n - 1, id) else h[n - 1].snap.now
  }

  function LastTime(h: seq<Event>, n: nat, id: string): int
    requires n <= |h| && Times(h, n, id) > 0
  {
    if Plays(h, n - 1, id) then h[n - 1].snap.now else LastTime(h, n - 1, id)
  }

  /** Which match is open, and its last frame. */
  ghost predicate OpenIs(h: seq<Event>, n: nat, s: Store)
    requires n <= |h|
  {
    && s.openId == OpenAt(h, n)
    && (s.openId.Some? ==>
          && s.lastSnap == LastActive(h, n) && s.lastSnap.Some?
          && Times(h, n, s.openId.value) > 0 && s.lastSnap.value.now == LastTime(h, n, s.openId.value))
  }

  lemma {:induction false} OpenStep(h: seq<Event>, n: nat, m: nat)
    requires m == n + 1 <= |h| && OpenIs(h, n, Run(h, n))
    ensures OpenIs(h, m, Run(h, m))
  {
    hide FinalizeMatch, OpenMatch, UpdateRunning, SweepAll, Evidence;
    RunInv(h, n);
    var s := Run(h, n);
    if InactiveAt(h, n) {
      EndsOnEvidence(h, n, s);
    } else {
      NoEvidence(h, n);
    }
    hide Run;
    assert Run(h, m) == After(s, h[n]) by {
      RunStep(h, n, m);
    }
  }

  lemma {:induction false} NoEvidence(h: seq<Event>, n: nat)
    requires n < |h| && !InactiveAt(h, n)
    ensures !Evidence(h, n)
  {
  }

  lemma {:induction false} RunStep(h: seq<Event>, n: nat, m: nat)
    requires m == n + 1 <= |h|
    ensures Run(h, m) == After(Run(h, n), h[n])
  {
  }

  lemma {:induction false} OpenAlways(h: seq<Event>, n: nat)
    requires n <= |h|
    ensures OpenIs(h, n, Run(h, n))
  {
    hide Run, OpenIs;
    if n == 0 {
      NothingOpen(h);
    } else {
      OpenAlways(h, n - 1);
      OpenStep(h, n - 1, n);
    }
  }

  lemma {:induction false} NothingOpen(h: seq<Event>)
    ensures OpenIs(h, 0, Run(h, 0))
  {
  }

  /* ----- the rows ----- */

  function Span(from: int, to: int): int {
    if from <= to then to - from else 0
  }

  function Find(rows: Table, id: string): Option<Row> {
    if id in rows then Some(rows[id]) else None
  }

  /** One more tick of the match. */
  predicate Ticked(was: Option<Row>, now: Option<Row>, at: int) {
    && now.Some? && now.value.open && now.value.endedAt == at
    && (match was
        case None => now.value.startedAt == at && now.value.tickCount == 1
        case Some(r) => now.value.startedAt == r.startedAt && now.value.tickCount == r.tickCount + 1)
  }

  /** The row is closed, with the time of its last tick. */
  predicate Shut(was: Option<Row>, now: Option<Row>) {
    && was.Some? && now.Some? && !now.value.open
    && now.value.startedAt == was.value.startedAt && now.value.tickCount == was.value.tickCount
    && now.value.endedAt == was.value.endedAt
    && now.value.duration == Span(was.value.startedAt, was.value.endedAt)
  }

  lemma {:induction false} FinalizeShuts(rows: Table, id: string, last: Option<Snap>, terminal: Option<Snap>,
          end: EndState, clock: int, other: string)
    requires id in rows && last.Some? && last.value.now == rows[id].endedAt
    ensures var out := FinalizeMatch(rows, id, last, terminal, end, clock);
            Shut(Find(rows, id), Find(out, id)) && (other != id ==> Find(out, other) == Find(rows, other))
  {
  }

  lemma {:induction false} PlayTicks(rows: Table, id: string, snap: Snap, other: string)
    ensures var out := UpdateRunning(OpenMatch(rows, id, snap.now), id, snap);
            && Ticked(Find(rows, id), Find(out, id), snap.now)
            && (other != id && (other in rows ==> !rows[other].open) ==> Find(out, other) == Find(rows, other))
    ensures id in rows && rows[id].open ==>
              var out := UpdateRunning(rows, id, snap);
              && Ticked(Find(rows, id), Find(out, id), snap.now)
              && (other != id ==> Find(out, other) == Find(rows, other))
  {
  }

  lemma {:induction false} SweepShuts(rows: Table, id: string)
    ensures var now := Find(SweepAll(rows, None), id);
            if id in rows && rows[id].open then Shut(Find(rows, id), now) else now == Find(rows, id)
  {
  }

  /** The open match has a row, which knows the time of the last frame. */
  predicate LastKnown(s: Store) {
    s.openId.Some? ==>
      s.openId.value in s.rows && s.lastSnap.Some? && s.lastSnap.value.now == s.rows[s.openId.value].endedAt
  }

  /** What one event does to the row of a match. */
  predicate Becomes(h: seq<Event>, n: nat, id: string, s: Store, now: Option<Row>, openNow: bool)
    requires n < |h|
  {
    if Plays(h, n, id) then openNow && Ticked(Find(s.rows, id), now, h[n].snap.now)
    else if s.openId == Some(id) && !openNow then Shut(Find(s.rows, id), now)
    else now == Find(s.rows, id)
  }

  lemma {:induction false} RowStep(h: seq<Event>, n: nat, id: string, s: Store)
    requires n < |h| && RowsOk(s) && LastKnown(s)
    ensures Becomes(h, n, id, s, Find(After(s, h[n]).rows, id), After(s, h[n]).openId == Some(id))
  {
    hide Becomes, RowsOk, LastKnown, Tick, Shutdown, Startup;
    match h[n]
    case Observe(snap, commits, clock) => TickRow(h, n, id, s);
    case Restart(graceful, commits, clock) => RestartRow(h, n, id, s);
  }

  lemma {:induction false} TickRow(h: seq<Event>, n: nat, id: string, s: Store)
    requires n < |h| && RowsOk(s) && LastKnown(s) && h[n].Observe?
    ensures var s' := Tick(s, h[n].snap, h[n].commits, h[n].clock);
            Becomes(h, n, id, s, Find(s'.rows, id), s'.openId == Some(id))
  {
    hide FinalizeMatch, OpenMatch, UpdateRunning;
    var c := Count(s, h[n].snap);
    if ActiveId(h[n].snap).Some? {
      if h[n].commits {
        hide Tick;
        PlayedRow(h, n, id, s);
        PlayedTick(s, h[n].snap, h[n].clock);
      }
    } else if s.openId.Some? {
      FinalizeShuts(s.rows, s.openId.value, s.lastSnap, c.endSnap, Confirmed, h[n].clock, id);
    }
  }

  lemma {:induction false} PlayedTick(s: Store, snap: Snap, clock: int)
    requires ActiveId(snap).Some?
    ensures Tick(s, snap, true, clock) == Played(Count(s, snap), ActiveId(snap).value, snap, clock)
  {
  }

  lemma {:induction false} PlayedRow(h: seq<Event>, n: nat, id: string, s: Store)
    requires n < |h| && RowsOk(s) && LastKnown(s) && h[n].Observe? && h[n].commits && ActiveId(h[n].snap).Some?
    ensures var s' := Played(Count(s, h[n].snap), ActiveId(h[n].snap).value, h[n].snap, h[n].clock);
            Becomes(h, n, id, s, Find(s'.rows, id), s'.openId == Some(id))
  {
    hide FinalizeMatch, OpenMatch, UpdateRunning, Shut, Ticked;
    var snap, pid := h[n].snap, ActiveId(h[n].snap).value;
    if s.openId.Some? && s.openId.value != pid {
      FinalizeShuts(s.rows, s.openId.value, s.lastSnap, None, Unconfirmed, h[n].clock, id);
      FinalizeShuts(s.rows, s.openId.value, s.lastSnap, None, Unconfirmed, h[n].clock, pid);
      var closed := FinalizeMatch(s.rows, s.openId.value, s.lastSnap, None, Unconfirmed, h[n].clock);
      ShutIsClosed(Find(s.rows, s.openId.value), Find(closed, s.openId.value));
      PlayTicks(closed, pid, snap, id);
    } else {
      PlayTicks(s.rows, pid, snap, id);
    }
  }

  lemma {:induction false} ShutIsClosed(was: Option<Row>, now: Option<Row>)
    requires Shut(was, now)
    ensures now.Some? && !now.value.open
  {
  }

  lemma {:induction false} RestartRow(h: seq<Event>, n: nat, id: string, s: Store)
    requires n < |h| && RowsOk(s) && LastKnown(s) && h[n].Restart?
    ensures Becomes(h, n, id, s, Find(After(s, h[n]).rows, id), After(s, h[n]).openId == Some(id))
  {
    hide FinalizeMatch, SweepAll;
    var s1 := if h[n].graceful then Shutdown(s, h[n].commits, h[n].clock) else s;
    SweepShuts(s1.rows, id);
    if s.openId.Some? {
      FinalizeShuts(s.rows, s.openId.value, s.lastSnap, None, Unconfirmed, h[n].clock, id);
    }
  }

  /** The row, read off the history. */
  ghost predicate RowIs(h: seq<Event>, n: nat, id: string, r: Option<Row>)
    requires n <= |h|
  {
    match r
    case None => Times(h, n, id) == 0
    case Some(row) =>
      && row.tickCount == Times(h, n, id) > 0
      && row.startedAt == FirstTime(h, n, id) && row.endedAt == LastTime(h, n, id)
      && (row.open <==> OpenAt(h, n) == Some(id))
      && (!row.open ==> row.duration == Span(row.startedAt, row.endedAt))
  }

  /** Every match that was ever played in a committed tick has one row, and no other has: it starts with the
      first of its ticks, ends with the last and counts them all, over restarts, supersessions and
      re-openings; it is open exactly while its match is; and once closed its duration is the time between
      its ends, never negative. */
  lemma {:induction false} RowsAreTheHistory(h: seq<Event>, n: nat, id: string)
    requires n <= |h|
    ensures RowIs(h, n, id, Find(Run(h, n).rows, id))
  {
    hide Run, RowIs, RowsOk, OpenIs, LastKnown, Becomes, Inv, After;
    if n == 0 {
      NoRowYet(h, id);
    } else {
      RowsAreTheHistory(h, n - 1, id);
      RunInv(h, n - 1);
      RunInv(h, n);
      InvRows(h, n - 1, Run(h, n - 1));
      InvRows(h, n, Run(h, n));
      OpenAlways(h, n - 1);
      OpenAlways(h, n);
      if Run(h, n - 1).openId.Some? {
        RowsAreTheHistory(h, n - 1, Run(h, n - 1).openId.value);
      }
      LastIsKnown(h, n - 1, Run(h, n - 1));
      RunStep(h, n - 1, n);
      RowStep(h, n - 1, id, Run(h, n - 1));
      RowFollows(h, n - 1, n, id, Run(h, n - 1), Run(h, n));
    }
  }

  lemma {:induction false} NoRowYet(h: seq<Event>, id: string)
    ensures RowIs(h, 0, id, Find(Run(h, 0).rows, id))
  {
  }

  lemma {:induction false} InvRows(h: seq<Event>, n: nat, s: Store)
    requires n <= |h| && Inv(h, n, s)
    ensures RowsOk(s)
  {
  }

  lemma {:induction false} LastIsKnown(h: seq<Event>, n: nat, s: Store)
    requires n <= |h| && RowsOk(s) && OpenIs(h, n, s)
    requires s.openId.Some? ==> RowIs(h, n, s.openId.value, Find(s.rows, s.openId.value))
    ensures LastKnown(s)
  {
  }

  lemma {:induction false} RowFollows(h: seq<Event>, n: nat, m: nat, id: string, s: Store, s': Store)
    requires m == n + 1 <= |h| && RowIs(h, n, id, Find(s.rows, id))
    requires RowsOk(s) && RowsOk(s') && OpenIs(h, n, s) && OpenIs(h, m, s')
    requires Becomes(h, n, id, s, Find(s'.rows, id), s'.openId == Some(id))
    ensures RowIs(h, m, id, Find(s'.rows, id))
  {
  }

  /* ----- the ticket counts ----- */

  predicate HasTickets(s: Snap) {
    s.tickets1.Some? && s.tickets2.Some?
  }

  datatype Tickets = Tickets(first: Option<int>, second: Option<int>)

  function Or(a: Option<int>, b: Option<int>): Option<int> {
    match a case Some(_) => a case None => b
  }

  function Over(s: Snap, before: Tickets): Tickets {
    Tickets(Or(s.tickets1, before.first), Or(s.tickets2, before.second))
  }

  /** The last counts that could be read in committed ticks of the match; where its end is proved by a frame
      that has both, those of that frame. */
  ghost function Shown(h: seq<Event>, n: nat, id: string): Tickets
    requires n <= |h|
  {
    if n == 0 then Tickets(None, None)
    else
      var before := Shown(h, n - 1, id);
      if Plays(h, n - 1, id) then Over(h[n - 1].snap, before)
      else if Evidence(h, n - 1) && h[n - 1].commits && OpenAt(h, n - 1) == Some(id)
              && HasTickets(FirstInactive(h, n - 1))
      then Over(FirstInactive(h, n - 1), before)
      else before
  }

  function Of(r: Row): Tickets {
    Tickets(r.tickets1, r.tickets2)
  }

  predicate ShownIn(r: Option<Row>, t: Tickets) {
    match r case Some(row) => Of(row) == t case None => t == Tickets(None, None)
  }

  /** The row of the open match already shows what its last frame had. */
  predicate LastShown(s: Store) {
    s.openId.Some? && s.openId.value in s.rows && s.lastSnap.Some? ==>
      Over(s.lastSnap.value, Of(s.rows[s.openId.value])) == Of(s.rows[s.openId.value])
  }

  lemma {:induction false} FinalizeShows(rows: Table, id: string, last: Option<Snap>, terminal: Option<Snap>,
          end: EndState, clock: int, other: string)
    requires id in rows && last.Some? && Over(last.value, Of(rows[id])) == Of(rows[id])
    ensures var out := FinalizeMatch(rows, id, last, terminal, end, clock);
            && id in out
            && Of(out[id]) == (if terminal.Some? && HasTickets(terminal.value) then Over(terminal.value, Of(rows[id]))
                               else Of(rows[id]))
            && (other != id ==> Find(out, other) == Find(rows, other))
  {
  }

  lemma {:induction false} PlayShows(rows: Table, id: string, snap: Snap)
    ensures var out := UpdateRunning(OpenMatch(rows, id, snap.now), id, snap);
            id in out && Of(out[id]) == Over(snap, if id in rows then Of(rows[id]) else Tickets(None, None))
    ensures id in rows ==>
              var out := UpdateRunning(rows, id, snap);
              id in out && Of(out[id]) == Over(snap, Of(rows[id]))
  {
  }

  lemma {:induction false} SweepShows(rows: Table, id: string)
    ensures id in SweepAll(rows, None) <==> id in rows
    ensures id in rows ==> Of(SweepAll(rows, None)[id]) == Of(rows[id])
  {
  }

  /** What one event does to the counts of a match. */
  ghost predicate Shows(h: seq<Event>, n: nat, id: string, was: Option<Row>, now: Option<Row>, open: bool)
    requires n < |h|
  {
    var before := if was.Some? then Of(was.value) else Tickets(None, None);
    ShownIn(now,
            if Plays(h, n, id) then Over(h[n].snap, before)
            else if Evidence(h, n) && h[n].commits && open && HasTickets(FirstInactive(h, n))
            then Over(FirstInactive(h, n), before)
            else before)
  }

  lemma {:induction false} ShowStep(h: seq<Event>, n: nat, id: string, s: Store)
    requires n < |h| && s == Run(h, n) && Inv(h, n, s) && LastKnown(s) && LastShown(s)
    ensures Shows(h, n, id, Find(s.rows, id), Find(After(s, h[n]).rows, id), s.openId == Some(id))
  {
    hide Shows, LastKnown, LastShown, Tick, Shutdown, Startup, Run, Inv;
    InvRows(h, n, s);
    match h[n]
    case Observe(snap, commits, clock) =>
      if ActiveId(snap).Some? {
        PlayedShows(h, n, id, s);
      } else {
        IdleShows(h, n, id, s);
      }
    case Restart(graceful, commits, clock) => RestartShows(h, n, id, s);
  }

  lemma {:induction false} RestartShows(h: seq<Event>, n: nat, id: string, s: Store)
    requires n < |h| && RowsOk(s) && LastKnown(s) && LastShown(s) && h[n].Restart?
    ensures Shows(h, n, id, Find(s.rows, id), Find(After(s, h[n]).rows, id), s.openId == Some(id))
  {
    hide FinalizeMatch, SweepAll;
    var s1 := if h[n].graceful then Shutdown(s, h[n].commits, h[n].clock) else s;
    SweepShows(s1.rows, id);
    if s.openId.Some? {
      FinalizeShows(s.rows, s.openId.value, s.lastSnap, None, Unconfirmed, h[n].clock, id);
    }
  }

  lemma {:induction false} PlayedShows(h: seq<Event>, n: nat, id: string, s: Store)
    requires n < |h| && RowsOk(s) && LastKnown(s) && LastShown(s) && h[n].Observe? && ActiveId(h[n].snap).Some?
    ensures var s' := Tick(s, h[n].snap, h[n].commits, h[n].clock);
            Shows(h, n, id, Find(s.rows, id), Find(s'.rows, id), s.openId == Some(id))
  {
    var snap, pid, clock := h[n].snap, ActiveId(h[n].snap).value, h[n].clock;
    var c := Count(s, snap);
    assert !InactiveAt(h, n);
    NoEvidence(h, n);
    if h[n].commits {
      PlayedTick(s, snap, clock);
      hide Tick, FinalizeMatch, OpenMatch, UpdateRunning, Evidence;
      if s.openId.Some? && s.openId.value != pid {
        FinalizeShows(s.rows, s.openId.value, s.lastSnap, None, Unconfirmed, clock, id);
        FinalizeShows(s.rows, s.openId.value, s.lastSnap, None, Unconfirmed, clock, pid);
        FinalizeShuts(s.rows, s.openId.value, s.lastSnap, None, Unconfirmed, clock, id);
        var closed := FinalizeMatch(s.rows, s.openId.value, s.lastSnap, None, Unconfirmed, clock);
        PlayShows(closed, pid, snap);
        PlayTicks(closed, pid, snap, id);
        FinalizeFacts(s.rows, s.openId.value, s.lastSnap, None, Unconfirmed, clock);
      } else {
        PlayShows(s.rows, pid, snap);
        PlayTicks(s.rows, pid, snap, id);
      }
    }
  }

  lemma {:induction false} IdleShows(h: seq<Event>, n: nat, id: string, s: Store)
    requires n < |h| && s == Run(h, n) && Inv(h, n, s) && LastKnown(s) && LastShown(s)
    requires h[n].Observe? && ActiveId(h[n].snap).None?
    ensures var s' := Tick(s, h[n].snap, h[n].commits, h[n].clock);
            Shows(h, n, id, Find(s.rows, id), Find(s'.rows, id), s.openId == Some(id))
  {
    hide Run, FinalizeMatch, Evidence, FirstInactive;
    var c := Count(s, h[n].snap);
    if InactiveAt(h, n) {
      EndsOnEvidence(h, n, s);
      if s.openId.Some? {
        TerminalFrame(h, n);
        FinalizeShows(s.rows, s.openId.value, s.lastSnap, c.endSnap, Confirmed, h[n].clock, id);
      }
    } else {
      NoEvidence(h, n);
    }
  }

  lemma {:induction false} LastAlwaysKnown(h: seq<Event>, n: nat)
    requires n <= |h|
    ensures LastKnown(Run(h, n))
  {
    hide Run, Inv, OpenIs, LastKnown, RowIs;
    RunInv(h, n);
    InvRows(h, n, Run(h, n));
    OpenAlways(h, n);
    if Run(h, n).openId.Some? {
      RowsAreTheHistory(h, n, Run(h, n).openId.value);
    }
    LastIsKnown(h, n, Run(h, n));
  }

  lemma {:induction false} LastAlwaysShown(h: seq<Event>, n: nat)
    requires n <= |h|
    ensures LastShown(Run(h, n))
  {
    hide Run, Inv, OpenIs, LastKnown, LastShown, Shows, RowsOk, After;
    if n == 0 {
      NothingAtFirst(h);
    } else {
      var s, s' := Run(h, n - 1), Run(h, n);
      LastAlwaysShown(h, n - 1);
      RunInv(h, n - 1);
      RunInv(h, n);
      InvRows(h, n - 1, s);
      InvRows(h, n, s');
      OpenAlways(h, n - 1);
      OpenAlways(h, n);
      LastAlwaysKnown(h, n - 1);
      RunStep(h, n - 1, n);
      if s'.openId.Some? {
        ShowStep(h, n - 1, s'.openId.value, s);
        StillShown(h, n - 1, n, s, s');
      } else {
        NothingToShow(s');
      }
    }
  }

  lemma {:induction false} NothingAtFirst(h: seq<Event>)
    ensures Run(h, 0).rows == map[] && LastShown(Run(h, 0))
  {
  }

  /** A row shows exactly these counts. */
  lemma {:induction false} TicketsAreTheHistory(h: seq<Event>, n: nat, id: string)
    requires n <= |h|
    ensures ShownIn(Find(Run(h, n).rows, id), Shown(h, n, id))
  {
    hide Run, Inv, OpenIs, LastKnown, LastShown, Evidence, FirstInactive, Shows, After;
    if n == 0 {
      NothingAtFirst(h);
    } else {
      hide Shown;
      TicketsAreTheHistory(h, n - 1, id);
      RunInv(h, n - 1);
      LastAlwaysKnown(h, n - 1);
      LastAlwaysShown(h, n - 1);
      OpenAlways(h, n - 1);
      RunStep(h, n - 1, n);
      ShowStep(h, n - 1, id, Run(h, n - 1));
      ShownMore(h, n - 1, n, id, Run(h, n - 1), Find(Run(h, n).rows, id));
    }
  }

  lemma {:induction false} ShownMore(h: seq<Event>, n: nat, m: nat, id: string, s: Store, now: Option<Row>)
    requires m == n + 1 <= |h| && OpenIs(h, n, s)
    requires ShownIn(Find(s.rows, id), Shown(h, n, id))
    requires Shows(h, n, id, Find(s.rows, id), now, s.openId == Some(id))
    ensures ShownIn(now, Shown(h, m, id))
  {
    hide Evidence, FirstInactive, Plays;
  }

  lemma {:induction false} NothingToShow(s: Store)
    requires s.openId.None?
    ensures LastShown(s)
  {
  }

  lemma {:induction false} StillShown(h: seq<Event>, n: nat, m: nat, s: Store, s': Store)
    requires m == n + 1 <= |h| && s'.openId.Some? && LastShown(s) && RowsOk(s) && RowsOk(s')
    requires OpenIs(h, n, s) && OpenIs(h, m, s')
    requires var id := s'.openId.value; Shows(h, n, id, Find(s.rows, id), Find(s'.rows, id), s.openId == Some(id))
    ensures LastShown(s')
  {
  }

  /* ----- who won ----- */

  /** The side with more tickets in this frame has won, neither if they are equal; a closed row has its
      counts. */
  predicate DecidedBy(s: Snap, r: Row)
    requires HasTickets(s)
  {
    && (r.winner == Some(1) <==> s.tickets1.value > s.tickets2.value)
    && (r.winner == Some(2) <==> s.tickets1.value < s.tickets2.value)
    && (r.winner == Some(0) <==> s.tickets1.value == s.tickets2.value)
    && (!r.open ==> r.tickets1 == s.tickets1 && r.tickets2 == s.tickets2)
  }

  /** This committed tick ended the match, and the row says who won then: by the first frame of the evidence,
      else by the last active one, else nobody. */
  ghost predicate WonAt(h: seq<Event>, k: nat, id: string, r: Row)
    requires k < |h|
  {
    && Evidence(h, k) && h[k].commits && OpenAt(h, k) == Some(id) && LastActive(h, k).Some?
    && var first, last := FirstInactive(h, k), LastActive(h, k).value;
    if HasTickets(first) then DecidedBy(first, r)
    else if HasTickets(last) then DecidedBy(last, r)
    else r.winner.None?
  }

  /** A finalized row says who won by the tickets, and no other row names a winner. */
  lemma {:induction false} WinnerHasTheTickets(h: seq<Event>, n: nat, id: string)
    requires n <= |h| && id in Run(h, n).rows
    ensures var r := Run(h, n).rows[id];
            if r.endState == Some(Confirmed) then exists k :: 0 <= k < n && WonAt(h, k, id, r) else r.winner.None?
  {
    hide Run, RowsOk, StampedAt, WonAt, Counting;
    RunInv(h, n);
    var r := Run(h, n).rows[id];
    StampOf(h, n, id, r);
    if r.endState == Some(Confirmed) {
      var k :| 0 <= k < n && StampedAt(h, k, id, r);
      RunInv(h, k);
      OpenAlways(h, k);
      StampSays(h, k, id, r);
    }
  }

  lemma {:induction false} StampOf(h: seq<Event>, n: nat, id: string, r: Row)
    requires n <= |h| && Inv(h, n, Run(h, n)) && id in Run(h, n).rows && r == Run(h, n).rows[id]
    ensures if r.endState == Some(Confirmed) then exists k :: 0 <= k < n && StampedAt(h, k, id, r) else r.winner.None?
  {
    hide Run, StampedAt, Counting;
  }

  lemma {:induction false} StampSays(h: seq<Event>, k: nat, id: string, r: Row)
    requires k < |h| && Inv(h, k, Run(h, k)) && OpenIs(h, k, Run(h, k)) && StampedAt(h, k, id, r)
    ensures WonAt(h, k, id, r)
  {
    hide Run, RowsOk, FirstInactive, Stamped, Counting;
    StampTerminal(h, k, id, r);
  }

  lemma {:induction false} StampTerminal(h: seq<Event>, k: nat, id: string, r: Row)
    requires k < |h| && Inv(h, k, Run(h, k)) && StampedAt(h, k, id, r)
    ensures InactiveAt(h, k) && Count(Run(h, k), h[k].snap).endSnap == Some(FirstInactive(h, k))
  {
    hide Run, FirstInactive;
    TerminalFrame(h, k);
  }
}
