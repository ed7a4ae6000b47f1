/** The match lifecycle of the stats store: which row is open, and what its end may publish. */
module Stats {
  import opened Options
  import opened Lifecycle

  /** What the lifecycle reads of a snapshot; `rawId` is a matchId as found. */
  datatype Snap = Snap(state: MatchState, rawId: Option<string>, tickets1: Option<int>, tickets2: Option<int>, now: int)

  datatype EndState = Confirmed | Unconfirmed

  /** A row of the matches table. */
  datatype Row = Row(open: bool, winner: Option<int>, endState: Option<EndState>, startedAt: int, endedAt: int,
                     duration: int, tickCount: nat, tickets1: Option<int>, tickets2: Option<int>)

  type Table = map<string, Row>

  datatype Store = Store(rows: Table, openId: Option<string>, lastSnap: Option<Snap>, inactive: nat,
                         endSnap: Option<Snap>, fired: seq<string>)

  function ActiveId(s: Snap): Option<string> {
    if s.state.InProgress? && s.rawId != Some("") then s.rawId else None
  }

  function Coalesce<T>(a: Option<T>, b: Option<T>): Option<T> {
    if a.Some? then a else b
  }

  function NonNegative(x: int): int {
    if x < 0 then 0 else x
  }

  /** Closing a row whose end was never observed. */
  function Swept(r: Row): Row {
    r.(open := false, winner := None, endState := Some(Unconfirmed), duration := NonNegative(r.endedAt - r.startedAt))
  }

  function SweepAll(rows: Table, keep: Option<string>): Table {
    map id | id in rows :: if rows[id].open && Some(id) != keep then Swept(rows[id]) else rows[id]
  }

  function OpenMatch(rows: Table, id: string, now: int): Table {
    var others := SweepAll(rows, Some(id));
    others[id := if id in rows then rows[id].(open := true)
                 else Row(true, None, None, now, now, 0, 0, None, None)]
  }

  function UpdateRunning(rows: Table, id: string, s: Snap): Table {
    if id !in rows then rows
    else
      var r := rows[id];
      rows[id := r.(endedAt := s.now, tickCount := r.tickCount + 1,
                    tickets1 := Coalesce(s.tickets1, r.tickets1), tickets2 := Coalesce(s.tickets2, r.tickets2))]
  }

  /** The frame whose tickets decide: the first one that carried the terminal state, or, if its
      tickets could not be read, the last active one. */
  function DecidingFrame(terminal: Option<Snap>, last: Option<Snap>): Option<Snap> {
    if terminal.Some? && terminal.value.tickets1.Some? && terminal.value.tickets2.Some? then terminal else last
  }

  function WinnerOf(frame: Option<Snap>): Option<int> {
    if frame.None? || frame.value.tickets1.None? || frame.value.tickets2.None? then None
    else
      var a, b := frame.value.tickets1.value, frame.value.tickets2.value;
      Some(if a > b then 1 else if b > a then 2 else 0)
  }

  function FinalizeMatch(rows: Table, id: string, last: Option<Snap>, terminal: Option<Snap>, end: EndState,
          clock: int): Table {
    if id !in rows then rows
    else
      var r := rows[id];
      var frame := DecidingFrame(terminal, last);
      var now := if last.Some? then last.value.now else clock;
      rows[id := r.(open := false, endedAt := now, duration := NonNegative(now - r.startedAt),
                    winner := if end.Confirmed? then WinnerOf(frame) else None, endState := Some(end),
                    tickets1 := Coalesce(if frame.Some? then frame.value.tickets1 else None, r.tickets1),
                    tickets2 := Coalesce(if frame.Some? then frame.value.tickets2 else None, r.tickets2))]
  }

  /** The confirmation counters, moved before any row is touched and never rolled back. */
  function Count(s: Store, snap: Snap): Store {
    if ActiveId(snap).Some? then s.(inactive := 0, endSnap := None)
    else if KnownInactive(snap.state) then
      s.(inactive := s.inactive + 1, endSnap := if s.endSnap.None? then Some(snap) else s.endSnap)
    else s.(inactive := 0, endSnap := None)
  }

  /** What a confirmed end writes. */
  function Ended(s: Store, clock: int): Store {
    var rows := if s.openId.Some?
        then FinalizeMatch(s.rows, s.openId.value, s.lastSnap, s.endSnap, Confirmed, clock) else s.rows;
    Store(rows, None, None, 0, None, s.fired + if s.openId.Some? then [s.openId.value] else [])
  }

  /** What a tick of an active match writes. */
  function Played(s: Store, id: string, snap: Snap, clock: int): Store {
    var superseded := s.openId.Some? && s.openId.value != id;
    var closed := if superseded then FinalizeMatch(s.rows, s.openId.value, s.lastSnap, None, Unconfirmed, clock)
        else s.rows;
    var ready := if s.openId == Some(id) then closed else OpenMatch(closed, id, snap.now);
    s.(rows := UpdateRunning(ready, id, snap), openId := Some(id), lastSnap := Some(snap),
       fired := s.fired + if superseded then [s.openId.value] else [])
  }

  /** One snapshot. `commits` says whether the transaction, if the tick opens one, goes through. */
  function Tick(s: Store, snap: Snap, commits: bool, clock: int): Store {
    var c := Count(s, snap);
    if ActiveId(snap).Some? then if commits then Played(c, ActiveId(snap).value, snap, clock) else c
    else if KnownInactive(snap.state) && c.inactive >= CONFIRM_TICKS then if commits then Ended(c, clock) else c
    else c
  }

  /** Shutdown between matches: whatever is open is closed as unverified. */
  function Shutdown(s: Store, commits: bool, clock: int): Store {
    if s.openId.None? || !commits then s
    else s.(rows := FinalizeMatch(s.rows, s.openId.value, s.lastSnap, None, Unconfirmed, clock), openId := None,
            lastSnap := None, fired := s.fired + [s.openId.value])
  }

  /** A new process sweeps what a hard kill left open. */
  function Startup(rows: Table): Store {
    Store(SweepAll(rows, None), None, None, 0, None, [])
  }

  class StatsStore {
    var rows: Table
    var openMatchId: Option<string>
    var lastSnap: Option<Snap>
    var inactiveTicks: nat
    var endSnap: Option<Snap>
    var fired: seq<string>

    ghost function View(): Store
      reads this
    {
      Store(rows, openMatchId, lastSnap, inactiveTicks, endSnap, fired)
    }

    constructor (rows: Table)
      ensures View() == Startup(rows)
    {
      this.rows := SweepAll(rows, None);
      openMatchId, lastSnap, inactiveTicks, endSnap, fired := None, None, 0, None, [];
    }

    method RecordTick(snap: Snap, commits: bool, clock: int)
      modifies this
      ensures View() == Tick(old(View()), snap, commits, clock)
    {
      var matchId := ActiveId(snap);
      if matchId.Some? {
        inactiveTicks, endSnap := 0, None;
      } else if KnownInactive(snap.state) {
        inactiveTicks := inactiveTicks + 1;
        if endSnap.None? {
          endSnap := Some(snap);
        }
      } else {
        inactiveTicks, endSnap := 0, None;
        return;
      }
      if matchId.None? && inactiveTicks < CONFIRM_TICKS {
        return;
      }
      // the transaction works on copies; the fields move only after it commits
      var openId, work, finalized := openMatchId, rows, [];
      if matchId.None? {
        if openId.Some? {
          work := FinalizeMatch(work, openId.value, lastSnap, endSnap, Confirmed, clock);
          finalized := finalized + [openId.value];
        }
      } else {
        if openId.Some? && openId != matchId {
          work := FinalizeMatch(work, openId.value, lastSnap, None, Unconfirmed, clock);
          finalized := finalized + [openId.value];
          openId := None;
        }
        if openId.None? {
          work := OpenMatch(work, matchId.value, snap.now);
        }
        work := UpdateRunning(work, matchId.value, snap);
      }
      if !commits {
        return;
      }
      rows, openMatchId := work, matchId;
      if matchId.Some? {
        lastSnap := Some(snap);
      } else {
        lastSnap, inactiveTicks, endSnap := None, 0, None;
      }
      fired := fired + finalized;
    }

    method FinalizeOpenMatch(commits: bool, clock: int)
      modifies this
      ensures View() == Shutdown(old(View()), commits, clock)
    {
      if openMatchId.None? {
        return;
      }
      var work := FinalizeMatch(rows, openMatchId.value, lastSnap, None, Unconfirmed, clock);
      if !commits {
        return;
      }
      fired := fired + [openMatchId.value];
      rows, openMatchId, lastSnap := work, None, None;
    }
  }

  /* ----- whole runs ----- */

  /** A tick, or the end of the process and the start of the next: a graceful one first closes what is
      open, if that transaction commits, a kill does not. The hook calls are remembered across it. */
  datatype Event =
    | Observe(snap: Snap, commits: bool, clock: int)
    | Restart(graceful: bool, commits: bool, clock: int)

  function After(s: Store, e: Event): Store {
    match e
    case Observe(snap, commits, clock) => Tick(s, snap, commits, clock)
    case Restart(graceful, commits, clock) =>
      var s1 := if graceful then Shutdown(s, commits, clock) else s;
      Startup(s1.rows).(fired := s1.fired)
  }

  function Run(h: seq<Event>, n: nat): Store
    requires n <= |h|
  {
    if n == 0 then Startup(map[]) else After(Run(h, n - 1), h[n - 1])
  }

  predicate InactiveAt(h: seq<Event>, i: nat)
    requires i < |h|
  {
    h[i].Observe? && ActiveId(h[i].snap).None? && KnownInactive(h[i].snap.state)
  }

  /** Three ticks in a row, ending at k, in a state known to mean "not playing". */
  predicate Evidence(h: seq<Event>, k: nat)
    requires k < |h|
  {
    2 <= k && InactiveAt(h, k - 2) && InactiveAt(h, k - 1) && InactiveAt(h, k)
  }

  /** A finalized stamp, and any winner, was written by a committed tick that completed such evidence
      while this match was open. */
  ghost predicate Stamped(h: seq<Event>, n: nat, id: string, r: Row)
    requires n <= |h|
  {
    exists k :: 0 <= k < n && StampedAt(h, k, id, r)
  }

  ghost predicate StampedAt(h: seq<Event>, k: nat, id: string, r: Row)
    requires k < |h|
  {
    && Evidence(h, k) && h[k].commits && Run(h, k).openId == Some(id)
    && r.winner == WinnerOf(DecidingFrame(Count(Run(h, k), h[k].snap).endSnap, Run(h, k).lastSnap))
    && (!r.open ==> TakenFrom(r, DecidingFrame(Count(Run(h, k), h[k].snap).endSnap, Run(h, k).lastSnap)))
  }

  /** The row has the ticket counts of the frame, if that has both. */
  predicate TakenFrom(r: Row, frame: Option<Snap>) {
    frame.Some? && frame.value.tickets1.Some? && frame.value.tickets2.Some? ==>
      r.tickets1 == frame.value.tickets1 && r.tickets2 == frame.value.tickets2
  }

  lemma {:induction false} StampedLater(h: seq<Event>, n: nat, id: string, r: Row, r': Row)
    requires n < |h| && Stamped(h, n, id, r) && r'.winner == r.winner && (r'.open || r' == r)
    ensures Stamped(h, n + 1, id, r')
  {
    var k :| 0 <= k < n && StampedAt(h, k, id, r);
    assert StampedAt(h, k, id, r');
  }

  /** Every row keeps its stamp, or is closed as unverified, or is the one closed on evidence. */
  ghost predicate RowsFollow(h: seq<Event>, n: nat, rows: Table, rows': Table)
    requires n < |h|
  {
    forall id :: id in rows' && rows'[id].endState == Some(Confirmed) ==>
      || (id in rows && rows[id].endState == Some(Confirmed) && rows'[id].winner == rows[id].winner
          && (rows'[id].open || rows'[id] == rows[id]))
      || StampedAt(h, n, id, rows'[id])
  }

  lemma {:induction false} StampsKept(h: seq<Event>, n: nat, rows: Table, rows': Table)
    requires n < |h| && RowsFollow(h, n, rows, rows')
    requires forall id :: id in rows && rows[id].endState == Some(Confirmed) ==> Stamped(h, n, id, rows[id])
    ensures forall id :: id in rows' && rows'[id].endState == Some(Confirmed) ==> Stamped(h, n + 1, id, rows'[id])
  {
    forall id | id in rows' && rows'[id].endState == Some(Confirmed)
      ensures Stamped(h, n + 1, id, rows'[id])
    {
      if !StampedAt(h, n, id, rows'[id]) {
        StampedLater(h, n, id, rows[id], rows'[id]);
      }
    }
  }

  /** While a match is open, the confirmation counter is exactly the unbroken run of known-inactive
      ticks, and the kept frame is its first. */
  ghost predicate Counting(h: seq<Event>, n: nat, s: Store)
    requires n <= |h|
  {
    s.openId.Some? ==>
      && s.inactive <= n
      && (forall i {:trigger InactiveAt(h, i)} :: n - s.inactive <= i < n ==> InactiveAt(h, i))
      && (s.inactive < n ==> !InactiveAt(h, n - s.inactive - 1))
      && (s.inactive == 0 ==> s.endSnap.None?)
      && (s.inactive > 0 ==> InactiveAt(h, n - s.inactive) && s.endSnap == Some(h[n - s.inactive].snap))
  }

  ghost predicate RowsOk(s: Store) {
    && (forall id :: id in s.rows ==> (s.rows[id].open <==> s.openId == Some(id)))
    && (s.openId.Some? ==> s.openId.value in s.rows && s.lastSnap.Some?)
    && (forall id :: id in s.rows && s.rows[id].winner.Some? ==> s.rows[id].endState == Some(Confirmed))
  }

  ghost predicate Inv(h: seq<Event>, n: nat, s: Store)
    requires n <= |h|
  {
    && RowsOk(s) && Counting(h, n, s)
    && (forall id :: id in s.rows && s.rows[id].endState == Some(Confirmed) ==> Stamped(h, n, id, s.rows[id]))
  }

  /** Closing row `id`, open or not, leaves the others as they were. */
  lemma {:induction false} FinalizeFacts(rows: Table, id: string, last: Option<Snap>, terminal: Option<Snap>,
          end: EndState, clock: int)
    ensures var out := FinalizeMatch(rows, id, last, terminal, end, clock);
            && out.Keys == rows.Keys
            && (forall k :: k in rows && k != id ==> out[k] == rows[k])
            && (id in rows ==> !out[id].open && out[id].startedAt == rows[id].startedAt && out[id].endState == Some(end)
                               && (out[id].winner.Some? ==> end.Confirmed?)
                               && TakenFrom(out[id], DecidingFrame(terminal, last)))
  {
  }

  /** Opening row `id` leaves the others closed, and their stamps and starts as they were. */
  lemma {:induction false} OpenFacts(rows: Table, id: string, s: Snap)
    requires forall k :: k in rows ==> !rows[k].open
    ensures var out := UpdateRunning(OpenMatch(rows, id, s.now), id, s);
            && out.Keys == rows.Keys + {id}
            && (forall k :: k in rows && k != id ==> out[k] == rows[k])
            && out[id].open
            && (if id in rows then out[id].startedAt == rows[id].startedAt && out[id].winner == rows[id].winner
                                   && out[id].endState == rows[id].endState
                else out[id].winner.None? && out[id].endState.None?)
  {
  }

  lemma {:induction false} SweepFacts(rows: Table)
    ensures var out := SweepAll(rows, None);
            && out.Keys == rows.Keys
            && (forall k :: k in rows ==>
                  && !out[k].open && out[k].startedAt == rows[k].startedAt
                  && (out[k] == rows[k] || (out[k].winner.None? && out[k].endState == Some(Unconfirmed))))
  {
  }

  lemma {:induction false} UpdateFacts(rows: Table, id: string, s: Snap)
    requires id in rows
    ensures var out := UpdateRunning(rows, id, s);
            && out.Keys == rows.Keys
            && (forall k :: k in rows && k != id ==> out[k] == rows[k])
            && out[id].open == rows[id].open && out[id].startedAt == rows[id].startedAt
            && out[id].winner == rows[id].winner && out[id].endState == rows[id].endState
  {
  }

  lemma {:induction false} PlayedOk(s: Store, id: string, snap: Snap, clock: int)
    requires RowsOk(s)
    ensures RowsOk(Played(s, id, snap, clock))
  {
    hide FinalizeMatch, OpenMatch, UpdateRunning;
    if s.openId == Some(id) {
      UpdateFacts(s.rows, id, snap);
    } else if s.openId.Some? {
      FinalizeFacts(s.rows, s.openId.value, s.lastSnap, None, Unconfirmed, clock);
      OpenFacts(FinalizeMatch(s.rows, s.openId.value, s.lastSnap, None, Unconfirmed, clock), id, snap);
    } else {
      OpenFacts(s.rows, id, snap);
    }
  }

  lemma {:induction false} EndedOk(s: Store, clock: int)
    requires RowsOk(s)
    ensures RowsOk(Ended(s, clock))
  {
    hide FinalizeMatch;
    if s.openId.Some? {
      FinalizeFacts(s.rows, s.openId.value, s.lastSnap, s.endSnap, Confirmed, clock);
    }
  }

  lemma {:induction false} RestartOk(s: Store, graceful: bool, commits: bool, clock: int)
    requires RowsOk(s)
    ensures RowsOk(After(s, Restart(graceful, commits, clock)))
  {
    hide FinalizeMatch, SweepAll;
    if s.openId.Some? {
      FinalizeFacts(s.rows, s.openId.value, s.lastSnap, None, Unconfirmed, clock);
    }
    SweepFacts((if graceful then Shutdown(s, commits, clock) else s).rows);
  }

  lemma {:induction false} RowsStayOk(s: Store, e: Event)
    requires RowsOk(s)
    ensures RowsOk(After(s, e))
  {
    match e
    case Observe(snap, commits, clock) =>
      var c := Count(s, snap);
      assert RowsOk(c);
      hide RowsOk, Played, Ended;
      if ActiveId(snap).Some? {
        PlayedOk(c, ActiveId(snap).value, snap, clock);
      } else {
        EndedOk(c, clock);
      }
    case Restart(graceful, commits, clock) =>
      hide RowsOk;
      RestartOk(s, graceful, commits, clock);
  }

  lemma {:induction false} CountingKept(h: seq<Event>, n: nat, s: Store)
    requires n < |h| && Counting(h, n, s)
    ensures Counting(h, n + 1, After(s, h[n]))
  {
    hide FinalizeMatch, OpenMatch, UpdateRunning, SweepAll;
  }

  lemma {:induction false} EndsOnEvidence(h: seq<Event>, n: nat, s: Store)
    requires n < |h| && Counting(h, n, s) && h[n].Observe? && InactiveAt(h, n)
    ensures s.openId.Some? && Count(s, h[n].snap).inactive >= CONFIRM_TICKS ==> Evidence(h, n)
    ensures s.openId.Some? && Evidence(h, n) ==> Count(s, h[n].snap).inactive >= CONFIRM_TICKS
  {
    if s.openId.Some? && s.inactive >= 2 {
      assert InactiveAt(h, n - 1) && InactiveAt(h, n - 2);
    }
  }

  lemma {:induction false} RowsDoFollow(h: seq<Event>, n: nat, s: Store)
    requires n < |h| && s == Run(h, n) && RowsOk(s) && Counting(h, n, s)
    ensures RowsFollow(h, n, s.rows, After(s, h[n]).rows)
  {
    match h[n]
    case Observe(snap, commits, clock) =>
      if ActiveId(snap).Some? {
        PlayedFollows(h, n, Count(s, snap), ActiveId(snap).value, snap, clock);
      } else if KnownInactive(snap.state) {
        EndsOnEvidence(h, n, s);
        if s.openId.Some? {
          FinalizeFacts(s.rows, s.openId.value, s.lastSnap, Count(s, snap).endSnap, Confirmed, clock);
        }
      }
    case Restart(graceful, commits, clock) =>
      if s.openId.Some? {
        FinalizeFacts(s.rows, s.openId.value, s.lastSnap, None, Unconfirmed, clock);
      }
      SweepFacts((if graceful then Shutdown(s, commits, clock) else s).rows);
      hide FinalizeMatch, SweepAll;
  }

  lemma {:induction false} PlayedFollows(h: seq<Event>, n: nat, s: Store, id: string, snap: Snap, clock: int)
    requires n < |h| && RowsOk(s)
    ensures RowsFollow(h, n, s.rows, Played(s, id, snap, clock).rows)
  {
    hide FinalizeMatch, OpenMatch, UpdateRunning, StampedAt;
    if s.openId == Some(id) {
      UpdateFacts(s.rows, id, snap);
    } else if s.openId.Some? {
      FinalizeFacts(s.rows, s.openId.value, s.lastSnap, None, Unconfirmed, clock);
      OpenFacts(FinalizeMatch(s.rows, s.openId.value, s.lastSnap, None, Unconfirmed, clock), id, snap);
    } else {
      OpenFacts(s.rows, id, snap);
    }
  }

  lemma {:induction false} RunInv(h: seq<Event>, n: nat)
    requires n <= |h|
    ensures Inv(h, n, Run(h, n))
  {
    if n > 0 {
      RunInv(h, n - 1);
      hide RowsOk, Counting, RowsFollow, Stamped, After;
      RowsStayOk(Run(h, n - 1), h[n - 1]);
      CountingKept(h, n - 1, Run(h, n - 1));
      RowsDoFollow(h, n - 1, Run(h, n - 1));
      StampsKept(h, n - 1, Run(h, n - 1).rows, Run(h, n).rows);
    }
  }

  /* ----- the main results ----- */

  /** After every tick, committed or rolled back, and across restarts: at most one row is open, and it
      is the one the store believes open. */
  lemma {:induction false} OneOpenRow(h: seq<Event>, n: nat)
    requires n <= |h|
    ensures var s := Run(h, n);
            && (forall id :: id in s.rows && s.rows[id].open ==> s.openId == Some(id))
            && (s.openId.Some? ==> s.openId.value in s.rows && s.rows[s.openId.value].open)
  {
    RunInv(h, n);
  }

  /** Only an observed end publishes a winner: a row with one is finalized, and was stamped by a
      committed tick that completed three known-inactive ticks in a row while the match was open.
      The winner is decided by the first of those frames, or by the last active one. */
  lemma {:induction false} WinnersNeedEvidence(h: seq<Event>, n: nat, id: string)
    requires n <= |h| && id in Run(h, n).rows
    ensures var r := Run(h, n).rows[id];
            && (r.winner.Some? ==> r.endState == Some(Confirmed))
            && (r.endState == Some(Confirmed) ==>
                  exists k :: 0 <= k < n && Evidence(h, k) && h[k].commits && Run(h, k).openId == Some(id)
                    && r.winner == WinnerOf(DecidingFrame(Some(FirstInactive(h, k)), Run(h, k).lastSnap)))
  {
    RunInv(h, n);
    var r := Run(h, n).rows[id];
    if r.endState == Some(Confirmed) {
      var k :| 0 <= k < n && StampedAt(h, k, id, r);
      RunInv(h, k);
      TerminalFrame(h, k);
    }
  }

  /** The first tick of the unbroken run of known-inactive ticks that ends at k. */
  function FirstInactive(h: seq<Event>, k: nat): Snap
    requires k < |h| && InactiveAt(h, k)
  {
    if k > 0 && InactiveAt(h, k - 1) then FirstInactive(h, k - 1) else h[k].snap
  }

  lemma {:induction false} FirstOfRun(h: seq<Event>, from: nat, k: nat)
    requires from <= k < |h| && forall i :: from <= i <= k ==> InactiveAt(h, i)
    requires from > 0 ==> !InactiveAt(h, from - 1)
    ensures h[from].Observe? && FirstInactive(h, k) == h[from].snap
  {
    assert InactiveAt(h, k) && InactiveAt(h, from);
    if from < k {
      assert InactiveAt(h, k - 1);
      FirstOfRun(h, from, k - 1);
    }
  }

  lemma {:induction false} TerminalFrame(h: seq<Event>, k: nat)
    requires k < |h| && Inv(h, k, Run(h, k)) && InactiveAt(h, k) && Run(h, k).openId.Some?
    ensures Count(Run(h, k), h[k].snap).endSnap == Some(FirstInactive(h, k))
  {
    hide RowsOk, Stamped, Run, FirstInactive;
    FirstOfRun(h, k - Run(h, k).inactive, k);
  }

  /** A committed tick ends the open match as finalized exactly when it completes the evidence. */
  lemma {:induction false} FinalizedExactlyOnEvidence(h: seq<Event>, n: nat)
    requires n < |h| && h[n].Observe? && h[n].commits && Run(h, n).openId.Some?
    ensures var id := Run(h, n).openId.value;
            && id in Run(h, n + 1).rows
            && (!Run(h, n + 1).rows[id].open && Run(h, n + 1).rows[id].endState == Some(Confirmed) <==> Evidence(h, n))
  {
    RunInv(h, n);
    RunInv(h, n + 1);
    if InactiveAt(h, n) {
      EndsOnEvidence(h, n, Run(h, n));
    }
    if ActiveId(h[n].snap).Some? {
      SupersededUnverified(Run(h, n), h[n]);
    }
  }

  lemma {:induction false} SupersededUnverified(s: Store, e: Event)
    requires RowsOk(s) && s.openId.Some? && e.Observe? && ActiveId(e.snap).Some?
    ensures var r := After(s, e).rows[s.openId.value]; r.open || r.endState == Some(Unconfirmed)
  {
  }

  /** An ambiguous tick, and a tick whose transaction rolls back, changes no row, opens and closes
      nothing and calls no hook. */
  lemma {:induction false} NothingWithoutCommit(s: Store, snap: Snap, commits: bool, clock: int)
    requires !commits || (ActiveId(snap).None? && !KnownInactive(snap.state))
    ensures var s' := Tick(s, snap, commits, clock);
            s'.rows == s.rows && s'.openId == s.openId && s'.lastSnap == s.lastSnap && s'.fired == s.fired
    ensures ActiveId(snap).None? && !KnownInactive(snap.state) ==> Tick(s, snap, commits, clock).inactive == 0
  {
  }

  predicate Closed(rows: Table, id: string) {
    id in rows && !rows[id].open
  }

  /** The hook is called for a match exactly when its row goes from open to final in the database,
      once, and before nothing else: a rolled-back tick never signals, and the sweep of a new
      process does not either. */
  lemma {:induction false} HookFiresOnCommittedEnds(h: seq<Event>, n: nat)
    requires n < |h|
    ensures var s, s' := Run(h, n), Run(h, n + 1);
            var swept := h[n].Restart? && !(h[n].graceful && h[n].commits);
            s'.fired == s.fired +
              if s.openId.Some? && !swept && Closed(s'.rows, s.openId.value) then [s.openId.value] else []
  {
    RunInv(h, n);
    hide Tick, Shutdown, Startup, RowsOk, Closed;
    var s := Run(h, n);
    match h[n]
    case Observe(snap, commits, clock) => FiredByTick(s, snap, commits, clock);
    case Restart(graceful, commits, clock) => FiredByRestart(s, graceful, commits, clock);
  }

  lemma {:induction false} FiredByTick(s: Store, snap: Snap, commits: bool, clock: int)
    requires RowsOk(s)
    ensures var s' := Tick(s, snap, commits, clock);
            s'.fired == s.fired + if s.openId.Some? && Closed(s'.rows, s.openId.value) then [s.openId.value] else []
  {
    hide FinalizeMatch, Played;
    var c := Count(s, snap);
    if ActiveId(snap).Some? {
      FiredByPlay(c, ActiveId(snap).value, snap, clock);
    } else if s.openId.Some? {
      FinalizeFacts(s.rows, s.openId.value, s.lastSnap, c.endSnap, Confirmed, clock);
    }
  }

  lemma {:induction false} FiredByPlay(s: Store, id: string, snap: Snap, clock: int)
    requires RowsOk(s)
    ensures var s' := Played(s, id, snap, clock);
            s'.fired == s.fired + if s.openId.Some? && Closed(s'.rows, s.openId.value) then [s.openId.value] else []
  {
    hide FinalizeMatch, OpenMatch, UpdateRunning;
    if s.openId == Some(id) {
      UpdateFacts(s.rows, id, snap);
    } else if s.openId.Some? {
      FinalizeFacts(s.rows, s.openId.value, s.lastSnap, None, Unconfirmed, clock);
      OpenFacts(FinalizeMatch(s.rows, s.openId.value, s.lastSnap, None, Unconfirmed, clock), id, snap);
    }
  }

  lemma {:induction false} FiredByRestart(s: Store, graceful: bool, commits: bool, clock: int)
    requires RowsOk(s)
    ensures var s' := After(s, Restart(graceful, commits, clock));
            s'.fired == s.fired + if s.openId.Some? && graceful && commits && Closed(s'.rows, s.openId.value)
                                  then [s.openId.value] else []
  {
    hide FinalizeMatch, SweepAll;
    if s.openId.Some? {
      FinalizeFacts(s.rows, s.openId.value, s.lastSnap, None, Unconfirmed, clock);
    }
    SweepFacts((if graceful then Shutdown(s, commits, clock) else s).rows);
  }

  /** No row is ever deleted, and none is given another start, however often it is re-opened. */
  lemma {:induction false} RowsPersist(s: Store, e: Event)
    ensures forall id :: id in s.rows ==>
              id in After(s, e).rows && After(s, e).rows[id].startedAt == s.rows[id].startedAt
  {
    assert StartsKept(s.rows, After(s, e).rows) by {
      hide StartsKept, Played, Ended, Shutdown, Startup;
      match e
      case Observe(snap, commits, clock) =>
        SameStarts(s.rows);
        var c := Count(s, snap);
        if ActiveId(snap).Some? {
          PlayedKeepsStarts(c, ActiveId(snap).value, snap, clock);
        }
        EndedKeepsStarts(c, clock);
      case Restart(graceful, commits, clock) =>
        RestartKeepsStarts(s, graceful, commits, clock);
    }
  }

  predicate StartsKept(rows: Table, later: Table) {
    forall id :: id in rows ==> id in later && later[id].startedAt == rows[id].startedAt
  }

  lemma {:induction false} SameStarts(rows: Table)
    ensures StartsKept(rows, rows)
  {
  }

  lemma {:induction false} FinalizeKeepsStarts(rows: Table, id: string, last: Option<Snap>, terminal: Option<Snap>,
          end: EndState, clock: int)
    ensures StartsKept(rows, FinalizeMatch(rows, id, last, terminal, end, clock))
  {
    hide FinalizeMatch;
    FinalizeFacts(rows, id, last, terminal, end, clock);
  }

  lemma {:induction false} OpenKeepsStarts(rows: Table, id: string, now: int)
    ensures StartsKept(rows, OpenMatch(rows, id, now))
  {
  }

  lemma {:induction false} UpdateKeepsStarts(rows: Table, id: string, snap: Snap)
    ensures StartsKept(rows, UpdateRunning(rows, id, snap))
  {
  }

  lemma {:induction false} PlayedKeepsStarts(s: Store, id: string, snap: Snap, clock: int)
    ensures StartsKept(s.rows, Played(s, id, snap, clock).rows)
  {
    hide FinalizeMatch, OpenMatch, UpdateRunning;
    var superseded := s.openId.Some? && s.openId.value != id;
    if superseded {
      FinalizeKeepsStarts(s.rows, s.openId.value, s.lastSnap, None, Unconfirmed, clock);
    }
    var closed := if superseded then FinalizeMatch(s.rows, s.openId.value, s.lastSnap, None, Unconfirmed, clock)
        else s.rows;
    OpenKeepsStarts(closed, id, snap.now);
    UpdateKeepsStarts(closed, id, snap);
    UpdateKeepsStarts(OpenMatch(closed, id, snap.now), id, snap);
  }

  lemma {:induction false} EndedKeepsStarts(s: Store, clock: int)
    ensures StartsKept(s.rows, Ended(s, clock).rows)
  {
    hide FinalizeMatch;
    if s.openId.Some? {
      FinalizeKeepsStarts(s.rows, s.openId.value, s.lastSnap, s.endSnap, Confirmed, clock);
    }
  }

  lemma {:induction false} RestartKeepsStarts(s: Store, graceful: bool, commits: bool, clock: int)
    ensures StartsKept(s.rows, After(s, Restart(graceful, commits, clock)).rows)
  {
    hide FinalizeMatch, SweepAll;
    var s1 := if graceful then Shutdown(s, commits, clock) else s;
    SweepFacts(s1.rows);
    if s.openId.Some? {
      FinalizeKeepsStarts(s.rows, s.openId.value, s.lastSnap, None, Unconfirmed, clock);
    }
  }

  lemma {:induction false} StartIsKept(h: seq<Event>, n: nat, k: nat, id: string)
    requires n <= k <= |h| && id in Run(h, n).rows
    ensures id in Run(h, k).rows && Run(h, k).rows[id].startedAt == Run(h, n).rows[id].startedAt
  {
    hide After, RowsOk, Counting, Stamped;
    if n < k {
      StartIsKept(h, n, k - 1, id);
      RunInv(h, k - 1);
      RowsPersist(Run(h, k - 1), h[k - 1]);
    }
  }
}
