/** Ratings in the database: live application match by match, and the rebuild from scratch. */
module EloLedger {
  import opened Options
  import opened Sums
  import opened Elo

  /** A player's row of one match. `perf` stands for the performance score of its columns. */
  datatype Row = Row(eos: string, team: Option<int>, playtime: int, perf: real, change: Option<int>)

  /** `verified` says that the end state is not "unverified". */
  datatype Match = Match(duration: int, winner: Option<int>, verified: bool, rows: seq<Row>)

  datatype Rating = Rating(elo: int, played: nat)

  type Ratings = map<string, Rating>

  /** The tables; a match is known by its position, its rows by their player. */
  datatype Db = Db(matches: seq<Match>, ratings: Ratings)

  datatype Gates = Gates(minPlayers: int, minDuration: int, minPlaytime: int)

  function RatingOf(ratings: Ratings, eos: string): Rating {
    if eos in ratings then ratings[eos] else Rating(STARTING_ELO, 0)
  }

  function WasWinner(team: Option<int>, winner: Option<int>): Option<bool> {
    if winner.None? || winner == Some(0) || team.None? then None else Some(team == winner)
  }

  /** The rows over the playtime floor. */
  function Rated(rows: seq<Row>, floor: int): seq<Row> {
    if rows == [] then []
    else Rated(rows[..|rows| - 1], floor) + if rows[|rows| - 1].playtime >= floor then [rows[|rows| - 1]] else []
  }

  function PlayerOf(r: Row, winner: Option<int>, ratings: Ratings): Player {
    var rating := RatingOf(ratings, r.eos);
    Player(r.eos, r.team, r.perf, WasWinner(r.team, winner), rating.elo, rating.played)
  }

  function PlayersOf(rows: seq<Row>, winner: Option<int>, ratings: Ratings): (ps: seq<Player>)
    ensures |ps| == |rows|
    ensures forall k :: 0 <= k < |rows| ==> ps[k] == PlayerOf(rows[k], winner, ratings)
  {
    seq(|rows|, k requires 0 <= k < |rows| => PlayerOf(rows[k], winner, ratings))
  }

  function Lineup(db: Db, i: nat, g: Gates): seq<Player>
    requires i < |db.matches|
  {
    PlayersOf(Rated(db.matches[i].rows, g.minPlaytime), db.matches[i].winner, db.ratings)
  }

  predicate Gated(m: Match, g: Gates) {
    |m.rows| >= g.minPlayers && m.duration >= g.minDuration && m.verified
  }

  predicate Unrated(m: Match) {
    forall r :: r in m.rows ==> r.change.None?
  }

  predicate DistinctRows(rows: seq<Row>) {
    forall i, j :: 0 <= i < j < |rows| ==> rows[i].eos != rows[j].eos
  }

  predicate Keyed(db: Db) {
    forall k :: 0 <= k < |db.matches| ==> DistinctRows(db.matches[k].rows)
  }

  function SetChange(rows: seq<Row>, eos: string, delta: int): (out: seq<Row>)
    ensures |out| == |rows|
    ensures forall k :: 0 <= k < |rows| ==>
              out[k] == if rows[k].eos == eos then rows[k].(change := Some(delta)) else rows[k]
  {
    seq(|rows|, k requires 0 <= k < |rows| => if rows[k].eos == eos then rows[k].(change := Some(delta)) else rows[k])
  }

  function NewRating(p: Player, delta: int): Rating {
    Rating(if p.elo + delta < 1 then 1 else p.elo + delta, p.played + 1)
  }

  /** Stores one player's result of match i. */
  function Store(db: Db, i: nat, p: Player, delta: int): Db
    requires i < |db.matches|
  {
    var m := db.matches[i];
    Db(db.matches[i := m.(rows := SetChange(m.rows, p.eos, delta))], db.ratings[p.eos := NewRating(p, delta)])
  }

  /** Stores the results of the first n players of a match. */
  function StoreAll(db: Db, i: nat, ps: seq<Player>, n: nat, expected: Curve): (out: Db)
    requires i < |db.matches| && n <= |ps|
    ensures |out.matches| == |db.matches|
    ensures forall k :: 0 <= k < |db.matches| && k != i ==> out.matches[k] == db.matches[k]
  {
    if n == 0 then db
    else Store(StoreAll(db, i, ps, n - 1, expected), i, ps[n - 1], Delta(ps, ps[n - 1], expected))
  }

  function Rate(db: Db, i: nat, g: Gates, expected: Curve): Db
    requires i < |db.matches|
  {
    var ps := Lineup(db, i, g);
    StoreAll(db, i, ps, |ps|, expected)
  }

  predicate Eligible(db: Db, i: nat, g: Gates)
    requires i < |db.matches|
  {
    Gated(db.matches[i], g) && Unrated(db.matches[i]) && Rated(db.matches[i].rows, g.minPlaytime) != []
  }

  /** Live application of one finished match. */
  function Applied(db: Db, i: nat, g: Gates, expected: Curve): Db {
    if i < |db.matches| && Eligible(db, i, g) then Rate(db, i, g, expected) else db
  }

  lemma {:induction false} RatedRows(rows: seq<Row>, floor: int)
    requires DistinctRows(rows)
    ensures DistinctRows(Rated(rows, floor))
    ensures forall r :: r in Rated(rows, floor) ==> r in rows && r.playtime >= floor
  {
    if rows != [] {
      RatedRows(rows[..|rows| - 1], floor);
      forall r | r in Rated(rows[..|rows| - 1], floor)
        ensures r.eos != rows[|rows| - 1].eos
      {
        assert r in rows[..|rows| - 1];
      }
    }
  }

  lemma {:induction false} LineupDistinct(db: Db, i: nat, g: Gates)
    requires Keyed(db) && i < |db.matches|
    ensures Distinct(Lineup(db, i, g))
  {
    RatedRows(db.matches[i].rows, g.minPlaytime);
  }

  lemma {:induction false} LineupRatings(rows: seq<Row>, winner: Option<int>, ratings: Ratings)
    ensures var ps := PlayersOf(rows, winner, ratings);
            |ps| == |rows| && forall p :: p in ps ==> RatingOf(ratings, p.eos) == Rating(p.elo, p.played)
  {
  }

  lemma {:induction false} RatesMeans(deltas: map<string, int>, players: seq<Player>, expected: Curve)
    requires players != [] && Rates(deltas, players, players, expected)
    ensures deltas.Keys == Ids(players) && forall p :: p in players ==> deltas[p.eos] == Delta(players, p, expected)
  {
  }

  class EloStore {
    var matches: seq<Match>
    var ratings: Ratings

    ghost function View(): Db
      reads this
    {
      Db(matches, ratings)
    }

    /** Rates one finished match; says how many players were rated. */
    method ApplyMatchElo(i: nat, g: Gates, expected: Curve) returns (rated: nat)
      requires Keyed(View())
      modifies this
      ensures View() == Applied(old(View()), i, g, expected)
      ensures rated == if i < |old(matches)| && Eligible(old(View()), i, g) then |Lineup(old(View()), i, g)| else 0
    {
      if i >= |matches| {
        return 0;
      }
      var m := matches[i];
      if |m.rows| < g.minPlayers || m.duration < g.minDuration {
        return 0;
      }
      if !m.verified {
        return 0;
      }
      if exists r :: r in m.rows && r.change.Some? {
        return 0;
      }
      var rows := Rated(m.rows, g.minPlaytime);
      if rows == [] {
        return 0;
      }
      rated := RateMatch(i, rows, g, expected);
    }

    /** The second half: the players with their ratings, their deltas, and the results. */
    method RateMatch(i: nat, rows: seq<Row>, g: Gates, expected: Curve) returns (rated: nat)
      requires Keyed(View()) && i < |matches| && rows == Rated(matches[i].rows, g.minPlaytime) != []
      modifies this
      ensures View() == Rate(old(View()), i, g, expected) && rated == |Lineup(old(View()), i, g)|
    {
      hide Rated, StoreAll, Delta, Ids, Distinct, Keyed;
      ghost var db := View();
      var players := PlayersOf(rows, matches[i].winner, ratings);
      assert players == Lineup(db, i, g);
      LineupDistinct(db, i, g);
      LineupRatings(rows, matches[i].winner, ratings);
      var deltas := CalcMatchEloChanges(players, expected);
      RatesMeans(deltas, players, expected);
      StoreResults(i, players, deltas, expected);
      rated := |players|;
    }

    method StoreResults(i: nat, players: seq<Player>, deltas: map<string, int>, ghost expected: Curve)
      requires i < |matches| && players != [] && Distinct(players)
      requires deltas.Keys == Ids(players)
      requires forall p :: p in players ==> deltas[p.eos] == Delta(players, p, expected)
      requires forall p :: p in players ==> RatingOf(ratings, p.eos) == Rating(p.elo, p.played)
      modifies this
      ensures View() == StoreAll(old(View()), i, players, |players|, expected)
    {
      hide Delta, Ids;
      KnownIds(players);
      var k: nat := 0;
      while k < |players|
        invariant k <= |players| && |matches| == |old(matches)|
        invariant View() == StoreAll(old(View()), i, players, k, expected)
        invariant forall j :: k <= j < |players| ==>
                  RatingOf(ratings, players[j].eos) == Rating(players[j].elo, players[j].played)
      {
        var p := players[k];
        assert p in players;
        var delta := deltas[p.eos];
        var newElo := if p.elo + delta < 1 then 1 else p.elo + delta;
        ratings := ratings[p.eos := Rating(newElo, RatingOf(ratings, p.eos).played + 1)];
        matches := matches[i := matches[i].(rows := SetChange(matches[i].rows, p.eos, delta))];
        k := k + 1;
      }
    }

    /** Rebuilds every rating from scratch over the matches in the given order, carrying the
        ratings in memory. Says how many matches were rated, and how many that pass the gates were
        skipped for having too few rated players. */
    method RecalcAllElo(order: seq<nat>, g: Gates, expected: Curve) returns (rated: nat, skipped: nat)
      requires Keyed(View())
      requires Within(|matches|, order)
      modifies this
      ensures View() == Recalculated(Cleared(old(View())), order, |order|, g, expected)
      ensures rated == Sum(order, RatedTurns(old(matches), g)) && skipped == Sum(order, SkippedTurns(old(matches), g))
    {
      hide RecalcStep, RecalcRates, Gated, Rebuilt, Keyed, SamePlay, Recalculated, Sum;
      ghost var start := View();
      ClearKeeps(View());
      matches := Cleared(Db(matches, ratings)).matches;
      ratings := map[];
      NothingRebuilt(start, order, g, expected);
      var state: Ratings := map[];
      rated, skipped := 0, 0;
      var n: nat := 0;
      while n < |order|
        invariant n <= |order| && |matches| == |start.matches| && Keyed(View()) && state == ratings
        invariant Rebuilt(start, order, n, g, expected, View(), rated, skipped)
      {
        ghost var before, counts := View(), (rated, skipped);
        var gated, done;
        gated, done, state := RecalcOne(order[n], state, g, expected);
        if done {
          rated := rated + 1;
        } else if gated {
          skipped := skipped + 1;
        }
        OneMoreRebuilt(start, order, n, n + 1, g, expected, before, counts.0, counts.1, View(), rated, skipped);
        n := n + 1;
      }
      AllRebuilt(start, order, n, g, expected, View(), rated, skipped);
    }

    /** One turn of the rebuild's loop. */
    method RecalcOne(i: nat, state0: Ratings, g: Gates, expected: Curve)
      returns (gated: bool, rated: bool, state: Ratings)
      requires Keyed(View()) && i < |matches| && state0 == ratings
      modifies this
      ensures View() == RecalcStep(old(View()), i, g, expected) && Keyed(View())
      ensures |matches| == |old(matches)| && state == ratings && SamePlay(old(View()), View())
      ensures gated == Gated(old(matches)[i], g) && rated == RecalcRates(old(matches)[i], g)
    {
      var m := matches[i];
      state, rated := state0, false;
      gated := Gated(m, g);
      if !gated {
        return;
      }
      ghost var db := View();
      var rows := Rated(m.rows, g.minPlaytime);
      if |rows| < g.minPlayers {
        return;
      }
      rated := true;
      var players := PlayersOf(rows, m.winner, state);
      RecalcKeeps(db, i, g, expected);
      StoreAllPlay(db, i, Lineup(db, i, g), |Lineup(db, i, g)|, expected);
      if players != [] {
        LineupDistinct(db, i, g);
        hide Keyed, Gated, Rated, Delta;
        var deltas := CalcMatchEloChanges(players, expected);
        state := Carry(state, players, deltas, expected, i, db);
        StoreResults(i, players, deltas, expected);
      }
    }
  }

  lemma {:induction false} KnownIds(ps: seq<Player>)
    ensures forall p :: p in ps ==> p.eos in Ids(ps)
  {
  }

  /** The in-memory state after a match is what the table will hold. */
  method Carry(state0: Ratings, players: seq<Player>, deltas: map<string, int>, ghost expected: Curve, ghost i: nat,
          ghost db: Db)
    returns (state: Ratings)
    requires i < |db.matches| && players != [] && Distinct(players) && state0 == db.ratings
    requires deltas.Keys == Ids(players)
    requires forall p :: p in players ==> deltas[p.eos] == Delta(players, p, expected)
    requires forall p :: p in players ==> RatingOf(state0, p.eos) == Rating(p.elo, p.played)
    ensures state == StoreAll(db, i, players, |players|, expected).ratings
  {
    hide Delta, Ids;
    KnownIds(players);
    state := state0;
    var k: nat := 0;
    while k < |players|
      invariant k <= |players|
      invariant state == StoreAll(db, i, players, k, expected).ratings
      invariant forall j :: k <= j < |players| ==>
                RatingOf(state, players[j].eos) == Rating(players[j].elo, players[j].played)
    {
      var p := players[k];
      assert p in players;
      var delta := deltas[p.eos];
      var st := RatingOf(state, p.eos);
      state := state[p.eos := Rating(if st.elo + delta < 1 then 1 else st.elo + delta, st.played + 1)];
      k := k + 1;
    }
  }

  /* ----- the rebuild ----- */

  function ClearedRows(rows: seq<Row>): (out: seq<Row>)
    ensures |out| == |rows|
    ensures forall k :: 0 <= k < |rows| ==> out[k] == rows[k].(change := None)
  {
    seq(|rows|, k requires 0 <= k < |rows| => rows[k].(change := None))
  }

  function Cleared(db: Db): (out: Db)
    ensures |out.matches| == |db.matches| && out.ratings == map[]
    ensures forall k :: 0 <= k < |db.matches| ==>
              out.matches[k] == db.matches[k].(rows := ClearedRows(db.matches[k].rows))
  {
    Db(seq(|db.matches|, k requires 0 <= k < |db.matches| => db.matches[k].(rows := ClearedRows(db.matches[k].rows))),
        map[])
  }

  lemma {:induction false} ClearKeeps(db: Db)
    requires Keyed(db)
    ensures Keyed(Cleared(db))
    ensures SamePlay(db, Cleared(db))
    ensures forall k :: 0 <= k < |db.matches| ==> Unrated(Cleared(db).matches[k])
  {
  }

  predicate RecalcRates(m: Match, g: Gates) {
    Gated(m, g) && |Rated(m.rows, g.minPlaytime)| >= g.minPlayers
  }

  function RecalcStep(db: Db, i: nat, g: Gates, expected: Curve): Db
    requires i < |db.matches|
  {
    if RecalcRates(db.matches[i], g) then Rate(db, i, g, expected) else db
  }

  /** One for a match the rebuild rates. */
  function RatedTurns(ms: seq<Match>, g: Gates): nat -> int {
    (i: nat) => if i < |ms| && RecalcRates(ms[i], g) then 1 else 0
  }

  /** One for a match that passes the gates and is not rated. */
  function SkippedTurns(ms: seq<Match>, g: Gates): nat -> int {
    (i: nat) => if i < |ms| && Gated(ms[i], g) && !RecalcRates(ms[i], g) then 1 else 0
  }

  /** The two databases differ in ratings and deltas at most. */
  predicate SamePlay(a: Db, b: Db) {
    && |a.matches| == |b.matches|
    && forall k :: 0 <= k < |a.matches| ==> SameMatch(a.matches[k], b.matches[k])
  }

  predicate SameMatch(m: Match, n: Match) {
    m.duration == n.duration && m.verified == n.verified && SameRows(m.rows, n.rows)
  }

  predicate SameRows(rows: seq<Row>, others: seq<Row>) {
    && |rows| == |others|
    && forall r :: 0 <= r < |rows| ==> rows[r].playtime == others[r].playtime
  }

  lemma {:induction false} SamePlayTwice(a: Db, b: Db, c: Db)
    requires SamePlay(a, b) && SamePlay(b, c)
    ensures SamePlay(a, c)
  {
    forall k | 0 <= k < |a.matches|
      ensures SameMatch(a.matches[k], c.matches[k])
    {
      assert SameMatch(a.matches[k], b.matches[k]) && SameMatch(b.matches[k], c.matches[k]);
    }
  }

  lemma {:induction false} GatesKeep(a: Db, b: Db, i: nat, g: Gates)
    requires SamePlay(a, b) && i < |a.matches|
    ensures Gated(a.matches[i], g) == Gated(b.matches[i], g)
    ensures RecalcRates(a.matches[i], g) == RecalcRates(b.matches[i], g)
  {
    assert SameMatch(a.matches[i], b.matches[i]);
    RatedAlike(a.matches[i].rows, b.matches[i].rows, g.minPlaytime);
  }

  lemma {:induction false} RatedAlike(rows: seq<Row>, others: seq<Row>, floor: int)
    requires SameRows(rows, others)
    ensures |Rated(rows, floor)| == |Rated(others, floor)|
  {
    if rows != [] {
      RatedAlike(rows[..|rows| - 1], others[..|others| - 1], floor);
    }
  }

  lemma {:induction false} StoreAllPlay(db: Db, i: nat, ps: seq<Player>, n: nat, expected: Curve)
    requires i < |db.matches| && n <= |ps|
    ensures SamePlay(db, StoreAll(db, i, ps, n, expected))
  {
    hide Delta;
    if n > 0 {
      StoreAllPlay(db, i, ps, n - 1, expected);
    }
  }

  /** After n turns of the rebuild. */
  ghost predicate Rebuilt(start: Db, order: seq<nat>, n: nat, g: Gates, expected: Curve, now: Db, rated: nat,
                          skipped: nat)
    requires n <= |order| && Within(|start.matches|, order)
  {
    && now == Recalculated(Cleared(start), order, n, g, expected) && SamePlay(start, now)
    && rated == Sum(order[..n], RatedTurns(start.matches, g))
    && skipped == Sum(order[..n], SkippedTurns(start.matches, g))
  }

  lemma {:induction false} NothingRebuilt(start: Db, order: seq<nat>, g: Gates, expected: Curve)
    requires Within(|start.matches|, order) && Keyed(start)
    ensures Rebuilt(start, order, 0, g, expected, Cleared(start), 0, 0)
  {
    ClearKeeps(start);
    assert order[..0] == [];
  }

  lemma {:induction false} OneMoreRebuilt(start: Db, order: seq<nat>, n: nat, m: nat, g: Gates, expected: Curve,
          db: Db, rated: nat, skipped: nat, db': Db, rated': nat, skipped': nat)
    requires m == n + 1 <= |order| && Within(|start.matches|, order) && |db.matches| == |start.matches|
    requires Rebuilt(start, order, n, g, expected, db, rated, skipped)
    requires db' == RecalcStep(db, order[n], g, expected) && SamePlay(db, db')
    requires rated' == rated + if RecalcRates(db.matches[order[n]], g) then 1 else 0
    requires skipped'
          == skipped + if Gated(db.matches[order[n]], g) && !RecalcRates(db.matches[order[n]], g) then 1 else 0
    ensures Rebuilt(start, order, m, g, expected, db', rated', skipped')
  {
    hide RecalcStep, RecalcRates, Gated, SamePlay, Sum, Cleared;
    GatesKeep(start, db, order[n], g);
    OneMoreTurn(order, n, start.matches, g);
    SamePlayTwice(start, db, db');
  }

  lemma {:induction false} AllRebuilt(start: Db, order: seq<nat>, n: nat, g: Gates, expected: Curve, now: Db,
          rated: nat, skipped: nat)
    requires n == |order| && Within(|start.matches|, order)
    requires Rebuilt(start, order, n, g, expected, now, rated, skipped)
    ensures now == Recalculated(Cleared(start), order, |order|, g, expected)
    ensures rated == Sum(order, RatedTurns(start.matches, g)) && skipped == Sum(order, SkippedTurns(start.matches, g))
  {
    assert order[..n] == order;
  }

  lemma {:induction false} OneMoreTurn(order: seq<nat>, n: nat, ms: seq<Match>, g: Gates)
    requires n < |order| && order[n] < |ms|
    ensures Sum(order[..n + 1], RatedTurns(ms, g))
         == Sum(order[..n], RatedTurns(ms, g)) + if RecalcRates(ms[order[n]], g) then 1 else 0
    ensures Sum(order[..n + 1], SkippedTurns(ms, g))
         == Sum(order[..n], SkippedTurns(ms, g))
          + if Gated(ms[order[n]], g) && !RecalcRates(ms[order[n]], g) then 1 else 0
  {
    hide Gated, RecalcRates;
    assert order[..n + 1] == order[..n] + [order[n]];
    SumAppend(order[..n], order[n], RatedTurns(ms, g));
    SumAppend(order[..n], order[n], SkippedTurns(ms, g));
  }

  predicate Within(size: nat, order: seq<nat>) {
    forall k :: 0 <= k < |order| ==> order[k] < size
  }

  function Recalculated(db: Db, order: seq<nat>, n: nat, g: Gates, expected: Curve): (out: Db)
    requires n <= |order| && Within(|db.matches|, order)
    ensures |out.matches| == |db.matches|
  {
    if n == 0 then db else RecalcStep(Recalculated(db, order, n - 1, g, expected), order[n - 1], g, expected)
  }

  function AppliedLive(db: Db, order: seq<nat>, n: nat, g: Gates, expected: Curve): (out: Db)
    requires n <= |order|
    ensures |out.matches| == |db.matches|
  {
    if n == 0 then db else Applied(AppliedLive(db, order, n - 1, g, expected), order[n - 1], g, expected)
  }

  lemma {:induction false} StoreAllKeeps(db: Db, i: nat, ps: seq<Player>, n: nat, expected: Curve)
    requires i < |db.matches| && n <= |ps| && Keyed(db)
    ensures Keyed(StoreAll(db, i, ps, n, expected))
  {
    hide Delta;
    if n > 0 {
      StoreAllKeeps(db, i, ps, n - 1, expected);
    }
  }

  lemma {:induction false} RecalcKeeps(db: Db, i: nat, g: Gates, expected: Curve)
    requires i < |db.matches| && Keyed(db)
    ensures Keyed(RecalcStep(db, i, g, expected))
  {
    StoreAllKeeps(db, i, Lineup(db, i, g), |Lineup(db, i, g)|, expected);
  }

  /** The two paths gate one match alike. */
  predicate Agreeing(m: Match, g: Gates) {
    Gated(m, g) ==> Rated(m.rows, g.minPlaytime) == [] || |Rated(m.rows, g.minPlaytime)| >= g.minPlayers
  }

  lemma {:induction false} StepsAgree(db: Db, i: nat, g: Gates, expected: Curve)
    requires i < |db.matches| && Unrated(db.matches[i]) && Agreeing(db.matches[i], g)
    ensures RecalcStep(db, i, g, expected) == Applied(db, i, g, expected)
  {
    hide Delta;
    if Rated(db.matches[i].rows, g.minPlaytime) == [] {
      assert Lineup(db, i, g) == [];
    }
  }

  lemma {:induction false} StepLeaves(db: Db, i: nat, k: nat, g: Gates, expected: Curve)
    requires i < |db.matches| && k < |db.matches| && i != k
    ensures |RecalcStep(db, i, g, expected).matches| == |Applied(db, i, g, expected).matches| == |db.matches|
    ensures RecalcStep(db, i, g, expected).matches[k] == db.matches[k]
    ensures Applied(db, i, g, expected).matches[k] == db.matches[k]
  {
    hide Delta;
  }

  /** Neither path touches a match it has not reached. */
  lemma {:induction false} Unreached(db: Db, order: seq<nat>, n: nat, g: Gates, expected: Curve, k: nat)
    requires n <= |order| && k < |db.matches| && Within(|db.matches|, order)
    requires forall j :: 0 <= j < n ==> order[j] != k
    ensures Recalculated(db, order, n, g, expected).matches[k] == db.matches[k]
    ensures AppliedLive(db, order, n, g, expected).matches[k] == db.matches[k]
  {
    hide Delta, RecalcStep, Applied;
    if n > 0 {
      Unreached(db, order, n - 1, g, expected, k);
      StepLeaves(Recalculated(db, order, n - 1, g, expected), order[n - 1], k, g, expected);
      StepLeaves(AppliedLive(db, order, n - 1, g, expected), order[n - 1], k, g, expected);
    }
  }

  ghost predicate Orderly(db: Db, order: seq<nat>) {
    && Within(|db.matches|, order)
    && (forall j, k :: 0 <= j < k < |order| ==> order[j] != order[k])
  }

  lemma {:induction false} PathsAgree(db: Db, order: seq<nat>, n: nat, g: Gates, expected: Curve)
    requires Orderly(db, order) && n <= |order|
    requires forall k :: 0 <= k < |db.matches| ==> Unrated(db.matches[k])
    requires forall j :: 0 <= j < n ==> Agreeing(db.matches[order[j]], g)
    ensures Recalculated(db, order, n, g, expected) == AppliedLive(db, order, n, g, expected)
  {
    hide RecalcStep, Applied, Agreeing, Unrated;
    if n > 0 {
      PathsAgree(db, order, n - 1, g, expected);
      Unreached(db, order, n - 1, g, expected, order[n - 1]);
      StepsAgree(Recalculated(db, order, n - 1, g, expected), order[n - 1], g, expected);
    }
  }

  /** After its own turn a match stays as it is. */
  lemma {:induction false} Left(db: Db, order: seq<nat>, j: nat, n: nat, g: Gates, expected: Curve)
    requires Orderly(db, order) && j < n <= |order|
    ensures Recalculated(db, order, n, g, expected).matches[order[j]]
              == Recalculated(db, order, j + 1, g, expected).matches[order[j]]
    ensures AppliedLive(db, order, n, g, expected).matches[order[j]]
              == AppliedLive(db, order, j + 1, g, expected).matches[order[j]]
  {
    hide Delta, RecalcStep, Applied;
    if j + 1 < n {
      Left(db, order, j, n - 1, g, expected);
      StepLeaves(Recalculated(db, order, n - 1, g, expected), order[n - 1], order[j], g, expected);
      StepLeaves(AppliedLive(db, order, n - 1, g, expected), order[n - 1], order[j], g, expected);
    }
  }

  /** Rating a match marks every rated row. */
  lemma {:induction false} StoreMarks(db: Db, i: nat, ps: seq<Player>, n: nat, expected: Curve, r: nat)
    requires i < |db.matches| && n <= |ps| && r < |db.matches[i].rows|
    ensures |StoreAll(db, i, ps, n, expected).matches[i].rows| == |db.matches[i].rows|
    ensures var row := StoreAll(db, i, ps, n, expected).matches[i].rows[r];
            && row.eos == db.matches[i].rows[r].eos
            && ((exists k :: 0 <= k < n && ps[k].eos == row.eos) ==> row.change.Some?)
  {
    hide Delta;
    if n > 0 {
      StoreMarks(db, i, ps, n - 1, expected, r);
    }
  }

  lemma {:induction false} FirstRated(rows: seq<Row>, floor: int) returns (r: nat)
    requires Rated(rows, floor) != []
    ensures r < |rows| && rows[r] in Rated(rows, floor)
  {
    if rows[|rows| - 1].playtime >= floor {
      r := |rows| - 1;
    } else {
      r := FirstRated(rows[..|rows| - 1], floor);
    }
  }

  lemma {:induction false} RateMarks(db: Db, i: nat, g: Gates, expected: Curve)
    requires i < |db.matches| && Rated(db.matches[i].rows, g.minPlaytime) != []
    ensures !Unrated(Rate(db, i, g, expected).matches[i])
  {
    var rows, ps := Rated(db.matches[i].rows, g.minPlaytime), Lineup(db, i, g);
    var r := FirstRated(db.matches[i].rows, g.minPlaytime);
    var k :| 0 <= k < |rows| && rows[k] == db.matches[i].rows[r];
    assert ps[k].eos == rows[k].eos;
    StoreMarks(db, i, ps, |ps|, expected, r);
    hide StoreAll, Rated;
    var m := Rate(db, i, g, expected).matches[i];
    assert m.rows[r] in m.rows;
  }

  /** A rebuild gives the ratings, match counts and deltas of live application over the same matches
      in the same order, exactly when no gated match has a few players over the playtime floor
      but fewer than the minimum. */
  lemma {:induction false} RebuildEqualsLive(db: Db, order: seq<nat>, g: Gates, expected: Curve)
    requires Orderly(db, order)
    ensures Recalculated(Cleared(db), order, |order|, g, expected)
              == AppliedLive(Cleared(db), order, |order|, g, expected)
       <==> forall j :: 0 <= j < |order| ==> Agreeing(db.matches[order[j]], g)
  {
    var d := Cleared(db);
    forall k | 0 <= k < |db.matches|
      ensures Agreeing(d.matches[k], g) == Agreeing(db.matches[k], g) && Unrated(d.matches[k])
    {
      ClearedRated(db.matches[k].rows, g.minPlaytime);
    }
    if forall j :: 0 <= j < |order| ==> Agreeing(db.matches[order[j]], g) {
      PathsAgree(d, order, |order|, g, expected);
    } else {
      var j :| 0 <= j < |order| && !Agreeing(db.matches[order[j]], g);
      PathsDiffer(d, order, j, g, expected);
    }
  }

  lemma {:induction false} ClearedRated(rows: seq<Row>, floor: int)
    ensures |Rated(ClearedRows(rows), floor)| == |Rated(rows, floor)|
  {
    if rows != [] {
      ClearedRated(rows[..|rows| - 1], floor);
      assert ClearedRows(rows)[..|rows| - 1] == ClearedRows(rows[..|rows| - 1]);
    }
  }

  lemma {:induction false} PathsDiffer(db: Db, order: seq<nat>, j: nat, g: Gates, expected: Curve)
    requires Orderly(db, order) && j < |order|
    requires Unrated(db.matches[order[j]]) && !Agreeing(db.matches[order[j]], g)
    ensures Recalculated(db, order, |order|, g, expected) != AppliedLive(db, order, |order|, g, expected)
  {
    var i := order[j];
    Unreached(db, order, j, g, expected, i);
    var live := AppliedLive(db, order, j, g, expected);
    RateMarks(live, i, g, expected);
    Left(db, order, j, |order|, g, expected);
    hide Rate, Rated;
    assert AppliedLive(db, order, j + 1, g, expected) == Rate(live, i, g, expected);
    assert Recalculated(db, order, j + 1, g, expected).matches[i] == db.matches[i];
  }
}
