/** What ratings are for: who wins gains, who loses pays, and the books get exactly that. */
module EloLaws {
  import opened Options
  import opened Rounding
  import opened Sums
  import opened Elo
  import opened EloLedger

  /* ----- a match of two ----- */

  function Sign(won: Option<bool>): int {
    match won
    case None => 0
    case Some(w) => if w then 1 else -1
  }

  function Better(x: real, y: real): int {
    if x > y then 1 else if x < y then -1 else 0
  }

  /** From -2, lost and played worse, to 2, won and played better. */
  function Merit(p: Player, q: Player): int {
    Sign(p.won) + Better(p.perf, q.perf)
  }

  function Edge(p: Player, q: Player, expected: Curve): real {
    0.5 + Merit(p, q) as real / 4.0 - expected((q.elo - p.elo) as real / 1000.0)
  }

  lemma {:induction false} SumOfTwo(p: Player, q: Player, f: Player -> int)
    ensures Sum([p, q], f) == f(p) + f(q)
  {
    assert [p, q] == [p] + [q] && [p] == [] + [p];
    SumAppend([], p, f);
    SumAppend([p], q, f);
  }

  lemma {:induction false} DuelMidrank(p: Player, q: Player)
    ensures Midrank([p, q], p.perf) == 0.5 + Better(p.perf, q.perf) as real / 2.0
    ensures Midrank([p, q], q.perf) == 0.5 + Better(q.perf, p.perf) as real / 2.0
  {
    SumOfTwo(p, q, Lower(p.perf));
    SumOfTwo(p, q, Tied(p.perf));
    SumOfTwo(p, q, Lower(q.perf));
    SumOfTwo(p, q, Tied(q.perf));
    hide Sum;
  }

  lemma {:induction false} DuelAverages(p: Player, q: Player)
    requires p.team == Some(1) && q.team == Some(2)
    ensures TeamAverage([p, q], 1) == p.elo as real && TeamAverage([p, q], 2) == q.elo as real
  {
    SumOfTwo(p, q, InTeam(1));
    SumOfTwo(p, q, InTeam(2));
    SumOfTwo(p, q, EloInTeam(1));
    SumOfTwo(p, q, EloInTeam(2));
    hide Sum;
    assert p.elo as real / 1.0 == p.elo as real && q.elo as real / 1.0 == q.elo as real;
  }

  /** In a match of two, half the result and half the comparison of their scores, against what the difference of
      their ratings let expect, times 32 for a newcomer and 16 for others, in full points and at most 15. */
  lemma {:induction false} DuelDeltas(p: Player, q: Player, expected: Curve)
    requires p.team == Some(1) && q.team == Some(2)
    ensures Delta([p, q], p, expected) == Capped15(Round(Weight(p) * Edge(p, q, expected)))
    ensures Delta([p, q], q, expected) == Capped15(Round(Weight(q) * Edge(q, p, expected)))
  {
    hide Midrank, TeamAverage, Round, Swing, Edge;
    DuelMidrank(p, q);
    DuelAverages(p, q);
    SwingIs(p, q, Midrank([p, q], p.perf), expected);
    SwingIs(q, p, Midrank([p, q], q.perf), expected);
  }

  lemma {:induction false} SwingIs(p: Player, q: Player, percentile: real, expected: Curve)
    requires percentile == 0.5 + Better(p.perf, q.perf) as real / 2.0
    ensures Swing(p, percentile, q.elo as real, expected) == Capped15(Round(Weight(p) * Edge(p, q, expected)))
  {
    hide Round;
    assert (q.elo as real - p.elo as real) / 1000.0 == (q.elo - p.elo) as real / 1000.0;
    var edge := 0.5 * WinScore(p.won) + 0.5 * percentile - expected((q.elo as real - p.elo as real) / 1000.0);
    assert edge == Edge(p, q, expected);
    assert KFactor(p.played) as real == Weight(p);
  }

  function Weight(p: Player): real {
    if p.played < 100 then 32.0 else 16.0
  }

  function Capped15(x: int): int {
    if x > 15 then 15 else if x < -15 then -15 else x
  }

  /** Between equals, a newcomer's result and score are worth 8 points each, a veteran's 4. */
  lemma {:induction false} DuelOfEquals(p: Player, q: Player, expected: Curve)
    requires p.team == Some(1) && q.team == Some(2) && p.elo == q.elo && expected(0.0) == 0.5
    ensures Delta([p, q], p, expected)
              == if p.played >= 100 then 4 * Merit(p, q)
                 else if Merit(p, q) == 2 then 15 else if Merit(p, q) == -2 then -15 else 8 * Merit(p, q)
  {
    DuelDeltas(p, q, expected);
    hide Delta;
    var m := Merit(p, q);
    assert (q.elo - p.elo) as real / 1000.0 == 0.0;
    assert Weight(p) * Edge(p, q, expected) == (if p.played < 100 then 8 * m else 4 * m) as real;
  }

  lemma {:induction false} RoundIsOdd(x: real)
    ensures Round(-x) == -Round(x)
  {
    var below := x.Floor;
    var rest := x - below as real;
    if rest == 0.0 {
      assert (-x).Floor == -below;
    } else {
      assert (-x).Floor == -below - 1;
    }
  }

  /** Where the curve treats both sides alike, as the logistic one does, what one of two players with the same
      weight wins is what the other loses. */
  lemma {:induction false} DuelIsZeroSum(p: Player, q: Player, expected: Curve)
    requires p.team == Some(1) && q.team == Some(2) && Sign(q.won) == -Sign(p.won) && Weight(p) == Weight(q)
    requires forall x :: expected(-x) == 1.0 - expected(x)
    ensures Delta([p, q], p, expected) + Delta([p, q], q, expected) == 0
  {
    DuelDeltas(p, q, expected);
    hide Delta, Round;
    var x := (q.elo - p.elo) as real / 1000.0;
    assert (p.elo - q.elo) as real / 1000.0 == -x;
    assert Edge(q, p, expected) == -Edge(p, q, expected);
    assert Weight(q) * Edge(q, p, expected) == -(Weight(p) * Edge(p, q, expected));
    RoundIsOdd(Weight(p) * Edge(p, q, expected));
  }

  /* ----- any match ----- */

  lemma {:induction false} SumAlike(ps: seq<Player>, qs: seq<Player>, f: Player -> int)
    requires |ps| == |qs| && forall k :: 0 <= k < |ps| ==> f(ps[k]) == f(qs[k])
    ensures Sum(ps, f) == Sum(qs, f)
  {
    if ps != [] {
      SumAlike(ps[..|ps| - 1], qs[..|qs| - 1], f);
    }
  }

  lemma {:induction false} SumAtMost(ps: seq<Player>, qs: seq<Player>, f: Player -> int)
    requires |ps| == |qs| && forall k :: 0 <= k < |ps| ==> f(ps[k]) <= f(qs[k])
    ensures Sum(ps, f) <= Sum(qs, f)
  {
    if ps != [] {
      SumAtMost(ps[..|ps| - 1], qs[..|qs| - 1], f);
    }
  }

  /** The same players, apart from results and ratings. */
  predicate SameField(ps: seq<Player>, qs: seq<Player>) {
    && |ps| == |qs|
    && forall k :: 0 <= k < |ps| ==> ps[k].perf == qs[k].perf && ps[k].team == qs[k].team
  }

  lemma {:induction false} SameMidrank(ps: seq<Player>, qs: seq<Player>, x: real)
    requires SameField(ps, qs) && ps != []
    ensures Midrank(ps, x) == Midrank(qs, x)
  {
    SumAlike(ps, qs, Lower(x));
    SumAlike(ps, qs, Tied(x));
    hide Sum;
  }

  /** Winning pays at least as much as anything else, and losing at most, for every player of every match. */
  lemma {:induction false} WinningNeverCosts(rows: seq<Row>, ratings: Ratings, r: Row, mine: Option<int>,
          any: Option<int>, theirs: Option<int>, expected: Curve)
    requires rows != [] && r.team.Some? && mine == r.team && mine != Some(0)
    requires theirs.Some? && theirs != Some(0) && theirs != r.team
    ensures Delta(PlayersOf(rows, theirs, ratings), PlayerOf(r, theirs, ratings), expected)
         <= Delta(PlayersOf(rows, any, ratings), PlayerOf(r, any, ratings), expected)
         <= Delta(PlayersOf(rows, mine, ratings), PlayerOf(r, mine, ratings), expected)
  {
    ResultOrders(rows, ratings, r, theirs, any, expected);
    ResultOrders(rows, ratings, r, any, mine, expected);
  }

  lemma {:induction false} ResultOrders(rows: seq<Row>, ratings: Ratings, r: Row, a: Option<int>, b: Option<int>,
          expected: Curve)
    requires rows != [] && WinScore(WasWinner(r.team, a)) <= WinScore(WasWinner(r.team, b))
    ensures Delta(PlayersOf(rows, a, ratings), PlayerOf(r, a, ratings), expected)
         <= Delta(PlayersOf(rows, b, ratings), PlayerOf(r, b, ratings), expected)
  {
    hide Bounded, WinScore, WasWinner, Sum;
    var ps, qs := PlayersOf(rows, a, ratings), PlayersOf(rows, b, ratings);
    var p, q := PlayerOf(r, a, ratings), PlayerOf(r, b, ratings);
    var team := if r.team == Some(1) then 2 else 1;
    SameMidrank(ps, qs, r.perf);
    SumAlike(ps, qs, InTeam(team));
    SumAlike(ps, qs, EloInTeam(team));
    hide Midrank;
    var opponents := TeamAverage(ps, team);
    assert TeamAverage(qs, team) == opponents;
    var e := expected((opponents - p.elo as real) / 1000.0);
    BoundedRises(KFactor(p.played), 0.5 * WinScore(p.won) + 0.5 * Midrank(ps, p.perf) - e,
                 0.5 * WinScore(q.won) + 0.5 * Midrank(qs, q.perf) - e);
  }

  /** The same result against higher rated opponents pays at least as much; how the own team is rated does not
      matter. */
  lemma {:induction false} TougherOpponentsNeverCost(ps: seq<Player>, qs: seq<Player>, p: Player, expected: Curve)
    requires SameField(ps, qs) && ps != [] && IsCurve(expected)
    requires p.team == Some(1) || p.team == Some(2)
    requires forall k :: 0 <= k < |ps| && ps[k].team.Some? && ps[k].team != p.team ==> ps[k].elo <= qs[k].elo
    ensures Delta(ps, p, expected) <= Delta(qs, p, expected)
  {
    hide Bounded, WinScore, Sum;
    var team := if p.team == Some(1) then 2 else 1;
    SameMidrank(ps, qs, p.perf);
    SumAlike(ps, qs, InTeam(team));
    SumAtMost(ps, qs, EloInTeam(team));
    AverageRises(ps, qs, team);
    hide Midrank, TeamAverage;
    var easy := (TeamAverage(ps, team) - p.elo as real) / 1000.0;
    var hard := (TeamAverage(qs, team) - p.elo as real) / 1000.0;
    assert easy <= hard;
    assert expected(hard) <= expected(easy);
    var actual := 0.5 * WinScore(p.won) + 0.5 * Midrank(ps, p.perf);
    BoundedRises(KFactor(p.played), actual - expected(easy), actual - expected(hard));
  }

  lemma {:induction false} AverageRises(ps: seq<Player>, qs: seq<Player>, team: int)
    requires Sum(ps, InTeam(team)) == Sum(qs, InTeam(team)) && Sum(ps, EloInTeam(team)) <= Sum(qs, EloInTeam(team))
    ensures TeamAverage(ps, team) <= TeamAverage(qs, team)
  {
    hide Sum;
    var size := Sum(ps, InTeam(team));
    if size > 0 {
      RealFractions(Sum(ps, EloInTeam(team)), Sum(qs, EloInTeam(team)), size);
    }
  }

  /* ----- what is booked ----- */

  lemma {:induction false} RatedExactly(rows: seq<Row>, floor: int, r: Row)
    ensures r in Rated(rows, floor) <==> r in rows && r.playtime >= floor
  {
    if rows != [] {
      RatedExactly(rows[..|rows| - 1], floor, r);
      assert rows == rows[..|rows| - 1] + [rows[|rows| - 1]];
    }
  }

  /** A player who is not among those stored keeps row and rating. */
  lemma {:induction false} NotStored(db: Db, i: nat, ps: seq<Player>, n: nat, expected: Curve, r: nat)
    requires i < |db.matches| && n <= |ps| && r < |db.matches[i].rows|
    requires forall k :: 0 <= k < n ==> ps[k].eos != db.matches[i].rows[r].eos
    ensures var out := StoreAll(db, i, ps, n, expected);
            && |out.matches[i].rows| == |db.matches[i].rows| && out.matches[i].rows[r] == db.matches[i].rows[r]
            && RatingOf(out.ratings, db.matches[i].rows[r].eos) == RatingOf(db.ratings, db.matches[i].rows[r].eos)
  {
    hide Delta;
    if n > 0 {
      NotStored(db, i, ps, n - 1, expected, r);
    }
  }

  /** One who is gets the delta, and a rating moved by it. */
  lemma {:induction false} StoredOnce(db: Db, i: nat, ps: seq<Player>, n: nat, expected: Curve, k: nat, r: nat)
    requires i < |db.matches| && Distinct(ps) && k < n <= |ps| && r < |db.matches[i].rows|
    requires db.matches[i].rows[r].eos == ps[k].eos
    ensures var out := StoreAll(db, i, ps, n, expected);
            && |out.matches[i].rows| == |db.matches[i].rows|
            && out.matches[i].rows[r] == db.matches[i].rows[r].(change := Some(Delta(ps, ps[k], expected)))
            && RatingOf(out.ratings, ps[k].eos) == NewRating(ps[k], Delta(ps, ps[k], expected))
  {
    hide Delta;
    if k + 1 < n {
      StoredOnce(db, i, ps, n - 1, expected, k, r);
    } else {
      NotStored(db, i, ps, k, expected, r);
    }
  }

  /** A finished match is rated exactly if it has enough rows, was long enough and ended verifiably, none of its
      rows was rated yet, and somebody played long enough. Each of those then gets a change of at most 15 points
      in his row, one more rated match, and a rating moved by the change but not below 1; everybody else's row
      and rating stay. */
  lemma {:induction false} BookedExactly(db: Db, i: nat, g: Gates, expected: Curve, r: nat)
    requires Keyed(db) && i < |db.matches| && r < |db.matches[i].rows|
    ensures var m, out := db.matches[i], Applied(db, i, g, expected);
            var row, eos := m.rows[r], m.rows[r].eos;
            if |m.rows| >= g.minPlayers && m.duration >= g.minDuration && m.verified
               && (forall x :: x in m.rows ==> x.change.None?) && row.playtime >= g.minPlaytime
            then
              Lineup(db, i, g) != [] &&
              var delta := Delta(Lineup(db, i, g), PlayerOf(row, m.winner, db.ratings), expected);
              var was, now := RatingOf(db.ratings, eos), RatingOf(out.ratings, eos);
              && -15 <= delta <= 15 && |out.matches[i].rows| == |m.rows|
              && out.matches[i].rows[r] == row.(change := Some(delta))
              && now.played == was.played + 1
              && now.elo == if was.elo + delta < 1 then 1 else was.elo + delta
            else
              && |out.matches[i].rows| == |m.rows| && out.matches[i].rows[r] == row
              && RatingOf(out.ratings, eos) == RatingOf(db.ratings, eos)
  {
    hide Delta, StoreAll, Rated;
    var m, ps := db.matches[i], Lineup(db, i, g);
    var row, rated := m.rows[r], Rated(m.rows, g.minPlaytime);
    if Eligible(db, i, g) {
      LineupDistinct(db, i, g);
      RatedExactly(m.rows, g.minPlaytime, row);
      assert row in m.rows;
      if row.playtime >= g.minPlaytime {
        var k :| 0 <= k < |rated| && rated[k] == row;
        StoredOnce(db, i, ps, |ps|, expected, k, r);
        DeltaIsCapped(ps, ps[k], expected);
      } else {
        OthersAreRated(m.rows, g.minPlaytime, row);
        NotStored(db, i, ps, |ps|, expected, r);
      }
    } else {
      RatedExactly(m.rows, g.minPlaytime, row);
      assert row in m.rows;
    }
  }

  lemma {:induction false} OthersAreRated(rows: seq<Row>, floor: int, row: Row)
    requires DistinctRows(rows) && row in rows && row.playtime < floor
    ensures forall x :: x in Rated(rows, floor) ==> x.eos != row.eos
  {
    forall x | x in Rated(rows, floor)
      ensures x.eos != row.eos
    {
      RatedExactly(rows, floor, x);
    }
  }

  lemma {:induction false} NotInLineup(db: Db, i: nat, ps: seq<Player>, n: nat, expected: Curve, eos: string)
    requires i < |db.matches| && n <= |ps| && forall k :: 0 <= k < n ==> ps[k].eos != eos
    ensures RatingOf(StoreAll(db, i, ps, n, expected).ratings, eos) == RatingOf(db.ratings, eos)
  {
    hide Delta;
    if n > 0 {
      NotInLineup(db, i, ps, n - 1, expected, eos);
    }
  }

  /** Who has no row in a match, and every other match, is not touched. */
  lemma {:induction false} StrangersKeep(db: Db, i: nat, g: Gates, expected: Curve, eos: string, k: nat)
    requires i < |db.matches| && k < |db.matches| && forall r :: r in db.matches[i].rows ==> r.eos != eos
    ensures RatingOf(Applied(db, i, g, expected).ratings, eos) == RatingOf(db.ratings, eos)
    ensures |Applied(db, i, g, expected).matches| == |db.matches|
    ensures k != i ==> Applied(db, i, g, expected).matches[k] == db.matches[k]
  {
    hide Delta, StoreAll, Rated;
    var rows, ps := Rated(db.matches[i].rows, g.minPlaytime), Lineup(db, i, g);
    forall x | 0 <= x < |ps|
      ensures ps[x].eos != eos
    {
      RatedExactly(db.matches[i].rows, g.minPlaytime, rows[x]);
    }
    NotInLineup(db, i, ps, |ps|, expected, eos);
  }
}
