/** The books balance: every rating and match count is explained by the stored per-match changes. */
module EloAccounts {
  import opened Options
  import opened Sums
  import opened Elo
  import opened EloLedger

  function ChangeIn(eos: string): Row -> int {
    (r: Row) => if r.eos == eos && r.change.Some? then r.change.value else 0
  }

  function RatedIn(eos: string): Row -> int {
    (r: Row) => if r.eos == eos && r.change.Some? then 1 else 0
  }

  function MatchTotal(f: Row -> int): Match -> int {
    (m: Match) => Sum(m.rows, f)
  }

  /** The sum of a player's stored changes, over all matches. */
  function TotalChange(db: Db, eos: string): int {
    Sum(db.matches, MatchTotal(ChangeIn(eos)))
  }

  /** The number of a player's rows with a stored change, over all matches. */
  function RatedRowCount(db: Db, eos: string): int {
    Sum(db.matches, MatchTotal(RatedIn(eos)))
  }

  /** `floored` holds the players whose rating was ever lifted to the floor of 1. */
  ghost predicate Balanced(db: Db, floored: set<string>, eos: string) {
    var rating := RatingOf(db.ratings, eos);
    && rating.played == RatedRowCount(db, eos)
    && rating.elo >= 1
    && rating.elo >= STARTING_ELO + TotalChange(db, eos)
    && (eos !in floored ==> rating.elo == STARTING_ELO + TotalChange(db, eos))
  }

  ghost predicate Capped(db: Db) {
    forall k, r :: 0 <= k < |db.matches| && r in db.matches[k].rows && r.change.Some? ==>
      -ELO_MATCH_CAP <= r.change.value <= ELO_MATCH_CAP
  }

  ghost predicate BooksOk(db: Db, floored: set<string>) {
    Keyed(db) && Capped(db) && forall eos :: Balanced(db, floored, eos)
  }

  /* ----- one stored result ----- */

  /** Player p's row of match i is r, and it is not rated yet. */
  predicate Due(db: Db, i: nat, r: nat, p: Player) {
    && i < |db.matches| && r < |db.matches[i].rows|
    && db.matches[i].rows[r].eos == p.eos && db.matches[i].rows[r].change.None?
    && RatingOf(db.ratings, p.eos) == Rating(p.elo, p.played)
  }

  lemma {:induction false} StoreSums(db: Db, i: nat, r: nat, p: Player, delta: int, f: Row -> int)
    requires Keyed(db) && Due(db, i, r, p)
    ensures var row := db.matches[i].rows[r];
            Sum(Store(db, i, p, delta).matches, MatchTotal(f)) ==
            Sum(db.matches, MatchTotal(f)) - f(row) + f(row.(change := Some(delta)))
  {
    var rows := db.matches[i].rows;
    var row := rows[r].(change := Some(delta));
    assert SetChange(rows, p.eos, delta) == rows[r := row];
    SumUpdate(rows, r, row, f);
    SumUpdate(db.matches, i, db.matches[i].(rows := rows[r := row]), MatchTotal(f));
  }

  lemma {:induction false} StoreBalances(db: Db, i: nat, r: nat, p: Player, delta: int, floored: set<string>,
          eos: string)
    requires Keyed(db) && Due(db, i, r, p) && Balanced(db, floored, eos)
    ensures Balanced(Store(db, i, p, delta), if p.elo + delta < 1 then floored + {p.eos} else floored, eos)
  {
    StoreSums(db, i, r, p, delta, ChangeIn(eos));
    StoreSums(db, i, r, p, delta, RatedIn(eos));
  }

  lemma {:induction false} StoreCapped(db: Db, i: nat, p: Player, delta: int)
    requires i < |db.matches| && Capped(db) && -ELO_MATCH_CAP <= delta <= ELO_MATCH_CAP
    ensures Capped(Store(db, i, p, delta))
  {
    var out := Store(db, i, p, delta);
    forall k, row | 0 <= k < |out.matches| && row in out.matches[k].rows && row.change.Some?
      ensures -ELO_MATCH_CAP <= row.change.value <= ELO_MATCH_CAP
    {
      var j :| 0 <= j < |out.matches[k].rows| && out.matches[k].rows[j] == row;
      assert db.matches[k].rows[j] in db.matches[k].rows;
    }
  }

  /* ----- a whole match ----- */

  function FlooredBy(ps: seq<Player>, n: nat, expected: Curve): set<string>
    requires n <= |ps|
  {
    if n == 0 then {}
    else
      FlooredBy(ps, n - 1, expected)
      + if ps[n - 1].elo + Delta(ps, ps[n - 1], expected) < 1 then {ps[n - 1].eos} else {}
  }

  /** A player not among the first n keeps row and rating while those are stored. */
  lemma {:induction false} StillDue(db: Db, i: nat, ps: seq<Player>, n: nat, expected: Curve, r: nat, p: Player)
    requires n <= |ps| && Due(db, i, r, p) && forall k :: 0 <= k < n ==> ps[k].eos != p.eos
    ensures Due(StoreAll(db, i, ps, n, expected), i, r, p)
  {
    hide Delta;
    if n > 0 {
      StillDue(db, i, ps, n - 1, expected, r, p);
    }
  }

  ghost predicate AllDue(db: Db, i: nat, ps: seq<Player>) {
    forall k :: 0 <= k < |ps| ==> HasDue(db, i, ps[k])
  }

  ghost predicate HasDue(db: Db, i: nat, p: Player) {
    exists r :: Due(db, i, r, p)
  }

  lemma {:induction false} StoreAllOk(db: Db, i: nat, ps: seq<Player>, n: nat, expected: Curve, floored: set<string>)
    requires i < |db.matches| && n <= |ps| && Distinct(ps) && AllDue(db, i, ps) && BooksOk(db, floored)
    ensures BooksOk(StoreAll(db, i, ps, n, expected), floored + FlooredBy(ps, n, expected))
  {
    hide Delta, Balanced, Capped, Store, Due;
    if n == 0 {
      assert floored + {} == floored;
    } else {
      StoreAllOk(db, i, ps, n - 1, expected, floored);
      var p := ps[n - 1];
      assert HasDue(db, i, p);
      var r :| Due(db, i, r, p);
      StillDue(db, i, ps, n - 1, expected, r, p);
      StoreAllKeeps(db, i, ps, n, expected);
      DeltaIsCapped(ps, p, expected);
      StoreOk(StoreAll(db, i, ps, n - 1, expected), i, r, p, Delta(ps, p, expected),
              floored + FlooredBy(ps, n - 1, expected), floored + FlooredBy(ps, n, expected));
    }
  }

  lemma {:induction false} StoreOk(db: Db, i: nat, r: nat, p: Player, delta: int, floored: set<string>,
          floored': set<string>)
    requires BooksOk(db, floored) && Due(db, i, r, p) && -ELO_MATCH_CAP <= delta <= ELO_MATCH_CAP
    requires floored' == if p.elo + delta < 1 then floored + {p.eos} else floored
    requires Keyed(Store(db, i, p, delta))
    ensures BooksOk(Store(db, i, p, delta), floored')
  {
    StoreCapped(db, i, p, delta);
    forall eos
      ensures Balanced(Store(db, i, p, delta), floored', eos)
    {
      StoreBalances(db, i, r, p, delta, floored, eos);
    }
  }

  lemma {:induction false} LineupDue(db: Db, i: nat, g: Gates)
    requires Keyed(db) && i < |db.matches| && Unrated(db.matches[i])
    ensures AllDue(db, i, Lineup(db, i, g))
  {
    var rows := db.matches[i].rows;
    RatedRows(rows, g.minPlaytime);
    var ps := Lineup(db, i, g);
    forall k | 0 <= k < |ps|
      ensures HasDue(db, i, ps[k])
    {
      var row := Rated(rows, g.minPlaytime)[k];
      assert row in rows;
      var r: nat :| r < |rows| && rows[r] == row;
      assert Due(db, i, r, ps[k]);
    }
  }

  lemma {:induction false} RateOk(db: Db, i: nat, g: Gates, expected: Curve, floored: set<string>)
    requires i < |db.matches| && Unrated(db.matches[i]) && BooksOk(db, floored)
    ensures BooksOk(Rate(db, i, g, expected), floored + RateFloors(db, i, g, expected))
  {
    LineupDue(db, i, g);
    LineupDistinct(db, i, g);
    hide Lineup, BooksOk, AllDue, Distinct;
    StoreAllOk(db, i, Lineup(db, i, g), |Lineup(db, i, g)|, expected, floored);
  }

  function RateFloors(db: Db, i: nat, g: Gates, expected: Curve): set<string>
    requires i < |db.matches|
  {
    FlooredBy(Lineup(db, i, g), |Lineup(db, i, g)|, expected)
  }

  /* ----- every run ----- */

  /** A match begins, its rows or result are updated (also when it is re-opened), it is finalized,
      or all ratings are rebuilt. */
  datatype Op = Begin(m: Match) | Update(i: nat, m': Match) | Finalize(j: nat) | Rebuild(order: seq<nat>)

  /** Ticks add rows and change counters, but never touch a stored change or drop a row. */
  predicate Extends(rows: seq<Row>, rows': seq<Row>) {
    && |rows| <= |rows'| && DistinctRows(rows')
    && (forall k :: 0 <= k < |rows| ==> rows'[k].eos == rows[k].eos && rows'[k].change == rows[k].change)
    && (forall k :: |rows| <= k < |rows'| ==> rows'[k].change.None?)
  }

  ghost predicate Allowed(db: Db, op: Op) {
    match op
    case Begin(m) => Extends([], m.rows)
    case Update(i, m) => i < |db.matches| && Extends(db.matches[i].rows, m.rows)
    case Finalize(_) => true
    case Rebuild(order) => Orderly(db, order)
  }

  function After(db: Db, op: Op, g: Gates, expected: Curve): Db
    requires Allowed(db, op)
  {
    match op
    case Begin(m) => db.(matches := db.matches + [m])
    case Update(i, m) => db.(matches := db.matches[i := m])
    case Finalize(i) => Applied(db, i, g, expected)
    case Rebuild(order) => Recalculated(Cleared(db), order, |order|, g, expected)
  }

  function RebuildFloors(db: Db, order: seq<nat>, n: nat, g: Gates, expected: Curve): set<string>
    requires n <= |order| && Within(|db.matches|, order)
  {
    if n == 0 then {}
    else
      var before := Recalculated(db, order, n - 1, g, expected);
      RebuildFloors(db, order, n - 1, g, expected) +
      if RecalcRates(before.matches[order[n - 1]], g) then RateFloors(before, order[n - 1], g, expected) else {}
  }

  function FlooredAfter(db: Db, floored: set<string>, op: Op, g: Gates, expected: Curve): set<string>
    requires Allowed(db, op)
  {
    match op
    case Begin(_) => floored
    case Update(_, _) => floored
    case Finalize(i) => floored + if i < |db.matches| && Eligible(db, i, g) then RateFloors(db, i, g, expected) else {}
    case Rebuild(order) => RebuildFloors(Cleared(db), order, |order|, g, expected)
  }

  lemma {:induction false} ExtendedSum(rows: seq<Row>, rows': seq<Row>, f: Row -> int)
    requires Extends(rows, rows')
    requires forall a: Row, b: Row :: a.eos == b.eos && a.change == b.change ==> f(a) == f(b)
    requires forall a: Row :: a.change.None? ==> f(a) == 0
    ensures Sum(rows', f) == Sum(rows, f)
    decreases |rows'|
  {
    if |rows| < |rows'| {
      ExtendedSum(rows, rows'[..|rows'| - 1], f);
    } else if rows' != [] {
      ExtendedSum(rows[..|rows| - 1], rows'[..|rows'| - 1], f);
    }
  }

  lemma {:induction false} UpdateOk(db: Db, i: nat, m: Match, floored: set<string>)
    requires BooksOk(db, floored) && i < |db.matches| && Extends(db.matches[i].rows, m.rows)
    ensures BooksOk(db.(matches := db.matches[i := m]), floored)
  {
    var out := db.(matches := db.matches[i := m]);
    forall eos
      ensures Balanced(out, floored, eos)
    {
      assert Balanced(db, floored, eos);
      ExtendedSum(db.matches[i].rows, m.rows, ChangeIn(eos));
      ExtendedSum(db.matches[i].rows, m.rows, RatedIn(eos));
      SumUpdate(db.matches, i, m, MatchTotal(ChangeIn(eos)));
      SumUpdate(db.matches, i, m, MatchTotal(RatedIn(eos)));
    }
    UpdateCapped(db, i, m);
  }

  lemma {:induction false} UpdateCapped(db: Db, i: nat, m: Match)
    requires Capped(db) && i < |db.matches| && Extends(db.matches[i].rows, m.rows)
    ensures Capped(db.(matches := db.matches[i := m]))
  {
    forall row | row in m.rows && row.change.Some?
      ensures -ELO_MATCH_CAP <= row.change.value <= ELO_MATCH_CAP
    {
      var k :| 0 <= k < |m.rows| && m.rows[k] == row;
      assert db.matches[i].rows[k] in db.matches[i].rows;
    }
  }

  lemma {:induction false} BeginOk(db: Db, m: Match, floored: set<string>)
    requires BooksOk(db, floored) && Extends([], m.rows)
    ensures BooksOk(db.(matches := db.matches + [m]), floored)
  {
    var out := db.(matches := db.matches + [m]);
    forall eos
      ensures Balanced(out, floored, eos)
    {
      assert Balanced(db, floored, eos);
      ExtendedSum([], m.rows, ChangeIn(eos));
      ExtendedSum([], m.rows, RatedIn(eos));
      SumAppend(db.matches, m, MatchTotal(ChangeIn(eos)));
      SumAppend(db.matches, m, MatchTotal(RatedIn(eos)));
    }
  }

  lemma {:induction false} ClearedOk(db: Db)
    requires Keyed(db)
    ensures BooksOk(Cleared(db), {})
  {
    var out := Cleared(db);
    ClearKeeps(db);
    forall eos
      ensures Balanced(out, {}, eos)
    {
      forall m | m in out.matches
        ensures MatchTotal(ChangeIn(eos))(m) == 0 && MatchTotal(RatedIn(eos))(m) == 0
      {
        assert Unrated(m);
        SumConstant(m.rows, ChangeIn(eos), 0);
        SumConstant(m.rows, RatedIn(eos), 0);
      }
      SumConstant(out.matches, MatchTotal(ChangeIn(eos)), 0);
      SumConstant(out.matches, MatchTotal(RatedIn(eos)), 0);
    }
  }

  lemma {:induction false} RebuildOk(db: Db, order: seq<nat>, n: nat, g: Gates, expected: Curve)
    requires Orderly(db, order) && n <= |order| && BooksOk(db, {})
    requires forall k :: 0 <= k < |db.matches| ==> Unrated(db.matches[k])
    ensures BooksOk(Recalculated(db, order, n, g, expected), RebuildFloors(db, order, n, g, expected))
  {
    hide BooksOk, Rate, RateFloors, RecalcRates;
    if n > 0 {
      RebuildOk(db, order, n - 1, g, expected);
      Unreached(db, order, n - 1, g, expected, order[n - 1]);
      var before := Recalculated(db, order, n - 1, g, expected);
      var floors := RebuildFloors(db, order, n - 1, g, expected);
      assert floors + {} == floors;
      RateOk(before, order[n - 1], g, expected, RebuildFloors(db, order, n - 1, g, expected));
    }
  }

  lemma {:induction false} StepOk(db: Db, floored: set<string>, op: Op, g: Gates, expected: Curve)
    requires BooksOk(db, floored) && Allowed(db, op)
    ensures BooksOk(After(db, op, g, expected), FlooredAfter(db, floored, op, g, expected))
  {
    match op
    case Begin(m) => BeginOk(db, m, floored);
    case Update(i, m) => UpdateOk(db, i, m, floored);
    case Finalize(i) =>
      hide BooksOk;
      assert floored + {} == floored;
      if i < |db.matches| && Eligible(db, i, g) {
        RateOk(db, i, g, expected, floored);
      }
    case Rebuild(order) =>
      ClearedOk(db);
      ClearKeeps(db);
      RebuildOk(Cleared(db), order, |order|, g, expected);
  }

  /** The tables after n operations, from empty ones, and the players the floor ever caught. An
      operation the keys do not allow changes nothing. */
  ghost function Run(ops: seq<Op>, n: nat, g: Gates, expected: Curve): (Db, set<string>)
    requires n <= |ops|
  {
    if n == 0 then (Db([], map[]), {})
    else
      var (db, floored) := Run(ops, n - 1, g, expected);
      if Allowed(db, ops[n - 1]) then
        (After(db, ops[n - 1], g, expected), FlooredAfter(db, floored, ops[n - 1], g, expected))
      else (db, floored)
  }

  /** In every run, with matches re-opened and finalized again and ratings rebuilt at will: a
      player's match count is the number of their rated rows; no stored change leaves [-15, 15];
      the rating is at least 1 and at least 1000 plus the stored changes, and exactly that unless
      the floor ever bit. */
  lemma {:induction false} BooksAlwaysBalance(ops: seq<Op>, n: nat, g: Gates, expected: Curve)
    requires n <= |ops|
    ensures BooksOk(Run(ops, n, g, expected).0, Run(ops, n, g, expected).1)
  {
    if n > 0 {
      hide BooksOk, After, FlooredAfter;
      BooksAlwaysBalance(ops, n - 1, g, expected);
      var (db, floored) := Run(ops, n - 1, g, expected);
      if Allowed(db, ops[n - 1]) {
        StepOk(db, floored, ops[n - 1], g, expected);
      }
    }
  }
}
