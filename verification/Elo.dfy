/** Finite sums over sequences, and what does not depend on their order. */
module Sums {
  function Sum<T>(s: seq<T>, f: T -> int): int {
    if s == [] then 0 else Sum(s[..|s| - 1], f) + f(s[|s| - 1])
  }

  lemma {:induction false} SumAppend<T>(s: seq<T>, x: T, f: T -> int)
    ensures Sum(s + [x], f) == Sum(s, f) + f(x)
  {
    assert (s + [x])[..|s|] == s;
  }

  lemma {:induction false} SumConcat<T>(s: seq<T>, t: seq<T>, f: T -> int)
    ensures Sum(s + t, f) == Sum(s, f) + Sum(t, f)
  {
    if t == [] {
      assert s + t == s;
    } else {
      SumConcat(s, t[..|t| - 1], f);
      assert (s + t)[..|s + t| - 1] == s + t[..|t| - 1];
    }
  }

  lemma {:induction false} SumRemove<T>(s: seq<T>, k: nat, f: T -> int)
    requires k < |s|
    ensures Sum(s, f) == Sum(s[..k] + s[k + 1..], f) + f(s[k])
  {
    SumConcat(s[..k], s[k + 1..], f);
    SumConcat(s[..k] + [s[k]], s[k + 1..], f);
    SumAppend(s[..k], s[k], f);
    assert s[..k] + [s[k]] + s[k + 1..] == s;
  }

  lemma {:induction false} SumUpdate<T>(s: seq<T>, k: nat, x: T, f: T -> int)
    requires k < |s|
    ensures Sum(s[k := x], f) == Sum(s, f) - f(s[k]) + f(x)
  {
    SumRemove(s, k, f);
    SumRemove(s[k := x], k, f);
    assert s[k := x][..k] + s[k := x][k + 1..] == s[..k] + s[k + 1..];
  }

  lemma {:induction false} WithoutLast<T>(s: seq<T>)
    requires s != []
    ensures multiset(s) == multiset(s[..|s| - 1]) + multiset{s[|s| - 1]}
  {
    assert s == s[..|s| - 1] + [s[|s| - 1]];
  }

  lemma {:induction false} WithoutOne<T>(s: seq<T>, k: nat)
    requires k < |s|
    ensures multiset(s) == multiset(s[..k] + s[k + 1..]) + multiset{s[k]}
  {
    assert s == s[..k] + ([s[k]] + s[k + 1..]);
    assert multiset(s[..k] + s[k + 1..]) == multiset(s[..k]) + multiset(s[k + 1..]);
  }

  lemma {:induction false} IndexOf<T>(s: seq<T>, x: T) returns (k: nat)
    requires x in multiset(s)
    ensures k < |s| && s[k] == x
  {
    assert x in s;
    k :| k < |s| && s[k] == x;
  }

  lemma {:induction false} SameMultiset<T>(a: multiset<T>, b: multiset<T>, x: T)
    requires a + multiset{x} == b + multiset{x}
    ensures a == b
  {
    assert a + multiset{x} - multiset{x} == a;
    assert b + multiset{x} - multiset{x} == b;
  }

  lemma {:induction false} SumPermutes<T>(s: seq<T>, t: seq<T>, f: T -> int)
    requires multiset(s) == multiset(t)
    ensures Sum(s, f) == Sum(t, f)
    decreases |s|
  {
    if s == [] {
      assert |multiset(t)| == 0;
    } else {
      var last, rest := s[|s| - 1], s[..|s| - 1];
      WithoutLast(s);
      var k := IndexOf(t, last);
      WithoutOne(t, k);
      SameMultiset(multiset(rest), multiset(t[..k] + t[k + 1..]), last);
      SumPermutes(rest, t[..k] + t[k + 1..], f);
      SumRemove(t, k, f);
    }
  }

  lemma {:induction false} SumSame<T>(s: seq<T>, f: T -> int, g: T -> int)
    requires forall x :: x in s ==> f(x) == g(x)
    ensures Sum(s, f) == Sum(s, g)
  {
    if s != [] {
      SumSame(s[..|s| - 1], f, g);
    }
  }

  lemma {:induction false} SumPlus<T>(s: seq<T>, f: T -> int, g: T -> int)
    ensures Sum(s, x => f(x) + g(x)) == Sum(s, f) + Sum(s, g)
  {
    if s != [] {
      SumPlus(s[..|s| - 1], f, g);
    }
  }

  lemma {:induction false} SumConstant<T>(s: seq<T>, f: T -> int, c: int)
    requires forall x :: x in s ==> f(x) == c
    ensures Sum(s, f) == |s| * c
  {
    if s != [] {
      SumConstant(s[..|s| - 1], f, c);
    }
  }
}

/** Per-match ratings: performance percentiles and the rating deltas drawn from them. */
module Elo {
  import opened Options
  import opened Rounding
  import opened Sums

  const STARTING_ELO := 1000
  const K_INITIAL := 32
  const K_STABLE := 16
  const ELO_MATCH_CAP := 15

  datatype Player = Player(eos: string, team: Option<int>, perf: real, won: Option<bool>, elo: int, played: nat)

  predicate Distinct(ps: seq<Player>) {
    forall i, j :: 0 <= i < j < |ps| ==> ps[i].eos != ps[j].eos
  }

  function Lower(x: real): Player -> int {
    (p: Player) => if p.perf < x then 1 else 0
  }

  function Tied(x: real): Player -> int {
    (p: Player) => if p.perf == x then 1 else 0
  }

  /** The percentile of a score in a match: those strictly below count fully and those tied, the
      player included, count half; a lone player has 0.5. */
  function Midrank(ps: seq<Player>, x: real): real
    requires ps != []
  {
    if |ps| == 1 then 0.5
    else (2 * Sum(ps, Lower(x)) + Sum(ps, Tied(x)) - 1) as real / (2 * (|ps| - 1)) as real
  }

  /* ----- quotients of reals ----- */

  /** A quotient is settled by its own equation. */
  lemma {:induction false} QuotientIs(x: real, d: real, q: real)
    requires 0.0 < d && q * d == x
    ensures x / d == q
  {
    var r := x / d;
    assert r * d == x;
    QuotientRises(x, x, d, r, q);
    QuotientRises(x, x, d, q, r);
  }

  lemma {:induction false} QuotientRises(x: real, y: real, d: real, q: real, r: real)
    requires 0.0 < d && q * d == x && r * d == y
    ensures q < r <==> x < y
  {
    if q < r {
      ProductRises(q, r, d);
    } else if r < q {
      ProductRises(r, q, d);
    }
  }

  lemma {:induction false} ProductRises(q: real, r: real, d: real)
    requires 0.0 < d && q < r
    ensures q * d < r * d
  {
    var w := r - q;
    PositiveProduct(w, d);
    Distributes(q, w, d);
    assert q + w == r;
  }

  lemma {:induction false} Distributes(x: real, y: real, d: real)
    ensures (x + y) * d == x * d + y * d
  {
  }

  lemma {:induction false} PositiveProduct(x: real, d: real)
    requires 0.0 < d && 0.0 < x
    ensures 0.0 < x * d
  {
  }

  lemma {:induction false} HalfQuotient(x: real, d: real)
    requires 0.0 < d
    ensures x / (2.0 * d) == x / 2.0 / d
  {
    var q := x / 2.0 / d;
    assert q * d == x / 2.0;
    TwiceProduct(q, d);
    QuotientIs(x, 2.0 * d, q);
  }

  lemma {:induction false} TwiceProduct(q: real, d: real)
    ensures q * (2.0 * d) == 2.0 * (q * d)
  {
  }

  /* ----- sorting by score, keeping the order of equals ----- */

  function Insert(s: seq<Player>, p: Player): seq<Player> {
    if s == [] || s[|s| - 1].perf <= p.perf then s + [p]
    else Insert(s[..|s| - 1], p) + [s[|s| - 1]]
  }

  function Ranked(ps: seq<Player>): seq<Player> {
    if ps == [] then [] else Insert(Ranked(ps[..|ps| - 1]), ps[|ps| - 1])
  }

  predicate Ascending(s: seq<Player>) {
    forall i, j :: 0 <= i < j < |s| ==> s[i].perf <= s[j].perf
  }

  lemma {:induction false} InsertKeeps(s: seq<Player>, p: Player)
    ensures multiset(Insert(s, p)) == multiset(s) + multiset{p}
    ensures |Insert(s, p)| == |s| + 1
  {
    if s != [] && s[|s| - 1].perf > p.perf {
      InsertKeeps(s[..|s| - 1], p);
      WithoutLast(s);
    }
  }

  predicate AtMost(s: seq<Player>, x: real) {
    forall i :: 0 <= i < |s| ==> s[i].perf <= x
  }

  lemma {:induction false} InsertRanks(s: seq<Player>, p: Player, x: real)
    requires Ascending(s) && AtMost(s, x) && p.perf <= x
    ensures Ascending(Insert(s, p)) && AtMost(Insert(s, p), x)
  {
    if s != [] && s[|s| - 1].perf > p.perf {
      InsertRanks(s[..|s| - 1], p, s[|s| - 1].perf);
    }
  }

  lemma {:induction false} RankedSorts(ps: seq<Player>)
    ensures Ascending(Ranked(ps)) && multiset(Ranked(ps)) == multiset(ps) && |Ranked(ps)| == |ps|
  {
    if ps != [] {
      var rest, p := Ranked(ps[..|ps| - 1]), ps[|ps| - 1];
      RankedSorts(ps[..|ps| - 1]);
      InsertKeeps(rest, p);
      InsertRanks(rest, p, if rest != [] && rest[|rest| - 1].perf > p.perf then rest[|rest| - 1].perf else p.perf);
      WithoutLast(ps);
    }
  }

  lemma {:induction false} DistinctPermutes(ps: seq<Player>, qs: seq<Player>)
    requires Distinct(ps) && multiset(ps) == multiset(qs)
    ensures Distinct(qs)
  {
    forall i, j | 0 <= i < j < |qs|
      ensures qs[i].eos != qs[j].eos
    {
      var rest := qs[..j] + qs[j + 1..];
      WithoutOne(qs, j);
      assert rest[i] == qs[i];
      OnceEach(ps, qs[i], qs[j], multiset(rest));
    }
  }

  /** Two entries of a list of distinct players have different ids. */
  lemma {:induction false} OnceEach(ps: seq<Player>, p: Player, q: Player, others: multiset<Player>)
    requires Distinct(ps) && multiset(ps) == others + multiset{q} && p in others
    ensures p.eos != q.eos
  {
    var k := IndexOf(ps, q);
    WithoutOne(ps, k);
    SameMultiset(multiset(ps[..k] + ps[k + 1..]), others, q);
    var rest := ps[..k] + ps[k + 1..];
    var m := IndexOf(rest, p);
    assert rest[m] == if m < k then ps[m] else ps[m + 1];
  }

  /* ----- the loop over tied blocks ----- */

  /** In a ranked list whose block of score x is i..j inclusive, i players are lower and j - i + 1 tied. */
  lemma {:induction false} BlockCounts(s: seq<Player>, x: real, i: nat, j: int)
    requires i <= j + 1 <= |s|
    requires forall k :: 0 <= k < i ==> s[k].perf < x
    requires forall k :: i <= k <= j ==> s[k].perf == x
    requires forall k :: j < k < |s| ==> s[k].perf > x
    ensures Sum(s, Lower(x)) == i && Sum(s, Tied(x)) == j - i + 1
  {
    if s != [] {
      var rest := s[..|s| - 1];
      if j + 1 < |s| {
        BlockCounts(rest, x, i, j);
      } else if i <= j {
        BlockCounts(rest, x, i, j - 1);
      } else {
        BlockCounts(rest, x, i - 1, j - 1);
      }
    }
  }

  lemma {:induction false} MidrankPermutes(ps: seq<Player>, qs: seq<Player>, x: real)
    requires ps != [] && multiset(ps) == multiset(qs)
    ensures qs != [] && Midrank(ps, x) == Midrank(qs, x)
  {
    assert ps[0] in multiset(qs);
    assert |multiset(ps)| == |multiset(qs)|;
    SumPermutes(ps, qs, Lower(x));
    SumPermutes(ps, qs, Tied(x));
  }

  lemma {:induction false} SharedIsMidrank(ps: seq<Player>, ranked: seq<Player>, i: nat, j: nat)
    requires |ps| >= 2 && multiset(ranked) == multiset(ps) && |ranked| == |ps| && Ascending(ranked)
    requires i <= j < |ranked|
    requires i > 0 ==> ranked[i - 1].perf < ranked[i].perf
    requires forall k :: i <= k <= j ==> ranked[k].perf == ranked[i].perf
    requires j + 1 < |ranked| ==> ranked[j + 1].perf != ranked[i].perf
    ensures Midrank(ps, ranked[i].perf) == (i + j) as real / 2.0 / (|ps| - 1) as real
  {
    var x := ranked[i].perf;
    forall k | 0 <= k < i
      ensures ranked[k].perf < x
    {
      assert ranked[k].perf <= ranked[i - 1].perf;
    }
    forall k | j < k < |ranked|
      ensures ranked[k].perf > x
    {
      assert ranked[j + 1].perf <= ranked[k].perf;
    }
    BlockCounts(ranked, x, i, j);
    MidrankPermutes(ps, ranked, x);
    hide Sum, Ascending;
    MidpointOfRanks(i, j, |ps|);
  }

  lemma {:induction false} MidpointOfRanks(i: int, j: int, n: int)
    requires n >= 2
    ensures (2 * i + (j - i + 1) - 1) as real / (2 * (n - 1)) as real == (i + j) as real / 2.0 / (n - 1) as real
  {
    var m := (n - 1) as real;
    assert (2 * (n - 1)) as real == 2.0 * m;
    HalfQuotient((i + j) as real, m);
  }

  function Ids(ps: seq<Player>): set<string> {
    set p | p in ps :: p.eos
  }

  /** `pct` holds the midranks of exactly these players. */
  ghost predicate Ranks(pct: map<string, real>, all: seq<Player>, done: seq<Player>)
    requires all != []
  {
    pct.Keys == Ids(done) && forall p :: p in done ==> pct[p.eos] == Midrank(all, p.perf)
  }

  lemma {:induction false} RanksNobody(all: seq<Player>)
    requires all != []
    ensures Ranks(map[], all, [])
  {
  }

  lemma {:induction false} RanksOneMore(pct: map<string, real>, all: seq<Player>, done: seq<Player>, p: Player)
    requires all != [] && Ranks(pct, all, done) && p.eos !in Ids(done)
    ensures Ranks(pct[p.eos := Midrank(all, p.perf)], all, done + [p])
  {
    hide Midrank;
  }

  lemma {:induction false} NewId(ranked: seq<Player>, k: nat)
    requires Distinct(ranked) && k < |ranked|
    ensures ranked[k].eos !in Ids(ranked[..k])
  {
  }

  /** Each player's percentile; ties share the midpoint of the ranks they span. */
  method Percentiles(players: seq<Player>) returns (pct: map<string, real>)
    requires Distinct(players)
    ensures pct.Keys == Ids(players)
    ensures forall p :: p in players ==> pct[p.eos] == Midrank(players, p.perf)
  {
    var n := |players|;
    if n == 0 {
      return map[];
    } else if n == 1 {
      LonePlayer(players);
      return map[players[0].eos := 0.5];
    }
    var ranked := Ranked(players);
    RankedSorts(players);
    DistinctPermutes(players, ranked);
    SameMembers(players, ranked);
    hide Midrank, Ranked;
    pct := RankBlocks(players, ranked);
  }

  /** Walks the ranked list one tied block at a time. */
  method RankBlocks(players: seq<Player>, ranked: seq<Player>) returns (pct: map<string, real>)
    requires |players| >= 2 && multiset(ranked) == multiset(players) && |ranked| == |players|
    requires Ascending(ranked) && Distinct(ranked)
    ensures Ranks(pct, players, ranked)
  {
    var n := |players|;
    hide Ranks, Midrank, Distinct, Ascending;
    pct := map[];
    var i: nat := 0;
    RanksNobody(players);
    assert ranked[..0] == [];
    while i < n
      invariant i <= n
      invariant 0 < i < n ==> ranked[i - 1].perf < ranked[i].perf
      invariant Ranks(pct, players, ranked[..i])
    {
      var j := TiedBlock(ranked, i);
      SharedIsMidrank(players, ranked, i, j);
      pct := Share(pct, players, ranked, i, j, (i + j) as real / 2.0 / (n - 1) as real);
      i := j + 1;
    }
    assert ranked[..i] == ranked;
  }

  /** The last index of the block of equal scores that starts at i. */
  method TiedBlock(ranked: seq<Player>, i: nat) returns (j: nat)
    requires i < |ranked| && Ascending(ranked)
    ensures i <= j < |ranked|
    ensures forall k :: i <= k <= j ==> ranked[k].perf == ranked[i].perf
    ensures j + 1 < |ranked| ==> ranked[j].perf < ranked[j + 1].perf
  {
    j := i;
    while j + 1 < |ranked| && ranked[j + 1].perf == ranked[i].perf
      invariant i <= j < |ranked|
      invariant forall k :: i <= k <= j ==> ranked[k].perf == ranked[i].perf
    {
      j := j + 1;
    }
  }

  lemma {:induction false} LonePlayer(ps: seq<Player>)
    requires |ps| == 1
    ensures Ids(ps) == {ps[0].eos} && Midrank(ps, ps[0].perf) == 0.5
  {
    assert ps == [ps[0]];
  }

  /** Gives every player of a tied block the same percentile. */
  method Share(pct0: map<string, real>, ghost players: seq<Player>, ranked: seq<Player>, i: nat, j: nat, shared: real)
    returns (pct: map<string, real>)
    requires players != [] && Distinct(ranked) && i <= j < |ranked|
    requires Ranks(pct0, players, ranked[..i])
    requires forall k :: i <= k <= j ==> Midrank(players, ranked[k].perf) == shared
    ensures Ranks(pct, players, ranked[..j + 1])
  {
    hide Ranks, Midrank;
    pct := pct0;
    var k := i;
    while k <= j
      invariant i <= k <= j + 1
      invariant Ranks(pct, players, ranked[..k])
    {
      NewId(ranked, k);
      RanksOneMore(pct, players, ranked[..k], ranked[k]);
      assert ranked[..k] + [ranked[k]] == ranked[..k + 1];
      pct := pct[ranked[k].eos := shared];
      k := k + 1;
    }
  }

  lemma {:induction false} SameMembers(ps: seq<Player>, qs: seq<Player>)
    requires multiset(ps) == multiset(qs)
    ensures forall p :: p in ps <==> p in qs
    ensures Ids(ps) == Ids(qs)
  {
    assert forall p :: p in ps <==> p in multiset(ps);
    assert forall p :: p in qs <==> p in multiset(qs);
  }

  /* ----- what percentiles are for ----- */

  lemma {:induction false} LowerTiedBounds(ps: seq<Player>, x: real)
    ensures 0 <= Sum(ps, Lower(x)) && 0 <= Sum(ps, Tied(x)) && Sum(ps, Lower(x)) + Sum(ps, Tied(x)) <= |ps|
  {
    if ps != [] {
      LowerTiedBounds(ps[..|ps| - 1], x);
    }
  }

  /** Everyone at or below a lower score is below a higher one. */
  lemma {:induction false} LowerGrows(ps: seq<Player>, x: real, y: real)
    requires x < y
    ensures Sum(ps, Lower(x)) + Sum(ps, Tied(x)) <= Sum(ps, Lower(y))
  {
    if ps != [] {
      LowerGrows(ps[..|ps| - 1], x, y);
    }
  }

  lemma {:induction false} TiedWithSelf(ps: seq<Player>, p: Player)
    requires p in ps
    ensures Sum(ps, Tied(p.perf)) >= 1
  {
    LowerTiedBounds(ps[..|ps| - 1], p.perf);
    if p != ps[|ps| - 1] {
      assert ps == ps[..|ps| - 1] + [ps[|ps| - 1]];
      TiedWithSelf(ps[..|ps| - 1], p);
    }
  }

  lemma {:induction false} RealFractions(a: int, b: int, d: int)
    requires 0 < d
    ensures a < b ==> a as real / d as real < b as real / d as real
    ensures 0 <= a ==> 0.0 <= a as real / d as real
    ensures a <= d ==> a as real / d as real <= 1.0
  {
    Fractions(a as real, b as real, d as real);
  }

  lemma {:induction false} Fractions(x: real, y: real, d: real)
    requires 0.0 < d
    ensures x < y ==> x / d < y / d
    ensures 0.0 <= x ==> 0.0 <= x / d
    ensures x <= d ==> x / d <= 1.0
  {
    var q, r := x / d, y / d;
    assert q * d == x && r * d == y;
    assert 0.0 * d == 0.0 && 1.0 * d == d;
    QuotientRises(x, y, d, q, r);
    QuotientRises(x, 0.0, d, q, 0.0);
    QuotientRises(d, x, d, 1.0, q);
  }

  /** Percentiles lie in [0, 1] and order players exactly as their scores do. */
  lemma {:induction false} PercentilesOrder(ps: seq<Player>, p: Player, q: Player)
    requires p in ps && q in ps && |ps| >= 2
    ensures 0.0 <= Midrank(ps, p.perf) <= 1.0
    ensures p.perf < q.perf <==> Midrank(ps, p.perf) < Midrank(ps, q.perf)
  {
    MidrankRises(ps, p, q);
    MidrankRises(ps, q, p);
  }

  lemma {:induction false} MidrankRises(ps: seq<Player>, p: Player, q: Player)
    requires p in ps && q in ps && |ps| >= 2
    ensures 0.0 <= Midrank(ps, p.perf) <= 1.0
    ensures p.perf < q.perf ==> Midrank(ps, p.perf) < Midrank(ps, q.perf)
  {
    var d := 2 * (|ps| - 1);
    LowerTiedBounds(ps, p.perf);
    TiedWithSelf(ps, p);
    TiedWithSelf(ps, q);
    var a := 2 * Sum(ps, Lower(p.perf)) + Sum(ps, Tied(p.perf)) - 1;
    var b := 2 * Sum(ps, Lower(q.perf)) + Sum(ps, Tied(q.perf)) - 1;
    RealFractions(a, b, d);
    if p.perf < q.perf {
      LowerGrows(ps, p.perf, q.perf);
    }
  }

  /** Twice the midrank numerator: 2 for each player below, 1 for each tied. */
  function Points(all: seq<Player>): Player -> int {
    (p: Player) => Versus(all, p.perf)
  }

  function Versus(all: seq<Player>, x: real): int {
    2 * Sum(all, Lower(x)) + Sum(all, Tied(x))
  }

  /** Every pair of players shares two points, so the points against each other balance. */
  lemma {:induction false} PointsBalance(s: seq<Player>, t: seq<Player>)
    ensures Sum(s, Points(t)) + Sum(t, Points(s)) == 2 * |s| * |t|
    decreases |s| + |t|
  {
    if s == [] {
      SumConstant(t, Points(s), 0);
    } else {
      var rest := s[..|s| - 1];
      PointsBalance(rest, t);
      OneAgainst(t, s);
      assert Sum(s, Points(t)) == Sum(rest, Points(t)) + Versus(t, s[|s| - 1].perf);
      hide Sum, Points, Versus;
      OneRowMore(|rest|, |t|, |s|);
    }
  }

  lemma {:induction false} OneRowMore(rest: int, t: int, s: int)
    requires s == rest + 1
    ensures 2 * s * t == 2 * rest * t + 2 * t
  {
  }

  /** What the last player of `s` adds to both sides. */
  lemma {:induction false} OneAgainst(t: seq<Player>, s: seq<Player>)
    requires s != []
    ensures Sum(t, Points(s)) + Versus(t, s[|s| - 1].perf) == Sum(t, Points(s[..|s| - 1])) + 2 * |t|
  {
    if t != [] {
      OneAgainst(t[..|t| - 1], s);
    }
  }

  function SumPercentiles(ps: seq<Player>, all: seq<Player>): real
    requires all != []
  {
    if ps == [] then 0.0 else SumPercentiles(ps[..|ps| - 1], all) + Midrank(all, ps[|ps| - 1].perf)
  }

  lemma {:induction false} SumOfFractions(ps: seq<Player>, all: seq<Player>)
    requires |all| >= 2
    ensures SumPercentiles(ps, all) * (2 * (|all| - 1)) as real == (Sum(ps, Points(all)) - |ps|) as real
  {
    if ps != [] {
      SumOfFractions(ps[..|ps| - 1], all);
      var d := (2 * (|all| - 1)) as real;
      var a := Versus(all, ps[|ps| - 1].perf) - 1;
      var before, m := SumPercentiles(ps[..|ps| - 1], all), Midrank(all, ps[|ps| - 1].perf);
      assert m == a as real / d;
      TimesQuotient(a as real, d);
      Distributes(before, m, d);
    }
  }

  lemma {:induction false} TimesQuotient(x: real, d: real)
    requires 0.0 < d
    ensures x / d * d == x
  {
  }

  /** The percentiles of a match always average one half, however many ties there are. */
  lemma {:induction false} PercentilesSumToHalf(ps: seq<Player>)
    requires ps != []
    ensures SumPercentiles(ps, ps) == |ps| as real / 2.0
  {
    var n := |ps|;
    if n == 1 {
      assert ps[..0] == [];
    } else {
      PointsBalance(ps, ps);
      SumOfFractions(ps, ps);
      assert Sum(ps, Points(ps)) - n == n * (n - 1);
      HalfOf(SumPercentiles(ps, ps), n);
    }
  }

  lemma {:induction false} HalfOf(total: real, n: nat)
    requires n >= 2 && total * (2 * (n - 1)) as real == (n * (n - 1)) as real
    ensures total == n as real / 2.0
  {
    var m := (n - 1) as real;
    assert (n * (n - 1)) as real == n as real * m;
    assert (2 * (n - 1)) as real == 2.0 * m;
    TwiceProduct(total, m);
    assert 2.0 * (total * m) == 2.0 * total * m;
    QuotientIs(n as real * m, m, 2.0 * total);
    QuotientIs(n as real * m, m, n as real);
  }

  /* ----- rating deltas ----- */

  /** The expected score as a function of (opponent average - own rating) / 1000. The source's
      1 / (1 + 10 ** gap) is one such curve. */
  type Curve = real -> real

  ghost predicate IsCurve(expected: Curve) {
    && (forall gap :: 0.0 < expected(gap) < 1.0)
    && (forall gap, wider :: gap < wider ==> expected(wider) < expected(gap))
  }

  function InTeam(team: int): Player -> int {
    (p: Player) => if p.team == Some(team) then 1 else 0
  }

  function EloInTeam(team: int): Player -> int {
    (p: Player) => if p.team == Some(team) then p.elo else 0
  }

  function TeamAverage(ps: seq<Player>, team: int): real {
    var size := Sum(ps, InTeam(team));
    if size <= 0 then STARTING_ELO as real else Sum(ps, EloInTeam(team)) as real / size as real
  }

  function Clamp(delta: int): int {
    if delta > ELO_MATCH_CAP then ELO_MATCH_CAP else if delta < -ELO_MATCH_CAP then -ELO_MATCH_CAP else delta
  }

  function WinScore(won: Option<bool>): real {
    match won
    case None => 0.5
    case Some(w) => if w then 1.0 else 0.0
  }

  function KFactor(played: nat): int {
    if played < 100 then K_INITIAL else K_STABLE
  }

  /** The swing for scoring `edge` above what was expected. */
  function Bounded(k: nat, edge: real): int {
    Clamp(Round(Scaled(k, edge)))
  }

  function Scaled(k: nat, edge: real): real {
    k as real * edge
  }

  function Swing(p: Player, percentile: real, opponents: real, expected: Curve): int {
    var actual := 0.5 * WinScore(p.won) + 0.5 * percentile;
    Bounded(KFactor(p.played), actual - expected((opponents - p.elo as real) / 1000.0))
  }

  /** One player's rating delta, read off the whole match. */
  function Delta(ps: seq<Player>, p: Player, expected: Curve): int
    requires ps != []
  {
    Swing(p, Midrank(ps, p.perf), TeamAverage(ps, if p.team == Some(1) then 2 else 1), expected)
  }

  /** `changes` holds the deltas of exactly these players. */
  ghost predicate Rates(changes: map<string, int>, all: seq<Player>, done: seq<Player>, expected: Curve)
    requires all != []
  {
    changes.Keys == Ids(done) && forall p :: p in done ==> changes[p.eos] == Delta(all, p, expected)
  }

  lemma {:induction false} RatesOneMore(changes: map<string, int>, all: seq<Player>, k: nat, expected: Curve)
    requires Distinct(all) && k < |all| && Rates(changes, all, all[..k], expected)
    ensures Rates(changes[all[k].eos := Delta(all, all[k], expected)], all, all[..k + 1], expected)
  {
    hide Delta;
    NewId(all, k);
    IdsOneMore(all, k);
  }

  method CalcMatchEloChanges(players: seq<Player>, expected: Curve) returns (changes: map<string, int>)
    requires Distinct(players)
    ensures changes.Keys == Ids(players)
    ensures forall p :: p in players ==> changes[p.eos] == Delta(players, p, expected)
  {
    if players == [] {
      return map[];
    }
    hide Midrank, TeamAverage, Swing, Distinct;
    var pct := Percentiles(players);
    var avg1, avg2 := TeamAverage(players, 1), TeamAverage(players, 2);
    changes := map[];
    var i: nat := 0;
    while i < |players|
      invariant i <= |players| && Rates(changes, players, players[..i], expected)
    {
      var p := players[i];
      var opponents := if p.team == Some(1) then avg2 else avg1;
      assert p in players;
      RatesOneMore(changes, players, i, expected);
      changes := changes[p.eos := Swing(p, pct[p.eos], opponents, expected)];
      i := i + 1;
    }
    assert players[..i] == players;
  }

  lemma {:induction false} IdsOneMore(ps: seq<Player>, k: nat)
    requires k < |ps|
    ensures Ids(ps[..k + 1]) == Ids(ps[..k]) + {ps[k].eos}
  {
    assert ps[..k + 1] == ps[..k] + [ps[k]];
  }

  /** Whatever the match, no delta leaves [-15, 15]. */
  lemma {:induction false} DeltaIsCapped(ps: seq<Player>, p: Player, expected: Curve)
    requires ps != []
    ensures -ELO_MATCH_CAP <= Delta(ps, p, expected) <= ELO_MATCH_CAP
  {
    hide Midrank, TeamAverage, Round;
  }

  /** Deltas do not depend on the order in which the players are listed. */
  lemma {:induction false} DeltaIgnoresOrder(ps: seq<Player>, qs: seq<Player>, p: Player, expected: Curve)
    requires ps != [] && multiset(ps) == multiset(qs)
    ensures qs != [] && Delta(ps, p, expected) == Delta(qs, p, expected)
  {
    MidrankPermutes(ps, qs, p.perf);
    SumPermutes(ps, qs, InTeam(1));
    SumPermutes(ps, qs, InTeam(2));
    SumPermutes(ps, qs, EloInTeam(1));
    SumPermutes(ps, qs, EloInTeam(2));
    hide Sum, Midrank, Swing;
  }

  lemma {:induction false} ScaledOrder(k: real, x: real, y: real)
    requires 0.0 <= k && x <= y
    ensures k * x <= k * y
  {
    if 0.0 < k && x < y {
      ProductRises(x, y, k);
    }
  }

  /** Against the same opponents and with the same rating, record and result, whoever scored at
      least as well gains at least as much. */
  lemma {:induction false} BetterScoreNeverCosts(ps: seq<Player>, p: Player, q: Player, expected: Curve)
    requires p in ps && q in ps && p.perf <= q.perf
    requires q == p.(eos := q.eos, perf := q.perf)
    ensures Delta(ps, p, expected) <= Delta(ps, q, expected)
  {
    var team := if p.team == Some(1) then 2 else 1;
    if |ps| >= 2 {
      PercentilesOrder(ps, q, p);
    }
    SwingRises(p, q, Midrank(ps, p.perf), Midrank(ps, q.perf), TeamAverage(ps, team), expected);
  }

  lemma {:induction false} SwingRises(p: Player, q: Player, a: real, b: real, opponents: real, expected: Curve)
    requires q == p.(eos := q.eos, perf := q.perf) && a <= b
    ensures Swing(p, a, opponents, expected) <= Swing(q, b, opponents, expected)
  {
    hide Bounded;
    var e := expected((opponents - p.elo as real) / 1000.0);
    BoundedRises(KFactor(p.played), 0.5 * WinScore(p.won) + 0.5 * a - e, 0.5 * WinScore(q.won) + 0.5 * b - e);
  }

  lemma {:induction false} BoundedRises(k: nat, x: real, y: real)
    requires x <= y
    ensures Bounded(k, x) <= Bounded(k, y)
  {
    hide Round, Scaled;
    ScaledRises(k, x, y);
    RoundIsMonotone(Scaled(k, x), Scaled(k, y));
  }

  lemma {:induction false} ScaledRises(k: nat, x: real, y: real)
    requires x <= y
    ensures Scaled(k, x) <= Scaled(k, y)
  {
    ScaledOrder(k as real, x, y);
  }

  /** Between two team mates with the same score, record and result, the one rated higher was
      expected to do better and gains no more. */
  lemma {:induction false} HigherRatingGainsNoMore(ps: seq<Player>, p: Player, q: Player, expected: Curve)
    requires ps != [] && IsCurve(expected) && p.elo <= q.elo
    requires q == p.(eos := q.eos, elo := q.elo)
    ensures Delta(ps, q, expected) <= Delta(ps, p, expected)
  {
    hide Bounded, Midrank;
    var opponents := TeamAverage(ps, if p.team == Some(1) then 2 else 1);
    var gap, narrower := (opponents - p.elo as real) / 1000.0, (opponents - q.elo as real) / 1000.0;
    assert narrower <= gap;
    var actual := 0.5 * WinScore(p.won) + 0.5 * Midrank(ps, p.perf);
    assert expected(gap) <= expected(narrower);
    BoundedRises(KFactor(p.played), actual - expected(narrower), actual - expected(gap));
  }

  /* ----- only the order of the scores matters ----- */

  function Rescaled(ps: seq<Player>, f: real -> real): seq<Player> {
    if ps == [] then [] else Rescaled(ps[..|ps| - 1], f) + [ps[|ps| - 1].(perf := f(ps[|ps| - 1].perf))]
  }

  ghost predicate StrictlyIncreasing(f: real -> real) {
    forall x, y :: x < y ==> f(x) < f(y)
  }

  lemma {:induction false} RescaledLength(ps: seq<Player>, f: real -> real)
    ensures |Rescaled(ps, f)| == |ps|
  {
    if ps != [] {
      RescaledLength(ps[..|ps| - 1], f);
    }
  }

  /** A sum over rescaled players is the sum over the players they came from. */
  lemma {:induction false} RescaledSum(ps: seq<Player>, f: real -> real, after: Player -> int, before: Player -> int)
    requires forall p: Player :: after(p.(perf := f(p.perf))) == before(p)
    ensures Sum(Rescaled(ps, f), after) == Sum(ps, before)
  {
    if ps != [] {
      var rest, p := ps[..|ps| - 1], ps[|ps| - 1];
      RescaledSum(rest, f, after, before);
      assert after(p.(perf := f(p.perf))) == before(p);
      SumAppend(Rescaled(rest, f), p.(perf := f(p.perf)), after);
    }
  }

  lemma {:induction false} RescaledLower(ps: seq<Player>, f: real -> real, x: real)
    requires StrictlyIncreasing(f)
    ensures Sum(Rescaled(ps, f), Lower(f(x))) == Sum(ps, Lower(x))
  {
    hide Sum, Rescaled;
    forall p: Player
      ensures Lower(f(x))(p.(perf := f(p.perf))) == Lower(x)(p)
    {
      KeepsOrder(f, p.perf, x);
    }
    RescaledSum(ps, f, Lower(f(x)), Lower(x));
  }

  lemma {:induction false} RescaledTied(ps: seq<Player>, f: real -> real, x: real)
    requires StrictlyIncreasing(f)
    ensures Sum(Rescaled(ps, f), Tied(f(x))) == Sum(ps, Tied(x))
  {
    hide Sum, Rescaled;
    forall p: Player
      ensures Tied(f(x))(p.(perf := f(p.perf))) == Tied(x)(p)
    {
      KeepsOrder(f, p.perf, x);
    }
    RescaledSum(ps, f, Tied(f(x)), Tied(x));
  }

  lemma {:induction false} KeepsOrder(f: real -> real, x: real, y: real)
    requires StrictlyIncreasing(f)
    ensures f(x) < f(y) <==> x < y
    ensures f(x) == f(y) <==> x == y
  {
  }

  lemma {:induction false} RescaledMidrank(ps: seq<Player>, f: real -> real, x: real)
    requires ps != [] && StrictlyIncreasing(f)
    ensures Rescaled(ps, f) != [] && Midrank(Rescaled(ps, f), f(x)) == Midrank(ps, x)
  {
    hide Sum, Rescaled, Lower, Tied;
    RescaledLength(ps, f);
    RescaledLower(ps, f, x);
    RescaledTied(ps, f, x);
  }

  lemma {:induction false} RescaledAverage(ps: seq<Player>, f: real -> real, team: int)
    ensures TeamAverage(Rescaled(ps, f), team) == TeamAverage(ps, team)
  {
    hide Sum, Rescaled;
    RescaledSum(ps, f, InTeam(team), InTeam(team));
    RescaledSum(ps, f, EloInTeam(team), EloInTeam(team));
  }

  /** Any strictly increasing change of the performance weights leaves every delta as it was. */
  lemma {:induction false} OnlyTheOrderMatters(ps: seq<Player>, f: real -> real, p: Player, expected: Curve)
    requires ps != [] && StrictlyIncreasing(f)
    ensures Rescaled(ps, f) != []
    ensures Delta(Rescaled(ps, f), p.(perf := f(p.perf)), expected) == Delta(ps, p, expected)
  {
    hide Midrank, TeamAverage, Rescaled, Swing, StrictlyIncreasing;
    RescaledMidrank(ps, f, p.perf);
    RescaledAverage(ps, f, if p.team == Some(1) then 2 else 1);
    SwingIgnoresScore(p, f(p.perf), Midrank(ps, p.perf), TeamAverage(ps, if p.team == Some(1) then 2 else 1), expected);
  }

  lemma {:induction false} SwingIgnoresScore(p: Player, perf: real, percentile: real, opponents: real, expected: Curve)
    ensures Swing(p.(perf := perf), percentile, opponents, expected) == Swing(p, percentile, opponents, expected)
  {
  }
}
