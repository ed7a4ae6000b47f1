/** Searching the memory of a process for a needle, piece by piece, with the tail of one piece carried
    over to the next. */
module Scanner {
  import opened Options
  import opened ProcessMemory

  datatype Hit = Hit(addr: nat, region: Region)

  datatype Outcome = Found(hits: seq<Hit>) | ValueError

  /** Every byte of the needle was read, at this address on. */
  predicate OccursAt(pieces: seq<Piece>, needle: seq<byte>, x: nat) {
    forall j :: 0 <= j < |needle| ==> ByteAt(pieces, x + j) == Byte(needle[j])
  }

  /** The addresses in [lo, hi) at which the needle occurs, the first one first. */
  function Occurrences(pieces: seq<Piece>, needle: seq<byte>, lo: nat, hi: nat): seq<nat>
    decreases hi
  {
    if hi <= lo then []
    else Occurrences(pieces, needle, lo, hi - 1) + (if OccursAt(pieces, needle, hi - 1) then [hi - 1] else [])
  }

  lemma {:induction false} OccurrencesSplit(pieces: seq<Piece>, needle: seq<byte>, lo: nat, mid: nat, hi: nat)
    requires lo <= mid <= hi
    ensures Occurrences(pieces, needle, lo, hi)
              == Occurrences(pieces, needle, lo, mid) + Occurrences(pieces, needle, mid, hi)
  {
    if mid < hi {
      OccurrencesSplit(pieces, needle, lo, mid, hi - 1);
    }
  }

  lemma {:induction false} OccurrencesSame(pieces: seq<Piece>, pieces': seq<Piece>, needle: seq<byte>, lo: nat, hi: nat)
    requires forall x: nat :: lo <= x < hi ==> OccursAt(pieces, needle, x) == OccursAt(pieces', needle, x)
    ensures Occurrences(pieces, needle, lo, hi) == Occurrences(pieces', needle, lo, hi)
  {
    hide OccursAt;
    if lo < hi {
      OccurrencesSame(pieces, pieces', needle, lo, hi - 1);
    }
  }

  lemma {:induction false} NoOccurrences(pieces: seq<Piece>, needle: seq<byte>, lo: nat, hi: nat)
    requires forall x: nat :: lo <= x < hi ==> !OccursAt(pieces, needle, x)
    ensures Occurrences(pieces, needle, lo, hi) == []
  {
    hide OccursAt;
    if lo < hi {
      NoOccurrences(pieces, needle, lo, hi - 1);
    }
  }

  /** The list holds every address in [lo, hi) at which the needle occurs, once, in ascending order. */
  ghost predicate ListsEachOnce(occ: seq<nat>, pieces: seq<Piece>, needle: seq<byte>, lo: nat, hi: nat) {
    && (forall i, j :: 0 <= i < j < |occ| ==> occ[i] < occ[j])
    && (forall i :: 0 <= i < |occ| ==> lo <= occ[i] < hi && OccursAt(pieces, needle, occ[i]))
    && (forall x: nat :: lo <= x < hi && OccursAt(pieces, needle, x) ==> x in occ)
  }

  lemma {:induction false} EachOccurrenceOnce(pieces: seq<Piece>, needle: seq<byte>, lo: nat, hi: nat)
    ensures ListsEachOnce(Occurrences(pieces, needle, lo, hi), pieces, needle, lo, hi)
    decreases hi
  {
    hide OccursAt;
    if lo < hi {
      EachOccurrenceOnce(pieces, needle, lo, hi - 1);
      var before := Occurrences(pieces, needle, lo, hi - 1);
      var occ := Occurrences(pieces, needle, lo, hi);
      assert forall i :: 0 <= i < |before| ==> occ[i] == before[i];
      assert OccursAt(pieces, needle, hi - 1) ==> occ[|before|] == hi - 1;
    }
  }

  /* ----- the carry ----- */

  /** The carry is what was read right before the end of the pieces: as much as could still begin a
      match, or everything back to where the run of pieces starts. */
  predicate CarryOk(done: seq<Piece>, carry: seq<byte>, carryAddr: nat, start: nat, n: nat) {
    && start <= carryAddr && carryAddr + |carry| == EndOf(done, start)
    && (forall j :: 0 <= j < |carry| ==> ByteAt(done, carryAddr + j) == Byte(carry[j]))
    && |carry| < n
    && (|carry| == n - 1 || carryAddr == start || ByteAt(done, carryAddr - 1) == Unread)
    && (carry == [] ==> n == 1 || done == [])
  }

  /** What is searched when the next piece comes. */
  function Glued(carry: seq<byte>, carryAddr: nat, p: Piece): Piece {
    if carry != [] && p.addr == carryAddr + |carry| then Piece(carryAddr, carry + p.data) else p
  }

  function Tail(glued: Piece, n: nat): (carry: Piece)
    requires n > 0
  {
    if |glued.data| >= n - 1
    then Piece(glued.addr + |glued.data| - (n - 1), glued.data[|glued.data| - (n - 1)..])
    else glued
  }

  predicate CanFollow(done: seq<Piece>, p: Piece, start: nat) {
    InOrder(done, start) && p.data != [] && EndOf(done, start) <= p.addr
  }

  lemma {:induction false} ByteAtAfter(done: seq<Piece>, p: Piece, y: nat)
    ensures ByteAt(done + [p], y)
         == if p.addr <= y < p.addr + |p.data| then Byte(p.data[y - p.addr]) else ByteAt(done, y)
  {
    assert (done + [p])[..|done|] == done;
  }

  /** The bytes from the start of the searched buffer on are the buffer's. */
  lemma {:induction false} GluedBytes(done: seq<Piece>, carry: seq<byte>, carryAddr: nat, p: Piece, start: nat,
          n: nat, y: nat)
    requires CarryOk(done, carry, carryAddr, start, n) && CanFollow(done, p, start)
    requires Glued(carry, carryAddr, p).addr <= y
    ensures ByteAt(done + [p], y) == ByteAt([Glued(carry, carryAddr, p)], y)
  {
    var g := Glued(carry, carryAddr, p);
    ByteAtAfter(done, p, y);
    UnreadOutside(done, start, y);
    assert [g][..0] == [];
    if g.addr <= y < EndOf(done, start) {
      assert ByteAt(done, carryAddr + (y - carryAddr)) == Byte(carry[y - carryAddr]);
    }
  }

  lemma {:induction false} TailBytes(done: seq<Piece>, carry: seq<byte>, carryAddr: nat, p: Piece, start: nat, n: nat,
          j: nat)
    requires CarryOk(done, carry, carryAddr, start, n) && CanFollow(done, p, start)
    requires j < |Tail(Glued(carry, carryAddr, p), n).data|
    ensures var t := Tail(Glued(carry, carryAddr, p), n); ByteAt(done + [p], t.addr + j) == Byte(t.data[j])
  {
    hide InOrder, EndOf;
    var g := Glued(carry, carryAddr, p);
    var t := Tail(g, n);
    GluedBytes(done, carry, carryAddr, p, start, n, t.addr + j);
    assert [g][..0] == [];
  }

  lemma {:induction false} CarryStaysOk(done: seq<Piece>, carry: seq<byte>, carryAddr: nat, p: Piece, start: nat,
          n: nat)
    requires CarryOk(done, carry, carryAddr, start, n) && CanFollow(done, p, start)
    ensures var t := Tail(Glued(carry, carryAddr, p), n); CarryOk(done + [p], t.data, t.addr, start, n)
  {
    hide InOrder, ByteAt;
    var g := Glued(carry, carryAddr, p);
    var t := Tail(g, n);
    forall j | 0 <= j < |t.data|
      ensures ByteAt(done + [p], t.addr + j) == Byte(t.data[j])
    {
      TailBytes(done, carry, carryAddr, p, start, n, j);
    }
    UnreadOutside(done, start, 0);
    if t.addr > start && |t.data| < n - 1 {
      ByteAtAfter(done, p, t.addr - 1);
      UnreadOutside(done, start, t.addr - 1);
    }
  }

  /** A match that begins before the searched buffer does not reach into the new piece. */
  lemma {:induction false} NothingStraddles(done: seq<Piece>, carry: seq<byte>, carryAddr: nat, p: Piece, start: nat,
          needle: seq<byte>, x: nat)
    requires CarryOk(done, carry, carryAddr, start, |needle|) && CanFollow(done, p, start)
    requires start <= x < Glued(carry, carryAddr, p).addr
    ensures OccursAt(done + [p], needle, x) == OccursAt(done, needle, x)
  {
    var n := |needle|;
    var all := done + [p];
    if x + n <= p.addr {
      forall j | 0 <= j < n
        ensures (ByteAt(all, x + j) == Byte(needle[j])) == (ByteAt(done, x + j) == Byte(needle[j]))
      {
        ByteAtAfter(done, p, x + j);
      }
    } else {
      // the last address before the buffer that a match would need was not read
      var hole := Glued(carry, carryAddr, p).addr - 1;
      ByteAtAfter(done, p, hole);
      UnreadOutside(done, start, hole);
      var k := hole - x;
      assert ByteAt(all, x + k) != Byte(needle[k]) && ByteAt(done, x + k) != Byte(needle[k]);
    }
  }

  lemma {:induction false} SameInTheBuffer(done: seq<Piece>, carry: seq<byte>, carryAddr: nat, p: Piece, start: nat,
          needle: seq<byte>, x: nat)
    requires CarryOk(done, carry, carryAddr, start, |needle|) && CanFollow(done, p, start)
    requires Glued(carry, carryAddr, p).addr <= x
    ensures OccursAt(done + [p], needle, x) == OccursAt([Glued(carry, carryAddr, p)], needle, x)
  {
    hide CarryOk, CanFollow, Glued, ByteAt;
    var g := Glued(carry, carryAddr, p);
    var all := done + [p];
    forall j | 0 <= j < |needle|
      ensures (ByteAt(all, x + j) == Byte(needle[j])) == (ByteAt([g], x + j) == Byte(needle[j]))
    {
      GluedBytes(done, carry, carryAddr, p, start, |needle|, x + j);
    }
  }

  /** A match needs |needle| bytes before the end. */
  lemma {:induction false} NothingAtTheEnd(done: seq<Piece>, needle: seq<byte>, start: nat, lo: nat, hi: nat)
    requires InOrder(done, start) && |needle| > 0 && lo + |needle| > EndOf(done, start)
    ensures Occurrences(done, needle, lo, hi) == []
  {
    forall x: nat | lo <= x < hi
      ensures !OccursAt(done, needle, x)
    {
      UnreadOutside(done, start, x + (|needle| - 1));
      assert ByteAt(done, x + (|needle| - 1)) != Byte(needle[|needle| - 1]);
    }
    NoOccurrences(done, needle, lo, hi);
  }

  /** All that the pieces so far hold was found before; what the new piece adds is in the buffer. */
  lemma {:induction false} BufferHoldsTheRest(done: seq<Piece>, carry: seq<byte>, carryAddr: nat, p: Piece,
          start: nat, needle: seq<byte>)
    requires CarryOk(done, carry, carryAddr, start, |needle|) && CanFollow(done, p, start)
    ensures var g := Glued(carry, carryAddr, p);
            var all := done + [p];
            Occurrences(all, needle, start, EndOf(all, start))
              == Occurrences(done, needle, start, EndOf(done, start)) + Occurrences([g], needle, g.addr,
                  g.addr + |g.data|)
  {
    hide OccursAt, ByteAt, InOrder, Occurrences;
    var g := Glued(carry, carryAddr, p);
    var all := done + [p];
    var from, end := EndOf(done, start), EndOf(all, start);
    forall x: nat | start <= x < g.addr
      ensures OccursAt(all, needle, x) == OccursAt(done, needle, x)
    {
      NothingStraddles(done, carry, carryAddr, p, start, needle, x);
    }
    forall x: nat | g.addr <= x < end
      ensures OccursAt(all, needle, x) == OccursAt([g], needle, x)
    {
      SameInTheBuffer(done, carry, carryAddr, p, start, needle, x);
    }
    UnreadOutside(done, start, 0);
    OccurrencesSplit(all, needle, start, g.addr, end);
    OccurrencesSame(all, done, needle, start, g.addr);
    OccurrencesSame(all, [g], needle, g.addr, end);
    if g.addr <= from {
      OccurrencesSplit(done, needle, start, g.addr, from);
      NothingAtTheEnd(done, needle, start, g.addr, from);
    } else {
      OccurrencesSplit(done, needle, start, from, g.addr);
      NothingAtTheEnd(done, needle, start, from, g.addr);
    }
  }

  /* ----- the search ----- */

  function Tagged(addrs: seq<nat>, region: Region): (hits: seq<Hit>)
    ensures |hits| == |addrs|
  {
    seq(|addrs|, i requires 0 <= i < |addrs| => Hit(addrs[i], region))
  }

  /** One search of everything that was read of a region. */
  function RegionHits(answers: Answers, t: nat, region: Region, needle: seq<byte>, chunk: nat): seq<Hit>
    requires chunk > 0
  {
    var pieces := Pieces(answers, t, region.start, region.end, chunk);
    Tagged(Occurrences(pieces, needle, region.start, EndOf(pieces, region.start)), region)
  }

  function AllHits(answers: Answers, t: nat, regions: seq<Region>, needle: seq<byte>, chunk: nat): seq<Hit>
    requires chunk > 0
    decreases |regions|
  {
    if regions == [] then []
    else
      RegionHits(answers, t, regions[0], needle, chunk)
      + AllHits(answers, t + ReadCount(answers, t, regions[0].start, regions[0].end, chunk), regions[1..], needle,
          chunk)
  }

  /** The limit is looked at only after a hit, so that one hit is reported in any case. */
  function Limit(maxHits: Option<int>): Option<nat> {
    match maxHits
    case None => None
    case Some(m) => Some(if m > 1 then m else 1)
  }

  function Truncated(hits: seq<Hit>, maxHits: Option<int>): seq<Hit> {
    var limit := Limit(maxHits);
    if limit.Some? && limit.value < |hits| then hits[..limit.value] else hits
  }

  predicate Room(hits: seq<Hit>, maxHits: Option<int>) {
    Limit(maxHits).Some? ==> |hits| < Limit(maxHits).value
  }

  /** Everything was found, or the limit was reached on the way. */
  predicate FoundSoFar(hits: seq<Hit>, full: bool, all: seq<Hit>, maxHits: Option<int>) {
    if full then hits <= all && Limit(maxHits) == Some(|hits|) else hits == all && Room(hits, maxHits)
  }

  predicate MatchesAt(buf: seq<byte>, needle: seq<byte>, i: nat) {
    i + |needle| <= |buf| && buf[i..i + |needle|] == needle
  }

  lemma {:induction false} MatchIsOccurrence(base: nat, buf: seq<byte>, needle: seq<byte>, i: nat)
    requires needle != []
    ensures OccursAt([Piece(base, buf)], needle, base + i) == MatchesAt(buf, needle, i)
  {
    hide ByteAt;
    var p, x, n := Piece(base, buf), base + i, |needle|;
    if OccursAt([p], needle, x) {
      var last := needle[n - 1];
      ByteAtOne(p, x + (n - 1));
      assert i + n <= |buf|;
      forall j | 0 <= j < n
        ensures buf[i..i + n][j] == needle[j]
      {
        assert ByteAt([p], x + j) == Byte(needle[j]);
        ByteAtOne(p, x + j);
      }
    }
    if MatchesAt(buf, needle, i) {
      forall j | 0 <= j < n
        ensures ByteAt([p], x + j) == Byte(needle[j])
      {
        assert buf[i..i + n][j] == buf[i + j];
        ByteAtOne(p, x + j);
      }
      assert OccursAt([p], needle, x);
    }
  }

  /** The first match from a position on, like `bytes.find`. */
  method Find(buf: seq<byte>, needle: seq<byte>, pos: nat) returns (i: int)
    requires needle != []
    ensures i >= 0 ==> i >= pos && MatchesAt(buf, needle, i)
    ensures i >= 0 ==> forall k: nat :: pos <= k < i ==> !MatchesAt(buf, needle, k)
    ensures i < 0 ==> forall k: nat :: pos <= k ==> !MatchesAt(buf, needle, k)
  {
    i := pos;
    while i + |needle| <= |buf|
      invariant pos <= i
      invariant forall k: nat :: pos <= k < i ==> !MatchesAt(buf, needle, k)
    {
      if buf[i..i + |needle|] == needle {
        return;
      }
      i := i + 1;
    }
    i := -1;
  }

  lemma {:induction false} SkipTo(base: nat, buf: seq<byte>, needle: seq<byte>, pos: nat, i: nat)
    requires needle != [] && pos <= i
    requires forall k: nat :: pos <= k < i ==> !MatchesAt(buf, needle, k)
    ensures Occurrences([Piece(base, buf)], needle, base, base + i)
              == Occurrences([Piece(base, buf)], needle, base, base + pos)
  {
    hide OccursAt, MatchesAt;
    forall x: nat | base + pos <= x < base + i
      ensures !OccursAt([Piece(base, buf)], needle, x)
    {
      MatchIsOccurrence(base, buf, needle, x - base);
    }
    OccurrencesSplit([Piece(base, buf)], needle, base, base + pos, base + i);
    NoOccurrences([Piece(base, buf)], needle, base + pos, base + i);
  }

  lemma {:induction false} TaggedSum(a: seq<nat>, b: seq<nat>, region: Region)
    ensures Tagged(a + b, region) == Tagged(a, region) + Tagged(b, region)
  {
  }

  /** Adds the hits in one buffer, until the limit is reached. */
  method SearchBuffer(buf: seq<byte>, base: nat, needle: seq<byte>, region: Region, found: seq<Hit>,
          maxHits: Option<int>)
    returns (hits: seq<Hit>, full: bool)
    requires needle != [] && Room(found, maxHits)
    ensures FoundSoFar(hits, full, found + Tagged(Occurrences([Piece(base, buf)], needle, base, base + |buf|),
        region), maxHits)
  {
    hide OccursAt, MatchesAt, Occurrences, Tagged;
    ghost var ps := [Piece(base, buf)];
    hits, full := found, false;
    var pos := 0;
    NoneYet(ps, needle, base, region);
    while true
      invariant pos <= |buf|
      invariant hits == found + Tagged(Occurrences(ps, needle, base, base + pos), region) && Room(hits, maxHits)
      decreases |buf| - pos
    {
      var i := Find(buf, needle, pos);
      if i < 0 {
        SkipTo(base, buf, needle, pos, |buf|);
        return;
      }
      NextHit(base, buf, needle, pos, i, region);
      hits := hits + [Hit(base + i, region)];
      if maxHits.Some? && |hits| >= maxHits.value {
        OccurrencesSplit(ps, needle, base, base + (i + 1), base + |buf|);
        TaggedSum(Occurrences(ps, needle, base, base + (i + 1)),
                  Occurrences(ps, needle, base + (i + 1), base + |buf|), region);
        full := true;
        return;
      }
      pos := i + 1;
    }
  }

  lemma {:induction false} NoneYet(ps: seq<Piece>, needle: seq<byte>, base: nat, region: Region)
    ensures Tagged(Occurrences(ps, needle, base, base + 0), region) == []
  {
  }

  /** The first match from a position on is the next hit. */
  lemma {:induction false} NextHit(base: nat, buf: seq<byte>, needle: seq<byte>, pos: nat, i: nat, region: Region)
    requires needle != [] && pos <= i && MatchesAt(buf, needle, i)
    requires forall k: nat :: pos <= k < i ==> !MatchesAt(buf, needle, k)
    ensures var ps := [Piece(base, buf)];
            Tagged(Occurrences(ps, needle, base, base + (i + 1)), region)
              == Tagged(Occurrences(ps, needle, base, base + pos), region) + [Hit(base + i, region)]
    ensures i < |buf|
  {
    hide OccursAt;
    MatchInside(buf, needle, i);
    hide MatchesAt;
    var ps := [Piece(base, buf)];
    SkipTo(base, buf, needle, pos, i);
    MatchIsOccurrence(base, buf, needle, i);
    assert Occurrences(ps, needle, base, base + (i + 1)) == Occurrences(ps, needle, base, base + i) + [base + i];
    TaggedSum(Occurrences(ps, needle, base, base + i), [base + i], region);
  }

  lemma {:induction false} MatchInside(buf: seq<byte>, needle: seq<byte>, i: nat)
    requires needle != [] && MatchesAt(buf, needle, i)
    ensures i < |buf|
  {
  }

  /** Adds the hits in one region, whose pieces are searched one by one. */
  method SearchRegion(pieces: seq<Piece>, needle: seq<byte>, region: Region, found: seq<Hit>, maxHits: Option<int>)
    returns (hits: seq<Hit>, full: bool)
    requires needle != [] && Room(found, maxHits) && InOrder(pieces, region.start)
    ensures FoundSoFar(hits, full, found + Tagged(Occurrences(pieces, needle, region.start, EndOf(pieces,
        region.start)), region), maxHits)
  {
    hide OccursAt, ByteAt, Occurrences, Tagged, CarryOk, InOrder, EndOf, CanFollow, Limit, Glued, Tail;
    ghost var start := region.start;
    var overlap := |needle| - 1;
    hits, full := found, false;
    var carry: seq<byte>, carryAddr: nat := [], region.start;
    var k := 0;
    assert pieces[..0] == [];
    NothingThere(needle, region);
    while k < |pieces|
      invariant k <= |pieces| && !full
      invariant FoundSoFar(hits, false, found + Tagged(Occurrences(pieces[..k], needle, start, EndOf(pieces[..k],
          start)), region), maxHits)
      invariant CarryOk(pieces[..k], carry, carryAddr, start, |needle|)
    {
      var buf, base := AfterCarry(carry, carryAddr, pieces[k].addr, pieces[k].data);
      ghost var done := pieces[..k];
      NextPiece(pieces, k, start);
      BufferHoldsTheRest(done, carry, carryAddr, pieces[k], start, needle);
      CarryStaysOk(done, carry, carryAddr, pieces[k], start, |needle|);
      TaggedSum(Occurrences(done, needle, start, EndOf(done, start)), Occurrences([Piece(base, buf)], needle, base,
          base + |buf|), region);
      hits, full := SearchBuffer(buf, base, needle, region, hits, maxHits);
      if full {
        OccurrencesGrow(pieces, needle, region, k + 1);
        return;
      }
      carry, carryAddr := CarryOf(buf, base, overlap);
      k := k + 1;
    }
    assert pieces[..k] == pieces;
  }

  /** The carry joins a piece that comes right after it. */
  method AfterCarry(carry: seq<byte>, carryAddr: nat, addr: nat, data: seq<byte>) returns (buf: seq<byte>, base: nat)
    ensures Piece(base, buf) == Glued(carry, carryAddr, Piece(addr, data))
  {
    if carry != [] {
      if addr == carryAddr + |carry| {
        buf, base := carry + data, carryAddr;
      } else {
        buf, base := data, addr;
      }
    } else {
      buf, base := data, addr;
    }
  }

  /** The end of a buffer, in which an occurrence may have begun. */
  method CarryOf(buf: seq<byte>, base: nat, overlap: nat) returns (carry: seq<byte>, carryAddr: nat)
    ensures Piece(carryAddr, carry) == Tail(Piece(base, buf), overlap + 1)
  {
    if |buf| >= overlap {
      carry := if overlap > 0 then buf[|buf| - overlap..] else [];
      carryAddr := base + |buf| - |carry|;
    } else {
      carry, carryAddr := buf, base;
    }
  }

  lemma {:induction false} NothingThere(needle: seq<byte>, region: Region)
    ensures Tagged(Occurrences([], needle, region.start, EndOf([], region.start)), region) == []
    ensures needle != [] ==> CarryOk([], [], region.start, region.start, |needle|)
  {
  }

  lemma {:induction false} NextPiece(pieces: seq<Piece>, k: nat, start: nat)
    requires k < |pieces| && InOrder(pieces, start)
    ensures CanFollow(pieces[..k], pieces[k], start) && pieces[..k + 1] == pieces[..k] + [pieces[k]]
  {
    InOrderPrefix(pieces, k + 1, start);
    assert pieces[..k + 1][..k] == pieces[..k];
  }

  lemma {:induction false} EarlierBytesStay(pieces: seq<Piece>, k: nat, start: nat, y: nat)
    requires k <= |pieces| && InOrder(pieces, start) && y < EndOf(pieces[..k], start)
    ensures ByteAt(pieces, y) == ByteAt(pieces[..k], y) && EndOf(pieces[..k], start) <= EndOf(pieces, start)
    decreases |pieces|
  {
    if k < |pieces| {
      var shorter := pieces[..|pieces| - 1];
      assert shorter[..k] == pieces[..k];
      EarlierBytesStay(shorter, k, start, y);
    } else {
      assert pieces[..k] == pieces;
    }
  }

  lemma {:induction false} EarlierOccurrencesStay(pieces: seq<Piece>, needle: seq<byte>, k: nat, start: nat, x: nat)
    requires k <= |pieces| && InOrder(pieces, start) && x + |needle| <= EndOf(pieces[..k], start)
    ensures OccursAt(pieces, needle, x) == OccursAt(pieces[..k], needle, x)
  {
    forall j | 0 <= j < |needle|
      ensures (ByteAt(pieces, x + j) == Byte(needle[j])) == (ByteAt(pieces[..k], x + j) == Byte(needle[j]))
    {
      EarlierBytesStay(pieces, k, start, x + j);
    }
  }

  /** What the first pieces hold is the first part of what all of them hold. */
  lemma {:induction false} OccurrencesGrow(pieces: seq<Piece>, needle: seq<byte>, region: Region, k: nat)
    requires 0 < k <= |pieces| && InOrder(pieces, region.start) && needle != []
    ensures var start := region.start;
            Tagged(Occurrences(pieces[..k], needle, start, EndOf(pieces[..k], start)), region)
              <= Tagged(Occurrences(pieces, needle, start, EndOf(pieces, start)), region)
  {
    hide OccursAt, ByteAt, Occurrences;
    var first, start := pieces[..k], region.start;
    var from, end := EndOf(first, start), EndOf(pieces, start);
    InOrderPrefix(pieces, k, start);
    UnreadOutside(first, start, 0);
    var m: nat := if from - (|needle| - 1) >= start then from - (|needle| - 1) else start;
    OccurrencesSplit(first, needle, start, m, from);
    NothingAtTheEnd(first, needle, start, m, from);
    forall x: nat | start <= x < m
      ensures OccursAt(pieces, needle, x) == OccursAt(first, needle, x)
    {
      EarlierOccurrencesStay(pieces, needle, k, start, x);
    }
    OccurrencesSame(pieces, first, needle, start, m);
    EndGrows(pieces, k, start);
    OccurrencesSplit(pieces, needle, start, m, end);
    TaggedSum(Occurrences(pieces, needle, start, m), Occurrences(pieces, needle, m, end), region);
  }

  lemma {:induction false} EndGrows(pieces: seq<Piece>, k: nat, start: nat)
    requires 0 < k <= |pieces| && InOrder(pieces, start)
    ensures EndOf(pieces[..k], start) <= EndOf(pieces, start)
  {
    InOrderPrefix(pieces, k, start);
    assert EndOf(pieces[..k], start) > 0;
    EarlierBytesStay(pieces, k, start, EndOf(pieces[..k], start) - 1);
  }

  lemma {:induction false} RegionByRegion(answers: Answers, t: nat, regions: seq<Region>, i: nat, needle: seq<byte>,
          chunk: nat)
    requires chunk > 0 && i < |regions|
    ensures AllHits(answers, t, regions[i..], needle, chunk)
              == RegionHits(answers, t, regions[i], needle, chunk)
                 + AllHits(answers, t + ReadCount(answers, t, regions[i].start, regions[i].end, chunk),
                     regions[i + 1..], needle, chunk)
  {
    hide RegionHits, ReadCount;
    assert regions[i..][0] == regions[i] && regions[i..][1..] == regions[i + 1..];
  }

  /** Every hit of every region in turn, up to the limit: what one search of each whole region would
      find in what was read of it. */
  method FindInRegions(pm: Process, needle: seq<byte>, regions: seq<Region>, maxHits: Option<int>, chunk: nat)
    returns (r: Outcome)
    requires chunk > 0
    modifies pm
    ensures needle == [] ==> r == ValueError
    ensures needle != [] ==> r == Found(Truncated(AllHits(pm.answers, old(pm.t), regions, needle, chunk), maxHits))
  {
    hide Tagged, ReadCount, Pieces, AllHits, InOrder, Occurrences, EndOf;
    if needle == [] {
      return ValueError;
    }
    var hits: seq<Hit>, full := [], false;
    var i := 0;
    ghost var all := AllHits(pm.answers, pm.t, regions, needle, chunk);
    assert regions[0..] == regions;
    while i < |regions|
      invariant i <= |regions| && !full
      invariant all == hits + AllHits(pm.answers, pm.t, regions[i..], needle, chunk)
      invariant Room(hits, maxHits)
    {
      ghost var t, before := pm.t, hits;
      var pieces := pm.IterRegionBytes(regions[i], chunk);
      PiecesInOrder(pm.answers, t, regions[i].start, regions[i].end, chunk);
      hits, full := SearchRegion(pieces, needle, regions[i], hits, maxHits);
      RegionByRegion(pm.answers, t, regions, i, needle, chunk);
      assert all == before + RegionHits(pm.answers, t, regions[i], needle, chunk)
                    + AllHits(pm.answers, pm.t, regions[i + 1..], needle, chunk);
      if full {
        assert hits <= all;
        return Found(hits);
      }
      i := i + 1;
    }
    NoMoreRegions(pm.answers, pm.t, regions[i..], needle, chunk);
    r := Found(hits);
  }

  lemma {:induction false} NoMoreRegions(answers: Answers, t: nat, regions: seq<Region>, needle: seq<byte>, chunk: nat)
    requires chunk > 0 && regions == []
    ensures AllHits(answers, t, regions, needle, chunk) == []
  {
  }

  /** Whatever could be read, and in whatever pieces: an address is reported if and only if the needle
      was read there in full, and the reports ascend, so that none comes twice. */
  lemma {:induction false} HitsAreTheOccurrences(answers: Answers, t: nat, region: Region, needle: seq<byte>,
          chunk: nat)
    requires chunk > 0 && needle != []
    ensures var hits := RegionHits(answers, t, region, needle, chunk);
            var pieces := Pieces(answers, t, region.start, region.end, chunk);
            && (forall i, j :: 0 <= i < j < |hits| ==> hits[i].addr < hits[j].addr)
            && (forall x: nat :: Hit(x, region) in hits <==> OccursAt(pieces, needle, x))
  {
    hide Pieces, OccursAt, Occurrences, InOrder, EndOf;
    var ps := Pieces(answers, t, region.start, region.end, chunk);
    var end := EndOf(ps, region.start);
    var occ := Occurrences(ps, needle, region.start, end);
    var hits := RegionHits(answers, t, region, needle, chunk);
    PiecesInOrder(answers, t, region.start, region.end, chunk);
    EachOccurrenceOnce(ps, needle, region.start, end);
    assert forall i :: 0 <= i < |occ| ==> hits[i] == Hit(occ[i], region);
    forall x: nat
      ensures Hit(x, region) in hits <==> OccursAt(ps, needle, x)
    {
      if OccursAt(ps, needle, x) {
        NeedsEveryByte(ps, needle, region.start, x);
        var i :| 0 <= i < |occ| && occ[i] == x;
        assert hits[i] == Hit(x, region);
      }
      if Hit(x, region) in hits {
        var i :| 0 <= i < |hits| && hits[i] == Hit(x, region);
        assert occ[i] == x;
      }
    }
  }

  lemma {:induction false} NeedsEveryByte(pieces: seq<Piece>, needle: seq<byte>, start: nat, x: nat)
    requires InOrder(pieces, start) && needle != [] && OccursAt(pieces, needle, x)
    ensures start <= x < EndOf(pieces, start)
  {
    assert ByteAt(pieces, x + 0) == Byte(needle[0]);
    UnreadOutside(pieces, start, x);
  }

  predicate ImageHolds(image: nat -> byte, needle: seq<byte>, x: nat, end: nat) {
    x + |needle| <= end && forall j :: 0 <= j < |needle| ==> image(x + j) == needle[j]
  }

  /** The addresses in the region at which an unchanging memory holds the needle. */
  function ImageOccurrences(image: nat -> byte, needle: seq<byte>, lo: nat, hi: nat, end: nat): seq<nat>
    decreases hi
  {
    if hi <= lo then []
    else
      ImageOccurrences(image, needle, lo, hi - 1, end)
      + (if ImageHolds(image, needle, hi - 1, end) then [hi - 1] else [])
  }

  lemma {:induction false} OccursInImage(answers: Answers, t: nat, region: Region, needle: seq<byte>, chunk: nat,
          image: nat -> byte, x: nat)
    requires chunk > 0 && ReadsImage(answers, region, image) && needle != [] && region.start <= x
    ensures OccursAt(Pieces(answers, t, region.start, region.end, chunk), needle, x)
              == ImageHolds(image, needle, x, region.end)
  {
    hide Pieces, ByteAt, ReadsImage;
    var ps := Pieces(answers, t, region.start, region.end, chunk);
    forall j | 0 <= j < |needle|
      ensures (ByteAt(ps, x + j) == Byte(needle[j])) == (x + j < region.end && image(x + j) == needle[j])
    {
      PiecesAreTheImage(answers, t, region.start, region, chunk, image, x + j);
    }
    if OccursAt(ps, needle, x) {
      assert ByteAt(ps, x + (|needle| - 1)) == Byte(needle[|needle| - 1]);
    }
  }

  lemma {:induction false} SameList(pieces: seq<Piece>, needle: seq<byte>, image: nat -> byte, lo: nat, hi: nat,
          end: nat)
    requires forall x: nat :: lo <= x < hi ==>
               OccursAt(pieces, needle, x) == ImageHolds(image, needle, x, end)
    ensures Occurrences(pieces, needle, lo, hi) == ImageOccurrences(image, needle, lo, hi, end)
  {
    hide OccursAt, ImageHolds;
    if lo < hi {
      SameList(pieces, needle, image, lo, hi - 1, end);
    }
  }

  /** A region all of which can be read is searched as if in one piece: neither the chunk size nor how
      short the reads fall, nor when they happen, makes a difference. */
  lemma {:induction false} ChunksMakeNoDifference(answers: Answers, t: nat, region: Region, needle: seq<byte>,
          chunk: nat, image: nat -> byte)
    requires chunk > 0 && needle != [] && ReadsImage(answers, region, image)
    ensures RegionHits(answers, t, region, needle, chunk)
              == Tagged(ImageOccurrences(image, needle, region.start, region.end, region.end), region)
  {
    hide Pieces, OccursAt, ReadsImage, Occurrences, InOrder, EndOf, ImageHolds;
    var ps := Pieces(answers, t, region.start, region.end, chunk);
    var end := EndOf(ps, region.start);
    PiecesInOrder(answers, t, region.start, region.end, chunk);
    UnreadOutside(ps, region.start, 0);
    forall x: nat | region.start <= x < region.end
      ensures OccursAt(ps, needle, x) == ImageHolds(image, needle, x, region.end)
    {
      OccursInImage(answers, t, region, needle, chunk, image, x);
    }
    SameList(ps, needle, image, region.start, region.end, region.end);
    if region.start <= region.end {
      OccurrencesSplit(ps, needle, region.start, end, region.end);
      NothingAtTheEnd(ps, needle, region.start, end, region.end);
    } else {
      NothingInside(ps, needle, region.start, end, image, region.end);
    }
  }

  lemma {:induction false} NothingInside(ps: seq<Piece>, needle: seq<byte>, lo: nat, hi: nat, image: nat -> byte,
          end: nat)
    requires hi <= lo && end <= lo
    ensures Occurrences(ps, needle, lo, hi) == [] && ImageOccurrences(image, needle, lo, end, end) == []
  {
  }

  /* ----- a whole call ----- */

  lemma {:induction false} ImageOccurrencesAre(image: nat -> byte, needle: seq<byte>, lo: nat, hi: nat, end: nat,
          x: nat)
    ensures x in ImageOccurrences(image, needle, lo, hi, end) <==> lo <= x < hi && ImageHolds(image, needle, x, end)
    decreases hi
  {
    hide ImageHolds;
    if lo < hi {
      ImageOccurrencesAre(image, needle, lo, hi - 1, end, x);
    }
  }

  lemma {:induction false} TaggedAre(addrs: seq<nat>, region: Region, hit: Hit)
    ensures hit in Tagged(addrs, region) <==> hit.region == region && hit.addr in addrs
  {
    if hit.region == region && hit.addr in addrs {
      var i :| 0 <= i < |addrs| && addrs[i] == hit.addr;
      assert Tagged(addrs, region)[i] == hit;
    }
  }

  /** Every region is searched, each for itself: in regions that can be read, a hit is reported exactly for each
      region in the list and each address in it from which on the memory holds the needle, inside the region. */
  lemma {:induction false} EveryRegionIsSearched(answers: Answers, t: nat, regions: seq<Region>, needle: seq<byte>,
          chunk: nat, image: nat -> byte, hit: Hit)
    requires chunk > 0 && needle != [] && forall r :: r in regions ==> ReadsImage(answers, r, image)
    ensures hit in AllHits(answers, t, regions, needle, chunk)
       <==> && hit.region in regions && hit.region.start <= hit.addr && hit.addr + |needle| <= hit.region.end
            && forall j :: 0 <= j < |needle| ==> image(hit.addr + j) == needle[j]
    decreases |regions|
  {
    hide RegionHits, ReadsImage, ImageOccurrences;
    if regions != [] {
      var r, rest := regions[0], regions[1..];
      var later := t + ReadCount(answers, t, r.start, r.end, chunk);
      assert regions == [r] + rest;
      ChunksMakeNoDifference(answers, t, r, needle, chunk, image);
      TaggedAre(ImageOccurrences(image, needle, r.start, r.end, r.end), r, hit);
      ImageOccurrencesAre(image, needle, r.start, r.end, r.end, hit.addr);
      EveryRegionIsSearched(answers, later, rest, needle, chunk, image, hit);
    }
  }

  /** The limit cuts the list of all hits off, but never before the first. */
  lemma {:induction false} LimitMeans(hits: seq<Hit>, maxHits: Option<int>)
    ensures var r := Truncated(hits, maxHits);
            && r <= hits
            && (r != hits ==> maxHits.Some? && |r| == if maxHits.value < 1 then 1 else maxHits.value)
            && (maxHits.Some? && |hits| > 0 ==> |r| <= if maxHits.value < 1 then 1 else maxHits.value)
  {
  }
}
