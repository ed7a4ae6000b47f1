/** Byte patterns with wildcards: matching one, finding all matches, and scanning a region in chunks
    that overlap. */
module Aob {
  import opened Options
  import opened ProcessMemory

  /** Where the mask is false any byte matches. */
  datatype Pattern = Pattern(bytes: seq<byte>, mask: seq<bool>) {
    predicate Valid() {
      |mask| == |bytes|
    }

    predicate HasFixedByte() {
      exists i :: 0 <= i < |mask| && mask[i]
    }
  }

  predicate ByteMatches(haystack: seq<byte>, offset: nat, p: Pattern, i: nat)
    requires p.Valid() && i < |p.bytes| && offset + i < |haystack|
  {
    p.mask[i] ==> haystack[offset + i] == p.bytes[i]
  }

  /** The pattern fits in at the offset and all its fixed bytes are there. */
  predicate Matches(haystack: seq<byte>, offset: int, p: Pattern)
    requires p.Valid()
  {
    && 0 <= offset && offset + |p.bytes| <= |haystack|
    && forall i :: 0 <= i < |p.bytes| ==> ByteMatches(haystack, offset, p, i)
  }

  method MatchAt(haystack: seq<byte>, offset: int, p: Pattern) returns (r: bool)
    requires p.Valid()
    ensures r == Matches(haystack, offset, p)
  {
    var end := offset + |p.bytes|;
    if offset < 0 || end > |haystack| {
      return false;
    }
    var i := 0;
    while i < |p.bytes|
      invariant 0 <= i <= |p.bytes|
      invariant forall k :: 0 <= k < i ==> ByteMatches(haystack, offset, p, k)
    {
      if p.mask[i] && haystack[offset + i] != p.bytes[i] {
        assert !ByteMatches(haystack, offset, p, i);
        return false;
      }
      i := i + 1;
    }
    r := true;
  }

  /* ----- ascending lists ----- */

  function Select(lo: nat, hi: nat, wanted: nat -> bool): seq<nat>
    decreases hi
  {
    if hi <= lo then [] else Select(lo, hi - 1, wanted) + (if wanted(hi - 1) then [hi - 1] else [])
  }

  lemma {:induction false} SelectSplit(lo: nat, mid: nat, hi: nat, wanted: nat -> bool)
    requires lo <= mid <= hi
    ensures Select(lo, hi, wanted) == Select(lo, mid, wanted) + Select(mid, hi, wanted)
  {
    if mid < hi {
      SelectSplit(lo, mid, hi - 1, wanted);
    }
  }

  lemma {:induction false} SelectSame(lo: nat, hi: nat, wanted: nat -> bool, wanted': nat -> bool)
    requires forall x: nat :: lo <= x < hi ==> wanted(x) == wanted'(x)
    ensures Select(lo, hi, wanted) == Select(lo, hi, wanted')
  {
    if lo < hi {
      SelectSame(lo, hi - 1, wanted, wanted');
    }
  }

  lemma {:induction false} SelectShifted(lo: nat, hi: nat, shift: nat, wanted: nat -> bool, wanted': nat -> bool)
    requires forall x: nat :: lo <= x < hi ==> wanted(x) == wanted'(shift + x)
    ensures Shifted(shift, Select(lo, hi, wanted)) == Select(shift + lo, shift + hi, wanted')
  {
    if lo < hi {
      SelectShifted(lo, hi - 1, shift, wanted, wanted');
      assert shift + hi - 1 == shift + (hi - 1);
    }
  }

  function Shifted(shift: nat, offsets: seq<nat>): (r: seq<nat>)
    ensures |r| == |offsets|
  {
    seq(|offsets|, i requires 0 <= i < |offsets| => shift + offsets[i])
  }

  lemma {:induction false} SelectsEachOnce(lo: nat, hi: nat, wanted: nat -> bool)
    ensures var s := Select(lo, hi, wanted);
            && (forall i, j :: 0 <= i < j < |s| ==> s[i] < s[j])
            && (forall i :: 0 <= i < |s| ==> lo <= s[i] < hi)
            && (forall x: nat :: x in s <==> lo <= x < hi && wanted(x))
    decreases hi
  {
    if lo < hi {
      SelectsEachOnce(lo, hi - 1, wanted);
      var before, s := Select(lo, hi - 1, wanted), Select(lo, hi, wanted);
      assert forall i :: 0 <= i < |before| ==> s[i] == before[i];
      assert forall x: nat :: x in s <==> x in before || (x == hi - 1 && wanted(x));
    }
  }

  /* ----- find_all ----- */

  /** What `find_all` takes for a match: without a fixed byte, the first byte is compared all the same. */
  predicate Accepts(haystack: seq<byte>, i: nat, p: Pattern)
    requires p.Valid()
  {
    && p.bytes != []
    && Matches(haystack, i, p)
    && (p.HasFixedByte() || haystack[i] == p.bytes[0])
  }

  /** The first offset whose byte is fixed, or else the first offset. */
  method Anchor(p: Pattern) returns (anchor: nat)
    requires p.Valid() && p.bytes != []
    ensures anchor < |p.bytes|
    ensures if p.HasFixedByte() then p.mask[anchor] else anchor == 0
  {
    anchor := 0;
    while anchor < |p.mask|
      invariant anchor <= |p.mask|
      invariant forall k :: 0 <= k < anchor ==> !p.mask[k]
    {
      if p.mask[anchor] {
        return;
      }
      anchor := anchor + 1;
    }
    anchor := 0;
  }

  method FindAll(haystack: seq<byte>, p: Pattern, start: nat, end: nat) returns (offsets: seq<nat>)
    requires p.Valid() && end <= |haystack|
    ensures offsets == Select(start, end, (i: nat) => i + |p.bytes| <= end && Accepts(haystack, i, p))
  {
    ghost var wanted: nat -> bool := (i: nat) => i + |p.bytes| <= end && Accepts(haystack, i, p);
    var plen := |p.bytes|;
    offsets := [];
    if plen == 0 || end - start < plen {
      NothingSelected(start, end, wanted);
      return;
    }
    var anchor := Anchor(p);
    var i := start;
    while i + plen <= end
      invariant start <= i <= end
      invariant offsets == Select(start, i, wanted)
    {
      if haystack[i + anchor] != p.bytes[anchor] {
        assert !ByteMatches(haystack, i, p, anchor) || !p.HasFixedByte();
        i := i + 1;
        continue;
      }
      var ok := true;
      var j := 0;
      while j < plen
        invariant 0 <= j <= plen
        invariant forall k :: 0 <= k < j ==> ByteMatches(haystack, i, p, k)
      {
        if p.mask[j] && haystack[i + j] != p.bytes[j] {
          assert !ByteMatches(haystack, i, p, j);
          ok := false;
          break;
        }
        j := j + 1;
      }
      assert ok == wanted(i);
      if ok {
        offsets := offsets + [i];
      }
      i := i + 1;
    }
    SelectSplit(start, i, end, wanted);
    NothingSelected(i, end, wanted);
  }

  lemma {:induction false} NothingSelected(lo: nat, hi: nat, wanted: nat -> bool)
    requires forall x: nat :: lo <= x < hi ==> !wanted(x)
    ensures Select(lo, hi, wanted) == []
  {
    if lo < hi {
      NothingSelected(lo, hi - 1, wanted);
    }
  }

  lemma {:induction false} FixedByteIsFound(haystack: seq<byte>, i: nat, p: Pattern)
    requires p.Valid() && p.HasFixedByte()
    ensures Accepts(haystack, i, p) == Matches(haystack, i, p)
  {
    var k :| 0 <= k < |p.mask| && p.mask[k];
    assert p.bytes != [];
  }

  /** `find_all` finds whatever `match_at` says matches, in every haystack, if and only if the pattern
      has a byte that is no wildcard. */
  lemma {:induction false} FindAllAgreesWithMatchAt(p: Pattern)
    requires p.Valid()
    ensures p.HasFixedByte() <==>
              forall haystack: seq<byte>, i: nat :: Accepts(haystack, i, p) == Matches(haystack, i, p)
  {
    if p.HasFixedByte() {
      forall haystack: seq<byte>, i: nat
        ensures Accepts(haystack, i, p) == Matches(haystack, i, p)
      {
        FixedByteIsFound(haystack, i, p);
      }
    } else {
      var other: byte := if p.bytes == [] || p.bytes[0] != 0 then 0 else 1;
      var haystack: seq<byte> := seq(|p.bytes|, _ => other);
      assert forall k :: 0 <= k < |p.bytes| ==> ByteMatches(haystack, 0, p, k);
      assert Matches(haystack, 0, p) && !Accepts(haystack, 0, p);
    }
  }

  /* ----- scan_region ----- */

  /** The chunk that an address belongs to: what was read from the last chunk start at or before it. */
  function ChunkOf(answers: Answers, t: nat, pos: nat, end: nat, chunk: nat, overlap: nat, x: nat): Piece
    requires chunk > 0 && pos <= x < end
    decreases x - pos
  {
    if x < pos + chunk then Piece(pos, Got(answers, t, pos, Min(chunk + overlap, end - pos)))
    else ChunkOf(answers, t + 1, pos + chunk, end, chunk, overlap, x)
  }

  function Overlap(p: Pattern): nat {
    if p.bytes == [] then 0 else |p.bytes| - 1
  }

  /** The pattern is in the bytes read with the chunk that this address belongs to. */
  predicate ScanHit(answers: Answers, t: nat, pos: nat, end: nat, chunk: nat, p: Pattern, x: nat)
    requires p.Valid() && chunk > 0
  {
    pos <= x < end
    && var c := ChunkOf(answers, t, pos, end, chunk, Overlap(p), x);
       c.addr <= x && Accepts(c.data, x - c.addr, p)
  }

  /** Read number k is made at the k-th chunk start, which is the last one at or before the address. */
  predicate IsRead(answers: Answers, t: nat, pos: nat, end: nat, chunk: nat, overlap: nat, x: nat, k: nat, c: Piece) {
    && c.addr == pos + k * chunk && c.addr <= x < c.addr + chunk && c.addr < end
    && c.data == Got(answers, t + k, c.addr, Min(chunk + overlap, end - c.addr))
  }

  /** Whatever became of the other reads, an address is looked for in the one made at its own chunk start. */
  lemma {:induction false} ChunkIsItsRead(answers: Answers, t: nat, pos: nat, end: nat, chunk: nat, overlap: nat,
          x: nat)
    requires chunk > 0 && pos <= x < end
    ensures exists k: nat :: IsRead(answers, t, pos, end, chunk, overlap, x, k,
                                    ChunkOf(answers, t, pos, end, chunk, overlap, x))
    decreases x - pos
  {
    hide Got;
    var c := ChunkOf(answers, t, pos, end, chunk, overlap, x);
    if x >= pos + chunk {
      ChunkIsItsRead(answers, t + 1, pos + chunk, end, chunk, overlap, x);
      var k: nat :| IsRead(answers, t + 1, pos + chunk, end, chunk, overlap, x, k, c);
      assert pos + chunk + k * chunk == pos + (k + 1) * chunk;
      assert IsRead(answers, t, pos, end, chunk, overlap, x, k + 1, c);
    } else {
      assert IsRead(answers, t, pos, end, chunk, overlap, x, 0, c);
    }
  }

  /** All hits from a chunk start on. */
  function Scanned(answers: Answers, t: nat, pos: nat, end: nat, chunk: nat, p: Pattern): seq<nat>
    requires p.Valid() && chunk > 0
  {
    Select(pos, end, (x: nat) => ScanHit(answers, t, pos, end, chunk, p, x))
  }

  lemma {:induction false} AcceptsInside(data: seq<byte>, i: nat, p: Pattern)
    requires p.Valid()
    ensures Accepts(data, i, p) ==> |p.bytes| > 0 && i + |p.bytes| <= |data|
  {
  }

  /** The hits in a chunk's own addresses are the matches in what was read with it; none of them begins
      in the overlap. */
  lemma {:induction false} ChunkItself(answers: Answers, t: nat, pos: nat, mid: nat, end: nat, chunk: nat, p: Pattern)
    requires p.Valid() && chunk > 0 && pos < end && mid == Min(pos + chunk, end)
    ensures var data := Got(answers, t, pos, Min(chunk + Overlap(p), end - pos));
            Select(pos, mid, (x: nat) => ScanHit(answers, t, pos, end, chunk, p, x))
              == Shifted(pos, Select(0, |data|, (i: nat) => i + |p.bytes| <= |data| && Accepts(data, i, p)))
  {
    hide Got, Accepts, Select, Shifted;
    var data := Got(answers, t, pos, Min(chunk + Overlap(p), end - pos));
    var inChunk: nat -> bool := (i: nat) => i + |p.bytes| <= |data| && Accepts(data, i, p);
    var all: nat -> bool := (x: nat) => ScanHit(answers, t, pos, end, chunk, p, x);
    forall i: nat
      ensures inChunk(i) ==> i < mid - pos && i < |data|
      ensures i < mid - pos ==> inChunk(i) == all(pos + i)
    {
      AcceptsInside(data, i, p);
    }
    SelectShifted(0, mid - pos, pos, inChunk, all);
    SelectPadded(|data|, mid - pos, inChunk);
  }

  lemma {:induction false} SelectPadded(m: nat, n: nat, wanted: nat -> bool)
    requires forall i: nat :: wanted(i) ==> i < m && i < n
    ensures Select(0, m, wanted) == Select(0, n, wanted)
  {
    hide Select;
    if m <= n {
      SelectSplit(0, m, n, wanted);
      NothingSelected(m, n, wanted);
    } else {
      SelectSplit(0, n, m, wanted);
      NothingSelected(n, m, wanted);
    }
  }

  lemma {:induction false} LaterChunks(answers: Answers, t: nat, pos: nat, mid: nat, end: nat, chunk: nat, p: Pattern)
    requires p.Valid() && chunk > 0 && pos < end && mid == Min(pos + chunk, end)
    ensures Select(mid, end, (x: nat) => ScanHit(answers, t, pos, end, chunk, p, x))
              == Scanned(answers, t + 1, pos + chunk, end, chunk, p)
  {
    hide Got, Accepts;
    var all: nat -> bool := (x: nat) => ScanHit(answers, t, pos, end, chunk, p, x);
    var later: nat -> bool := (x: nat) => ScanHit(answers, t + 1, pos + chunk, end, chunk, p, x);
    SelectSame(mid, end, all, later);
  }

  lemma {:induction false} ChunkAdds(answers: Answers, t: nat, pos: nat, end: nat, chunk: nat, p: Pattern)
    requires p.Valid() && chunk > 0 && pos < end
    ensures var data := Got(answers, t, pos, Min(chunk + Overlap(p), end - pos));
            Scanned(answers, t, pos, end, chunk, p)
              == Shifted(pos, Select(0, |data|, (i: nat) => i + |p.bytes| <= |data| && Accepts(data, i, p)))
                 + Scanned(answers, t + 1, pos + chunk, end, chunk, p)
  {
    hide Got, Accepts, Select, Shifted, ScanHit;
    var mid := Min(pos + chunk, end);
    ChunkItself(answers, t, pos, mid, end, chunk, p);
    LaterChunks(answers, t, pos, mid, end, chunk, p);
    SelectSplit(pos, mid, end, (x: nat) => ScanHit(answers, t, pos, end, chunk, p, x));
  }

  /** Reports an address if and only if the pattern is in the bytes read with its chunk, in ascending
      order and therefore once; a chunk that cannot be read is skipped. */
  method ScanRegion(pm: Process, region: Region, p: Pattern, chunk: nat) returns (addrs: seq<nat>)
    requires p.Valid() && chunk > 0
    modifies pm
    ensures addrs == Scanned(pm.answers, old(pm.t), region.start, region.end, chunk, p)
  {
    hide Got, Accepts, Select, ScanHit, Shifted, Scanned;
    var overlap := if |p.bytes| - 1 > 0 then |p.bytes| - 1 else 0;
    var pos, end := region.start, region.end;
    addrs := [];
    while pos < end
      invariant Scanned(pm.answers, old(pm.t), region.start, end, chunk, p)
                == addrs + Scanned(pm.answers, pm.t, pos, end, chunk, p)
      decreases end - pos
    {
      ChunkAdds(pm.answers, pm.t, pos, end, chunk, p);
      var data := pm.Read(pos, Min(chunk + overlap, end - pos));
      var found := FindAll(data, p, 0, |data|);
      addrs := addrs + Shifted(pos, found);
      pos := pos + chunk;
    }
    NothingAfter(pm.answers, pm.t, pos, end, chunk, p);
  }

  lemma {:induction false} NothingAfter(answers: Answers, t: nat, pos: nat, end: nat, chunk: nat, p: Pattern)
    requires p.Valid() && chunk > 0 && pos >= end
    ensures Scanned(answers, t, pos, end, chunk, p) == []
  {
  }

  /** Every read of the region returns all that was asked for, and always the same bytes. */
  ghost predicate FullyReadable(answers: Answers, region: Region, image: nat -> byte) {
    forall t: nat, addr: nat, size: nat | region.start <= addr && addr + size <= region.end ::
      Got(answers, t, addr, size) == seq(size, j requires 0 <= j < size => image(addr + j))
  }

  predicate ImageMatches(image: nat -> byte, p: Pattern, x: nat, end: nat)
    requires p.Valid()
  {
    x + |p.bytes| <= end && forall i :: 0 <= i < |p.bytes| && p.mask[i] ==> image(x + i) == p.bytes[i]
  }

  lemma {:induction false} ChunkOfImage(answers: Answers, t: nat, pos: nat, region: Region, chunk: nat, overlap: nat,
          image: nat -> byte, x: nat)
    requires chunk > 0 && FullyReadable(answers, region, image) && region.start <= pos <= x < region.end
    ensures var c := ChunkOf(answers, t, pos, region.end, chunk, overlap, x);
            && c.addr <= x < c.addr + chunk && |c.data| == Min(chunk + overlap, region.end - c.addr)
            && forall j :: 0 <= j < |c.data| ==> c.data[j] == image(c.addr + j)
    decreases x - pos
  {
    hide Got;
    if x >= pos + chunk {
      ChunkOfImage(answers, t + 1, pos + chunk, region, chunk, overlap, image, x);
    }
  }

  lemma {:induction false} SliceOfImage(data: seq<byte>, addr: nat, end: nat, image: nat -> byte, p: Pattern, x: nat)
    requires p.Valid() && addr <= x && addr + |data| <= end && (addr + |data| == end || x + |p.bytes| <= addr + |data|)
    requires forall j :: 0 <= j < |data| ==> data[j] == image(addr + j)
    ensures Matches(data, x - addr, p) == ImageMatches(image, p, x, end)
  {
    var o := x - addr;
    if x + |p.bytes| <= addr + |data| {
      forall i | 0 <= i < |p.bytes|
        ensures ByteMatches(data, o, p, i) == (p.mask[i] ==> image(x + i) == p.bytes[i])
      {
      }
    }
  }

  lemma {:induction false} ChunkShowsTheImage(answers: Answers, t: nat, region: Region, p: Pattern, chunk: nat,
          image: nat -> byte, x: nat)
    requires p.Valid() && p.HasFixedByte() && chunk > 0 && FullyReadable(answers, region, image)
    requires region.start <= x < region.end
    ensures ScanHit(answers, t, region.start, region.end, chunk, p, x) == ImageMatches(image, p, x, region.end)
  {
    hide Got, ChunkOf, Accepts, Matches;
    ChunkOfImage(answers, t, region.start, region, chunk, Overlap(p), image, x);
    var c := ChunkOf(answers, t, region.start, region.end, chunk, Overlap(p), x);
    FixedByteIsFound(c.data, x - c.addr, p);
    SliceOfImage(c.data, c.addr, region.end, image, p, x);
  }

  /** In a region that can be read, each offset at which the pattern matches is reported, whatever the
      chunk size: the overlap is as long as it has to be. */
  lemma {:induction false} ChunksMakeNoDifference(answers: Answers, t: nat, region: Region, p: Pattern, chunk: nat,
          image: nat -> byte)
    requires p.Valid() && p.HasFixedByte() && chunk > 0 && FullyReadable(answers, region, image)
    ensures Scanned(answers, t, region.start, region.end, chunk, p)
              == Select(region.start, region.end, (x: nat) => ImageMatches(image, p, x, region.end))
  {
    hide ScanHit, ImageMatches, FullyReadable;
    forall x: nat | region.start <= x < region.end
      ensures ScanHit(answers, t, region.start, region.end, chunk, p, x) == ImageMatches(image, p, x, region.end)
    {
      ChunkShowsTheImage(answers, t, region, p, chunk, image, x);
    }
    SelectSame(region.start, region.end, (x: nat) => ScanHit(answers, t, region.start, region.end, chunk, p, x),
               (x: nat) => ImageMatches(image, p, x, region.end));
  }
}
