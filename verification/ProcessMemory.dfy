/** Reading another process: reads may fail, may return less than asked for, and the memory may change
    from one read to the next. */
module ProcessMemory {
  type byte = b: nat | b < 256

  /** What the t-th read at an address for a size returns; nothing when it fails. */
  type Answers = (nat, nat, nat) -> seq<byte>

  datatype Region = Region(start: nat, end: nat)

  datatype Piece = Piece(addr: nat, data: seq<byte>)

  function Min(a: nat, b: nat): nat {
    if a <= b then a else b
  }

  function Got(answers: Answers, t: nat, addr: nat, size: nat): (data: seq<byte>)
    ensures |data| <= size
  {
    var d := answers(t, addr, size);
    d[..Min(|d|, size)]
  }

  /** The pieces of the region from `addr` on: each starts where the one before ended, or behind what
      could not be read. */
  function Pieces(answers: Answers, t: nat, addr: nat, end: nat, chunk: nat): seq<Piece>
    requires chunk > 0
    decreases end - addr
  {
    if addr >= end then []
    else
      var want := Min(chunk, end - addr);
      var data := Got(answers, t, addr, want);
      if data == [] then Pieces(answers, t + 1, addr + want, end, chunk)
      else [Piece(addr, data)] + Pieces(answers, t + 1, addr + |data|, end, chunk)
  }

  /** How many reads that took. */
  function ReadCount(answers: Answers, t: nat, addr: nat, end: nat, chunk: nat): nat
    requires chunk > 0
    decreases end - addr
  {
    if addr >= end then 0
    else
      var want := Min(chunk, end - addr);
      var data := Got(answers, t, addr, want);
      1 + ReadCount(answers, t + 1, addr + (if data == [] then want else |data|), end, chunk)
  }

  /** One read, and then the rest. */
  lemma {:induction false} OneRead(answers: Answers, t: nat, addr: nat, end: nat, chunk: nat)
    requires chunk > 0 && addr < end
    ensures var want := Min(chunk, end - addr);
            var data := Got(answers, t, addr, want);
            var next := addr + (if data == [] then want else |data|);
            && addr < next <= end
            && Pieces(answers, t, addr, end, chunk)
                == (if data == [] then [] else [Piece(addr, data)]) + Pieces(answers, t + 1, next, end, chunk)
            && ReadCount(answers, t, addr, end, chunk) == 1 + ReadCount(answers, t + 1, next, end, chunk)
  {
    hide Got;
  }

  lemma {:induction false} NoReads(answers: Answers, t: nat, addr: nat, end: nat, chunk: nat)
    requires chunk > 0 && addr >= end
    ensures Pieces(answers, t, addr, end, chunk) == [] && ReadCount(answers, t, addr, end, chunk) == 0
  {
    hide Got;
  }

  class Process {
    const answers: Answers
    var t: nat

    constructor (answers: Answers)
      ensures this.answers == answers && t == 0
    {
      this.answers, t := answers, 0;
    }

    method Read(addr: nat, size: nat) returns (data: seq<byte>)
      modifies this
      ensures data == Got(answers, old(t), addr, size) && t == old(t) + 1
    {
      data := Got(answers, t, addr, size);
      t := t + 1;
    }

    method IterRegionBytes(region: Region, chunk: nat) returns (pieces: seq<Piece>)
      requires chunk > 0
      modifies this
      ensures pieces == Pieces(answers, old(t), region.start, region.end, chunk)
      ensures t == old(t) + ReadCount(answers, old(t), region.start, region.end, chunk)
    {
      hide Got, Pieces, ReadCount;
      pieces := [];
      var addr := region.start;
      while addr < region.end
        invariant pieces + Pieces(answers, t, addr, region.end, chunk)
                  == Pieces(answers, old(t), region.start, region.end, chunk)
        invariant t + ReadCount(answers, t, addr, region.end, chunk)
                  == old(t) + ReadCount(answers, old(t), region.start, region.end, chunk)
        decreases region.end - addr
      {
        var want := Min(chunk, region.end - addr);
        OneRead(answers, t, addr, region.end, chunk);
        var data := Read(addr, want);
        if data != [] {
          pieces := pieces + [Piece(addr, data)];
          addr := addr + |data|;
        } else {
          addr := addr + want;
        }
      }
      NoReads(answers, t, addr, region.end, chunk);
    }
  }

  /** The byte that was read for an address. */
  datatype Cell = Unread | Byte(b: byte)

  function ByteAt(pieces: seq<Piece>, x: nat): Cell {
    if pieces == [] then Unread
    else
      var p := pieces[|pieces| - 1];
      if p.addr <= x < p.addr + |p.data| then Byte(p.data[x - p.addr]) else ByteAt(pieces[..|pieces| - 1], x)
  }

  lemma {:induction false} ByteAtOne(p: Piece, y: nat)
    ensures ByteAt([p], y) == if p.addr <= y < p.addr + |p.data| then Byte(p.data[y - p.addr]) else Unread
  {
    assert [p][..0] == [];
  }

  function EndOf(pieces: seq<Piece>, start: nat): nat {
    if pieces == [] then start
    else pieces[|pieces| - 1].addr + |pieces[|pieces| - 1].data|
  }

  /** Pieces come in ascending order, without overlap, inside the region and never empty. */
  predicate InOrder(pieces: seq<Piece>, start: nat) {
    pieces == []
    || (var k := |pieces| - 1;
        pieces[k].data != [] && EndOf(pieces[..k], start) <= pieces[k].addr && InOrder(pieces[..k], start))
  }

  lemma {:induction false} InOrderPrefix(pieces: seq<Piece>, k: nat, start: nat)
    requires InOrder(pieces, start) && k <= |pieces|
    ensures InOrder(pieces[..k], start)
  {
    if k < |pieces| {
      InOrderPrefix(pieces[..|pieces| - 1], k, start);
      assert pieces[..|pieces| - 1][..k] == pieces[..k];
    } else {
      assert pieces[..k] == pieces;
    }
  }

  lemma {:induction false} InOrderCons(p: Piece, rest: seq<Piece>, start: nat, next: nat)
    requires p.data != [] && start <= p.addr && p.addr + |p.data| <= next && InOrder(rest, next)
    ensures InOrder([p] + rest, start) && EndOf([p] + rest, start) >= p.addr + |p.data|
    ensures rest != [] ==> EndOf([p] + rest, start) == EndOf(rest, next)
  {
    var all := [p] + rest;
    if rest == [] {
      assert all == [p] && all[..0] == [];
    } else {
      var k := |rest| - 1;
      InOrderCons(p, rest[..k], start, next);
      assert all[..k + 1] == [p] + rest[..k];
      assert all[k + 1] == rest[k];
    }
  }

  lemma {:induction false} PiecesInOrder(answers: Answers, t: nat, addr: nat, end: nat, chunk: nat)
    requires chunk > 0
    ensures var ps := Pieces(answers, t, addr, end, chunk);
            InOrder(ps, addr) && EndOf(ps, addr) <= (if addr <= end then end else addr)
    decreases end - addr
  {
    hide Got, Pieces;
    if addr >= end {
      NoReads(answers, t, addr, end, chunk);
    } else {
      OneRead(answers, t, addr, end, chunk);
      var want := Min(chunk, end - addr);
      var data := Got(answers, t, addr, want);
      var next := addr + (if data == [] then want else |data|);
      var rest := Pieces(answers, t + 1, next, end, chunk);
      PiecesInOrder(answers, t + 1, next, end, chunk);
      if data == [] {
        assert Pieces(answers, t, addr, end, chunk) == rest;
        InOrderFromLater(rest, addr, next);
      } else {
        InOrderCons(Piece(addr, data), rest, addr, next);
      }
    }
  }

  lemma {:induction false} InOrderFromLater(pieces: seq<Piece>, start: nat, later: nat)
    requires start <= later && InOrder(pieces, later)
    ensures InOrder(pieces, start)
    ensures if pieces == [] then EndOf(pieces, start) == start else EndOf(pieces, start) == EndOf(pieces, later)
  {
    if pieces != [] {
      InOrderFromLater(pieces[..|pieces| - 1], start, later);
    }
  }

  /** Nothing is known of addresses behind the last piece, or before the region. */
  lemma {:induction false} UnreadOutside(pieces: seq<Piece>, start: nat, x: nat)
    requires InOrder(pieces, start)
    ensures EndOf(pieces, start) >= start
    ensures x >= EndOf(pieces, start) || x < start ==> ByteAt(pieces, x) == Unread
  {
    if pieces != [] {
      UnreadOutside(pieces[..|pieces| - 1], start, x);
    }
  }

  lemma {:induction false} ByteAtCons(p: Piece, rest: seq<Piece>, next: nat, x: nat)
    requires InOrder(rest, next) && p.addr + |p.data| <= next
    ensures ByteAt([p] + rest, x)
         == if p.addr <= x < p.addr + |p.data| then Byte(p.data[x - p.addr]) else ByteAt(rest, x)
  {
    var all := [p] + rest;
    if rest == [] {
      assert all == [p] && all[..0] == [];
    } else {
      var k := |rest| - 1;
      ByteAtCons(p, rest[..k], next, x);
      assert all[..k + 1] == [p] + rest[..k];
      UnreadOutside(rest[..k], next, x);
      assert rest[k].addr >= next by {
        UnreadOutside(rest[..k], next, 0);
      }
    }
  }

  /** Every read of the region finds something, and what it finds is the image. */
  ghost predicate ReadsImage(answers: Answers, region: Region, image: nat -> byte) {
    forall t: nat, addr: nat, size: nat | region.start <= addr < region.end && 0 < size <= region.end - addr ::
      Got(answers, t, addr, size) != [] && forall j :: 0 <= j < |Got(answers, t, addr, size)| ==>
          Got(answers, t, addr, size)[j] == image(addr + j)
  }

  /** Then the pieces are the image of the whole region, however short the reads fall. */
  lemma {:induction false} PiecesAreTheImage(answers: Answers, t: nat, addr: nat, region: Region, chunk: nat,
          image: nat -> byte, x: nat)
    requires chunk > 0 && region.start <= addr && ReadsImage(answers, region, image)
    ensures ByteAt(Pieces(answers, t, addr, region.end, chunk), x)
              == if addr <= x < region.end then Byte(image(x)) else Unread
    decreases region.end - addr
  {
    hide Got, InOrder, EndOf, Pieces;
    if addr >= region.end {
      NoReads(answers, t, addr, region.end, chunk);
    } else {
      OneRead(answers, t, addr, region.end, chunk);
      var data := Got(answers, t, addr, Min(chunk, region.end - addr));
      PiecesAreTheImage(answers, t + 1, addr + |data|, region, chunk, image, x);
      PiecesInOrder(answers, t + 1, addr + |data|, region.end, chunk);
      ByteAtCons(Piece(addr, data), Pieces(answers, t + 1, addr + |data|, region.end, chunk), addr + |data|, x);
    }
  }

  /* ----- any memory ----- */

  /** Some read that covers the address failed. */
  predicate Failed(answers: Answers, i: nat, a: nat, end: nat, chunk: nat, x: nat) {
    a <= x < end && x < a + chunk && Got(answers, i, a, Min(chunk, end - a)) == []
  }

  /** Some read returned this byte for the address. */
  predicate Returned(answers: Answers, i: nat, a: nat, end: nat, chunk: nat, x: nat, v: byte) {
    && a <= x < end
    && var data := Got(answers, i, a, Min(chunk, end - a));
       x - a < |data| && data[x - a] == v
  }

  /** What is known of an address: a byte that a read returned for it; or nothing, and then it lies outside, or
      in one piece with what could not be read. A failure costs no more than that. */
  lemma {:induction false} EveryAddressIsTried(answers: Answers, t: nat, addr: nat, end: nat, chunk: nat, x: nat)
    requires chunk > 0
    ensures match ByteAt(Pieces(answers, t, addr, end, chunk), x)
            case Byte(v) => addr <= x < end && exists i: nat, a: nat :: Returned(answers, i, a, end, chunk, x, v)
            case Unread => addr <= x < end ==> exists i: nat, a: nat :: Failed(answers, i, a, end, chunk, x)
    decreases end - addr
  {
    hide Got, InOrder, Pieces, ByteAt;
    if addr >= end {
      NoReads(answers, t, addr, end, chunk);
      NothingAtAll(x);
    } else {
      OneRead(answers, t, addr, end, chunk);
      var want := Min(chunk, end - addr);
      var data := Got(answers, t, addr, want);
      var next := addr + (if data == [] then want else |data|);
      var rest := Pieces(answers, t + 1, next, end, chunk);
      EveryAddressIsTried(answers, t + 1, next, end, chunk, x);
      if data == [] {
        assert [] + rest == rest;
        assert addr <= x < next ==> Failed(answers, t, addr, end, chunk, x);
      } else {
        PiecesInOrder(answers, t + 1, next, end, chunk);
        ByteAtCons(Piece(addr, data), rest, next, x);
        assert addr <= x < next ==> Returned(answers, t, addr, end, chunk, x, data[x - addr]);
      }
    }
  }

  lemma {:induction false} NothingAtAll(x: nat)
    ensures ByteAt([], x) == Unread
  {
  }
}
