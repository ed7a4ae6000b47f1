/** The incremental object-array walk: a diff-driven ledger that must equal a full walk. */
module WalkDelta {
  import opened Options

  /** What a slot contributes: its kind, its object and what is collected with it. */
  datatype Contribution = Contribution(kind: nat, obj: nat, extra: int)

  type Ledger = map<nat, Contribution>

  /** Classifies the object in a slot from its index, address and serial. */
  type Visit = (nat, nat, int) -> Option<Contribution>

  /** One tick's (address, serial) columns; address 0 is an empty slot. */
  datatype Raw = Columns(addrs: seq<nat>, serials: seq<int>)
  type Columns = c: Raw | |c.addrs| == |c.serials| witness Columns([], [])

  predicate Live(c: Columns, i: nat) {
    i < |c.addrs| && c.addrs[i] != 0
  }

  function Look(c: Columns, visit: Visit, i: nat): Option<Contribution>
    requires i < |c.addrs|
  {
    visit(i, c.addrs[i], c.serials[i])
  }

  /* ----- the reference walk ----- */

  /** What a full walk of the non-null slots collects. */
  ghost function FullLedger(c: Columns, visit: Visit): Ledger {
    map i: nat | i < |c.addrs| && Live(c, i) && Look(c, visit, i).Some? :: Look(c, visit, i).value
  }

  /** The records of the non-null slots, in slot order. */
  function Records(c: Columns, n: nat): seq<(nat, nat, int)>
    requires n <= |c.addrs|
  {
    if n == 0 then []
    else Records(c, n - 1) + if c.addrs[n - 1] != 0 then [(n - 1, c.addrs[n - 1], c.serials[n - 1])] else []
  }

  function Collected(records: seq<(nat, nat, int)>, visit: Visit): Ledger {
    if records == [] then map[]
    else
      var rest, r := Collected(records[..|records| - 1], visit), records[|records| - 1];
      match visit(r.0, r.1, r.2)
      case Some(c) => rest[r.0 := c]
      case None => rest
  }

  method FullWalkLedger(records: seq<(nat, nat, int)>, visit: Visit) returns (ledger: Ledger)
    ensures ledger == Collected(records, visit)
  {
    ledger := map[];
    var k := 0;
    while k < |records|
      invariant 0 <= k <= |records| && ledger == Collected(records[..k], visit)
    {
      var (idx, addr, serial) := records[k];
      assert records[..k + 1][..k] == records[..k];
      match visit(idx, addr, serial) {
        case Some(c) => ledger := ledger[idx := c];
        case None =>
      }
      k := k + 1;
    }
    assert records[..k] == records;
  }

  /** The full ledger of the first n slots. */
  ghost function UpTo(c: Columns, n: nat, visit: Visit): Ledger
    requires n <= |c.addrs|
  {
    map i: nat | i < n && Live(c, i) && Look(c, visit, i).Some? :: Look(c, visit, i).value
  }

  lemma {:induction false} CollectedUpTo(c: Columns, n: nat, visit: Visit)
    requires n <= |c.addrs|
    ensures Collected(Records(c, n), visit) == UpTo(c, n, visit)
  {
    hide Collected, Records, UpTo, Live, Look;
    if n == 0 {
      NothingCollected(c, visit);
    } else {
      CollectedUpTo(c, n - 1, visit);
      CollectedMore(c, n - 1, n, visit);
      UpToMore(c, n - 1, n, visit);
    }
  }

  lemma {:induction false} NothingCollected(c: Columns, visit: Visit)
    ensures Collected(Records(c, 0), visit) == UpTo(c, 0, visit)
  {
    assert UpTo(c, 0, visit) == map[];
  }

  lemma {:induction false} UpToMore(c: Columns, k: nat, n: nat, visit: Visit)
    requires n == k + 1 && n <= |c.addrs|
    ensures UpTo(c, n, visit)
              == if Live(c, k) && Look(c, visit, k).Some?
                 then UpTo(c, k, visit)[k := Look(c, visit, k).value] else UpTo(c, k, visit)
  {
  }

  /** What the record of slot k adds. */
  lemma {:induction false} CollectedMore(c: Columns, k: nat, n: nat, visit: Visit)
    requires n == k + 1 && n <= |c.addrs|
    ensures Collected(Records(c, n), visit)
              == if Live(c, k) && Look(c, visit, k).Some?
                 then Collected(Records(c, k), visit)[k := Look(c, visit, k).value] else Collected(Records(c, k), visit)
  {
    var records, rest := Records(c, n), Records(c, k);
    if Live(c, k) {
      assert records[..|records| - 1] == rest && records[|records| - 1] == (k, c.addrs[k], c.serials[k]);
    } else {
      assert records == rest;
    }
  }

  /** The pure reference implementation collects the full ledger. */
  lemma {:induction false} ReferenceIsFull(c: Columns, visit: Visit)
    ensures Collected(Records(c, |c.addrs|), visit) == FullLedger(c, visit)
  {
    CollectedUpTo(c, |c.addrs|, visit);
    assert UpTo(c, |c.addrs|, visit) == FullLedger(c, visit);
  }

  /* ----- one tick ----- */

  datatype Walker = Walker(prev: Option<Columns>, ledger: Ledger, tick: nat)

  datatype Input = Input(columns: Columns, visit: Visit, slices: seq<(int, int)>, revisit: seq<int>)

  predicate Changed(prev: Columns, c: Columns, i: nat)
    requires i < |c.addrs|
  {
    if i < |prev.addrs| then prev.addrs[i] != c.addrs[i] || prev.serials[i] != c.serials[i]
    else c.addrs[i] != 0 || c.serials[i] != 0
  }

  /** Is slot i on the stride start, start + step, ... ? */
  predicate OnStride(start: nat, step: nat, i: nat)
    requires 0 < step
  {
    start <= i && (i - start) % step == 0
  }

  predicate InSlice(slices: seq<(int, int)>, i: nat) {
    exists k :: 0 <= k < |slices| && slices[k].1 > 0 && OnStride(slices[k].0 % slices[k].1, slices[k].1, i)
  }

  /** Is slot i visited by this tick's walk? A full walk visits the non-null slots; a delta walk
      visits what changed, this tick's resync slice and whatever the caller asks for. */
  ghost predicate Visited(w: Walker, resync: nat, t: Input, i: nat)
    requires 0 < resync && i < |t.columns.addrs|
  {
    if w.prev.None? then t.columns.addrs[i] != 0
    else
      || Changed(w.prev.value, t.columns, i)
      || OnStride(w.tick % resync, resync, i)
      || InSlice(t.slices, i)
      || i in t.revisit
  }

  ghost function VisitedSlots(w: Walker, resync: nat, t: Input): set<nat>
    requires 0 < resync
  {
    set i: nat | i < |t.columns.addrs| && Visited(w, resync, t, i)
  }

  ghost function Entry(w: Walker, resync: nat, t: Input, i: nat): Option<Contribution>
    requires 0 < resync && i < |t.columns.addrs|
  {
    if Visited(w, resync, t, i) then
      if t.columns.addrs[i] != 0 then Look(t.columns, t.visit, i) else None
    else if w.prev.Some? && i in w.ledger then Some(w.ledger[i]) else None
  }

  ghost function Walked(w: Walker, resync: nat, t: Input): Walker
    requires 0 < resync
  {
    Walker(Some(t.columns),
           map i: nat | i < |t.columns.addrs| && Entry(w, resync, t, i).Some? :: Entry(w, resync, t, i).value,
           w.tick + 1)
  }

  ghost predicate Confined(w: Walker) {
    w.prev.Some? ==> forall i :: i in w.ledger ==> i < |w.prev.value.addrs|
  }

  function CountMarks(marks: seq<bool>): nat {
    if marks == [] then 0 else CountMarks(marks[..|marks| - 1]) + if marks[|marks| - 1] then 1 else 0
  }

  /** `after` is `before` with what the marked slots among the first |marks| contribute now. */
  ghost predicate Merged(before: Ledger, after: Ledger, marks: seq<bool>, columns: Columns, visit: Visit)
    requires |marks| <= |columns.addrs|
  {
    forall i: nat :: MergedAt(before, after, marks, columns, visit, i)
  }

  ghost predicate MergedAt(before: Ledger, after: Ledger, marks: seq<bool>, columns: Columns, visit: Visit, i: nat)
    requires |marks| <= |columns.addrs|
  {
    SlotMerged(before, after, i < |marks| && marks[i], columns, visit, i)
  }

  predicate SlotMerged(before: Ledger, after: Ledger, marked: bool, columns: Columns, visit: Visit, i: nat)
    requires marked ==> i < |columns.addrs|
  {
    if marked && columns.addrs[i] != 0 && Look(columns, visit, i).Some? then
      i in after && after[i] == Look(columns, visit, i).value
    else if marked then i !in after
    else if i in before then i in after && after[i] == before[i]
    else i !in after
  }

  lemma {:induction false} MergeOne(first: Ledger, before: Ledger, after: Ledger, marks: seq<bool>, mark: bool,
                                    columns: Columns, visit: Visit)
    requires |marks| < |columns.addrs| && Merged(first, before, marks, columns, visit)
    requires SlotMerged(before, after, mark, columns, visit, |marks|)
    requires forall k :: k != |marks| ==> (k in after <==> k in before) && (k in after ==> after[k] == before[k])
    ensures Merged(first, after, marks + [mark], columns, visit)
  {
    forall i: nat
      ensures MergedAt(first, after, marks + [mark], columns, visit, i)
    {
      assert MergedAt(first, before, marks, columns, visit, i);
    }
  }

  /** A ledger merged over this tick's visited slots is the walked ledger. */
  lemma {:induction false} MergedIsWalked(w: Walker, resync: nat, t: Input, before: Ledger, after: Ledger,
          marks: seq<bool>)
    requires 0 < resync && Confined(w) && |marks| == |t.columns.addrs|
    requires forall i :: 0 <= i < |marks| ==> marks[i] == Visited(w, resync, t, i)
    requires before == if w.prev.None? then map[] else map i | i in w.ledger && i < |marks| :: w.ledger[i]
    requires Merged(before, after, marks, t.columns, t.visit)
    ensures after == Walked(w, resync, t).ledger
  {
    hide Visited;
    forall i: nat
      ensures i in after <==> i in Walked(w, resync, t).ledger
      ensures i in after && i in Walked(w, resync, t).ledger ==> after[i] == Walked(w, resync, t).ledger[i]
    {
      assert MergedAt(before, after, marks, t.columns, t.visit, i);
    }
  }

  class DeltaWalk {
    var prevColumns: Option<Columns>
    var ledger: Ledger
    var tick: nat
    var resyncTicks: nat
    var lastFullTick: int

    ghost predicate Valid()
      reads this
    {
      0 < resyncTicks && Confined(View())
    }

    ghost function View(): Walker
      reads this
    {
      Walker(prevColumns, ledger, tick)
    }

    constructor (resyncTicks: int)
      ensures Valid() && View() == Walker(None, map[], 0)
      ensures this.resyncTicks == if resyncTicks < 1 then 1 else resyncTicks
    {
      prevColumns, ledger, tick, lastFullTick := None, map[], 0, -1;
      this.resyncTicks := if resyncTicks < 1 then 1 else resyncTicks;
    }

    predicate NeedsFull()
      reads this
    {
      prevColumns.None?
    }

    /** Installs a ledger made by the reference walk; the next tick starts from a full walk. */
    method Adopt(ledger: Ledger)
      requires Valid()
      modifies this
      ensures Valid() && resyncTicks == old(resyncTicks)
      ensures View() == Walker(None, ledger, old(tick) + 1)
    {
      this.ledger, prevColumns, lastFullTick := ledger, None, tick;
      tick := tick + 1;
    }

    /** Visits the marked slots in order, replacing what each contributed before. */
    method Revisit(mask: array<bool>, columns: Columns, visit: Visit) returns (visited: nat)
      requires mask.Length == |columns.addrs|
      modifies this`ledger
      ensures visited == CountMarks(mask[..])
      ensures Merged(old(ledger), ledger, mask[..], columns, visit)
    {
      visited := 0;
      var i: nat := 0;
      while i < mask.Length
        invariant i <= mask.Length
        invariant visited == CountMarks(mask[..i])
        invariant Merged(old(ledger), ledger, mask[..i], columns, visit)
      {
        assert mask[..i + 1][..i] == mask[..i];
        ghost var before := ledger;
        if mask[i] {
          visited := visited + 1;
          ledger := ledger - {i};
          if columns.addrs[i] != 0 {
            match visit(i, columns.addrs[i], columns.serials[i]) {
              case Some(c) => ledger := ledger[i := c];
              case None =>
            }
          }
        }
        MergeOne(old(ledger), before, ledger, mask[..i], mask[i], columns, visit);
        assert mask[..i] + [mask[i]] == mask[..i + 1];
        i := i + 1;
      }
      assert mask[..i] == mask[..];
    }

    method Walk(columns: Columns, visit: Visit, slices: seq<(int, int)>, revisit: seq<int>)
      returns (visited: nat, full: bool)
      requires Valid()
      modifies this
      ensures Valid() && resyncTicks == old(resyncTicks)
      ensures full == old(prevColumns).None?
      ensures View() == Walked(old(View()), resyncTicks, Input(columns, visit, slices, revisit))
      ensures visited == |VisitedSlots(old(View()), resyncTicks, Input(columns, visit, slices, revisit))|
    {
      ghost var w, t := View(), Input(columns, visit, slices, revisit);
      var n := |columns.addrs|;
      full := NeedsFull();
      var mask := new bool[n](i => false);
      if full {
        ledger := map[];
        MarkNonNull(mask, columns);
        lastFullTick := tick;
      } else {
        var prev := prevColumns.value;
        if |prev.addrs| > n {
          ledger := map i | i in ledger && i < n :: ledger[i];
        }
        MarkChanged(mask, prev, columns);
        MarkStride(mask, tick % resyncTicks, resyncTicks);
        MarkSlices(mask, slices);
        MarkListed(mask, revisit);
      }
      ghost var before := ledger;
      assert before == if w.prev.None? then map[] else map i | i in w.ledger && i < n :: w.ledger[i];
      visited := Revisit(mask, columns, visit);
      MarksAreCounted(mask[..]);
      assert VisitedSlots(w, resyncTicks, t) == set i: nat | i < |mask[..]| && mask[..][i];
      MergedIsWalked(w, resyncTicks, t, before, ledger, mask[..]);
      prevColumns := Some(columns);
      tick := tick + 1;
    }
  }

  /* ----- the mask, built in place ----- */

  method MarkNonNull(mask: array<bool>, columns: Columns)
    requires mask.Length == |columns.addrs|
    modifies mask
    ensures forall i :: 0 <= i < mask.Length ==> mask[i] == (columns.addrs[i] != 0)
  {
    for i := 0 to mask.Length
      invariant forall k :: 0 <= k < i ==> mask[k] == (columns.addrs[k] != 0)
    {
      mask[i] := columns.addrs[i] != 0;
    }
  }

  /** Unseen slots diff against (0, 0), slots beyond the new end are cut off. */
  method MarkChanged(mask: array<bool>, prev: Columns, columns: Columns)
    requires mask.Length == |columns.addrs|
    modifies mask
    ensures forall i :: 0 <= i < mask.Length ==> mask[i] == Changed(prev, columns, i)
  {
    var n, pn := |columns.addrs|, |prev.addrs|;
    var pa, ps := prev.addrs, prev.serials;
    if pn < n {
      pa, ps := pa + seq(n - pn, _ => 0), ps + seq(n - pn, _ => 0);
    } else if pn > n {
      pa, ps := pa[..n], ps[..n];
    }
    for i := 0 to n
      invariant forall k :: 0 <= k < i ==> mask[k] == Changed(prev, columns, k)
    {
      mask[i] := columns.addrs[i] != pa[i] || columns.serials[i] != ps[i];
    }
  }

  lemma {:induction false} NextOnStride(start: nat, step: nat, i: nat, k: nat)
    requires 0 < step && OnStride(start, step, i) && i < k
    ensures k < i + step ==> !OnStride(start, step, k)
    ensures k == i + step ==> OnStride(start, step, k)
  {
    var q := (i - start) / step;
    assert i - start == q * step;
    if k < i + step {
      assert k - start == q * step + (k - i);
      Remainder(q, step, k - i);
    } else if k == i + step {
      assert k - start == (q + 1) * step;
      Remainder(q + 1, step, 0);
    }
  }

  lemma {:induction false} Remainder(q: int, step: nat, r: nat)
    requires r < step
    ensures (q * step + r) % step == r
  {
    var x := q * step + r;
    assert x == (x / step) * step + x % step;
    assert (q - x / step) * step == x % step - r;
    Multiples(q - x / step, step);
  }

  lemma {:induction false} Multiples(d: int, step: nat)
    ensures d >= 1 ==> d * step >= step
    ensures d <= -1 ==> d * step + step <= 0
  {
  }

  /** mask[start::step] = True */
  method MarkStride(mask: array<bool>, start: nat, step: nat)
    requires 0 < step
    modifies mask
    ensures forall i :: 0 <= i < mask.Length ==> mask[i] == (old(mask[i]) || OnStride(start, step, i))
  {
    var i := start;
    while i < mask.Length
      invariant start <= i && OnStride(start, step, i)
      invariant forall k :: 0 <= k < mask.Length && k < i ==> mask[k] == (old(mask[k]) || OnStride(start, step, k))
      invariant forall k :: i <= k < mask.Length ==> mask[k] == old(mask[k])
    {
      mask[i] := true;
      forall k | i < k <= i + step {
        NextOnStride(start, step, i, k);
      }
      i := i + step;
    }
  }

  method MarkSlices(mask: array<bool>, slices: seq<(int, int)>)
    modifies mask
    ensures forall i :: 0 <= i < mask.Length ==> mask[i] == (old(mask[i]) || InSlice(slices, i))
  {
    for j := 0 to |slices|
      invariant forall i :: 0 <= i < mask.Length ==> mask[i] == (old(mask[i]) || InSlice(slices[..j], i))
    {
      var (phase, window) := slices[j];
      ghost var before := mask[..];
      if window > 0 {
        MarkStride(mask, phase % window, window);
      }
      forall i: nat | i < mask.Length
        ensures InSlice(slices[..j + 1], i)
                  == (InSlice(slices[..j], i) || (window > 0 && OnStride(phase % window, window, i)))
      {
        SliceAppend(slices, j, i);
      }
      assert forall i :: 0 <= i < mask.Length ==>
                mask[i] == (before[i] || (window > 0 && OnStride(phase % window, window, i)));
    }
    assert slices[..|slices|] == slices;
  }

  lemma {:induction false} SliceAppend(slices: seq<(int, int)>, j: nat, i: nat)
    requires j < |slices|
    ensures var (phase, window) := slices[j];
            InSlice(slices[..j + 1], i) <==>
                InSlice(slices[..j], i) || (window > 0 && OnStride(phase % window, window, i))
  {
    var s, t := slices[..j], slices[..j + 1];
    assert forall k :: 0 <= k < j ==> s[k] == t[k];
    assert t[j] == slices[j];
    if InSlice(s, i) {
      var k :| 0 <= k < |s| && s[k].1 > 0 && OnStride(s[k].0 % s[k].1, s[k].1, i);
      assert t[k].1 > 0 && OnStride(t[k].0 % t[k].1, t[k].1, i);
    }
  }

  method MarkListed(mask: array<bool>, revisit: seq<int>)
    modifies mask
    ensures forall i :: 0 <= i < mask.Length ==> mask[i] == (old(mask[i]) || i in revisit)
  {
    for j := 0 to |revisit|
      invariant forall i :: 0 <= i < mask.Length ==> mask[i] == (old(mask[i]) || i in revisit[..j])
    {
      assert revisit[..j + 1] == revisit[..j] + [revisit[j]];
      if 0 <= revisit[j] < mask.Length {
        mask[revisit[j]] := true;
      }
    }
    assert revisit[..|revisit|] == revisit;
  }

  /* ----- whole runs ----- */

  /** One tick, with the caller's resync window; a ledger from the reference walk; or the recovery
      path, which drops the state and makes a new walker. */
  datatype Op = Walk(input: Input, resync: nat) | Adopt(adopted: Ledger) | Drop

  ghost predicate Sane(ops: seq<Op>) {
    forall k :: 0 <= k < |ops| && ops[k].Walk? ==> 0 < ops[k].resync
  }

  ghost function After(w: Walker, op: Op): Walker
    requires op.Walk? ==> 0 < op.resync
  {
    match op
    case Walk(t, resync) => Walked(w, resync, t)
    case Adopt(ledger) => Walker(None, ledger, w.tick + 1)
    case Drop => Walker(None, map[], 0)
  }

  ghost function Run(ops: seq<Op>, n: nat): Walker
    requires n <= |ops| && Sane(ops)
  {
    if n == 0 then Walker(None, map[], 0) else After(Run(ops, n - 1), ops[n - 1])
  }

  /** A delta walk over a ledger that was a full walk's gives a full walk's ledger. */
  lemma {:induction false} WalkStaysFull(w: Walker, resync: nat, t: Input)
    requires 0 < resync
    requires w.prev.Some? ==> w.ledger == FullLedger(w.prev.value, t.visit)
    ensures Walked(w, resync, t).ledger == FullLedger(t.columns, t.visit)
  {
    var ledger := Walked(w, resync, t).ledger;
    forall i: nat | i < |t.columns.addrs|
      ensures Entry(w, resync, t, i) == if Live(t.columns, i) then Look(t.columns, t.visit, i) else None
    {
    }
    assert forall i: nat :: i in ledger <==> i in FullLedger(t.columns, t.visit);
  }

  /** However the columns grew, shrank or changed, whatever was revisited, adopted or dropped on the
      way: after a walk the ledger is exactly what a full walk of the present slots collects. */
  lemma {:induction false} WalkIsExact(ops: seq<Op>, n: nat, visit: Visit)
    requires n <= |ops| && Sane(ops)
    requires forall k :: 0 <= k < n && ops[k].Walk? ==> ops[k].input.visit == visit
    ensures Run(ops, n).prev.Some? ==> Run(ops, n).ledger == FullLedger(Run(ops, n).prev.value, visit)
    ensures n > 0 && ops[n - 1].Walk? ==> Run(ops, n).prev == Some(ops[n - 1].input.columns)
  {
    if n > 0 {
      WalkIsExact(ops, n - 1, visit);
      if ops[n - 1].Walk? {
        WalkStaysFull(Run(ops, n - 1), ops[n - 1].resync, ops[n - 1].input);
      }
    }
  }

  /* ----- staleness: visits whose answer may change over time ----- */

  /** The walk at op j looked at slot i, and since then every op was a walk that left it alone and
      in which the slot kept its object. */
  ghost predicate DerivedAt(ops: seq<Op>, resync: nat, j: nat, n: nat, i: nat)
    requires j < n <= |ops| && Sane(ops) && 0 < resync
  {
    && (forall k :: j <= k < n ==> ops[k].Walk? && ops[k].resync == resync && i < |ops[k].input.columns.addrs|)
    && (forall k :: j <= k < n ==>
          && ops[k].input.columns.addrs[i] == ops[j].input.columns.addrs[i]
          && ops[k].input.columns.serials[i] == ops[j].input.columns.serials[i])
    && Visited(Run(ops, j), resync, ops[j].input, i)
    && (forall k :: j < k < n ==> !Visited(Run(ops, k), resync, ops[k].input, i))
  }

  ghost predicate HasEntry(w: Walker, i: nat, c: Option<Contribution>) {
    if i in w.ledger then c == Some(w.ledger[i]) else c.None?
  }

  ghost predicate Tracked(ops: seq<Op>, resync: nat, j: nat, n: nat, i: nat)
    requires j < n <= |ops| && Sane(ops) && 0 < resync
  {
    && DerivedAt(ops, resync, j, n, i)
    && HasEntry(Run(ops, n), i, Look(ops[j].input.columns, ops[j].input.visit, i))
    && Run(ops, n).tick == Run(ops, j).tick + (n - j)
    && (forall k :: j < k < n ==> Run(ops, k).tick == Run(ops, j).tick + (k - j) && Run(ops, k).prev.Some?)
  }

  lemma {:induction false} StillTracked(ops: seq<Op>, resync: nat, j: nat, n: nat, i: nat)
    requires j < n < |ops| && Sane(ops) && 0 < resync && Tracked(ops, resync, j, n, i)
    requires ops[n].Walk? && ops[n].resync == resync && i < |ops[n].input.columns.addrs|
    requires !Visited(Run(ops, n), resync, ops[n].input, i)
    ensures Tracked(ops, resync, j, n + 1, i)
  {
    hide Visited, Walked, HasEntry, Look, DerivedAt, Run;
    var w, t := Run(ops, n), ops[n].input;
    LastWalk(ops, resync, j, n, i);
    WalkAdds(ops, resync, n);
    LeftAlone(w, resync, t, i);
    StillDerived(ops, resync, j, n, i);
  }

  lemma {:induction false} WalkAdds(ops: seq<Op>, resync: nat, n: nat)
    requires n < |ops| && Sane(ops) && ops[n].Walk? && ops[n].resync == resync
    ensures 0 < resync && Run(ops, n + 1) == Walked(Run(ops, n), resync, ops[n].input)
    ensures Run(ops, n + 1).tick == Run(ops, n).tick + 1 && Run(ops, n + 1).prev == Some(ops[n].input.columns)
  {
  }

  /** The columns of the last walk are the ones that the next is compared with. */
  lemma {:induction false} LastWalk(ops: seq<Op>, resync: nat, j: nat, n: nat, i: nat)
    requires j < n <= |ops| && Sane(ops) && 0 < resync && DerivedAt(ops, resync, j, n, i)
    ensures var c := ops[n - 1].input.columns;
            && ops[n - 1].Walk? && Run(ops, n).prev == Some(c) && i < |c.addrs|
            && ops[j].Walk? && i < |ops[j].input.columns.addrs|
            && c.addrs[i] == ops[j].input.columns.addrs[i] && c.serials[i] == ops[j].input.columns.serials[i]
  {
    hide Visited, Run, Walked;
    assert ops[n - 1].Walk? && ops[j].Walk?;
    WalkAdds(ops, resync, n - 1);
  }

  lemma {:induction false} StillDerived(ops: seq<Op>, resync: nat, j: nat, n: nat, i: nat)
    requires j < n < |ops| && Sane(ops) && 0 < resync && DerivedAt(ops, resync, j, n, i)
    requires ops[n].Walk? && ops[n].resync == resync && i < |ops[n].input.columns.addrs|
    requires ops[n].input.columns.addrs[i] == ops[n - 1].input.columns.addrs[i]
    requires ops[n].input.columns.serials[i] == ops[n - 1].input.columns.serials[i]
    requires !Visited(Run(ops, n), resync, ops[n].input, i)
    ensures DerivedAt(ops, resync, j, n + 1, i)
  {
    hide Visited, Run;
    assert ops[n - 1].Walk?;
  }

  lemma {:induction false} LeftAlone(w: Walker, resync: nat, t: Input, i: nat)
    requires 0 < resync && w.prev.Some? && i < |t.columns.addrs| && i < |w.prev.value.addrs|
    requires !Visited(w, resync, t, i)
    ensures t.columns.addrs[i] == w.prev.value.addrs[i] && t.columns.serials[i] == w.prev.value.serials[i]
    ensures forall c :: HasEntry(w, i, c) ==> HasEntry(Walked(w, resync, t), i, c)
  {
  }

  lemma {:induction false} JustTracked(ops: seq<Op>, resync: nat, n: nat, i: nat)
    requires n < |ops| && Sane(ops) && 0 < resync
    requires ops[n].Walk? && ops[n].resync == resync && Live(ops[n].input.columns, i)
    requires Visited(Run(ops, n), resync, ops[n].input, i)
    ensures Tracked(ops, resync, n, n + 1, i)
  {
    assert Run(ops, n + 1) == Walked(Run(ops, n), resync, ops[n].input);
  }

  lemma {:induction false} SlotsAreTracked(ops: seq<Op>, resync: nat, n: nat, i: nat)
    requires n <= |ops| && Sane(ops) && 0 < resync
    requires forall k :: 0 <= k < n && ops[k].Walk? ==> ops[k].resync == resync
    requires n > 0 && ops[n - 1].Walk? && Live(ops[n - 1].input.columns, i)
    ensures exists j :: 0 <= j < n && Tracked(ops, resync, j, n, i)
  {
    var w, t := Run(ops, n - 1), ops[n - 1].input;
    if Visited(w, resync, t, i) {
      JustTracked(ops, resync, n - 1, i);
    } else {
      NotVisitedMeans(ops, n - 1, resync, i);
      hide Visited, Tracked;
      SlotsAreTracked(ops, resync, n - 1, i);
      var j :| 0 <= j < n - 1 && Tracked(ops, resync, j, n - 1, i);
      StillTracked(ops, resync, j, n - 1, i);
    }
  }

  /** A live slot is left alone only by a delta walk right after another walk in which it was live. */
  lemma {:induction false} NotVisitedMeans(ops: seq<Op>, n: nat, resync: nat, i: nat)
    requires n < |ops| && Sane(ops) && 0 < resync
    requires ops[n].Walk? && Live(ops[n].input.columns, i) && !Visited(Run(ops, n), resync, ops[n].input, i)
    ensures n > 0 && ops[n - 1].Walk? && Live(ops[n - 1].input.columns, i)
  {
  }

  /** Ticks that skip slot i's remainder are fewer than `resync` in a row. */
  lemma {:induction false} ResyncComesRound(first: nat, count: nat, resync: nat, i: nat)
    requires 0 < resync
    requires forall t :: first <= t < first + count ==> t % resync != i % resync
    ensures count < resync
  {
    var t := first + (i - first) % resync;
    var q := (i - first) / resync;
    assert i - first == q * resync + (i - first) % resync;
    assert t == i - q * resync;
    SameRemainder(i, t, q, resync);
  }

  lemma {:induction false} SameRemainder(a: nat, b: nat, q: int, m: nat)
    requires 0 < m && b == a - q * m
    ensures a % m == b % m
  {
    var d := a / m - q;
    assert a == (a / m) * m + a % m;
    assert b == d * m + a % m;
    if d >= 0 {
      Remainder(d, m, a % m);
    } else {
      Multiples(d, m);
    }
  }

  lemma {:induction false} StrideOfRemainder(i: nat, m: nat)
    requires 0 < m
    ensures i % m <= i && OnStride(i % m, m, i)
  {
    assert i == (i / m) * m + i % m;
    Remainder(i / m, m, 0);
  }

  lemma {:induction false} ResyncVisits(w: Walker, resync: nat, t: Input, i: nat)
    requires 0 < resync && w.prev.Some? && i < |t.columns.addrs| && !Visited(w, resync, t, i)
    ensures w.tick % resync != i % resync
  {
    StrideOfRemainder(i, resync);
  }

  lemma {:induction false} WithinWindow(ops: seq<Op>, resync: nat, j: nat, n: nat, i: nat)
    requires j < n <= |ops| && Sane(ops) && 0 < resync && Tracked(ops, resync, j, n, i)
    ensures n - j <= resync
  {
    hide Run, Visited, HasEntry, Look;
    var first := Run(ops, j).tick + 1;
    forall t | first <= t < first + (n - j - 1)
      ensures t % resync != i % resync
    {
      var k := j + 1 + (t - first);
      ResyncVisits(Run(ops, k), resync, ops[k].input, i);
    }
    ResyncComesRound(first, n - j - 1, resync, i);
  }

  /** With a fixed resync window, whatever happened to the array: every live slot's ledger entry is
      what a visit returned for its present object at most `resync` walks ago. */
  lemma {:induction false} NoEntryOutlivesTheWindow(ops: seq<Op>, resync: nat, n: nat, i: nat)
    requires n <= |ops| && Sane(ops) && 0 < resync
    requires forall k :: 0 <= k < n && ops[k].Walk? ==> ops[k].resync == resync
    requires n > 0 && ops[n - 1].Walk? && Live(ops[n - 1].input.columns, i)
    ensures exists j :: 0 <= j < n && n - j <= resync
              && DerivedAt(ops, resync, j, n, i)
              && HasEntry(Run(ops, n), i, Look(ops[j].input.columns, ops[j].input.visit, i))
  {
    SlotsAreTracked(ops, resync, n, i);
    var j :| 0 <= j < n && Tracked(ops, resync, j, n, i);
    WithinWindow(ops, resync, j, n, i);
  }

  /* ----- which slots a walk looks at, read off the operations alone ----- */

  /** The ticks of the present walker: it was made by the last drop, or at the start. */
  function TicksSince(ops: seq<Op>, n: nat): nat
    requires n <= |ops|
  {
    if n == 0 || ops[n - 1].Drop? then 0 else TicksSince(ops, n - 1) + 1
  }

  /** The walk compares nothing: the operation before it was no walk. */
  predicate Afresh(ops: seq<Op>, n: nat)
    requires n < |ops|
  {
    n == 0 || !ops[n - 1].Walk?
  }

  /** The slot holds what it held one walk before; slots that were not there held nothing. */
  predicate Same(was: Columns, now: Columns, i: nat)
    requires i < |now.addrs|
  {
    && now.addrs[i] == (if i < |was.addrs| then was.addrs[i] else 0)
    && now.serials[i] == (if i < |was.addrs| then was.serials[i] else 0)
  }

  /** The caller asks for the slot, by its number or by a phase of its window. */
  predicate Asked(t: Input, i: nat) {
    || i in t.revisit
    || exists k :: 0 <= k < |t.slices| && t.slices[k].1 > 0 && i % t.slices[k].1 == t.slices[k].0 % t.slices[k].1
  }

  predicate LookedAt(ops: seq<Op>, n: nat, i: nat)
    requires n < |ops| && ops[n].Walk? && 0 < ops[n].resync && i < |ops[n].input.columns.addrs|
  {
    var t := ops[n].input;
    if Afresh(ops, n) then Live(t.columns, i)
    else
      || !Same(ops[n - 1].input.columns, t.columns, i)
      || i % ops[n].resync == TicksSince(ops, n) % ops[n].resync
      || Asked(t, i)
  }

  lemma {:induction false} StrideIsRemainder(start: nat, step: nat, i: nat)
    requires start < step
    ensures OnStride(start, step, i) <==> i % step == start
  {
    if OnStride(start, step, i) {
      var q := (i - start) / step;
      assert i == q * step + start;
      Remainder(q, step, start);
    } else if i % step == start {
      StrideOfRemainder(i, step);
    }
  }

  lemma {:induction false} SlicesAsked(t: Input, i: nat)
    ensures InSlice(t.slices, i) || i in t.revisit <==> Asked(t, i)
  {
    forall k | 0 <= k < |t.slices| && t.slices[k].1 > 0
      ensures var (phase, window) := t.slices[k];
              OnStride(phase % window, window, i) <==> i % window == phase % window
    {
      StrideIsRemainder(t.slices[k].0 % t.slices[k].1, t.slices[k].1, i);
    }
  }

  lemma {:induction false} RunIs(ops: seq<Op>, n: nat)
    requires n <= |ops| && Sane(ops)
    ensures Run(ops, n).tick == TicksSince(ops, n)
    ensures Run(ops, n).prev == if n > 0 && ops[n - 1].Walk? then Some(ops[n - 1].input.columns) else None
  {
    if n > 0 {
      RunIs(ops, n - 1);
    }
  }

  lemma {:induction false} VisitedIs(ops: seq<Op>, n: nat, i: nat)
    requires n < |ops| && Sane(ops) && ops[n].Walk? && i < |ops[n].input.columns.addrs|
    ensures Visited(Run(ops, n), ops[n].resync, ops[n].input, i) <==> LookedAt(ops, n, i)
  {
    hide Run, InSlice, Asked, OnStride;
    RunIs(ops, n);
    SlicesAsked(ops[n].input, i);
    StrideIsRemainder(Run(ops, n).tick % ops[n].resync, ops[n].resync, i);
  }

  /** A ledger that the next walk builds on has entries of live slots only. */
  lemma {:induction false} OnlyLiveSlots(ops: seq<Op>, n: nat)
    requires n <= |ops| && Sane(ops) && n > 0 && ops[n - 1].Walk?
    ensures forall i :: i in Run(ops, n).ledger ==> Live(ops[n - 1].input.columns, i)
  {
    var k: nat := n - 1;
    var t := ops[k].input;
    WalkAdds(ops, ops[k].resync, k);
    RunIs(ops, k);
    if k > 0 && ops[k - 1].Walk? {
      OnlyLiveSlots(ops, k);
    }
    hide Run;
    forall i | i in Run(ops, n).ledger
      ensures Live(t.columns, i)
    {
      assert Entry(Run(ops, k), ops[k].resync, t, i).Some?;
    }
  }

  /** What a walk leaves of every slot: nothing of an empty one; of a live one what the visit says now, if the
      slot changed, is on this tick's stride or is asked for, or the walk starts afresh; and else what was
      there. */
  lemma {:induction false} WalkIsPrecise(ops: seq<Op>, n: nat, i: nat)
    requires n < |ops| && Sane(ops) && ops[n].Walk? && i < |ops[n].input.columns.addrs|
    ensures var t, w, w' := ops[n].input, Run(ops, n), Run(ops, n + 1);
            if !Live(t.columns, i) then i !in w'.ledger
            else if LookedAt(ops, n, i) then HasEntry(w', i, Look(t.columns, t.visit, i))
            else HasEntry(w', i, if i in w.ledger then Some(w.ledger[i]) else None)
  {
    OnlyLiveSlots(ops, n + 1);
    hide Run, Visited, LookedAt, Look;
    VisitedIs(ops, n, i);
    RunIs(ops, n);
    NotAfresh(ops, n, i);
    WalkAdds(ops, ops[n].resync, n);
  }

  lemma {:induction false} NotAfresh(ops: seq<Op>, n: nat, i: nat)
    requires n < |ops| && ops[n].Walk? && 0 < ops[n].resync && i < |ops[n].input.columns.addrs|
    ensures Live(ops[n].input.columns, i) && !LookedAt(ops, n, i) ==> n > 0 && ops[n - 1].Walk?
  {
  }

  /** A walk visits these slots, each once, and no others. */
  lemma {:induction false} VisitsAreTheLooks(ops: seq<Op>, n: nat)
    requires n < |ops| && Sane(ops) && ops[n].Walk?
    ensures VisitedSlots(Run(ops, n), ops[n].resync, ops[n].input)
              == set i: nat | i < |ops[n].input.columns.addrs| && LookedAt(ops, n, i)
  {
    hide Visited, LookedAt, Run;
    forall i: nat | i < |ops[n].input.columns.addrs|
      ensures Visited(Run(ops, n), ops[n].resync, ops[n].input, i) <==> LookedAt(ops, n, i)
    {
      VisitedIs(ops, n, i);
    }
  }

  lemma {:induction false} MarksAreCounted(marks: seq<bool>)
    ensures CountMarks(marks) == |set i: nat | i < |marks| && marks[i]|
  {
    var marked := set i: nat | i < |marks| && marks[i];
    if marks == [] {
      assert marked == {};
    } else {
      var rest := marks[..|marks| - 1];
      var before := set i: nat | i < |rest| && rest[i];
      MarksAreCounted(rest);
      assert marked == if marks[|rest|] then before + {|rest|} else before;
    }
  }
}
