/** Pruning old recordings: by age, by the size of what is kept, and by the free space on the disk. */
module Retention {
  import opened Options

  /** A name stands for a path; paths compare like their numbers. */
  datatype File = File(mtime: int, size: nat, name: nat)

  /** Ages in seconds, sizes in bytes; zero switches a policy off. */
  datatype Policy = Policy(inProgressSec: int, maxAge: int, maxTotal: int, minFree: int, minKeep: int)

  predicate Before(a: File, b: File) {
    a.mtime < b.mtime || (a.mtime == b.mtime && (a.size < b.size || (a.size == b.size && a.name <= b.name)))
  }

  predicate Sorted(files: seq<File>) {
    forall i, j :: 0 <= i < j < |files| ==> Before(files[i], files[j])
  }

  /** No two entries of a directory have the same path. */
  predicate DistinctNames(files: seq<File>) {
    forall i, j :: 0 <= i < j < |files| ==> files[i].name != files[j].name
  }

  function Total(files: seq<File>): nat {
    if files == [] then 0 else files[0].size + Total(files[1..])
  }

  lemma {:induction false} TotalSplit(files: seq<File>, k: nat)
    requires k <= |files|
    ensures Total(files) == Total(files[..k]) + Total(files[k..])
  {
    if k == 0 {
      assert files[..0] == [] && files[0..] == files;
    } else {
      TotalSplit(files[1..], k - 1);
      assert files[..k][1..] == files[1..][..k - 1] && files[1..][k - 1..] == files[k..];
    }
  }

  lemma {:induction false} TotalStep(files: seq<File>, k: nat)
    requires k < |files|
    ensures Total(files[k..]) == files[k].size + Total(files[k + 1..])
    ensures Total(files[..k + 1]) == Total(files[..k]) + files[k].size
  {
    assert files[k..][1..] == files[k + 1..];
    TotalSplit(files, k);
    TotalSplit(files, k + 1);
  }

  /* ----- the listing ----- */

  /** Entries that cannot be looked at, and recordings that may still be written, are left alone. */
  function Eligible(listing: seq<Option<File>>, cutoff: int): seq<File> {
    if listing == [] then []
    else
      var last := listing[|listing| - 1];
      Eligible(listing[..|listing| - 1],
          cutoff) + (if last.Some? && last.value.mtime <= cutoff then [last.value] else [])
  }

  lemma {:induction false} TotalAdds(files: seq<File>, more: seq<File>, f: File)
    ensures Total(files + more) == Total(files) + Total(more) && Total([f]) == f.size
  {
    TotalSplit(files + more, |files|);
    assert (files + more)[..|files|] == files && (files + more)[|files|..] == more;
    assert [f][1..] == [];
  }

  /** A file can only be doomed if it was listed, could be looked at, and was not written to lately. */
  lemma {:induction false} OnlyIdleFilesAreEligible(listing: seq<Option<File>>, listedAt: int, p: Policy, f: File)
    ensures f in Eligible(listing, listedAt - p.inProgressSec)
       <==> Some(f) in listing && f.mtime + p.inProgressSec <= listedAt
  {
    if listing != [] {
      var rest := listing[..|listing| - 1];
      OnlyIdleFilesAreEligible(rest, listedAt, p, f);
      assert listing == rest + [listing[|listing| - 1]];
    }
  }

  method ListFiles(listing: seq<Option<File>>, cutoff: int) returns (files: seq<File>)
    ensures files == Eligible(listing, cutoff)
  {
    files := [];
    for i := 0 to |listing|
      invariant files == Eligible(listing[..i], cutoff)
    {
      assert listing[..i + 1][..i] == listing[..i];
      if listing[i].None? || listing[i].value.mtime > cutoff {
        continue;
      }
      files := files + [listing[i].value];
    }
    assert listing[..|listing|] == listing;
  }

  method Sort(files: seq<File>) returns (r: seq<File>)
    requires DistinctNames(files)
    ensures Sorted(r) && DistinctNames(r) && multiset(r) == multiset(files)
  {
    hide Before, Sorted, DistinctNames;
    NoneSorted();
    r := [];
    for i := 0 to |files|
      invariant Sorted(r) && DistinctNames(r) && multiset(r) == multiset(files[..i])
    {
      var k := |r|;
      while k > 0 && !Before(r[k - 1], files[i])
        invariant 0 <= k <= |r|
        invariant forall j :: k <= j < |r| ==> Before(files[i], r[j])
      {
        BeforeIsTotal(files[i], r[k - 1]);
        k := k - 1;
      }
      NewName(files, i, r);
      Inserted(r, k, files[i]);
      InsertedKeepsNames(r, k, files[i]);
      assert r == r[..k] + r[k..];
      r := r[..k] + [files[i]] + r[k..];
      assert files[..i + 1] == files[..i] + [files[i]];
    }
    assert files[..|files|] == files;
  }

  lemma {:induction false} NoneSorted()
    ensures Sorted([]) && DistinctNames([])
  {
  }

  lemma {:induction false} BeforeIsTotal(a: File, b: File)
    ensures Before(a, b) || Before(b, a)
  {
  }

  lemma {:induction false} BeforeTransitive(a: File, b: File, c: File)
    requires (a == b || Before(a, b)) && Before(b, c)
    ensures Before(a, c)
  {
  }

  lemma {:induction false} NewName(files: seq<File>, i: nat, r: seq<File>)
    requires DistinctNames(files) && i < |files| && multiset(r) == multiset(files[..i])
    ensures forall j :: 0 <= j < |r| ==> r[j].name != files[i].name
  {
    forall j | 0 <= j < |r|
      ensures r[j].name != files[i].name
    {
      assert r[j] in multiset(r);
      var x :| 0 <= x < i && files[..i][x] == r[j];
      assert files[x].name != files[i].name;
    }
  }

  lemma {:induction false} Inserted(r: seq<File>, k: nat, f: File)
    requires Sorted(r) && k <= |r|
    requires k > 0 ==> Before(r[k - 1], f)
    requires forall j :: k <= j < |r| ==> Before(f, r[j])
    ensures Sorted(r[..k] + [f] + r[k..])
  {
    hide Before;
    var s := r[..k] + [f] + r[k..];
    forall i, j | 0 <= i < j < |s|
      ensures Before(s[i], s[j])
    {
      if j == k {
        BeforeTransitive(r[i], r[k - 1], f);
      }
    }
  }

  lemma {:induction false} InsertedKeepsNames(r: seq<File>, k: nat, f: File)
    requires DistinctNames(r) && k <= |r| && forall j :: 0 <= j < |r| ==> r[j].name != f.name
    ensures DistinctNames(r[..k] + [f] + r[k..])
  {
  }

  /* ----- the three policies ----- */

  /** How many files are older than the age limit; they come first. */
  function AgeEnd(files: seq<File>, ageCut: int): (k: nat)
    ensures k <= |files|
  {
    if files != [] && files[0].mtime < ageCut then 1 + AgeEnd(files[1..], ageCut) else 0
  }

  /** The shortest longer prefix without which the rest fits. */
  function SizeEnd(files: seq<File>, from: nat, limit: int): (k: nat)
    requires from <= |files|
    ensures from <= k <= |files|
    decreases |files| - from
  {
    if from == |files| || Total(files[from..]) <= limit then from else SizeEnd(files, from + 1, limit)
  }

  /** How many files may go: all but the newest few. Zero keeps none; less than zero keeps all. */
  function Removable(n: nat, minKeep: int): (k: nat)
    ensures k <= n
  {
    if minKeep == 0 then n else if minKeep < 0 || minKeep >= n then 0 else n - minKeep
  }

  /** The shortest longer prefix that frees enough. */
  function FreeEnd(files: seq<File>, from: nat, end: nat, free: int, need: int): (k: nat)
    requires from <= end <= |files|
    ensures from <= k <= end
    decreases end - from
  {
    if from == end || free + Total(files[..from]) >= need then from else FreeEnd(files, from + 1, end, free, need)
  }

  /** How long the doomed prefix is. */
  function DoomedEnd(files: seq<File>, now: int, p: Policy, free: Option<int>): (k: nat)
    ensures k <= |files|
  {
    var aged := if p.maxAge != 0 then AgeEnd(files, now - p.maxAge) else 0;
    var sized := if p.maxTotal != 0 then SizeEnd(files, aged, p.maxTotal) else aged;
    if p.minFree == 0 then sized
    else
      var had := if free.Some? then free.value else p.minFree;
      var end := Removable(|files|, p.minKeep);
      if end <= sized || had + Total(files[..end]) < p.minFree then sized
      else FreeEnd(files, sized, end, had, p.minFree)
  }

  /* ----- the command ----- */

  function Names(files: seq<File>): (names: seq<nat>)
    ensures |names| == |files|
  {
    seq(|files|, i requires 0 <= i < |files| => files[i].name)
  }

  /** The doomed so far are the first k files, by name and in order. */
  predicate DoomedAre(doomed: seq<nat>, files: seq<File>, k: nat) {
    k <= |files| && doomed == Names(files[..k])
  }

  lemma {:induction false} DoomedOrNot(doomed: seq<nat>, files: seq<File>, k: nat, i: nat)
    requires DistinctNames(files) && DoomedAre(doomed, files, k) && i < |files|
    ensures files[i].name in doomed <==> i < k
    ensures i == k ==> DoomedAre(doomed + [files[i].name], files, k + 1)
  {
    if i < k {
      assert doomed[i] == files[i].name;
    }
    if files[i].name in doomed {
      var j :| 0 <= j < |doomed| && doomed[j] == files[i].name;
      assert files[j].name == files[i].name;
    }
    if i == k {
      assert files[..k + 1] == files[..k] + [files[k]];
    }
  }

  method Mark(doomed: seq<nat>, name: nat) returns (r: seq<nat>)
    ensures r == if name in doomed then doomed else doomed + [name]
  {
    r := doomed;
    if name !in doomed {
      r := r + [name];
    }
  }

  lemma {:induction false} AgeEndIs(files: seq<File>, ageCut: int, i: nat)
    requires Sorted(files) && i < |files|
    ensures files[i].mtime < ageCut <==> i < AgeEnd(files, ageCut)
  {
    if i > 0 {
      assert Before(files[0], files[i]);
      assert forall a, b :: 0 <= a < b < |files[1..]| ==> Before(files[1..][a], files[1..][b]);
      if files[0].mtime < ageCut {
        AgeEndIs(files[1..], ageCut, i - 1);
      }
    }
  }

  method MarkAged(files: seq<File>, ageCut: int) returns (doomed: seq<nat>)
    requires Sorted(files) && DistinctNames(files)
    ensures DoomedAre(doomed, files, AgeEnd(files, ageCut))
  {
    doomed := [];
    ghost var end := AgeEnd(files, ageCut);
    for i := 0 to |files|
      invariant DoomedAre(doomed, files, if i <= end then i else end)
    {
      AgeEndIs(files, ageCut, i);
      if files[i].mtime < ageCut {
        DoomedOrNot(doomed, files, i, i);
        doomed := Mark(doomed, files[i].name);
      }
    }
  }

  /** The bytes of the files that are, or are not, doomed. */
  method SumSizes(files: seq<File>, doomed: seq<nat>, ghost k: nat, wanted: bool) returns (sum: nat)
    requires DistinctNames(files) && DoomedAre(doomed, files, k)
    ensures sum == if wanted then Total(files[..k]) else Total(files[k..])
  {
    sum := 0;
    assert files[..0] == [];
    for i := 0 to |files|
      invariant wanted ==> sum == Total(files[..if i <= k then i else k])
      invariant !wanted ==> sum + Total(files[if i <= k then k else i..]) == Total(files[k..])
    {
      DoomedOrNot(doomed, files, k, i);
      TotalStep(files, i);
      if (files[i].name in doomed) == wanted {
        sum := sum + files[i].size;
      }
    }
    assert files[|files|..] == [];
  }

  method MarkOversized(files: seq<File>, doomed0: seq<nat>, ghost k: nat, limit: int) returns (doomed: seq<nat>)
    requires DistinctNames(files) && DoomedAre(doomed0, files, k)
    ensures DoomedAre(doomed, files, SizeEnd(files, k, limit))
  {
    doomed := doomed0;
    var live: int := SumSizes(files, doomed, k, false);
    ghost var m := k;
    for i := 0 to |files|
      invariant k <= m <= |files| && (i <= k ==> m == k) && (i > k ==> m == i)
      invariant DoomedAre(doomed, files, m) && live == Total(files[m..])
      invariant SizeEnd(files, k, limit) == SizeEnd(files, m, limit)
    {
      if live <= limit {
        return;
      }
      DoomedOrNot(doomed, files, m, i);
      if files[i].name !in doomed {
        TotalStep(files, i);
        doomed := Mark(doomed, files[i].name);
        live := live - files[i].size;
        m := m + 1;
      }
    }
  }

  /** The names of the newest few, which the free-space policy never adds. */
  method Keepers(files: seq<File>, minKeep: int) returns (keepers: seq<nat>)
    ensures keepers == Names(files[Removable(|files|, minKeep)..])
  {
    if minKeep == 0 {
      assert files[|files|..] == [];
      return [];
    }
    // a slice from minus zero is a slice from the start
    var from := if minKeep < 0 then 0 else minKeep;
    var start := if from == 0 || from >= |files| then 0 else |files| - from;
    keepers := Names(files[start..]);
  }

  lemma {:induction false} KeeperOrNot(keepers: seq<nat>, files: seq<File>, end: nat, i: nat)
    requires DistinctNames(files) && end <= |files| && keepers == Names(files[end..]) && i < |files|
    ensures files[i].name in keepers <==> i >= end
  {
    if i >= end {
      assert keepers[i - end] == files[i].name;
    }
    if files[i].name in keepers {
      var j :| 0 <= j < |keepers| && keepers[j] == files[i].name;
      assert files[end + j].name == files[i].name;
    }
  }

  method SumDeletable(files: seq<File>, doomed: seq<nat>, keepers: seq<nat>, ghost k: nat, ghost end: nat)
    returns (sum: nat)
    requires DistinctNames(files) && DoomedAre(doomed, files, k)
    requires end <= |files| && keepers == Names(files[end..])
    ensures Total(files[..k]) + sum == if end <= k then Total(files[..k]) else Total(files[..end])
  {
    sum := 0;
    for i := 0 to |files|
      invariant i <= k || end <= k ==> sum == 0
      invariant i > k && end > k ==> Total(files[..k]) + sum == Total(files[..if i <= end then i else end])
    {
      DoomedOrNot(doomed, files, k, i);
      KeeperOrNot(keepers, files, end, i);
      TotalStep(files, i);
      if files[i].name !in doomed && files[i].name !in keepers {
        sum := sum + files[i].size;
      }
    }
  }

  method MarkForSpace(files: seq<File>, doomed0: seq<nat>, ghost k: nat, free: Option<int>, p: Policy)
    returns (doomed: seq<nat>)
    requires DistinctNames(files) && DoomedAre(doomed0, files, k)
    ensures var had := if free.Some? then free.value else p.minFree;
            var end := Removable(|files|, p.minKeep);
            DoomedAre(doomed, files,
                      if end <= k || had + Total(files[..end]) < p.minFree then k
                          else FreeEnd(files, k, end, had, p.minFree))
  {
    hide Total, Names, DistinctNames;
    doomed := doomed0;
    var had := if free.Some? then free.value else p.minFree;
    var freed: int := SumSizes(files, doomed, k, true);
    var keepers := Keepers(files, p.minKeep);
    ghost var end := Removable(|files|, p.minKeep);
    var deletable := SumDeletable(files, doomed, keepers, k, end);
    if had + freed + deletable < p.minFree {
      return;
    }
    ghost var m := k;
    for i := 0 to |files|
      invariant k <= m <= |files| && (i <= k ==> m == k)
      invariant i > k && end > k ==> m == if i <= end then i else end
      invariant end <= k ==> m == k
      invariant DoomedAre(doomed, files, m) && freed == Total(files[..m])
      invariant end > k ==> FreeEnd(files, k, end, had, p.minFree) == FreeEnd(files, m, end, had, p.minFree)
    {
      if had + freed >= p.minFree {
        return;
      }
      DoomedOrNot(doomed, files, m, i);
      KeeperOrNot(keepers, files, end, i);
      if files[i].name !in doomed && files[i].name !in keepers {
        TotalStep(files, i);
        doomed := Mark(doomed, files[i].name);
        freed := freed + files[i].size;
        m := m + 1;
      }
    }
  }

  /** What the command removes: the first of the eligible files, oldest first. */
  method Doomed(listing: seq<Option<File>>, listedAt: int, now: int, p: Policy, free: Option<int>)
    returns (files: seq<File>, doomed: seq<nat>)
    requires DistinctNames(Eligible(listing, listedAt - p.inProgressSec))
    ensures Sorted(files) && multiset(files) == multiset(Eligible(listing, listedAt - p.inProgressSec))
    ensures doomed == Names(files[..DoomedEnd(files, now, p, free)])
  {
    hide Sorted, DistinctNames, Total, Names, AgeEnd, SizeEnd, FreeEnd, Eligible;
    var eligible := ListFiles(listing, listedAt - p.inProgressSec);
    files := Sort(eligible);
    doomed := [];
    ghost var k := 0;
    assert files[..0] == [];
    if p.maxAge != 0 {
      doomed := MarkAged(files, now - p.maxAge);
      k := AgeEnd(files, now - p.maxAge);
    }
    if p.maxTotal != 0 {
      doomed := MarkOversized(files, doomed, k, p.maxTotal);
      k := SizeEnd(files, k, p.maxTotal);
    }
    if p.minFree != 0 {
      doomed := MarkForSpace(files, doomed, k, free, p);
    }
  }

  /* ----- what that means ----- */

  lemma {:induction false} SizeEndIsShortest(files: seq<File>, from: nat, limit: int)
    requires from <= |files|
    ensures var k := SizeEnd(files, from, limit);
            && (k < |files| ==> Total(files[k..]) <= limit)
            && (forall j :: from <= j < k ==> Total(files[j..]) > limit)
    decreases |files| - from
  {
    if from < |files| && Total(files[from..]) > limit {
      SizeEndIsShortest(files, from + 1, limit);
    }
  }

  lemma {:induction false} FreeEndIsShortest(files: seq<File>, from: nat, end: nat, free: int, need: int)
    requires from <= end <= |files| && free + Total(files[..end]) >= need
    ensures var k := FreeEnd(files, from, end, free, need);
            && free + Total(files[..k]) >= need
            && (forall j :: from <= j < k ==> free + Total(files[..j]) < need)
    decreases end - from
  {
    if from < end && free + Total(files[..from]) < need {
      FreeEndIsShortest(files, from + 1, end, free, need);
    }
  }

  lemma {:induction false} AgeEndSplits(files: seq<File>, ageCut: int)
    requires Sorted(files)
    ensures forall i :: 0 <= i < |files| ==> (files[i].mtime < ageCut <==> i < AgeEnd(files, ageCut))
  {
    forall i | 0 <= i < |files|
      ensures files[i].mtime < ageCut <==> i < AgeEnd(files, ageCut)
    {
      AgeEndIs(files, ageCut, i);
    }
  }

  /** The doomed files are the first k, so that no kept file is older than a doomed one. The k grows in
      three steps: every file over the age limit and no other; then as few more as it takes for the
      rest to fit; then as few more as it takes to free enough, without the newest few — or none at
      all, when even all the others would not free enough. */
  lemma {:induction false} EachPolicyDoomsNoMoreThanItMust(files: seq<File>, now: int, p: Policy, free: Option<int>)
    requires Sorted(files)
    ensures forall i, j :: 0 <= i < DoomedEnd(files, now, p, free) <= j < |files| ==> files[i].mtime <= files[j].mtime
    ensures exists aged: nat, sized: nat ::
              var k := DoomedEnd(files, now, p, free);
              && aged <= sized <= k <= |files|
              && OnlyTheOldGo(files, now, p, aged)
              && OnlyTheExcessGoes(files, p, aged, sized)
              && OnlyForEnoughSpace(files, p, if free.Some? then free.value else p.minFree, sized, k)
  {
    hide Sorted, AgeEnd, SizeEnd, FreeEnd, Total, OnlyTheOldGo, OnlyTheExcessGoes, OnlyForEnoughSpace;
    var aged := if p.maxAge != 0 then AgeEnd(files, now - p.maxAge) else 0;
    var sized := if p.maxTotal != 0 then SizeEnd(files, aged, p.maxTotal) else aged;
    var had := if free.Some? then free.value else p.minFree;
    AgedIs(files, now, p);
    SizedIs(files, p, aged);
    SpacedIs(files, p, had, sized);
    OldestFirst(files, DoomedEnd(files, now, p, free));
  }

  predicate OnlyTheOldGo(files: seq<File>, now: int, p: Policy, aged: nat) {
    forall i :: 0 <= i < |files| ==> (i < aged <==> p.maxAge != 0 && files[i].mtime < now - p.maxAge)
  }

  predicate OnlyTheExcessGoes(files: seq<File>, p: Policy, aged: nat, sized: nat)
    requires aged <= sized <= |files|
  {
    if p.maxTotal == 0 then sized == aged
    else
      && (sized < |files| ==> Total(files[sized..]) <= p.maxTotal)
      && (forall j :: aged <= j < sized ==> Total(files[j..]) > p.maxTotal)
  }

  predicate OnlyForEnoughSpace(files: seq<File>, p: Policy, had: int, sized: nat, k: nat)
    requires sized <= k <= |files|
  {
    // all but the newest few could go; no minimum means all, and less than none means none
    var end := if p.minKeep == 0 then |files| else if 0 < p.minKeep < |files| then |files| - p.minKeep else 0;
    // nothing goes without need, and a keeper never
    && (k > sized ==> p.minFree != 0 && (p.minKeep == 0 || (0 < p.minKeep && k + p.minKeep <= |files|)))
    // as few as it takes
    && (forall j :: sized <= j < k ==> had + Total(files[..j]) < p.minFree)
    // all or nothing
    && (p.minFree != 0 && sized < end ==>
          if had + Total(files[..end]) < p.minFree then k == sized else had + Total(files[..k]) >= p.minFree)
  }

  lemma {:induction false} AgedIs(files: seq<File>, now: int, p: Policy)
    requires Sorted(files)
    ensures OnlyTheOldGo(files, now, p, if p.maxAge != 0 then AgeEnd(files, now - p.maxAge) else 0)
  {
    AgeEndSplits(files, now - p.maxAge);
  }

  lemma {:induction false} SizedIs(files: seq<File>, p: Policy, aged: nat)
    requires aged <= |files|
    ensures OnlyTheExcessGoes(files, p, aged, if p.maxTotal != 0 then SizeEnd(files, aged, p.maxTotal) else aged)
  {
    SizeEndIsShortest(files, aged, p.maxTotal);
  }

  lemma {:induction false} SpacedIs(files: seq<File>, p: Policy, had: int, sized: nat)
    requires sized <= |files|
    ensures var end := Removable(|files|, p.minKeep);
            OnlyForEnoughSpace(files, p, had, sized,
                               if p.minFree == 0 || end <= sized || had + Total(files[..end]) < p.minFree then sized
                               else FreeEnd(files, sized, end, had, p.minFree))
  {
    var end := Removable(|files|, p.minKeep);
    if end > sized && had + Total(files[..end]) >= p.minFree {
      FreeEndIsShortest(files, sized, end, had, p.minFree);
    }
  }

  lemma {:induction false} OldestFirst(files: seq<File>, k: nat)
    requires Sorted(files)
    ensures forall i, j :: 0 <= i < k <= j < |files| ==> files[i].mtime <= files[j].mtime
  {
    assert forall i, j :: 0 <= i < j < |files| ==> Before(files[i], files[j]);
  }
}
