/** Grouping alerts into messages that the receiver will not reject. Only the size of an embed
    matters here. */
module Notify {
  const MAX_EMBEDS := 10
  const MAX_MESSAGE_CHARS := 5500

  datatype Embed = Embed(id: nat, chars: nat)

  function Chars(group: seq<Embed>): nat {
    if group == [] then 0 else Chars(group[..|group| - 1]) + group[|group| - 1].chars
  }

  /** A group that may be sent: one embed of any size, or a few that fit together. */
  predicate Admissible(group: seq<Embed>, limit: int) {
    0 < |group| <= MAX_EMBEDS && (|group| == 1 || Chars(group) <= limit)
  }

  predicate AllAdmissible(groups: seq<seq<Embed>>, limit: int) {
    forall i :: 0 <= i < |groups| ==> Admissible(groups[i], limit)
  }

  function Concat(groups: seq<seq<Embed>>): seq<Embed> {
    if groups == [] then [] else Concat(groups[..|groups| - 1]) + groups[|groups| - 1]
  }

  lemma {:induction false} ConcatAdd(groups: seq<seq<Embed>>, group: seq<Embed>)
    ensures Concat(groups + [group]) == Concat(groups) + group
  {
    assert (groups + [group])[..|groups|] == groups;
  }

  lemma {:induction false} CharsAdd(group: seq<Embed>, e: Embed)
    ensures Chars(group + [e]) == Chars(group) + e.chars
  {
    assert (group + [e])[..|group|] == group;
  }

  lemma {:induction false} CharsOfPart(group: seq<Embed>, from: nat)
    requires from <= |group|
    ensures Chars(group[from..]) <= Chars(group)
  {
    if from < |group| {
      var front := group[..|group| - 1];
      CharsOfPart(front, from);
      assert group[from..][..|group[from..]| - 1] == front[from..];
    }
  }

  lemma {:induction false} CharsOfFront(group: seq<Embed>, n: nat)
    requires n <= |group|
    ensures Chars(group[..n]) <= Chars(group)
  {
    if n < |group| {
      CharsOfFront(group[..|group| - 1], n);
      assert group[..|group| - 1][..n] == group[..n];
    } else {
      assert group[..n] == group;
    }
  }

  /** No way to cut the sequence into admissible groups needs fewer. */
  ghost predicate NoFewerThan(embeds: seq<Embed>, limit: int, n: nat) {
    forall other: seq<seq<Embed>> :: AllAdmissible(other, limit) && Concat(other) == embeds ==> n <= |other|
  }

  /** Any consecutive part of a group that may be sent may be sent. */
  lemma {:induction false} PartIsAdmissible(group: seq<Embed>, limit: int, from: nat, to: nat)
    requires Admissible(group, limit) && from < to <= |group|
    ensures Admissible(group[from..to], limit)
  {
    CharsOfFront(group, to);
    CharsOfPart(group[..to], from);
    assert group[..to][from..] == group[from..to];
  }

  /** Dropping embeds at the end never needs another group. */
  lemma {:induction false} ShorterNeedsNoMore(other: seq<seq<Embed>>, limit: int, n: nat) returns (r: seq<seq<Embed>>)
    requires AllAdmissible(other, limit) && n <= |Concat(other)|
    ensures AllAdmissible(r, limit) && Concat(r) == Concat(other)[..n] && |r| <= |other|
    ensures n > 0 ==> r != []
    decreases |other|
  {
    if n == 0 {
      r := [];
    } else {
      var front, last := other[..|other| - 1], other[|other| - 1];
      var m := |Concat(front)|;
      if n <= m {
        r := ShorterNeedsNoMore(front, limit, n);
        assert Concat(other)[..n] == Concat(front)[..n];
      } else {
        r := front + [last[..n - m]];
        assert last[..n - m] == last[0..n - m];
        PartIsAdmissible(last, limit, 0, n - m);
        ConcatAdd(front, last[..n - m]);
        assert Concat(other)[..n] == Concat(front) + last[..n - m];
      }
    }
  }

  /** The greedy choice: when a group cannot take the next embed, every partition has another group. */
  lemma {:induction false} FullGroupForcesAnother(done: seq<Embed>, group: seq<Embed>, e: Embed, limit: int, n: nat)
    requires group != []
    requires NoFewerThan(done + [group[0]], limit, n + 1)
    requires Chars(group) + e.chars > limit || |group| >= MAX_EMBEDS
    ensures NoFewerThan(done + group + [e], limit, n + 2)
  {
    forall other: seq<seq<Embed>> | AllAdmissible(other, limit) && Concat(other) == done + group + [e]
      ensures n + 2 <= |other|
    {
      Another(done, group, e, limit, n, other);
    }
  }

  lemma {:induction false} TooMuchForOne(group: seq<Embed>, e: Embed, limit: int)
    requires group != [] && (Chars(group) + e.chars > limit || |group| >= MAX_EMBEDS)
    ensures !Admissible(group + [e], limit)
  {
    CharsAdd(group, e);
  }

  /** The last group does not reach back to where this one starts. */
  lemma {:induction false} LastGroupStartsLater(done: seq<Embed>, group: seq<Embed>, e: Embed, limit: int,
          front: seq<Embed>, last: seq<Embed>)
    requires group != [] && (Chars(group) + e.chars > limit || |group| >= MAX_EMBEDS)
    requires Admissible(last, limit) && front + last == done + (group + [e])
    ensures |front| > |done|
  {
    hide Chars;
    if |front| <= |done| {
      var all := front + last;
      var from := |done| - |front|;
      assert last[from..] == all[|done|..];
      assert last[from..] == group + [e];
      assert last[from..|last|] == last[from..];
      PartIsAdmissible(last, limit, from, |last|);
      TooMuchForOne(group, e, limit);
    }
  }

  lemma {:induction false} Another(done: seq<Embed>, group: seq<Embed>, e: Embed, limit: int, n: nat,
          other: seq<seq<Embed>>)
    requires group != []
    requires NoFewerThan(done + [group[0]], limit, n + 1)
    requires Chars(group) + e.chars > limit || |group| >= MAX_EMBEDS
    requires AllAdmissible(other, limit) && Concat(other) == done + group + [e]
    ensures n + 2 <= |other|
  {
    var front, last := other[..|other| - 1], other[|other| - 1];
    assert Concat(other) == Concat(front) + last;
    hide Concat, Chars, Admissible, NoFewerThan;
    assert done + group + [e] == done + (group + [e]);
    LastGroupStartsLater(done, group, e, limit, Concat(front), last);
    SharedStart(Concat(front), last, done, group + [e]);
    FrontNeedsAsMany(front, limit, done, group[0], n);
  }

  lemma {:induction false} SharedStart<T>(a: seq<T>, b: seq<T>, c: seq<T>, d: seq<T>)
    requires a + b == c + d && |a| > |c| && d != []
    ensures a[..|c| + 1] == c + [d[0]]
  {
    assert a[..|c| + 1] == (a + b)[..|c| + 1] == (c + d)[..|c| + 1];
  }

  lemma {:induction false} FrontNeedsAsMany(front: seq<seq<Embed>>, limit: int, done: seq<Embed>, e: Embed, n: nat)
    requires AllAdmissible(front, limit) && |Concat(front)| > |done| && Concat(front)[..|done| + 1] == done + [e]
    requires NoFewerThan(done + [e], limit, n + 1)
    ensures n + 1 <= |front|
  {
    hide Concat, Chars, Admissible;
    var r := ShorterNeedsNoMore(front, limit, |done| + 1);
  }

  /** Longer sequences need no fewer groups. */
  lemma {:induction false} LongerNeedsNoFewer(shorter: seq<Embed>, more: seq<Embed>, limit: int, n: nat)
    requires NoFewerThan(shorter, limit, n)
    ensures NoFewerThan(shorter + more, limit, n)
  {
    forall other: seq<seq<Embed>> | AllAdmissible(other, limit) && Concat(other) == shorter + more
      ensures n <= |other|
    {
      var r := ShorterNeedsNoMore(other, limit, |shorter|);
      assert (shorter + more)[..|shorter|] == shorter;
    }
  }

  lemma {:induction false} OneIsNeeded(e: Embed, limit: int)
    ensures NoFewerThan([e], limit, 1)
  {
    forall other: seq<seq<Embed>> | AllAdmissible(other, limit) && Concat(other) == [e]
      ensures 1 <= |other|
    {
      assert other != [];
    }
  }

  /** Keeps every embed, in order; every group may be sent; and no other grouping gets by with fewer
      messages. */
  method SplitBySize(embeds: seq<Embed>, limit: int := MAX_MESSAGE_CHARS) returns (out: seq<seq<Embed>>)
    ensures Concat(out) == embeds
    ensures AllAdmissible(out, limit)
    ensures NoFewerThan(embeds, limit, |out|)
  {
    hide Admissible, NoFewerThan, Concat, Chars;
    out := [];
    var cur: seq<Embed> := [];
    var size := 0;
    NothingYet(limit);
    for i := 0 to |embeds|
      invariant AllAdmissible(out, limit) && Concat(out) + cur == embeds[..i]
      invariant size == Chars(cur)
      invariant cur != [] ==> Admissible(cur, limit) && NoFewerThan(Concat(out) + [cur[0]], limit, |out| + 1)
      invariant cur == [] ==> out == [] && i == 0
    {
      var e := embeds[i];
      var n := e.chars;
      ghost var before := embeds[..i];
      assert embeds[..i + 1] == before + [e];
      if cur != [] && (size + n > limit || |cur| >= MAX_EMBEDS) {
        FullGroupForcesAnother(Concat(out), cur, e, limit, |out|);
        ConcatAdd(out, cur);
        out := out + [cur];
        cur, size := [], 0;
        assert Concat(out) == before && before + [e] == Concat(out) + ([] + [e]);
      } else if cur == [] {
        OneIsNeeded(e, limit);
        assert Concat(out) + [e] == [e];
      }
      GrowsAdmissibly(cur, e, limit);
      cur := cur + [e];
      size := size + n;
    }
    assert embeds[..|embeds|] == embeds;
    if cur != [] {
      LongerNeedsNoFewer(Concat(out) + [cur[0]], cur[1..], limit, |out| + 1);
      assert Concat(out) + [cur[0]] + cur[1..] == embeds;
      ConcatAdd(out, cur);
      out := out + [cur];
    }
  }

  lemma {:induction false} NothingYet(limit: int)
    ensures Concat([]) == [] && Chars([]) == 0 && NoFewerThan([], limit, 0)
  {
  }

  lemma {:induction false} GrowsAdmissibly(cur: seq<Embed>, e: Embed, limit: int)
    requires cur != [] ==> Admissible(cur, limit) && Chars(cur) + e.chars <= limit && |cur| < MAX_EMBEDS
    ensures Admissible(cur + [e], limit) && Chars(cur + [e]) == Chars(cur) + e.chars
  {
    CharsAdd(cur, e);
  }
}
