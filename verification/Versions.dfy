/** Release versions and their order. */
module Versions {
  import opened Decimals

  function Split(s: string): (parts: seq<string>)
    ensures parts != []
  {
    if s == [] then [""]
    else
      var rest := Split(s[1..]);
      if s[0] == '.' then [""] + rest else [[s[0]] + rest[0]] + rest[1..]
  }

  function Digits(part: string): (d: string)
    ensures forall c :: c in d ==> IsDigit(c)
    ensures d <= part
    ensures |d| < |part| ==> !IsDigit(part[|d|])
  {
    if part == [] || !IsDigit(part[0]) then [] else [part[0]] + Digits(part[1..])
  }

  function Numbers(parts: seq<string>): seq<nat> {
    if parts == [] then [] else Numbers(parts[..|parts| - 1]) + [Value(Digits(parts[|parts| - 1]))]
  }

  /** The comparison key of a version: the leading number of each dotted part, 0 where there is none. */
  function VerTuple(v: string): seq<nat> {
    Numbers(Split(v))
  }

  method ParseVersion(v: string) returns (out: seq<nat>)
    ensures out == VerTuple(v)
  {
    var parts := Split(v);
    out := [];
    for i := 0 to |parts|
      invariant out == Numbers(parts[..i])
    {
      var part, digits, k := parts[i], "", 0;
      while k < |part| && IsDigit(part[k])
        invariant 0 <= k <= |part| && digits == part[..k]
        invariant forall c :: c in digits ==> IsDigit(c)
      {
        digits := digits + [part[k]];
        k := k + 1;
      }
      LeadingDigits(part, k);
      assert parts[..i + 1][..i] == parts[..i];
      out := out + [Value(digits)];
    }
    assert parts[..|parts|] == parts;
  }

  lemma {:induction false} LeadingDigits(part: string, k: nat)
    requires k <= |part| && forall c :: c in part[..k] ==> IsDigit(c)
    requires k < |part| ==> !IsDigit(part[k])
    ensures Digits(part) == part[..k]
  {
    if k > 0 {
      assert part[0] == part[..k][0];
      assert part[..k][1..] == part[1..][..k - 1];
      LeadingDigits(part[1..], k - 1);
    }
  }

  /** Python's order on tuples: the first difference decides, a proper prefix is smaller. */
  predicate Less(a: seq<nat>, b: seq<nat>) {
    if b == [] then false
    else if a == [] then true
    else a[0] < b[0] || (a[0] == b[0] && Less(a[1..], b[1..]))
  }

  predicate IsNewer(candidate: string, current: string) {
    Less(VerTuple(current), VerTuple(candidate))
  }

  /** The first k numbers agree, and then `a` goes on where `b` ends, or has the greater number. */
  predicate AheadFrom(a: seq<nat>, b: seq<nat>, k: nat) {
    && k <= |a| && k <= |b| && a[..k] == b[..k]
    && k < |a| && (k < |b| ==> a[k] > b[k])
  }

  ghost predicate Ahead(a: seq<nat>, b: seq<nat>) {
    exists k: nat :: AheadFrom(a, b, k)
  }

  lemma {:induction false} LessMeans(a: seq<nat>, b: seq<nat>)
    ensures Less(b, a) <==> Ahead(a, b)
  {
    if a == [] {
    } else if b == [] || a[0] != b[0] {
      assert AheadFrom(a, b, 0) <==> Less(b, a);
    } else {
      LessMeans(a[1..], b[1..]);
      AheadShift(a, b);
    }
  }

  lemma {:induction false} AheadShift(a: seq<nat>, b: seq<nat>)
    requires a != [] && b != [] && a[0] == b[0]
    ensures Ahead(a, b) <==> Ahead(a[1..], b[1..])
  {
    if k: nat :| AheadFrom(a, b, k) {
      assert a[1..][..k - 1] == a[..k][1..] && b[1..][..k - 1] == b[..k][1..];
      assert AheadFrom(a[1..], b[1..], k - 1);
    }
    if k: nat :| AheadFrom(a[1..], b[1..], k) {
      assert a[..k + 1] == [a[0]] + a[1..][..k] && b[..k + 1] == [b[0]] + b[1..][..k];
      assert AheadFrom(a, b, k + 1);
    }
  }

  /** A version is newer exactly if its numbers are ahead at the first difference. */
  lemma {:induction false} NewerIsAhead(candidate: string, current: string)
    ensures IsNewer(candidate, current) <==> Ahead(VerTuple(candidate), VerTuple(current))
  {
    LessMeans(VerTuple(candidate), VerTuple(current));
  }

  lemma {:induction false} LessTransitive(a: seq<nat>, b: seq<nat>, c: seq<nat>)
    requires Less(a, b) && Less(b, c)
    ensures Less(a, c)
  {
    if a != [] && a[0] == b[0] && b[0] == c[0] {
      LessTransitive(a[1..], b[1..], c[1..]);
    }
  }

  lemma {:induction false} LessTotal(a: seq<nat>, b: seq<nat>)
    ensures !(Less(a, b) && Less(b, a))
    ensures Less(a, b) || Less(b, a) || a == b
    ensures !Less(a, a)
  {
    if a != [] && b != [] {
      LessTotal(a[1..], b[1..]);
      assert a == [a[0]] + a[1..] && b == [b[0]] + b[1..];
    }
    if a != [] {
      LessTotal(a[1..], a[1..]);
    }
  }

  /** "Newer" is a strict order in which versions with the same key are neither newer nor older. */
  lemma {:induction false} NewerIsStrictOrder(u: string, v: string, w: string)
    ensures IsNewer(w, v) && IsNewer(v, u) ==> IsNewer(w, u)
    ensures !(IsNewer(v, u) && IsNewer(u, v))
    ensures !IsNewer(u, v) && !IsNewer(v, u) <==> VerTuple(u) == VerTuple(v)
    ensures !IsNewer(u, v) && IsNewer(w, v) ==> IsNewer(w, u)
  {
    var a, b, c := VerTuple(u), VerTuple(v), VerTuple(w);
    LessTotal(a, b);
    if Less(a, b) && Less(b, c) {
      LessTransitive(a, b, c);
    }
  }

  /* ----- dotted numbers ----- */

  function Dotted(numbers: seq<nat>): string
    requires numbers != []
  {
    if |numbers| == 1 then Decimal(numbers[0]) else Decimal(numbers[0]) + "." + Dotted(numbers[1..])
  }

  lemma {:induction false} SplitAtDot(part: string, rest: string)
    requires forall c :: c in part ==> IsDigit(c)
    ensures Split(part + "." + rest) == [part] + Split(rest)
    ensures Split(part) == [part]
  {
    if part == [] {
      assert part + "." + rest == ['.'] + rest;
    } else {
      SplitAtDot(part[1..], rest);
      assert part[0] in part;
      assert (part + "." + rest)[1..] == part[1..] + "." + rest;
      assert part == [part[0]] + part[1..];
    }
  }

  lemma {:induction false} NumbersFront(part: string, parts: seq<string>)
    ensures Numbers([part] + parts) == [Value(Digits(part))] + Numbers(parts)
  {
    hide Digits, Value;
    var all := [part] + parts;
    if parts == [] {
      assert all[..0] == [];
    } else {
      NumbersFront(part, parts[..|parts| - 1]);
      assert all[..|all| - 1] == [part] + parts[..|parts| - 1];
    }
  }

  function Joined(parts: seq<string>): string
    requires parts != []
  {
    if |parts| == 1 then parts[0] else parts[0] + "." + Joined(parts[1..])
  }

  lemma {:induction false} SplitJoins(v: string)
    ensures Joined(Split(v)) == v && forall k :: 0 <= k < |Split(v)| ==> '.' !in Split(v)[k]
  {
    if v != [] {
      SplitJoins(v[1..]);
      var rest := Split(v[1..]);
      assert v == [v[0]] + v[1..];
      if v[0] == '.' {
        assert ([""] + rest)[1..] == rest;
      } else {
        assert ([[v[0]] + rest[0]] + rest[1..])[1..] == rest[1..];
      }
    }
  }

  lemma {:induction false} NumbersAre(parts: seq<string>, k: nat)
    requires k < |parts|
    ensures |Numbers(parts)| == |parts| && Numbers(parts)[k] == Value(Digits(parts[k]))
  {
    if k < |parts| - 1 {
      NumbersAre(parts[..|parts| - 1], k);
    } else if |parts| > 1 {
      NumbersAre(parts[..|parts| - 1], 0);
    }
  }

  /** Any text has a key: cut at every dot, each part gives the number that its leading digits write, and 0 if
      it has none. */
  lemma {:induction false} EveryTextHasAKey(v: string) returns (parts: seq<string>)
    ensures parts != [] && Joined(parts) == v && |VerTuple(v)| == |parts|
    ensures forall k :: 0 <= k < |parts| ==> '.' !in parts[k] && KeyOf(parts[k], VerTuple(v)[k])
  {
    parts := Split(v);
    SplitJoins(v);
    NumbersAre(parts, 0);
    forall k | 0 <= k < |parts|
      ensures KeyOf(parts[k], VerTuple(v)[k])
    {
      NumbersAre(parts, k);
      var d := Digits(parts[k]);
      assert d == parts[k][..|d|] && Leading(parts[k], |d|);
    }
  }

  /** The first d characters are digits, and no more. */
  predicate Leading(part: string, d: nat) {
    && d <= |part| && (forall c :: c in part[..d] ==> IsDigit(c)) && (d < |part| ==> !IsDigit(part[d]))
  }

  ghost predicate KeyOf(part: string, key: nat) {
    exists d: nat :: Leading(part, d) && key == Value(part[..d])
  }

  /** Dotted versions compare number by number, 1.10 being newer than 1.9. */
  lemma {:induction false} DottedIsNewer(a: seq<nat>, b: seq<nat>)
    requires a != [] && b != []
    ensures IsNewer(Dotted(a), Dotted(b)) <==> exists k: nat :: AheadFrom(a, b, k)
  {
    DottedRoundTrip(a);
    DottedRoundTrip(b);
    NewerIsAhead(Dotted(a), Dotted(b));
  }

  /** Writing numbers as a dotted version and parsing it gives the numbers back, so such versions
      compare number by number and not as text. */
  lemma {:induction false} DottedRoundTrip(numbers: seq<nat>)
    requires numbers != []
    ensures VerTuple(Dotted(numbers)) == numbers
  {
    var first := Decimal(numbers[0]);
    DecimalValue(numbers[0]);
    LeadingDigits(first, |first|);
    assert first[..|first|] == first;
    if |numbers| == 1 {
      SplitAtDot(first, "");
      NumbersFront(first, []);
    } else {
      DottedRoundTrip(numbers[1..]);
      SplitAtDot(first, Dotted(numbers[1..]));
      NumbersFront(first, Split(Dotted(numbers[1..])));
    }
  }
}
