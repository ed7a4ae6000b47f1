/** Whole runs of the log parser: every line that is fed, and every drain, in order. What an event
    credits is a function of that history alone. */
module LogHistory {
  import opened Options
  import opened LogTail

  datatype Op = FeedLine(line: Line) | DrainQueue

  function Run(h: seq<Op>, ttl: int, cap: nat, n: nat): View
    requires n <= |h|
  {
    if n == 0 then View(map[], map[], [], 0)
    else
      var s := Run(h, ttl, cap, n - 1);
      match h[n - 1]
      case FeedLine(line) => Step(s, line, ttl, cap)
      case DrainQueue => s.(events := [])
  }

  /** The event emitted by the n-th operation. */
  function EventAt(h: seq<Op>, ttl: int, cap: nat, n: nat): Option<Event>
    requires n < |h|
  {
    match h[n]
    case FeedLine(line) => Emitted(Run(h, ttl, cap, n), line)
    case DrainQueue => None
  }

  /* ----- the history of one victim ----- */

  /** The time after the first n operations, and the time of one of them. */
  function Clock(h: seq<Op>, n: nat): int
    requires n <= |h|
  {
    if n == 0 then 0
    else if h[n - 1].FeedLine? then Time(h[n - 1].line, Clock(h, n - 1))
    else Clock(h, n - 1)
  }

  function At(h: seq<Op>, i: nat): int
    requires i < |h|
  {
    Clock(h, i + 1)
  }

  datatype Kind = Hurt | Downed | Wiped | AnyDeath

  /** Revives and deaths wipe what is known of their victim. */
  predicate Is(h: seq<Op>, i: nat, v: Name, kind: Kind) {
    i < |h| && h[i].FeedLine?
    && (var b := h[i].line.body;
        match kind
        case Hurt => b.Hit? && b.victim == v
        case Downed => b.Wound? && b.victim == v
        case Wiped => (b.Revive? || b.Die?) && b.victim == v
        case AnyDeath => b.Die?)
  }

  predicate NoneBetween(h: seq<Op>, i: nat, n: nat, v: Name, kind: Kind) {
    forall j :: i < j < n ==> !Is(h, j, v, kind)
  }

  /** A death in between finds the record older than the time to live. */
  predicate Aged(h: seq<Op>, i: nat, n: nat, ttl: int)
    requires i < n <= |h|
  {
    exists d :: i < d < n && Is(h, d, "", AnyDeath) && At(h, d) - At(h, i) > ttl
  }

  /** The victim's latest record of this kind, if it was not wiped since. */
  function Latest(h: seq<Op>, n: nat, v: Name, kind: Kind): Option<nat>
    requires n <= |h|
  {
    if n == 0 then None
    else if Is(h, n - 1, v, kind) then Some(n - 1)
    else if Is(h, n - 1, v, Wiped) then None
    else Latest(h, n - 1, v, kind)
  }

  /** The same, if it did not age out. */
  function Counted(h: seq<Op>, n: nat, v: Name, kind: Kind, ttl: int): Option<nat>
    requires n <= |h|
  {
    var i := Latest(h, n, v, kind);
    if i.Some? && i.value < n && !Aged(h, i.value, n, ttl) then i else None
  }

  lemma {:induction false} LatestIs(h: seq<Op>, n: nat, v: Name, kind: Kind, i: nat)
    requires n <= |h| && kind != Wiped
    ensures (Latest(h, n, v, kind) == Some(i))
              <==> (i < n && Is(h, i, v, kind) && NoneBetween(h, i, n, v, kind) && NoneBetween(h, i, n, v, Wiped))
  {
    if n > 0 {
      LatestIs(h, n - 1, v, kind, i);
    }
  }

  function SourceOf(h: seq<Op>, i: nat): Source
    requires i < |h| && h[i].FeedLine? && h[i].line.body.Hit?
  {
    var b := h[i].line.body;
    Source(Some(b.attacker), Some(b.eos), Some(b.weapon), At(h, i))
  }

  /** Who is credited for what happens to the victim at moment n: the source of the last hit that
      still counts. */
  function HitCredit(h: seq<Op>, n: nat, v: Name, ttl: int): Source
    requires n <= |h|
  {
    var i := Counted(h, n, v, Hurt, ttl);
    if i.Some? && Is(h, i.value, v, Hurt) then SourceOf(h, i.value) else NOBODY
  }

  /** For a bleed-out: whoever was credited when the victim went down. */
  function WoundCredit(h: seq<Op>, n: nat, v: Name, ttl: int): Source
    requires n <= |h|
  {
    var w := Counted(h, n, v, Downed, ttl);
    if w.Some? && w.value < n then HitCredit(h, w.value, v, ttl) else NOBODY
  }

  /** The event a line must emit, told from the history. */
  function EventFor(h: seq<Op>, n: nat, ttl: int): Option<Event>
    requires n < |h|
  {
    if h[n].DrainQueue? then None
    else
      match h[n].line.body
      case Wound(v) => Some(WoundEvent(v, HitCredit(h, n, v, ttl), At(h, n)))
      case Die(v, fromNamed, _, _) =>
        Some(DeathEvent(h[n].line.body,
                        if fromNamed then HitCredit(h, n, v, ttl) else WoundCredit(h, n, v, ttl), At(h, n)))
      case _ => None
  }

  /* ----- the maps are that history ----- */

  predicate PendingIs(s: View, h: seq<Op>, n: nat, v: Name, ttl: int)
    requires n <= |h|
  {
    var i := Counted(h, n, v, Hurt, ttl);
    && (v in s.pending <==> i.Some?)
    && (i.Some? ==> Is(h, i.value, v, Hurt) && s.pending[v] == SourceOf(h, i.value))
  }

  predicate WoundedIs(s: View, h: seq<Op>, n: nat, v: Name, ttl: int)
    requires n <= |h|
  {
    var w := Counted(h, n, v, Downed, ttl);
    && (v in s.woundedBy <==> w.Some?)
    && (w.Some? ==> w.value < n && s.woundedBy[v] == HitCredit(h, w.value, v, ttl).(ts := At(h, w.value)))
  }

  lemma {:induction false} AgedStep(h: seq<Op>, i: nat, n: nat, ttl: int)
    requires i < n < |h|
    ensures Aged(h, i, n + 1, ttl) == (Aged(h, i, n, ttl) || (Is(h, n, "", AnyDeath) && At(h, n) - At(h, i) > ttl))
  {
  }

  lemma {:induction false} ClockIsLast(h: seq<Op>, ttl: int, cap: nat, n: nat)
    requires n <= |h|
    ensures Run(h, ttl, cap, n).lastTs == Clock(h, n)
  {
    if n > 0 {
      ClockIsLast(h, ttl, cap, n - 1);
    }
  }

  lemma {:induction false} LatestIsBefore(h: seq<Op>, n: nat, v: Name, kind: Kind)
    requires n <= |h|
    ensures Latest(h, n, v, kind).Some? ==>
              Latest(h, n, v, kind).value < n && Is(h, Latest(h, n, v, kind).value, v, kind)
  {
    if n > 0 {
      LatestIsBefore(h, n - 1, v, kind);
    }
  }

  /** What counts after one more operation. */
  lemma {:induction false} CountedStep(h: seq<Op>, n: nat, v: Name, kind: Kind, ttl: int)
    requires n < |h|
    ensures Counted(h, n + 1, v, kind, ttl)
              == (if Is(h, n, v, kind) then Some(n)
                  else if Is(h, n, v, Wiped) then None
                  else
                    var i := Counted(h, n, v, kind, ttl);
                    if i.Some? && i.value < n && Is(h, n, "", AnyDeath)
                        && At(h, n) - At(h, i.value) > ttl then None else i)
  {
    hide Is, At;
    LatestIsBefore(h, n, v, kind);
    var i := Latest(h, n, v, kind);
    if i.Some? {
      AgedStep(h, i.value, n, ttl);
    }
  }

  lemma {:induction false} PendingStep(s: View, h: seq<Op>, n: nat, v: Name, ttl: int, cap: nat)
    requires n < |h| && h[n].FeedLine? && s.lastTs == Clock(h, n) && PendingIs(s, h, n, v, ttl)
    ensures PendingIs(Step(s, h[n].line, ttl, cap), h, n + 1, v, ttl)
  {
    hide Latest, Aged, Counted;
    CountedStep(h, n, v, Hurt, ttl);
    CountedBefore(h, n, v, Hurt, ttl);
  }

  lemma {:induction false} CountedBefore(h: seq<Op>, n: nat, v: Name, kind: Kind, ttl: int)
    requires n <= |h|
    ensures Counted(h, n, v, kind, ttl).Some? ==> Counted(h, n, v, kind, ttl).value < n
  {
  }

  lemma {:induction false} WoundedStep(s: View, h: seq<Op>, n: nat, v: Name, ttl: int, cap: nat)
    requires n < |h| && h[n].FeedLine? && s.lastTs == Clock(h, n)
    requires PendingIs(s, h, n, v, ttl) && WoundedIs(s, h, n, v, ttl)
    ensures WoundedIs(Step(s, h[n].line, ttl, cap), h, n + 1, v, ttl)
  {
    hide Latest, Aged, Counted;
    CountedStep(h, n, v, Downed, ttl);
  }

  /** The parser's two maps hold, for every player, exactly the last hit and the last wound that
      still count. */
  lemma {:induction false} MapsAreTheHistory(h: seq<Op>, ttl: int, cap: nat, n: nat, v: Name)
    requires n <= |h|
    ensures PendingIs(Run(h, ttl, cap, n), h, n, v, ttl)
    ensures WoundedIs(Run(h, ttl, cap, n), h, n, v, ttl)
  {
    if n > 0 {
      MapsAreTheHistory(h, ttl, cap, n - 1, v);
      ClockIsLast(h, ttl, cap, n - 1);
      var s := Run(h, ttl, cap, n - 1);
      if h[n - 1].FeedLine? {
        PendingStep(s, h, n - 1, v, ttl, cap);
        WoundedStep(s, h, n - 1, v, ttl, cap);
      } else {
        CountedStep(h, n - 1, v, Hurt, ttl);
        CountedStep(h, n - 1, v, Downed, ttl);
      }
    }
  }

  /** Every event is the one the history calls for. */
  lemma {:induction false} EventsAreTheHistory(h: seq<Op>, ttl: int, cap: nat, n: nat)
    requires n < |h|
    ensures EventAt(h, ttl, cap, n) == EventFor(h, n, ttl)
  {
    hide Counted, Run, Clock;
    if h[n].FeedLine? {
      var v := match h[n].line.body case Wound(v) => v case Die(v, _, _, _) => v case _ => "";
      MapsAreTheHistory(h, ttl, cap, n, v);
      ClockIsLast(h, ttl, cap, n);
      AtIsTime(h, n);
    }
  }

  lemma {:induction false} AtIsTime(h: seq<Op>, n: nat)
    requires n < |h| && h[n].FeedLine?
    ensures At(h, n) == Time(h[n].line, Clock(h, n))
  {
  }

  /** This hit on the victim is the one a credit at moment n goes to: it is their last before n, and
      there was no revive or death of theirs since. */
  predicate LastHitBefore(h: seq<Op>, i: nat, n: nat, v: Name) {
    i < n <= |h| && Is(h, i, v, Hurt) && NoneBetween(h, i, n, v, Hurt) && NoneBetween(h, i, n, v, Wiped)
  }

  lemma {:induction false} CreditIsTheLastHit(h: seq<Op>, n: nat, v: Name, ttl: int) returns (i: nat)
    requires n <= |h| && HitCredit(h, n, v, ttl) != NOBODY
    ensures LastHitBefore(h, i, n, v) && HitCredit(h, n, v, ttl) == SourceOf(h, i) && !Aged(h, i, n, ttl)
  {
    hide Aged, Is;
    i := Counted(h, n, v, Hurt, ttl).value;
    LatestIs(h, n, v, Hurt, i);
  }

  /** Whoever an event credits hurt this very victim, and since that hit the victim was neither revived
      nor dead: no hit from before a wipe is ever credited. On a wound and an instant kill it is the
      last hit there is; on a bleed-out, the last hit before the victim went down for the last time. */
  lemma {:induction false} NoCreditAcrossAWipe(h: seq<Op>, ttl: int, cap: nat, n: nat) returns (i: nat)
    requires n < |h| && EventAt(h, ttl, cap, n).Some? && EventAt(h, ttl, cap, n).value.attackerEos.Some?
    ensures var e := EventAt(h, ttl, cap, n).value;
            && i < n && Is(h, i, e.victim, Hurt) && NoneBetween(h, i, n, e.victim, Wiped)
            && (var b := h[i].line.body;
                && e.attackerEos == Some(b.eos) && e.weapon == Some(b.weapon)
                && e.attacker == (if b.attacker == e.victim then None else Some(b.attacker))
                && (b.attacker == e.victim ==> e.selfInflicted))
            && (if e.wounded || h[n].line.body.fromNamed then LastHitBefore(h, i, n, e.victim)
                else exists w: nat :: i < w < n && Is(h, w, e.victim, Downed) && NoneBetween(h, w, n, e.victim, Downed)
                                      && LastHitBefore(h, i, w, e.victim))
  {
    EventsAreTheHistory(h, ttl, cap, n);
    hide Aged, At, Run, EventAt, Is;
    var body := h[n].line.body;
    var v := body.victim;
    if body.Wound? || body.fromNamed {
      i := CreditIsTheLastHit(h, n, v, ttl);
    } else {
      hide HitCredit;
      var w := Counted(h, n, v, Downed, ttl).value;
      LatestIs(h, n, v, Downed, w);
      i := CreditIsTheLastHit(h, w, v, ttl);
      assert !Is(h, w, v, Wiped) by {
        KindsDiffer(h, w, v);
      }
    }
  }

  lemma {:induction false} KindsDiffer(h: seq<Op>, w: nat, v: Name)
    requires Is(h, w, v, Downed)
    ensures !Is(h, w, v, Wiped)
  {
  }

  /* ----- the queue ----- */

  /** The events emitted since the last drain. */
  function SinceDrain(h: seq<Op>, n: nat, ttl: int): seq<Event>
    requires n <= |h|
  {
    if n == 0 || h[n - 1].DrainQueue? then []
    else
      var e := EventFor(h, n - 1, ttl);
      SinceDrain(h, n - 1, ttl) + (if e.Some? then [e.value] else [])
  }

  function AllEvents(h: seq<Op>, n: nat, ttl: int): seq<Event>
    requires n <= |h|
  {
    if n == 0 then []
    else
      var e := EventFor(h, n - 1, ttl);
      AllEvents(h, n - 1, ttl) + (if e.Some? then [e.value] else [])
  }

  /** Everything that drains handed out so far. */
  function Delivered(h: seq<Op>, ttl: int, cap: nat, n: nat): seq<Event>
    requires n <= |h|
  {
    if n == 0 then []
    else Delivered(h, ttl, cap, n - 1) + (if h[n - 1].DrainQueue? then Run(h, ttl, cap, n - 1).events else [])
  }

  function Newest(events: seq<Event>, cap: nat): seq<Event> {
    if |events| > cap then events[|events| - cap..] else events
  }

  lemma {:induction false} NewestOfQueue(events: seq<Event>, e: Option<Event>, cap: nat)
    ensures Queue(Newest(events, cap), e, cap) == Newest(events + (if e.Some? then [e.value] else []), cap)
  {
  }

  /** The queue is the newest events since the last drain. */
  lemma {:induction false} QueueIsTheNewest(h: seq<Op>, ttl: int, cap: nat, n: nat)
    requires n <= |h|
    ensures Run(h, ttl, cap, n).events == Newest(SinceDrain(h, n, ttl), cap)
  {
    hide EventFor, Queue, Newest;
    if n == 0 {
      NewestOfNone(cap);
    } else {
      QueueIsTheNewest(h, ttl, cap, n - 1);
      EventsAreTheHistory(h, ttl, cap, n - 1);
      NewestOfNone(cap);
      if h[n - 1].FeedLine? {
        NewestOfQueue(SinceDrain(h, n - 1, ttl), EventFor(h, n - 1, ttl), cap);
      }
    }
  }

  lemma {:induction false} NewestOfNone(cap: nat)
    ensures Newest([], cap) == []
  {
  }

  lemma {:induction false} QueueIsWhole(h: seq<Op>, ttl: int, cap: nat, n: nat)
    requires n <= |h| && |SinceDrain(h, n, ttl)| <= cap
    ensures Run(h, ttl, cap, n).events == SinceDrain(h, n, ttl)
  {
    hide SinceDrain, Run;
    QueueIsTheNewest(h, ttl, cap, n);
  }

  /** While no more events than the buffer holds come between two drains, each event is handed out
      once, in order, and none is lost. */
  lemma {:induction false} NothingIsLost(h: seq<Op>, ttl: int, cap: nat, n: nat)
    requires n <= |h| && forall m: nat :: m <= n ==> |SinceDrain(h, m, ttl)| <= cap
    ensures Delivered(h, ttl, cap, n) + Run(h, ttl, cap, n).events == AllEvents(h, n, ttl)
  {
    hide EventFor, Run;
    QueueIsWhole(h, ttl, cap, n);
    if n > 0 {
      NothingIsLost(h, ttl, cap, n - 1);
      QueueIsWhole(h, ttl, cap, n - 1);
      if h[n - 1].DrainQueue? {
        DrainsEmitNothing(h, n - 1, ttl);
      }
    }
  }

  lemma {:induction false} DrainsEmitNothing(h: seq<Op>, n: nat, ttl: int)
    requires n < |h| && h[n].DrainQueue?
    ensures EventFor(h, n, ttl) == None
  {
  }

  /** The last time stamp among the first n operations, if any gave one. */
  function LastStamp(h: seq<Op>, n: nat): Option<int>
    requires n <= |h|
  {
    if n == 0 then None
    else if h[n - 1].FeedLine? && h[n - 1].line.stamp.Some? && h[n - 1].line.stamp != Some(0) then h[n - 1].line.stamp
    else LastStamp(h, n - 1)
  }

  lemma {:induction false} ClockIsTheLastStamp(h: seq<Op>, n: nat)
    requires n <= |h|
    ensures Clock(h, n) == if LastStamp(h, n).Some? then LastStamp(h, n).value else 0
  {
    if n > 0 {
      ClockIsTheLastStamp(h, n - 1);
    }
  }

  /* ----- what an event says ----- */

  /** The hit that is credited for what happens to the victim at moment n. */
  function HitBefore(h: seq<Op>, n: nat, v: Name, ttl: int): Option<Body>
    requires n <= |h|
  {
    var i := Counted(h, n, v, Hurt, ttl);
    if i.Some? && Is(h, i.value, v, Hurt) then Some(h[i.value].line.body) else None
  }

  /** For a bleed-out: the hit credited when the victim went down. */
  function HitBeforeWound(h: seq<Op>, n: nat, v: Name, ttl: int): Option<Body>
    requires n <= |h|
  {
    var w := Counted(h, n, v, Downed, ttl);
    if w.Some? && w.value < n then HitBefore(h, w.value, v, ttl) else None
  }

  /** The event names who made the hit and with what, but nobody as his own attacker. */
  predicate Names(e: Event, hit: Option<Body>) {
    match hit
    case Some(Hit(_, attacker, eos, weapon)) =>
      && e.attackerEos == Some(eos) && e.weapon == Some(weapon)
      && e.attacker == if attacker == e.victim then None else Some(attacker)
    case _ => e.attacker.None? && e.attackerEos.None? && e.weapon.None?
  }

  predicate OwnHit(e: Event, hit: Option<Body>) {
    hit.Some? && hit.value.Hit? && hit.value.attacker == e.victim
  }

  /** A wound and a death each give one event, and nothing else does: a wound credits the last hit that
      counts, a death by name the same, any other death the one credited when the victim went down. Without
      one, a death keeps the cause of its own line, and is the victim's own where that names no causer. */
  lemma {:induction false} EventsSay(h: seq<Op>, ttl: int, cap: nat, n: nat)
    requires n < |h|
    ensures var e := EventAt(h, ttl, cap, n);
            if h[n].DrainQueue? then e.None?
            else
              match h[n].line.body
              case Wound(v) =>
                var hit := HitBefore(h, n, v, ttl);
                && e.Some? && e.value.victim == v && e.value.ts == At(h, n) && Names(e.value, hit)
                && e.value.wounded && !e.value.killed && e.value.killerEos.None? && e.value.damageType.None?
                && (e.value.selfInflicted <==> OwnHit(e.value, hit))
              case Die(v, byName, causer, from) =>
                var hit := if byName then HitBefore(h, n, v, ttl) else HitBeforeWound(h, n, v, ttl);
                && e.Some? && e.value.victim == v && e.value.ts == At(h, n) && Names(e.value, hit)
                && !e.value.wounded && e.value.killed
                && e.value.killerEos == (if from in {Some(""), Some("INVALID")} then None else from)
                && (e.value.selfInflicted <==> OwnHit(e.value, hit) || (hit.None? && byName && causer.NoCauser?))
                && e.value.damageType == if hit.None? && causer.World? then Some(causer.kind) else None
              case _ => e.None?
  {
    hide Run, Counted, At;
    EventsAreTheHistory(h, ttl, cap, n);
  }
}
