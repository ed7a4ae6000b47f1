/** Crediting wounds and deaths to the damage that caused them, from the classified lines of the server
    log. Times are in milliseconds. */
module LogTail {
  import opened Options

  type Name = string

  /** What the death line says caused it. */
  datatype Causer = NoCauser | Soldier | World(kind: string)

  datatype Body =
    | Hit(victim: Name, attacker: Name, eos: string, weapon: string)
    | Revive(victim: Name)
    | Wound(victim: Name)
    | Die(victim: Name, fromNamed: bool, causer: Causer, fromEos: Option<string>)
    | Other

  datatype Line = Line(stamp: Option<int>, body: Body)

  datatype Source = Source(attacker: Option<Name>, eos: Option<string>, weapon: Option<string>, ts: int)

  datatype Event = Event(
    victim: Name,
    attacker: Option<Name>,
    attackerEos: Option<string>,
    killerEos: Option<string>,
    selfInflicted: bool,
    weapon: Option<string>,
    damageType: Option<string>,
    wounded: bool,
    killed: bool,
    ts: int)

  datatype View = View(pending: map<Name, Source>, woundedBy: map<Name, Source>, events: seq<Event>, lastTs: int)

  /* ----- one line ----- */

  /** A missing or zero stamp stands for the last one. */
  function Time(line: Line, lastTs: int): int {
    if line.stamp.Some? && line.stamp.value != 0 then line.stamp.value else lastTs
  }

  const NOBODY := Source(None, None, None, 0)

  function Lookup(d: map<Name, Source>, v: Name): Source {
    if v in d then d[v] else NOBODY
  }

  function Fresh(d: map<Name, Source>, now: int, ttl: int): map<Name, Source> {
    map k | k in d && !(now - d[k].ts > ttl) :: d[k]
  }

  function WoundEvent(v: Name, src: Source, ts: int): Event {
    Event(v, if src.attacker == Some(v) then None else src.attacker, src.eos, None, src.attacker == Some(v),
          src.weapon, None, true, false, ts)
  }

  function DeathEvent(line: Body, src: Source, ts: int): Event
    requires line.Die?
  {
    var v := line.victim;
    var killer := if line.fromEos == Some("INVALID") || line.fromEos == Some("") then None else line.fromEos;
    var unknown := src.attacker.None?;
    var gaveUp := unknown && line.fromNamed && line.causer.NoCauser?;
    Event(v, if src.attacker == Some(v) then None else src.attacker, src.eos, killer, src.attacker == Some(v) || gaveUp,
          src.weapon, if unknown && line.causer.World? then Some(line.causer.kind) else None, false, true, ts)
  }

  /** The event a line emits, when the two maps are these. */
  function Emitted(s: View, line: Line): Option<Event> {
    var ts := Time(line, s.lastTs);
    match line.body
    case Wound(v) => Some(WoundEvent(v, Lookup(s.pending, v), ts))
    case Die(v, fromNamed, _, _) =>
      Some(DeathEvent(line.body, if fromNamed then Lookup(s.pending, v) else Lookup(s.woundedBy, v), ts))
    case _ => None
  }

  /** The queue keeps the newest events only. */
  function Queue(events: seq<Event>, e: Option<Event>, cap: nat): seq<Event> {
    if e.None? then events
    else
      var all := events + [e.value];
      if |all| > cap then all[|all| - cap..] else all
  }

  lemma {:induction false} NoEventNoChange(events: seq<Event>, cap: nat)
    ensures Queue(events, None, cap) == events
  {
  }

  function Step(s: View, line: Line, ttl: int, cap: nat): View {
    var ts := Time(line, s.lastTs);
    var events := Queue(s.events, Emitted(s, line), cap);
    match line.body
    case Hit(v, attacker, eos, weapon) =>
      View(s.pending[v := Source(Some(attacker), Some(eos), Some(weapon), ts)], s.woundedBy, events, ts)
    case Revive(v) => View(s.pending - {v}, s.woundedBy - {v}, events, ts)
    case Wound(v) => View(s.pending, s.woundedBy[v := Lookup(s.pending, v).(ts := ts)], events, ts)
    case Die(v, _, _, _) => View(Fresh(s.pending - {v}, ts, ttl), Fresh(s.woundedBy - {v}, ts, ttl), events, ts)
    case Other => View(s.pending, s.woundedBy, events, ts)
  }

  class DamageLogParser {
    const ttl: int
    const maxBuffer: nat
    var pending: map<Name, Source>
    var woundedBy: map<Name, Source>
    var events: seq<Event>
    var lastTs: int

    function Now(): View
      reads this
    {
      View(pending, woundedBy, events, lastTs)
    }

    constructor (ttl: int, maxBuffer: nat)
      ensures this.ttl == ttl && this.maxBuffer == maxBuffer && Now() == View(map[], map[], [], 0)
    {
      this.ttl, this.maxBuffer := ttl, maxBuffer;
      pending, woundedBy, events, lastTs := map[], map[], [], 0;
    }

    method Sweep(d: map<Name, Source>, now: int) returns (r: map<Name, Source>)
      ensures r == Fresh(d, now, ttl)
    {
      r := d;
      var stale := set k | k in d && now - d[k].ts > ttl;
      ghost var all := stale;
      while stale != {}
        invariant stale <= all
        invariant r == d - (all - stale)
        decreases stale
      {
        var k :| k in stale;
        r := r - {k};
        stale := stale - {k};
      }
    }

    method Gc(now: int)
      modifies this`pending, this`woundedBy
      ensures pending == Fresh(old(pending), now, ttl) && woundedBy == Fresh(old(woundedBy), now, ttl)
    {
      pending := Sweep(pending, now);
      woundedBy := Sweep(woundedBy, now);
    }

    method Emit(victim: Name, attacker: Option<Name>, eos: Option<string>, weapon: Option<string>, ts: int,
                wounded: bool, killed: bool, selfInflicted: Option<bool>, damageType: Option<string>,
                    killerEos: Option<string>)
      modifies this`events
      ensures events
                == Queue(old(events),
                         Some(Event(victim, if attacker == Some(victim) then None else attacker, eos, killerEos,
                                    if selfInflicted.Some? then selfInflicted.value else attacker == Some(victim),
                                    weapon, damageType, wounded, killed, ts)), maxBuffer)
    {
      var isSelf := if selfInflicted.None? then attacker == Some(victim) else selfInflicted.value;
      events := events + [Event(victim, if attacker == Some(victim) then None else attacker, eos, killerEos, isSelf,
                                weapon, damageType, wounded, killed, ts)];
      if |events| > maxBuffer {
        events := events[|events| - maxBuffer..];
      }
    }

    /** The attacker of a wound is the last hit's. */
    method FeedWound(victim: Name, ts: int)
      modifies this`woundedBy, this`events
      ensures events == Queue(old(events), Some(WoundEvent(victim, Lookup(pending, victim), ts)), maxBuffer)
      ensures woundedBy == old(woundedBy)[victim := Lookup(pending, victim).(ts := ts)]
    {
      hide Queue;
      var src := if victim in pending then Some(pending[victim]) else None;
      var attacker := if src.Some? then src.value.attacker else None;
      var eos := if src.Some? then src.value.eos else None;
      var weapon := if src.Some? then src.value.weapon else None;
      woundedBy := woundedBy[victim := Source(attacker, eos, weapon, ts)];
      Emit(victim, attacker, eos, weapon, ts, true, false, None, None, None);
    }

    /** The attacker of an instant kill is the last hit's, that of a bleed-out whoever downed the
        victim; without one the line's own cause is kept. */
    method FeedDie(victim: Name, fromNamed: bool, causer: Causer, fromEos: Option<string>, ts: int)
      modifies this`pending, this`woundedBy, this`events
      ensures var src := Lookup(if fromNamed then old(pending) else old(woundedBy), victim);
              var died := DeathEvent(Die(victim, fromNamed, causer, fromEos), src, ts);
              events == Queue(old(events), Some(died), maxBuffer)
      ensures pending == Fresh(old(pending) - {victim}, ts, ttl)
      ensures woundedBy == Fresh(old(woundedBy) - {victim}, ts, ttl)
    {
      hide Fresh, Queue;
      var src := None;
      if fromNamed {
        src := if victim in pending then Some(pending[victim]) else None;
      } else {
        src := if victim in woundedBy then Some(woundedBy[victim]) else None;
      }
      var attacker := if src.Some? then src.value.attacker else None;
      var eos := if src.Some? then src.value.eos else None;
      var weapon := if src.Some? then src.value.weapon else None;
      var killerEos := if fromEos.Some? && fromEos.value != "" && fromEos.value != "INVALID" then fromEos else None;
      var selfInflicted: Option<bool>, damageType: Option<string> := None, None;
      if attacker.None? {
        if causer.World? {
          damageType := Some(causer.kind);
        } else if fromNamed && causer.NoCauser? {
          selfInflicted := Some(true);
        }
      }
      Emit(victim, attacker, eos, weapon, ts, false, true, selfInflicted, damageType, killerEos);
      woundedBy := woundedBy - {victim};
      pending := pending - {victim};
      Gc(ts);
    }

    method Feed(line: Line)
      modifies this
      ensures Now() == Step(old(Now()), line, ttl, maxBuffer)
    {
      hide Fresh, Queue, WoundEvent, DeathEvent, Lookup;
      NoEventNoChange(events, maxBuffer);
      var ts := if line.stamp.Some? && line.stamp.value != 0 then line.stamp.value else lastTs;
      lastTs := ts;
      match line.body
      case Hit(victim, attacker, eos, weapon) =>
        pending := pending[victim := Source(Some(attacker), Some(eos), Some(weapon), ts)];
      case Revive(victim) =>
        woundedBy := woundedBy - {victim};
        pending := pending - {victim};
      case Wound(victim) => FeedWound(victim, ts);
      case Die(victim, fromNamed, causer, fromEos) => FeedDie(victim, fromNamed, causer, fromEos, ts);
      case Other =>
    }

    method Drain() returns (out: seq<Event>)
      modifies this`events
      ensures out == old(events) && events == []
    {
      out := events;
      events := [];
    }
  }
}
