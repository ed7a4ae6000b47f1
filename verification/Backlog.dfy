/** The durable queue of matches to push to the central server: stats first, then the replay. Pushes
    fail, replies get lost, files cannot be written, other threads queue matches, and the process dies
    between any two actions. */
module Backlog {
  import opened Options

  type Id = nat

  /** The marker file of a queued match. */
  datatype Marker = Marker(statsDone: bool, replayDone: bool)

  type Markers = map<Id, Marker>

  const NEW := Marker(false, false)

  /** What becomes of an action: it happens; it fails; it happens but is reported as failed; or the
      process dies before it. */
  datatype Fate = Works | Fails | LostReply | Dies

  datatype Outcome = Done | Pending | Error | Skipped

  datatype Counts = Counts(sent: nat, pending: nat, errors: nat)

  datatype Act = QueueMatch(id: Id) | FlushAll(wantReplay: bool) | Restart

  /* ----- what happened ----- */

  /** Everything that has an effect, in order: a match is queued; a flush reads its stats from the
      database, central receives them, the marker notes that; or it does not find the match, and drops
      the marker; the replay is received and noted; the marker goes because all that was wanted was
      sent. */
  datatype Entry =
    | Queued(id: Id)
    | Bundled(id: Id)
    | StatsSent(id: Id)
    | StatsNoted(id: Id)
    | ReplaySent(id: Id)
    | ReplayNoted(id: Id)
    | NotFound(id: Id)
    | Dropped(id: Id)
    | Removed(id: Id, withReplay: bool)

  type Log = seq<Entry>

  /** What an entry does to the marker of its match. */
  function Marked(m: Option<Marker>, e: Entry): Option<Marker> {
    match e
    case Queued(_) => if m.Some? then m else Some(NEW)
    case StatsNoted(_) => if m.Some? then Some(m.value.(statsDone := true)) else None
    case ReplayNoted(_) => if m.Some? then Some(m.value.(replayDone := true)) else None
    case Dropped(_) => None
    case Removed(_, _) => None
    case _ => m
  }

  /** The marker of a match after the first n entries. */
  function MarkerAt(log: Log, n: nat, id: Id): Option<Marker>
    requires n <= |log|
  {
    if n == 0 then None
    else
      var m := MarkerAt(log, n - 1, id);
      if log[n - 1].id == id then Marked(m, log[n - 1]) else m
  }

  /** The last thing among the first n entries that a flush did about a match. */
  function LastAt(log: Log, n: nat, id: Id): Option<Entry>
    requires n <= |log|
  {
    if n == 0 then None
    else if log[n - 1].id == id && !log[n - 1].Queued? then Some(log[n - 1])
    else LastAt(log, n - 1, id)
  }

  /** What may happen to a match, given its marker and the last thing done about it. */
  predicate Allowed(e: Entry, m: Option<Marker>, last: Option<Entry>) {
    match e
    case Queued(_) => true
    case Bundled(_) => m.Some? && !m.value.statsDone
    case StatsSent(id) => last == Some(Bundled(id))
    case StatsNoted(id) => m.Some? && last == Some(StatsSent(id))
    case ReplaySent(_) => m.Some? && m.value.statsDone && !m.value.replayDone
    case ReplayNoted(id) => m.Some? && last == Some(ReplaySent(id))
    case NotFound(_) => m.Some? && !m.value.statsDone
    case Dropped(id) => m.Some? && last == Some(NotFound(id))
    case Removed(_, withReplay) => m.Some? && m.value.statsDone && (withReplay ==> m.value.replayDone)
  }

  predicate Legal(log: Log) {
    forall k :: 0 <= k < |log| ==> Allowed(log[k], MarkerAt(log, k, log[k].id), LastAt(log, k, log[k].id))
  }

  function Find(ms: Markers, id: Id): Option<Marker> {
    if id in ms then Some(ms[id]) else None
  }

  /** The log is legal, and the marker files are what it says. */
  ghost predicate Consistent(ms: Markers, log: Log) {
    Legal(log) && forall id :: Find(ms, id) == MarkerAt(log, |log|, id)
  }

  function Changed(ms: Markers, e: Entry): Markers {
    match Marked(Find(ms, e.id), e)
    case None => ms - {e.id}
    case Some(m) => ms[e.id := m]
  }

  lemma {:induction false} AtPrefix(log: Log, more: Log, n: nat, id: Id)
    requires n <= |log| && log <= more
    ensures MarkerAt(more, n, id) == MarkerAt(log, n, id) && LastAt(more, n, id) == LastAt(log, n, id)
  {
    if n > 0 {
      AtPrefix(log, more, n - 1, id);
    }
  }

  lemma {:induction false} LegalMore(log: Log, e: Entry)
    requires Legal(log) && Allowed(e, MarkerAt(log, |log|, e.id), LastAt(log, |log|, e.id))
    ensures Legal(log + [e])
  {
    var more := log + [e];
    forall k | 0 <= k < |more|
      ensures Allowed(more[k], MarkerAt(more, k, more[k].id), LastAt(more, k, more[k].id))
    {
      AtPrefix(log, more, k, more[k].id);
    }
  }

  /** One more entry that is allowed, with its effect on the marker files. */
  lemma {:induction false} OneMore(ms: Markers, log: Log, e: Entry)
    requires Consistent(ms, log) && Allowed(e, Find(ms, e.id), LastAt(log, |log|, e.id))
    ensures Consistent(Changed(ms, e), log + [e])
    ensures LastAt(log + [e], |log| + 1, e.id) == if e.Queued? then LastAt(log, |log|, e.id) else Some(e)
  {
    var more := log + [e];
    assert Find(ms, e.id) == MarkerAt(log, |log|, e.id);
    LegalMore(log, e);
    forall id
      ensures Find(Changed(ms, e), id) == MarkerAt(more, |more|, id)
    {
      AtPrefix(log, more, |log|, id);
      assert Find(ms, id) == MarkerAt(log, |log|, id);
    }
    AtPrefix(log, more, |log|, e.id);
  }

  /* ----- what other threads may do meanwhile ----- */

  /** Only new markers appeared. */
  predicate OnlyArrivals(before: Markers, after: Markers) {
    && (forall id :: id in before ==> id in after && after[id] == before[id])
    && (forall id :: id in after && id !in before ==> after[id] == NEW)
  }

  predicate OnlyArrivalsBut(before: Markers, after: Markers, id: Id) {
    OnlyArrivals(before - {id}, after - {id})
  }

  /** Only queueings were added to the log. */
  predicate OnlyQueued(before: Log, after: Log) {
    before <= after && forall k :: |before| <= k < |after| ==> after[k].Queued?
  }

  /** What a part of a flush may do: it works on one match, removes a marker without a replay only where
      none is wanted, and may be past the stats. */
  datatype Scope = Scope(id: Id, wantReplay: bool, withStats: bool)

  predicate InScope(sc: Scope, e: Entry) {
    && e.id == sc.id && !e.Queued?
    && (e.Removed? ==> e.withReplay == sc.wantReplay)
    && (e.Bundled? || e.StatsSent? || e.StatsNoted? ==> sc.withStats)
  }

  predicate OnlyAbout(before: Log, after: Log, sc: Scope) {
    before <= after && forall k :: |before| <= k < |after| ==> after[k].Queued? || InScope(sc, after[k])
  }

  lemma {:induction false} ArrivalsKeep(before: Markers, after: Markers, id: Id)
    requires OnlyArrivals(before, after) && id in before
    ensures id in after && after[id] == before[id] && OnlyArrivalsBut(before, after, id)
  {
  }

  lemma {:induction false} ButTransitive(a: Markers, b: Markers, c: Markers, id: Id)
    requires OnlyArrivalsBut(a, b, id) && OnlyArrivalsBut(b, c, id)
    ensures OnlyArrivalsBut(a, c, id)
  {
  }

  lemma {:induction false} QueuedKeepsLast(before: Log, after: Log, id: Id)
    requires OnlyQueued(before, after)
    ensures LastAt(after, |after|, id) == LastAt(before, |before|, id)
    decreases |after|
  {
    if |before| < |after| {
      QueuedKeepsLast(before, after[..|after| - 1], id);
      AtPrefix(after[..|after| - 1], after, |after| - 1, id);
    } else {
      assert before == after;
    }
  }

  /* ----- a flush when everything works ----- */

  /** The match cannot be found, though nothing of it was sent yet. */
  predicate Unknown(m: Marker, id: Id, db: set<Id>) {
    !m.statsDone && id !in db
  }

  predicate Waits(m: Marker, id: Id, wantReplay: bool, db: set<Id>, closed: set<Id>) {
    !Unknown(m, id, db) && wantReplay && !m.replayDone && id !in closed
  }

  function CalmOutcome(m: Marker, id: Id, wantReplay: bool, db: set<Id>, closed: set<Id>): Outcome {
    if Unknown(m, id, db) then Skipped else if Waits(m, id, wantReplay, db, closed) then Pending else Done
  }

  function CalmStats(m: Marker, id: Id): Log {
    if m.statsDone then [] else [Bundled(id), StatsSent(id), StatsNoted(id)]
  }

  function CalmReplay(m: Marker, id: Id, wantReplay: bool): Log {
    if wantReplay && !m.replayDone then [ReplaySent(id), ReplayNoted(id)] else []
  }

  /** What the flush of one match does, and in which order. */
  function CalmLog(m: Marker, id: Id, wantReplay: bool, db: set<Id>, closed: set<Id>): Log {
    if Unknown(m, id, db) then [NotFound(id), Dropped(id)]
    else if Waits(m, id, wantReplay, db, closed) then CalmStats(m, id)
    else CalmStats(m, id) + CalmReplay(m, id, wantReplay) + [Removed(id, wantReplay)]
  }

  /** The markers when those in `handled` were handled: only the waiting ones are left of these. */
  function CalmMarkers(ms: Markers, handled: set<Id>, wantReplay: bool, db: set<Id>, closed: set<Id>): Markers {
    map id | id in ms && (id in handled ==> Waits(ms[id], id, wantReplay, db, closed)) ::
      if id in handled then Marker(true, false) else ms[id]
  }

  predicate IsLeast(s: set<Id>, id: Id) {
    id in s && forall j :: j in s ==> id <= j
  }

  lemma {:induction false} HasLeast(s: set<Id>)
    requires s != {}
    ensures exists id :: IsLeast(s, id)
    decreases s
  {
    var x :| x in s;
    var rest := s - {x};
    if rest != {} {
      HasLeast(rest);
      var y :| IsLeast(rest, y);
      assert forall j :: j in s ==> j == x || j in rest;
      assert IsLeast(s, if x <= y then x else y);
    } else {
      assert s == {x};
      assert IsLeast(s, x);
    }
  }

  /** Marker files are handled in the order of their names. */
  method Least(s: set<Id>) returns (least: Id)
    requires s != {}
    ensures IsLeast(s, least)
  {
    HasLeast(s);
    least :| IsLeast(s, least);
  }

  /** What the flush of all these matches does, in the order of their markers. */
  ghost function CalmLogs(ms: Markers, todo: set<Id>, wantReplay: bool, db: set<Id>, closed: set<Id>): Log
    requires todo <= ms.Keys
    decreases todo
  {
    if todo == {} then []
    else
      HasLeast(todo);
      var id :| IsLeast(todo, id);
      CalmLog(ms[id], id, wantReplay, db, closed) + CalmLogs(ms, todo - {id}, wantReplay, db, closed)
  }

  lemma {:induction false} NextCalmLog(ms: Markers, todo: set<Id>, id: Id, wantReplay: bool, db: set<Id>,
          closed: set<Id>)
    requires todo <= ms.Keys && IsLeast(todo, id)
    ensures CalmLogs(ms, todo, wantReplay, db, closed)
              == CalmLog(ms[id], id, wantReplay, db, closed) + CalmLogs(ms, todo - {id}, wantReplay, db, closed)
  {
    hide CalmLog;
  }

  /* ----- the agent ----- */

  class Agent {
    const fate: nat -> Fate
    /** The matches that other threads queue before an action. */
    const arrivals: nat -> seq<Id>
    /** Which matches the database knows, and which recordings are closed, at the time of an action. */
    const inDb: (nat, Id) -> bool
    const hasReplay: (nat, Id) -> bool

    var t: nat
    var alive: bool
    var markers: Markers
    ghost var log: Log

    ghost predicate Safe()
      reads this
    {
      && Consistent(markers, log)
      && forall id :: NotFound(id) in log ==> WasAbsent(id)
    }

    /** At some action so far the match was not in the database. */
    ghost predicate WasAbsent(id: Id)
      reads this
    {
      exists k: nat :: k < t && !inDb(k, id)
    }

    /** From one action to another everything works, nobody else queues a match, and what is known does
        not change. */
    ghost predicate Calm(db: set<Id>, closed: set<Id>, from: nat, until: nat) {
      && (forall k :: from <= k < until ==> fate(k) == Works && arrivals(k) == [])
      && (forall k, id :: from <= k < until ==> inDb(k, id) == (id in db) && hasReplay(k, id) == (id in closed))
    }

    lemma {:induction false} CalmNow(db: set<Id>, closed: set<Id>, from: nat, until: nat)
      requires from < until
      ensures Calm(db, closed, from, until) ==> fate(from) == Works && arrivals(from) == []
    {
    }

    lemma {:induction false} CalmFirst(db: set<Id>, closed: set<Id>, from: nat, mid: nat, until: nat)
      requires from < mid <= until
      ensures Calm(db, closed, from, until) ==>
                && Calm(db, closed, from, mid) && Calm(db, closed, mid, until)
                && fate(from) == Works && arrivals(from) == []
    {
    }

    /** The recording of the match is not closed yet. */
    ghost predicate StillOpen(id: Id, from: nat, until: nat) {
      forall k :: from <= k < until ==> !hasReplay(k, id)
    }

    lemma {:induction false} CalmWithin(db: set<Id>, closed: set<Id>, from: nat, mid: nat, until: nat)
      requires from <= mid <= until
      ensures Calm(db, closed, from, until) == (Calm(db, closed, from, mid) && Calm(db, closed, mid, until))
    {
    }

    constructor (fate: nat -> Fate, arrivals: nat -> seq<Id>, inDb: (nat, Id) -> bool, hasReplay: (nat, Id) -> bool)
      ensures Safe() && alive && t == 0 && markers == map[] && log == []
      ensures this.fate == fate && this.arrivals == arrivals && this.inDb == inDb && this.hasReplay == hasReplay
    {
      this.fate, this.arrivals, this.inDb, this.hasReplay := fate, arrivals, inDb, hasReplay;
      t, alive, markers, log := 0, true, map[], [];
    }

    /** A marker for the match, unless there is one. */
    method PutMarker(id: Id)
      requires Safe()
      modifies this`markers, this`log
      ensures Safe() && log == old(log) + [Queued(id)] && markers == Changed(old(markers), Queued(id))
    {
      hide Consistent, Allowed;
      AlwaysAllowed(id, Find(markers, id), LastAt(log, |log|, id));
      OneMore(markers, log, Queued(id));
      if id !in markers {
        markers := markers[id := NEW];
      }
      assert markers == Changed(old(markers), Queued(id));
      log := log + [Queued(id)];
    }

    /** The moment before an action: other threads queue matches, and the process may die. */
    method Next() returns (f: Fate)
      requires Safe() && alive
      modifies this`t, this`alive, this`markers, this`log
      ensures Safe() && OnlyArrivals(old(markers), markers) && OnlyQueued(old(log), log)
      ensures f == fate(old(t)) && t == old(t) + 1 && alive == (f != Dies)
      ensures arrivals(old(t)) == [] ==> markers == old(markers) && log == old(log)
    {
      hide Consistent;
      var queued := arrivals(t);
      for i := 0 to |queued|
        invariant Safe() && OnlyArrivals(old(markers), markers) && OnlyQueued(old(log), log)
        invariant queued == [] ==> markers == old(markers) && log == old(log)
        invariant t == old(t)
      {
        PutMarker(queued[i]);
      }
      f := fate(t);
      alive := f != Dies;
      t := t + 1;
    }

    /** Drops a marker for a finished match, unless there is one. */
    method Enqueue(id: Id) returns (ok: bool)
      requires Safe() && alive
      modifies this
      ensures Safe() && OnlyArrivals(old(markers), markers) && OnlyQueued(old(log), log)
      ensures t == old(t) + 1
      ensures ok ==> id in markers && |log| > |old(log)| && log[|log| - 1] == Queued(id)
      ensures fate(old(t)) == Works && arrivals(old(t)) == [] ==>
                ok && alive && log == old(log) + [Queued(id)] && markers == Changed(old(markers), Queued(id))
    {
      hide Consistent;
      var f := Next();
      ok := f == Works || (f != Dies && id in markers);
      if ok || f == LostReply {
        PutMarker(id);
      }
    }

    /** An action about a match: the others go on, and then it happens or not. */
    method Try(e: Entry, ghost sc: Scope) returns (ok: bool)
      requires Safe() && alive && e.id in markers && InScope(sc, e)
      requires Allowed(e, Find(markers, e.id), LastAt(log, |log|, e.id))
      requires !e.NotFound?
      modifies this
      ensures Safe() && OnlyArrivalsBut(old(markers), markers, e.id) && OnlyAbout(old(log), log, sc)
      ensures t == old(t) + 1
      ensures Find(markers, e.id) in {Find(old(markers), e.id), Marked(Find(old(markers), e.id), e)}
      ensures ok ==> alive && Find(markers, e.id) == Marked(Find(old(markers), e.id), e)
      ensures ok ==> LastAt(log, |log|, e.id) == Some(e)
      ensures fate(old(t)) == Works && arrivals(old(t)) == [] ==>
                ok && log == old(log) + [e] && markers == Changed(old(markers), e)
    {
      hide Consistent, Allowed, LastAt, OnlyArrivals, OnlyArrivalsBut;
      ghost var ms, before := markers, log;
      var f := Next();
      ArrivalsKeep(ms, markers, e.id);
      QueuedKeepsLast(before, log, e.id);
      ok := f == Works;
      if f == Works || f == LostReply {
        OneMore(markers, log, e);
        ChangedElsewhere(ms, markers, e);
        markers := match Marked(Find(markers, e.id), e)
          case None => markers - {e.id}
          case Some(m) => markers[e.id := m];
        log := log + [e];
      }
    }

    /** Reads the stats of a match from the database, if it is there. */
    method Bundle(id: Id, ghost sc: Scope) returns (f: Fate, found: bool)
      requires Safe() && alive && id in markers && !markers[id].statsDone && sc.id == id && sc.withStats
      modifies this
      ensures Safe() && OnlyArrivalsBut(old(markers), markers, id) && OnlyAbout(old(log), log, sc)
      ensures id in markers && markers[id] == old(markers)[id] && t == old(t) + 1
      ensures f == Works ==>
                && alive && found == inDb(old(t), id)
                && LastAt(log, |log|, id) == Some(if found then Bundled(id) else NotFound(id))
      ensures fate(old(t)) == Works && arrivals(old(t)) == [] ==>
                && f == Works && markers == old(markers)
                && log == old(log) + [if found then Bundled(id) else NotFound(id)]
    {
      hide Consistent, LastAt, OnlyArrivals, OnlyArrivalsBut;
      ghost var ms := markers;
      f := Next();
      ArrivalsKeep(ms, markers, id);
      found := inDb(t - 1, id);
      if f == Works {
        ghost var e := if found then Bundled(id) else NotFound(id);
        OneMore(markers, log, e);
        log := log + [e];
        assert markers[id := markers[id]] == markers;
      }
    }

    /** Sends the stats and notes that; `next` is the marker then, or None where the flush of this match
        ends here. */
    method StatsStep(id: Id, m: Marker, ghost sc: Scope, ghost db: set<Id>, ghost closed: set<Id>)
      returns (next: Option<Marker>, r: Outcome)
      requires Safe() && alive && Find(markers, id) == Some(m) && !m.statsDone && sc.id == id && sc.withStats
      modifies this
      ensures Safe() && OnlyArrivalsBut(old(markers), markers, id) && OnlyAbout(old(log), log, sc)
      ensures next.Some? ==> alive && Find(markers, id) == next == Some(m.(statsDone := true))
      ensures next.None? ==> r == Skipped || r == Error
      ensures old(t) < t <= old(t) + 3 && (next.Some? ==> t == old(t) + 3)
      ensures Calm(db, closed, old(t), t) ==>
                && alive && (next.Some? <==> id in db) && (next.None? ==> r == Skipped)
                && log == old(log) + (if id in db then CalmStats(m, id) else [NotFound(id), Dropped(id)])
                && markers == if id in db then old(markers)[id := m.(statsDone := true)] else old(markers) - {id}
    {
      hide Safe, LastAt, OnlyArrivals, OnlyArrivalsBut, OnlyAbout, WasAbsent;
      ghost var ms0, log0 := markers, log;
      next, r := None, Error;
      var f, found := Bundle(id, sc);
      if f != Works {
        return;
      }
      ghost var ms1, log1 := markers, log;
      if !found {
        var ok := Try(Dropped(id), sc);
        Both(ms0, ms1, markers, log0, log1, log, sc);
        r := if ok then Skipped else Error;
        return;
      }
      var ok := Try(StatsSent(id), sc);
      Both(ms0, ms1, markers, log0, log1, log, sc);
      if !ok {
        return;
      }
      ghost var ms2, log2 := markers, log;
      ok := Try(StatsNoted(id), sc);
      Both(ms0, ms2, markers, log0, log2, log, sc);
      if ok {
        next := Some(m.(statsDone := true));
      }
    }

    /** The same for the replay. */
    method ReplayStep(id: Id, m: Marker, ghost sc: Scope, ghost db: set<Id>, ghost closed: set<Id>)
      returns (next: Option<Marker>, r: Outcome)
      requires Safe() && alive && Find(markers, id) == Some(m) && m.statsDone && !m.replayDone && sc.id == id
      modifies this
      ensures Safe() && OnlyArrivalsBut(old(markers), markers, id) && OnlyAbout(old(log), log, sc)
      ensures next.Some? ==> alive && Find(markers, id) == next == Some(Marker(true, true))
      ensures next.None? ==> r == Error || (r == Pending && Find(markers, id) == Some(m) && t == old(t) + 1)
      ensures t > old(t) && (!hasReplay(old(t), id) ==> next.None? && t == old(t) + 1)
      ensures Calm(db, closed, old(t), t) ==>
                && alive && (next.Some? <==> id in closed) && (next.None? ==> r == Pending)
                && log == old(log) + (if id in closed then CalmReplay(m, id, true) else [])
                && markers == if id in closed then old(markers)[id := Marker(true, true)] else old(markers)
    {
      hide Safe, LastAt, OnlyArrivals, OnlyArrivalsBut, OnlyAbout, WasAbsent;
      ghost var ms0, log0 := markers, log;
      next, r := None, Error;
      var f := Next();
      ArrivalsKeep(ms0, markers, id);
      QueuedIsAbout(log0, log, sc);
      if f != Works {
        return;
      }
      if !hasReplay(t - 1, id) {
        r := Pending;
        return;
      }
      ghost var ms1, log1 := markers, log;
      var ok := Try(ReplaySent(id), sc);
      Both(ms0, ms1, markers, log0, log1, log, sc);
      if !ok {
        return;
      }
      ghost var ms2, log2 := markers, log;
      ok := Try(ReplayNoted(id), sc);
      Both(ms0, ms2, markers, log0, log2, log, sc);
      if ok {
        next := Some(m.(replayDone := true));
      }
    }

    /** With the stats sent: the replay, if one is wanted, and then the marker goes. */
    method FinishOne(id: Id, m: Marker, wantReplay: bool, ghost sc: Scope, ghost db: set<Id>, ghost closed: set<Id>)
      returns (r: Outcome)
      requires Safe() && alive && Find(markers, id) == Some(m) && m.statsDone
      requires sc.id == id && sc.wantReplay == wantReplay
      modifies this
      ensures Safe() && OnlyArrivalsBut(old(markers), markers, id) && OnlyAbout(old(log), log, sc)
      ensures r == Pending ==> wantReplay && Find(markers, id) == Some(m) && t == old(t) + 1
      ensures t > old(t) && (wantReplay && !m.replayDone && !hasReplay(old(t), id) ==> t == old(t) + 1)
      ensures Calm(db, closed, old(t), t) ==>
                && alive && r == (if wantReplay && !m.replayDone && id !in closed then Pending else Done)
                && log == old(log)
                          + (if r == Pending then [] else CalmReplay(m, id, wantReplay) + [Removed(id, wantReplay)])
                && markers == if r == Pending then old(markers) else old(markers) - {id}
    {
      hide Safe, LastAt, OnlyArrivals, OnlyArrivalsBut, OnlyAbout, WasAbsent;
      ghost var ms0, log0 := markers, log;
      var now := m;
      if wantReplay && !m.replayDone {
        var next, end := ReplayStep(id, m, sc, db, closed);
        if next.None? {
          return end;
        }
        now := next.value;
      } else {
        NothingYet(markers, log, sc);
      }
      ghost var ms1, log1 := markers, log;
      var ok := Try(Removed(id, wantReplay), sc);
      Both(ms0, ms1, markers, log0, log1, log, sc);
      r := if ok then Done else Error;
    }

    /** Sends what is missing of one match, stats before the replay, and notes each success in the
        marker before the next step. */
    method FlushOne(id: Id, wantReplay: bool, ghost db: set<Id>, ghost closed: set<Id>) returns (r: Outcome)
      requires Safe() && alive && id in markers
      modifies this
      ensures Safe() && OnlyArrivalsBut(old(markers), markers, id)
      ensures OnlyAbout(old(log), log, Scope(id, wantReplay, !old(markers)[id].statsDone))
      ensures r == Pending ==> wantReplay && id in markers && markers[id].statsDone
      ensures t > old(t) && (r == Pending && !old(markers)[id].statsDone ==> t == old(t) + 5)
      ensures wantReplay && !old(markers)[id].replayDone && StillOpen(id, old(t), old(t) + 5) ==> t <= old(t) + 5
      ensures Calm(db, closed, old(t), t) ==>
                var m := old(markers)[id];
                && alive && r == CalmOutcome(m, id, wantReplay, db, closed)
                && log == old(log) + CalmLog(m, id, wantReplay, db, closed)
                && markers == if r == Pending then old(markers)[id := Marker(true, false)] else old(markers) - {id}
    {
      hide Safe, LastAt, OnlyArrivals, OnlyArrivalsBut, OnlyAbout, Calm, CalmLog, CalmOutcome;
      ghost var ms0, log0, t0 := markers, log, t;
      var f := Next();
      ArrivalsKeep(ms0, markers, id);
      var m := markers[id];
      ghost var sc := Scope(id, wantReplay, !m.statsDone);
      QueuedIsAbout(log0, log, sc);
      if f != Works {
        CalmNow(db, closed, t0, t);
        return if f == Dies then Error else Skipped;
      }
      ghost var ms1, log1 := markers, log;
      r := FlushMarked(id, m, wantReplay, sc, db, closed);
      Both(ms0, ms1, markers, log0, log1, log, sc);
      CalmFirst(db, closed, t0, t0 + 1, t);
    }

    /** The same once the marker was read. */
    method FlushMarked(id: Id, m: Marker, wantReplay: bool, ghost sc: Scope, ghost db: set<Id>, ghost closed: set<Id>)
      returns (r: Outcome)
      requires Safe() && alive && Find(markers, id) == Some(m) && sc == Scope(id, wantReplay, !m.statsDone)
      modifies this
      ensures Safe() && OnlyArrivalsBut(old(markers), markers, id) && OnlyAbout(old(log), log, sc)
      ensures r == Pending ==> wantReplay && id in markers && markers[id].statsDone
      ensures t > old(t) && (r == Pending && !m.statsDone ==> t == old(t) + 4)
      ensures wantReplay && !m.replayDone && StillOpen(id, old(t), old(t) + 4) ==> t <= old(t) + 4
      ensures Calm(db, closed, old(t), t) ==>
                && alive && r == CalmOutcome(m, id, wantReplay, db, closed)
                && log == old(log) + CalmLog(m, id, wantReplay, db, closed)
                && markers == if r == Pending then old(markers)[id := Marker(true, false)] else old(markers) - {id}
    {
      hide Safe, LastAt, OnlyArrivals, OnlyArrivalsBut, OnlyAbout, Calm;
      ghost var ms0, log0, t0 := markers, log, t;
      var now := m;
      if m.statsDone {
        NothingYet(markers, log, sc);
      } else {
        var next, end := StatsStep(id, m, sc, db, closed);
        if next.None? {
          return end;
        }
        now := next.value;
      }
      ghost var ms1, log1, t1 := markers, log, t;
      r := FinishOne(id, now, wantReplay, sc, db, closed);
      Both(ms0, ms1, markers, log0, log1, log, sc);
      CalmWithin(db, closed, t0, t1, t);
    }

    /** Handles every queued match, in the order of the markers. */
    method FlushBacklog(wantReplay: bool, ghost db: set<Id>, ghost closed: set<Id>) returns (c: Counts)
      requires Safe() && alive
      modifies this
      ensures Safe() && old(log) <= log && PlainOnlyIf(!wantReplay, old(log), log) && t >= old(t)
      ensures Calm(db, closed, old(t), t) ==>
                var ms := old(markers);
                && alive
                && log == old(log) + CalmLogs(ms, ms.Keys, wantReplay, db, closed)
                && markers == CalmMarkers(ms, ms.Keys, wantReplay, db, closed)
                && c.errors == 0 && c.pending == |markers| && c.sent == |Sent(ms, ms.Keys, wantReplay, db, closed)|
    {
      hide Safe, Waits, Unknown, CalmLog, CalmLogs, CalmOutcome, CalmMarkers, CalmSoFar, Waiting;
      hide OnlyArrivals, OnlyArrivalsBut, OnlyAbout, InScope, Calm, PlainOnlyIf;
      c := Counts(0, 0, 0);
      ghost var ms, log0, t0, handled := markers, log, t, {};
      var todo := markers.Keys;
      NothingHandled(ms, log, wantReplay, db, closed);
      NothingRemoved(!wantReplay, log);
      while todo != {}
        invariant Safe() && alive && log0 <= log && PlainOnlyIf(!wantReplay, log0, log)
        invariant todo <= markers.Keys && todo !! handled && todo + handled == ms.Keys
        invariant t0 <= t
        invariant Calm(db, closed, t0, t) ==> CalmSoFar(ms, log0, handled, wantReplay, db, closed, markers, log, c)
        decreases todo
      {
        var id := Least(todo);
        ghost var ms1, log1, t1, left := markers, log, t, todo;
        todo := todo - {id};
        CalmMeans(ms, log0, handled, wantReplay, db, closed, markers, log, c, id);
        var r := FlushOne(id, wantReplay, db, closed);
        OthersStay(ms1, markers, id, todo);
        StillPlainOnlyIf(log0, log1, log, Scope(id, wantReplay, !ms1[id].statsDone));
        CalmWithin(db, closed, t0, t1, t);
        if Calm(db, closed, t0, t) {
          CalmStep(ms, log0, handled, left, id, wantReplay, db, closed, ms1, log1, markers, log, c, r);
        }
        c := Count(c, r);
        handled := handled + {id};
        if !alive {
          return;
        }
      }
      if Calm(db, closed, t0, t) {
        AllHandled(ms, log0, handled, wantReplay, db, closed, markers, log, c);
        LeftAreWaiting(ms, handled, wantReplay, db, closed);
      }
    }

    method Revive()
      requires Safe()
      modifies this`alive
      ensures Safe() && alive
    {
      alive := true;
    }
  }

  /** A marker goes without its replay only where none is wanted. */
  predicate PlainOnlyIf(plain: bool, before: Log, after: Log) {
    forall k :: |before| <= k < |after| && after[k].Removed? && !after[k].withReplay ==> plain
  }

  lemma {:induction false} NothingRemoved(plain: bool, log: Log)
    ensures PlainOnlyIf(plain, log, log)
  {
  }

  lemma {:induction false} StillPlainOnlyIf(log0: Log, log1: Log, log2: Log, sc: Scope)
    requires log0 <= log1 && PlainOnlyIf(!sc.wantReplay, log0, log1) && OnlyAbout(log1, log2, sc)
    ensures log0 <= log2 && PlainOnlyIf(!sc.wantReplay, log0, log2)
  {
  }

  lemma {:induction false} QueuedIsAbout(before: Log, after: Log, sc: Scope)
    requires OnlyQueued(before, after)
    ensures OnlyAbout(before, after, sc)
  {
  }

  function Count(c: Counts, r: Outcome): Counts {
    match r
    case Done => c.(sent := c.sent + 1)
    case Pending => c.(pending := c.pending + 1)
    case Error => c.(errors := c.errors + 1)
    case Skipped => c
  }

  ghost function Waiting(ms: Markers, handled: set<Id>, wantReplay: bool, db: set<Id>, closed: set<Id>): set<Id> {
    set id | id in ms && id in handled && Waits(ms[id], id, wantReplay, db, closed)
  }

  /** The matches that can be found, or were sent in part, and wait for nothing. */
  ghost function Sent(ms: Markers, handled: set<Id>, wantReplay: bool, db: set<Id>, closed: set<Id>): set<Id> {
    set id | id in ms && id in handled && (ms[id].statsDone || id in db)
             && !(wantReplay && !ms[id].replayDone && id !in closed)
  }

  lemma {:induction false} HandleSent(ms: Markers, handled: set<Id>, id: Id, wantReplay: bool, db: set<Id>,
          closed: set<Id>)
    requires id in ms && id !in handled
    ensures |Sent(ms, handled + {id}, wantReplay, db, closed)|
              == |Sent(ms, handled, wantReplay, db, closed)|
                 + (if CalmOutcome(ms[id], id, wantReplay, db, closed) == Done then 1 else 0)
  {
    var sent := Sent(ms, handled, wantReplay, db, closed);
    if CalmOutcome(ms[id], id, wantReplay, db, closed) == Done {
      assert Sent(ms, handled + {id}, wantReplay, db, closed) == sent + {id};
    } else {
      assert Sent(ms, handled + {id}, wantReplay, db, closed) == sent;
    }
  }

  /** In calm, with these markers handled: the log so far and what is still to come is that of all. */
  ghost predicate CalmSoFar(ms: Markers, log0: Log, handled: set<Id>, wantReplay: bool, db: set<Id>, closed: set<Id>,
                            now: Markers, log: Log, c: Counts) {
    && handled <= ms.Keys
    && now == CalmMarkers(ms, handled, wantReplay, db, closed)
    && log + CalmLogs(ms, ms.Keys - handled, wantReplay, db, closed)
         == log0 + CalmLogs(ms, ms.Keys, wantReplay, db, closed)
    && c.errors == 0 && c.pending == |Waiting(ms, handled, wantReplay, db, closed)|
    && c.sent == |Sent(ms, handled, wantReplay, db, closed)|
  }

  lemma {:induction false} NothingHandled(ms: Markers, log: Log, wantReplay: bool, db: set<Id>, closed: set<Id>)
    ensures CalmSoFar(ms, log, {}, wantReplay, db, closed, ms, log, Counts(0, 0, 0))
  {
    hide CalmLogs;
    assert CalmMarkers(ms, {}, wantReplay, db, closed) == ms;
    assert Waiting(ms, {}, wantReplay, db, closed) == {} && Sent(ms, {}, wantReplay, db, closed) == {};
    assert ms.Keys - {} == ms.Keys;
  }

  lemma {:induction false} HandleMarker(ms: Markers, handled: set<Id>, id: Id, wantReplay: bool, db: set<Id>,
          closed: set<Id>)
    requires id in ms && id !in handled
    ensures var before := CalmMarkers(ms, handled, wantReplay, db, closed);
            && id in before && before[id] == ms[id]
            && CalmMarkers(ms, handled + {id}, wantReplay, db, closed)
                 == (if Waits(ms[id], id, wantReplay, db, closed) then before[id := Marker(true, false)]
                     else before - {id})
  {
    hide Waits;
  }

  lemma {:induction false} HandleWaiting(ms: Markers, handled: set<Id>, id: Id, wantReplay: bool, db: set<Id>,
          closed: set<Id>)
    requires id in ms && id !in handled
    ensures |Waiting(ms, handled + {id}, wantReplay, db, closed)|
              == |Waiting(ms, handled, wantReplay, db, closed)|
                 + (if Waits(ms[id], id, wantReplay, db, closed) then 1 else 0)
  {
    hide Waits;
    var w := Waiting(ms, handled, wantReplay, db, closed);
    if Waits(ms[id], id, wantReplay, db, closed) {
      assert Waiting(ms, handled + {id}, wantReplay, db, closed) == w + {id};
    } else {
      assert Waiting(ms, handled + {id}, wantReplay, db, closed) == w;
    }
  }

  lemma {:induction false} OutcomeIs(m: Marker, id: Id, wantReplay: bool, db: set<Id>, closed: set<Id>)
    ensures CalmOutcome(m, id, wantReplay, db, closed) != Error
    ensures CalmOutcome(m, id, wantReplay, db, closed) == Pending <==> Waits(m, id, wantReplay, db, closed)
  {
  }

  lemma {:induction false} CalmMeans(ms: Markers, log0: Log, handled: set<Id>, wantReplay: bool, db: set<Id>,
                                      closed: set<Id>, now: Markers, log: Log, c: Counts, id: Id)
    requires id in ms && id !in handled
    ensures CalmSoFar(ms, log0, handled, wantReplay, db, closed, now, log, c) ==> id in now && now[id] == ms[id]
  {
    hide CalmLogs, Waiting;
    HandleMarker(ms, handled, id, wantReplay, db, closed);
  }

  lemma {:induction false} CalmStep(ms: Markers, log0: Log, handled: set<Id>, left: set<Id>, id: Id, wantReplay: bool,
                                    db: set<Id>, closed: set<Id>, now: Markers, log: Log, now': Markers, log': Log,
                                    c: Counts, r: Outcome)
    requires handled + left == ms.Keys && handled !! left && IsLeast(left, id)
    requires CalmSoFar(ms, log0, handled, wantReplay, db, closed, now, log, c)
    requires r == CalmOutcome(ms[id], id, wantReplay, db, closed)
    requires log' == log + CalmLog(ms[id], id, wantReplay, db, closed)
    requires now' == if r == Pending then now[id := Marker(true, false)] else now - {id}
    ensures CalmSoFar(ms, log0, handled + {id}, wantReplay, db, closed, now', log', Count(c, r))
  {
    hide CalmLogs, CalmLog, CalmMarkers, Waiting, Sent, CalmOutcome, Waits;
    HandleMarker(ms, handled, id, wantReplay, db, closed);
    HandleWaiting(ms, handled, id, wantReplay, db, closed);
    HandleSent(ms, handled, id, wantReplay, db, closed);
    OutcomeIs(ms[id], id, wantReplay, db, closed);
    assert ms.Keys - handled == left && ms.Keys - (handled + {id}) == left - {id};
    NextCalmLog(ms, left, id, wantReplay, db, closed);
  }

  /** Nothing is left to come. */
  lemma {:induction false} AllHandled(ms: Markers, log0: Log, handled: set<Id>, wantReplay: bool, db: set<Id>,
                                      closed: set<Id>, now: Markers, log: Log, c: Counts)
    requires handled == ms.Keys && CalmSoFar(ms, log0, handled, wantReplay, db, closed, now, log, c)
    ensures log == log0 + CalmLogs(ms, ms.Keys, wantReplay, db, closed)
    ensures now == CalmMarkers(ms, handled, wantReplay, db, closed)
    ensures c.errors == 0 && c.pending == |Waiting(ms, handled, wantReplay, db, closed)|
    ensures c.sent == |Sent(ms, ms.Keys, wantReplay, db, closed)|
  {
    hide CalmMarkers, Waiting;
    assert ms.Keys - handled == {};
  }

  lemma {:induction false} LeftAreWaiting(ms: Markers, handled: set<Id>, wantReplay: bool, db: set<Id>,
          closed: set<Id>)
    requires handled == ms.Keys
    ensures |CalmMarkers(ms, handled, wantReplay, db, closed)| == |Waiting(ms, handled, wantReplay, db, closed)|
  {
    hide Waits;
    var left := CalmMarkers(ms, handled, wantReplay, db, closed);
    assert left.Keys == Waiting(ms, handled, wantReplay, db, closed);
  }

  lemma {:induction false} OthersStay(before: Markers, after: Markers, id: Id, todo: set<Id>)
    requires OnlyArrivalsBut(before, after, id) && todo <= before.Keys && id !in todo
    ensures todo <= after.Keys
  {
    forall j | j in todo
      ensures j in after
    {
      assert j in before - {id};
    }
  }

  lemma {:induction false} NothingYet(ms: Markers, log: Log, sc: Scope)
    ensures OnlyArrivalsBut(ms, ms, sc.id) && OnlyAbout(log, log, sc)
  {
  }

  /** Two steps of the flush of one match are one. */
  lemma {:induction false} Both(ms0: Markers, ms1: Markers, ms2: Markers, log0: Log, log1: Log, log2: Log, sc: Scope)
    requires OnlyArrivalsBut(ms0, ms1, sc.id) && OnlyArrivalsBut(ms1, ms2, sc.id)
    requires OnlyAbout(log0, log1, sc) && OnlyAbout(log1, log2, sc)
    ensures OnlyArrivalsBut(ms0, ms2, sc.id) && OnlyAbout(log0, log2, sc)
  {
    ButTransitive(ms0, ms1, ms2, sc.id);
  }

  lemma {:induction false} ChangedElsewhere(before: Markers, ms: Markers, e: Entry)
    requires OnlyArrivalsBut(before, ms, e.id)
    ensures OnlyArrivalsBut(before, Changed(ms, e), e.id) && Find(Changed(ms, e), e.id) == Marked(Find(ms, e.id), e)
  {
    assert Changed(ms, e) - {e.id} == ms - {e.id};
  }

  lemma {:induction false} AlwaysAllowed(id: Id, m: Option<Marker>, last: Option<Entry>)
    ensures Allowed(Queued(id), m, last)
  {
  }
}
