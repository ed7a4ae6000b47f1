/** Whole runs of the push queue: what becomes of each queueing of a match. */
module BacklogRuns {
  import opened Options
  import opened Backlog

  /** Any run of the agent: matches are queued, the backlog is flushed, the process dies and is
      started again. Its log is legal, its markers are what the log says, and no marker goes without
      its replay unless a flush did not want replays. */
  method Live(a: Agent, acts: seq<Act>)
    requires a.Safe() && a.alive
    modifies a
    ensures a.Safe() && old(a.log) <= a.log
    ensures PlainOnlyIf(exists i :: 0 <= i < |acts| && acts[i] == FlushAll(false), old(a.log), a.log)
  {
    hide Consistent;
    ghost var plain := exists i :: 0 <= i < |acts| && acts[i] == FlushAll(false);
    for i := 0 to |acts|
      invariant a.Safe() && old(a.log) <= a.log && PlainOnlyIf(plain, old(a.log), a.log)
    {
      if !a.alive && !acts[i].Restart? {
        continue;
      }
      match acts[i] {
        case QueueMatch(id) => var _ := a.Enqueue(id);
        case FlushAll(wantReplay) => var _ := a.FlushBacklog(wantReplay, {}, {});
        case Restart => a.Revive();
      }
    }
  }

  /* ----- one queueing ----- */

  /** After entry k, and before entry n, the stats were read and then received. */
  predicate Delivered(log: Log, k: nat, n: nat, id: Id)
    requires n <= |log|
  {
    exists i, j :: k < i < j < n && log[i] == Bundled(id) && log[j] == StatsSent(id)
  }

  /** A flush looked for the match, and the database did not have it. */
  predicate AbsentSince(log: Log, k: nat, n: nat, id: Id)
    requires n <= |log|
  {
    exists j :: k < j < n && log[j] == NotFound(id)
  }

  /** A marker whose stats are still to be sent. */
  predicate Owed(log: Log, n: nat, id: Id)
    requires n <= |log|
  {
    var m := MarkerAt(log, n, id);
    m.Some? && !m.value.statsDone
  }

  /** The promise of queueing a match: its stats as of then are still to be sent, or were read and
      received since, or a flush did not find the match. */
  predicate Kept(log: Log, k: nat)
    requires k < |log|
  {
    var id := log[k].id;
    Owed(log, |log|, id) || Delivered(log, k, |log|, id) || AbsentSince(log, k, |log|, id)
  }

  /** The marker is noted as sent, or dropped, at j, though no flush looked for the stats since k. */
  predicate SettledUnread(log: Log, k: nat, j: nat, id: Id) {
    && k < j < |log| && (log[j] == StatsNoted(id) || log[j] == Dropped(id))
    && forall i :: k < i < j ==> log[i] != Bundled(id) && log[i] != NotFound(id)
  }

  /** The queueing found a marker that stood for older stats: they were already sent, or a flush had read
      them, or looked in vain, and settled the marker after. */
  ghost predicate Missed(log: Log, k: nat)
    requires k < |log|
  {
    var m := MarkerAt(log, k, log[k].id);
    m.Some? && (m.value.statsDone || exists j :: SettledUnread(log, k, j, log[k].id))
  }

  lemma {:induction false} LastIs(log: Log, n: nat, id: Id) returns (j: nat)
    requires n <= |log| && LastAt(log, n, id).Some?
    ensures j < n && LastAt(log, n, id) == Some(log[j]) && log[j].id == id
    ensures forall i :: j < i < n && log[i].id == id ==> log[i].Queued?
  {
    if log[n - 1].id == id && !log[n - 1].Queued? {
      j := n - 1;
    } else {
      j := LastIs(log, n - 1, id);
    }
  }

  /** Stats that are noted as sent were read and received, in this order, with nothing else done about
      the match meanwhile. */
  lemma {:induction false} Flight(log: Log, n: nat, id: Id) returns (b: nat, s: nat)
    requires Legal(log) && n < |log| && log[n] == StatsNoted(id)
    ensures b < s < n && log[b] == Bundled(id) && log[s] == StatsSent(id)
    ensures forall i :: b < i < n && i != s && log[i].id == id ==> log[i].Queued?
  {
    assert Allowed(log[n], MarkerAt(log, n, id), LastAt(log, n, id));
    s := LastIs(log, n, id);
    assert Allowed(log[s], MarkerAt(log, s, id), LastAt(log, s, id));
    b := LastIs(log, s, id);
  }

  lemma {:induction false} EntryAllowed(log: Log, n: nat)
    requires Legal(log) && n < |log|
    ensures Allowed(log[n], MarkerAt(log, n, log[n].id), LastAt(log, n, log[n].id))
  {
  }

  /** Entries that leave an existing marker as it is. */
  predicate Neutral(e: Entry) {
    e.Queued? || e.Bundled? || e.NotFound? || e.StatsSent? || e.ReplaySent?
  }

  lemma {:induction false} NeutralKeeps(log: Log, i: nat, n: nat, id: Id)
    requires i <= n <= |log| && MarkerAt(log, i, id).Some?
    requires forall x :: i <= x < n && log[x].id == id ==> Neutral(log[x])
    ensures MarkerAt(log, n, id) == MarkerAt(log, i, id)
    decreases n
  {
    if i < n {
      NeutralKeeps(log, i, n - 1, id);
    }
  }

  /** A queueing while the stats are on their way finds a marker. */
  lemma {:induction false} FoundInFlight(log: Log, k: nat, n: nat, b: nat, s: nat, id: Id)
    requires Legal(log) && b < k < n < |log| && b < s < n
    requires log[b] == Bundled(id) && log[s] == StatsSent(id)
    requires forall i :: b < i < n && i != s && log[i].id == id ==> log[i].Queued?
    ensures Owed(log, k, id)
  {
    EntryAllowed(log, b);
    NeutralKeeps(log, b, k, id);
  }

  /** A queueing that was not missed: the stats stay owed until they are delivered. */
  lemma {:induction false} OwedUntilDelivered(log: Log, k: nat, n: nat)
    requires Legal(log) && k < n <= |log| && log[k].Queued? && !Missed(log, k)
    ensures Owed(log, n, log[k].id) || Delivered(log, k, n, log[k].id) || AbsentSince(log, k, n, log[k].id)
    decreases n
  {
    hide Legal, LastAt;
    var id := log[k].id;
    if n > k + 1 {
      OwedUntilDelivered(log, k, n - 1);
      EntryAllowed(log, n - 1);
      if log[n - 1] == StatsNoted(id) && Owed(log, n - 1, id) {
        var b, s := Flight(log, n - 1, id);
        assert b < k ==> SettledUnread(log, k, n - 1, id);
        if b < k {
          FoundInFlight(log, k, n - 1, b, s, id);
        }
      } else if log[n - 1] == Dropped(id) {
        var b := LastIs(log, n - 1, id);
        assert b < k ==> SettledUnread(log, k, n - 1, id);
        if b < k {
          EntryAllowed(log, b);
          NeutralKeeps(log, b, k, id);
        }
      }
    }
  }

  /** When this queueing and all later ones of the match were missed: no flush looked for it since,
      and a marker that is not settled is about to be. */
  ghost predicate NothingRead(log: Log, k: nat, n: nat, id: Id)
    requires n <= |log|
  {
    && (forall i :: k < i < n ==> log[i] != Bundled(id) && log[i] != NotFound(id))
    && (Owed(log, n, id) ==> exists j :: n <= j && SettledUnread(log, k, j, id))
  }

  lemma {:induction false} MissedReadsNothing(log: Log, k: nat, n: nat)
    requires Legal(log) && k < n <= |log| && log[k].Queued?
    requires forall i :: k <= i < |log| && log[i] == Queued(log[k].id) ==> Missed(log, i)
    ensures NothingRead(log, k, n, log[k].id)
    decreases n
  {
    hide Legal, LastAt;
    var id := log[k].id;
    assert Missed(log, k);
    if n > k + 1 {
      MissedReadsNothing(log, k, n - 1);
      EntryAllowed(log, n - 1);
      if Owed(log, n - 1, id) {
        var j :| n - 1 <= j && SettledUnread(log, k, j, id);
        assert n - 1 < j ==> log[n - 1] != Bundled(id) && log[n - 1] != NotFound(id);
      }
    }
  }

  /** A queueing is kept exactly when it, or a later one of the same match, did not find a marker that
      stood for older stats: sent already, or being sent. */
  lemma {:induction false} KeptUnlessMissed(log: Log, k: nat)
    requires Legal(log) && k < |log| && log[k].Queued?
    ensures Kept(log, k) <==> exists i :: k <= i < |log| && log[i] == log[k] && !Missed(log, i)
  {
    var id := log[k].id;
    if i :| k <= i < |log| && log[i] == log[k] && !Missed(log, i) {
      OwedUntilDelivered(log, i, |log|);
    } else {
      MissedReadsNothing(log, k, |log|);
    }
  }

  /* ----- replays ----- */

  predicate ReplaySince(log: Log, k: nat, n: nat, id: Id)
    requires n <= |log|
  {
    exists j :: k < j < n && log[j] == ReplaySent(id)
  }

  /** What is still to come after a queueing is in the marker. */
  predicate OnItsWay(log: Log, k: nat, n: nat, id: Id)
    requires n <= |log|
  {
    var m := MarkerAt(log, n, id);
    || AbsentSince(log, k, n, id)
    || (Delivered(log, k, n, id) && ReplaySince(log, k, n, id))
    || (m.Some?
        && (m.value.statsDone ==> Delivered(log, k, n, id))
        && (m.value.replayDone ==> ReplaySince(log, k, n, id)))
  }

  lemma {:induction false} StatsBeforeReplay(log: Log, n: nat, id: Id)
    requires Legal(log) && n <= |log|
    ensures MarkerAt(log, n, id).Some? && MarkerAt(log, n, id).value.replayDone ==> MarkerAt(log, n, id).value.statsDone
  {
    hide Legal, LastAt;
    if n > 0 {
      StatsBeforeReplay(log, n - 1, id);
      EntryAllowed(log, n - 1);
      if log[n - 1] == ReplayNoted(id) {
        var j := LastIs(log, n - 1, id);
        EntryAllowed(log, j);
        NeutralKeeps(log, j, n - 1, id);
      }
    }
  }

  /** After a queueing that was not missed, as long as no marker of the match goes without its replay:
      a marker is there, or both the stats and the replay were sent since, or the match was not found. */
  lemma {:induction false} ReplayFollows(log: Log, k: nat, n: nat)
    requires Legal(log) && k < n <= |log| && log[k].Queued? && !Missed(log, k)
    requires forall i :: k < i < n ==> log[i] != Removed(log[k].id, false)
    ensures OnItsWay(log, k, n, log[k].id)
    decreases n
  {
    hide Legal, LastAt;
    var id := log[k].id;
    if n == k + 1 {
      StatsBeforeReplay(log, n, id);
    } else {
      ReplayFollows(log, k, n - 1);
      EntryAllowed(log, n - 1);
      OwedUntilDelivered(log, k, n);
      if log[n - 1] == ReplayNoted(id) {
        var j := LastIs(log, n - 1, id);
        EntryAllowed(log, j);
        if j < k {
          NeutralKeeps(log, j, k, id);
        }
      } else if log[n - 1] == Dropped(id) {
        var b := LastIs(log, n - 1, id);
        assert log[b] == NotFound(id);
      }
    }
  }

  /** A replay is sent only after the stats of the same marker were received. */
  lemma {:induction false} ReplayAfterStats(log: Log, n: nat, id: Id)
    requires Legal(log) && n < |log| && log[n] == ReplaySent(id)
    ensures exists j :: 0 <= j < n && log[j] == StatsSent(id) && SameMarker(log, j, n, id)
  {
    EntryAllowed(log, n);
    DoneMeansReceived(log, n, id);
  }

  predicate SameMarker(log: Log, i: nat, n: nat, id: Id)
    requires n <= |log|
  {
    forall x :: i < x < n ==> log[x] != Dropped(id) && log[x] != Removed(id, false) && log[x] != Removed(id, true)
  }

  /** A done flag means that central received it, after the marker was made. */
  lemma {:induction false} DoneMeansReceived(log: Log, n: nat, id: Id)
    requires Legal(log) && n <= |log|
    ensures var m := MarkerAt(log, n, id);
            && (m.Some? && m.value.statsDone ==>
                  exists j :: 0 <= j < n && log[j] == StatsSent(id) && SameMarker(log, j, n, id))
            && (m.Some? && m.value.replayDone ==>
                  exists j :: 0 <= j < n && log[j] == ReplaySent(id) && SameMarker(log, j, n, id))
  {
    hide Legal, LastAt;
    if n > 0 {
      DoneMeansReceived(log, n - 1, id);
      EntryAllowed(log, n - 1);
      var m := MarkerAt(log, n - 1, id);
      if log[n - 1] == StatsNoted(id) || log[n - 1] == ReplayNoted(id) {
        var j := LastIs(log, n - 1, id);
        assert SameMarker(log, j, n, id);
      }
      if m.Some? && m.value.statsDone && MarkerAt(log, n, id).Some? {
        var j :| 0 <= j < n - 1 && log[j] == StatsSent(id) && SameMarker(log, j, n - 1, id);
        assert SameMarker(log, j, n, id);
      }
      if m.Some? && m.value.replayDone && MarkerAt(log, n, id).Some? {
        var j :| 0 <= j < n - 1 && log[j] == ReplaySent(id) && SameMarker(log, j, n - 1, id);
        assert SameMarker(log, j, n, id);
      }
    }
  }

  /* ----- the run that fails ----- */

  /** One action queues a match, and the five that follow flush it as far as its stats. */
  const CLOSING: nat := 6

  /** Everything works, nobody else queues a match, and the database knows match 1 alone, whose recording
      closes at one action. */
  ghost predicate ClosesAt(a: Agent, since: nat) {
    && (forall k: nat :: a.fate(k) == Works && a.arrivals(k) == [])
    && (forall k: nat, id :: a.inDb(k, id) == (id == 1) && a.hasReplay(k, id) == (k >= since && id == 1))
  }

  lemma {:induction false} CalmUntilClosed(a: Agent, since: nat, from: nat, until: nat)
    requires ClosesAt(a, since)
    ensures until <= since ==> a.Calm({1}, {}, from, until) && a.StillOpen(1, from, until)
    ensures since <= from ==> a.Calm({1}, {1}, from, until)
  {
  }

  /** A match is taken for ended and queued, and a flush sends its stats while its recording is not closed
      yet. */
  method SentTooEarly() returns (a: Agent)
    ensures fresh(a) && a.Safe() && a.alive && ClosesAt(a, CLOSING) && a.t == CLOSING
    ensures a.log == [Queued(1), Bundled(1), StatsSent(1), StatsNoted(1)] && a.markers == map[1 := Marker(true, false)]
  {
    a := new Agent(_ => Works, _ => [], (_, id) => id == 1, (k, id) => k >= CLOSING && id == 1);
    assert ClosesAt(a, CLOSING);
    hide Consistent, ClosesAt, a.Safe;
    CalmUntilClosed(a, CLOSING, 0, 1);
    var _ := a.Enqueue(1);
    CalmUntilClosed(a, CLOSING, 1, CLOSING);
    var _ := a.FlushOne(1, true, {1}, {});
    CalmUntilClosed(a, CLOSING, 1, a.t);
  }

  /** Its real end closes the recording and queues it again, which finds the marker; the next flush sends
      the replay. Its final stats are never sent, even though nothing fails. */
  method SupersededThenEnded() returns (a: Agent)
    ensures a.Safe() && a.markers == map[]
    ensures a.log == [Queued(1), Bundled(1), StatsSent(1), StatsNoted(1),
                      Queued(1), ReplaySent(1), ReplayNoted(1), Removed(1, true)]
    ensures !Kept(a.log, 4)
  {
    a := SentTooEarly();
    hide Consistent, ClosesAt, a.Safe, Kept;
    CalmUntilClosed(a, CLOSING, a.t, a.t + 1);
    var _ := a.Enqueue(1);
    ghost var t := a.t;
    var _ := a.FlushOne(1, true, {1}, {1});
    CalmUntilClosed(a, CLOSING, t, a.t);
    NeverKept(a.log);
  }

  lemma {:induction false} NeverKept(log: Log)
    requires log == [Queued(1), Bundled(1), StatsSent(1), StatsNoted(1),
                     Queued(1), ReplaySent(1), ReplayNoted(1), Removed(1, true)]
    ensures !Kept(log, 4)
  {
    assert MarkerAt(log, 8, 1).None?;
  }
}
