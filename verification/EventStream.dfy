/** The gateway's WebSocket hub: successive snapshots of the terminals, turned into online and offline events. */
module EventStream {
  import opened Options

  type SessionId = nat

  /** A row of a ListTerminals answer. */
  datatype Row = Row(sid: SessionId, online: bool)

  /** A poll's answer, or nothing when it failed. */
  type Response = Option<seq<Row>>

  datatype Event = Event(sid: SessionId, online: bool)

  type Snapshot = map<SessionId, bool>

  function SnapshotOf(rows: seq<Row>): Snapshot {
    if rows == [] then map[]
    else SnapshotOf(rows[..|rows| - 1])[rows[|rows| - 1].sid := rows[|rows| - 1].online]
  }

  /** What a snapshot says about one session. */
  function In(snapshot: Snapshot, sid: SessionId): Option<bool> {
    if sid in snapshot then Some(snapshot[sid]) else None
  }

  /** The event for a session between two successive snapshots, if any. */
  function Change(before: Option<bool>, now: Option<bool>): seq<bool> {
    if before.Some? && now.Some? && before != now then [now.value] else []
  }

  /** One session's events. */
  function EventsOf(events: seq<Event>, sid: SessionId): seq<bool> {
    if events == [] then []
    else
      var init, last := events[..|events| - 1], events[|events| - 1];
      if last.sid == sid then EventsOf(init, sid) + [last.online] else EventsOf(init, sid)
  }

  lemma {:induction false} EventsOfAppend(xs: seq<Event>, ys: seq<Event>, sid: SessionId)
    ensures EventsOf(xs + ys, sid) == EventsOf(xs, sid) + EventsOf(ys, sid)
  {
    if ys == [] {
      assert xs + ys == xs;
    } else {
      assert (xs + ys)[..|xs + ys| - 1] == xs + ys[..|ys| - 1];
      EventsOfAppend(xs, ys[..|ys| - 1], sid);
    }
  }

  lemma {:induction false} EventsOfNext(events: seq<Event>, event: Event)
    ensures EventsOf(events + [event], event.sid) == EventsOf(events, event.sid) + [event.online]
    ensures forall sid :: sid != event.sid ==> EventsOf(events + [event], sid) == EventsOf(events, sid)
  {
    assert (events + [event])[..|events|] == events;
  }

  // ---- One session's history -----------------------------------------------------------

  /** What each successful poll said about a session. */
  function Observed(responses: seq<Response>, sid: SessionId): seq<Option<bool>> {
    if responses == [] then []
    else
      var init, last := responses[..|responses| - 1], responses[|responses| - 1];
      if last.Some? then Observed(init, sid) + [In(SnapshotOf(last.value), sid)] else Observed(init, sid)
  }

  function LatestOf(obs: seq<Option<bool>>): Option<bool> {
    if obs == [] then None else obs[|obs| - 1]
  }

  function Events(obs: seq<Option<bool>>): seq<bool> {
    if obs == [] then []
    else
      var init := obs[..|obs| - 1];
      Events(init) + Change(LatestOf(init), obs[|obs| - 1])
  }

  class Hub {
    var last: Snapshot
    /** Everything broadcast so far. */
    var log: seq<Event>

    constructor ()
      ensures last == map[] && log == []
    {
      last, log := map[], [];
    }

    /** The loop over the answer, the comparison in any order, and the broadcast. */
    method Poll(response: Response, broadcast: bool)
      modifies this
      ensures last == if response.Some? then SnapshotOf(response.value) else old(last)
      ensures response.None? || !broadcast ==> log == old(log)
      ensures response.Some? && broadcast ==> forall sid ::
        EventsOf(log, sid) == EventsOf(old(log), sid) + Change(In(old(last), sid), In(last, sid))
    {
      if response.None? {
        return;
      }
      var current := BuildSnapshot(response.value);
      if !broadcast {
        last := current;
        return;
      }
      var events := Compare(current);
      var before := last;
      last := current;
      forall sid ensures EventsOf(log + events, sid) == EventsOf(log, sid) + Change(In(before, sid), In(current, sid)) {
        EventsOfAppend(log, events, sid);
      }
      log := log + events;
    }

    method BuildSnapshot(rows: seq<Row>) returns (current: Snapshot)
      ensures current == SnapshotOf(rows)
    {
      current := map[];
      for i := 0 to |rows|
        invariant current == SnapshotOf(rows[..i])
      {
        assert rows[..i + 1][..i] == rows[..i];
        current := current[rows[i].sid := rows[i].online];
      }
      assert rows[..|rows|] == rows;
    }

    method Compare(current: Snapshot) returns (events: seq<Event>)
      ensures forall sid :: EventsOf(events, sid) == Change(In(last, sid), In(current, sid))
    {
      events := [];
      var todo := current.Keys;
      while todo != {}
        invariant todo <= current.Keys
        invariant forall sid ::
          EventsOf(events, sid) == if sid in current && sid !in todo then Change(In(last, sid), In(current, sid)) else []
        decreases |todo|
      {
        var id :| id in todo;
        if id in last && last[id] != current[id] {
          EventsOfNext(events, Event(id, current[id]));
          events := events + [Event(id, current[id])];
        }
        todo := todo - {id};
      }
    }

    /** pollLoop: the first poll only seeds the baseline. */
    method PollLoop(responses: seq<Response>)
      requires last == map[] && log == [] && |responses| > 0
      modifies this
      ensures forall sid :: EventsOf(log, sid) == Events(Observed(responses, sid))
      ensures forall sid :: In(last, sid) == LatestOf(Observed(responses, sid))
    {
      Poll(responses[0], false);
      SeedIsSilent(responses[0], last);
      assert responses[..1] == [responses[0]];
      for i := 1 to |responses|
        invariant forall sid :: EventsOf(log, sid) == Events(Observed(responses[..i], sid))
        invariant forall sid :: In(last, sid) == LatestOf(Observed(responses[..i], sid))
      {
        ghost var before, was := last, log;
        Poll(responses[i], true);
        forall sid
          ensures EventsOf(log, sid) == Events(Observed(responses[..i + 1], sid))
          ensures In(last, sid) == LatestOf(Observed(responses[..i + 1], sid))
        {
          ObservedNext(responses, i, sid);
        }
      }
      assert responses[..|responses|] == responses;
    }
  }

  lemma {:induction false} ObservedNext(responses: seq<Response>, i: nat, sid: SessionId)
    requires i < |responses|
    ensures var obs := Observed(responses[..i], sid);
            if responses[i].None? then Observed(responses[..i + 1], sid) == obs
            else
              var now := In(SnapshotOf(responses[i].value), sid);
              && Observed(responses[..i + 1], sid) == obs + [now]
              && Events(obs + [now]) == Events(obs) + Change(LatestOf(obs), now)
  {
    assert responses[..i + 1][..i] == responses[..i];
    var obs := Observed(responses[..i], sid);
    if responses[i].Some? {
      var now := In(SnapshotOf(responses[i].value), sid);
      assert (obs + [now])[..|obs|] == obs;
    }
  }

  lemma SeedIsSilent(seed: Response, last: Snapshot)
    requires last == if seed.Some? then SnapshotOf(seed.value) else map[]
    ensures forall sid :: Events(Observed([seed], sid)) == [] && LatestOf(Observed([seed], sid)) == In(last, sid)
  {
    assert [seed][..0] == [];
    forall sid ensures Events(Observed([seed], sid)) == [] && LatestOf(Observed([seed], sid)) == In(last, sid) {
      if seed.Some? {
        assert Observed([seed], sid) == [In(SnapshotOf(seed.value), sid)];
        assert [In(SnapshotOf(seed.value), sid)][..0] == [];
      }
    }
  }

  // ---- What a listener can know ---------------------------------------------------------------

  /** The status a session had in the first snapshot it was in. */
  function FirstStatus(obs: seq<Option<bool>>): Option<bool> {
    if obs == [] then None
    else
      var init := FirstStatus(obs[..|obs| - 1]);
      if init.Some? then init else obs[|obs| - 1]
  }

  /** The status it had in the last snapshot it was in. */
  function LastStatus(obs: seq<Option<bool>>): Option<bool> {
    if obs == [] then None
    else if obs[|obs| - 1].Some? then obs[|obs| - 1]
    else LastStatus(obs[..|obs| - 1])
  }

  /** What a listener holds who starts from the first status and applies every event. */
  function Told(obs: seq<Option<bool>>): Option<bool> {
    var events := Events(obs);
    if events == [] then FirstStatus(obs) else Some(events[|events| - 1])
  }

  /** After every poll that sees the session, the listener holds its status. */
  predicate ListenerIsRight(obs: seq<Option<bool>>) {
    if obs == [] then true
    else ListenerIsRight(obs[..|obs| - 1]) && (obs[|obs| - 1].Some? ==> Told(obs) == obs[|obs| - 1])
  }

  /** Whenever the session comes back after polls that did not see it, it has the status it left with. */
  predicate ReturnsUnchanged(obs: seq<Option<bool>>) {
    if obs == [] then true
    else
      var init, now := obs[..|obs| - 1], obs[|obs| - 1];
      && ReturnsUnchanged(init)
      && (now.Some? && LatestOf(init).None? && LastStatus(init).Some? ==> now == LastStatus(init))
  }

  /** Once seen, the session is in every snapshot. */
  predicate NeverAway(obs: seq<Option<bool>>) {
    if obs == [] then true
    else NeverAway(obs[..|obs| - 1]) && (LastStatus(obs[..|obs| - 1]).Some? ==> obs[|obs| - 1].Some?)
  }

  /** Each event says the opposite of the one before it, and the first one the opposite of the first status. */
  predicate Alternates(first: bool, events: seq<bool>) {
    if events == [] then true
    else
      var n := |events| - 1;
      Alternates(first, events[..n]) && events[n] == !(if n == 0 then first else events[n - 1])
  }

  lemma {:induction false} SeenTogether(obs: seq<Option<bool>>)
    ensures FirstStatus(obs).Some? <==> LastStatus(obs).Some?
    ensures LatestOf(obs).Some? ==> LastStatus(obs) == LatestOf(obs)
    ensures FirstStatus(obs).None? ==> Events(obs) == []
  {
    if obs != [] {
      SeenTogether(obs[..|obs| - 1]);
    }
  }

  /** A listener who has been right all along holds the last status seen. */
  lemma {:induction false} RightHoldsLast(obs: seq<Option<bool>>)
    requires ListenerIsRight(obs)
    ensures Told(obs) == LastStatus(obs)
  {
    SeenTogether(obs);
    if obs != [] && obs[|obs| - 1].None? {
      RightHoldsLast(obs[..|obs| - 1]);
    }
  }

  /**
   Replaying a session's events over its first status gives its status after every poll that sees
   it, exactly when the session never leaves the snapshots and comes back with the other status.
   */
  lemma {:induction false} ListenerExact(obs: seq<Option<bool>>)
    ensures ListenerIsRight(obs) <==> ReturnsUnchanged(obs)
  {
    if obs != [] {
      var init := obs[..|obs| - 1];
      ListenerExact(init);
      SeenTogether(init);
      if ListenerIsRight(init) {
        RightHoldsLast(init);
      }
    }
  }

  lemma {:induction false} AlternatesNext(first: bool, events: seq<bool>, event: bool)
    requires Alternates(first, events)
    requires event == !(if events == [] then first else events[|events| - 1])
    ensures Alternates(first, events + [event])
  {
    assert (events + [event])[..|events|] == events;
  }

  /** The next event, if any, is the opposite of what a listener who is right holds. */
  lemma {:induction false} NextAlternates(obs: seq<Option<bool>>, now: Option<bool>)
    requires ListenerIsRight(obs) && FirstStatus(obs).Some? && Alternates(FirstStatus(obs).value, Events(obs))
    ensures Alternates(FirstStatus(obs).value, Events(obs) + Change(LatestOf(obs), now))
  {
    var change := Change(LatestOf(obs), now);
    if change == [] {
      assert Events(obs) + change == Events(obs);
    } else {
      SeenTogether(obs);
      RightHoldsLast(obs);
      AlternatesNext(FirstStatus(obs).value, Events(obs), now.value);
    }
  }

  /** Without a first status there is nothing to change, so the first status makes no event. */
  lemma {:induction false} FirstIsSilent(obs: seq<Option<bool>>, now: Option<bool>)
    requires FirstStatus(obs).None?
    ensures Events(obs) + Change(LatestOf(obs), now) == []
  {
    SeenTogether(obs);
  }

  lemma {:induction false} EventsAlternate(obs: seq<Option<bool>>)
    requires ReturnsUnchanged(obs) && FirstStatus(obs).Some?
    ensures Alternates(FirstStatus(obs).value, Events(obs))
  {
    var init := obs[..|obs| - 1];
    if FirstStatus(init).Some? {
      EventsAlternate(init);
      ListenerExact(init);
      NextAlternates(init, obs[|obs| - 1]);
    } else {
      FirstIsSilent(init, obs[|obs| - 1]);
    }
  }

  lemma {:induction false} NeverAwayReturnsUnchanged(obs: seq<Option<bool>>)
    requires NeverAway(obs)
    ensures ReturnsUnchanged(obs) && (LastStatus(obs).Some? ==> LatestOf(obs).Some?)
  {
    if obs != [] {
      NeverAwayReturnsUnchanged(obs[..|obs| - 1]);
    }
  }

  /**
   A session that is in every successful snapshot since it was first seen: its events strictly
   alternate and replaying them is right after every poll. Failed polls change nothing.
   */
  lemma {:induction false} StreamIsFaithful(responses: seq<Response>, sid: SessionId)
    requires NeverAway(Observed(responses, sid))
    ensures var obs := Observed(responses, sid);
            && ListenerIsRight(obs)
            && (if FirstStatus(obs).None? then Events(obs) == [] else Alternates(FirstStatus(obs).value, Events(obs)))
  {
    var obs := Observed(responses, sid);
    NeverAwayReturnsUnchanged(obs);
    ListenerExact(obs);
    SeenTogether(obs);
    if FirstStatus(obs).Some? {
      EventsAlternate(obs);
    }
  }
}
