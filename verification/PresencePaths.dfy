/**
 A whole Channel and a whole pass of the heartbeat sweep, when nothing comes in between, are steps of
 the step system: what its runs keep the handlers keep.
 */
module PresencePaths {
  import opened Options
  import opened Presence
  import opened PresenceServer
  import R = Registry
  import T = Terminals

  lemma {:induction false} PathThen(s: Server, steps: seq<Step>, mid: Server, more: seq<Step>, s': Server)
    requires Path(s, steps, mid) && Path(mid, more, s')
    ensures Path(s, steps + more, s')
    decreases |steps|
  {
    if steps == [] {
      assert steps + more == more;
    } else {
      PathThen(Do(s, steps[0]), steps[1..], mid, more, s');
      assert (steps + more)[1..] == steps[1..] + more;
    }
  }

  lemma {:induction false} OneStep(s: Server, step: Step)
    requires Enabled(s, step)
    ensures Path(s, [step], Do(s, step))
  {
    assert [step][1..] == [];
    assert Path(Do(s, step), [], Do(s, step));
  }

  lemma {:induction false} TwoSteps(s: Server, a: Step, b: Step)
    requires Enabled(s, a) && Enabled(Do(s, a), b)
    ensures Path(s, [a, b], Do(Do(s, a), b))
  {
    OneStep(s, a);
    OneStep(Do(s, a), b);
    PathThen(s, [a], Do(s, a), [b], Do(Do(s, a), b));
  }

  // ---- The sweep -----------------------------------------------------------------------

  /** Each session dropped is a write to the registry and a write to the table. */
  function DropSteps(list: seq<SessionId>): seq<Step> {
    if list == [] then [] else DropSteps(list[..|list| - 1]) + [SweepDrop(list[|list| - 1]), SweepStore]
  }

  function SweepSteps(asOf: int, list: seq<SessionId>): seq<Step> {
    [SweepStart(asOf)] + DropSteps(list) + [SweepEnd]
  }

  function Elements(list: seq<SessionId>): set<SessionId> {
    set sid | sid in list
  }

  lemma {:induction false} DropPath(s: Server, ids: set<SessionId>, sid: SessionId)
    requires s.sweep.Sweeping? && sid !in ids && sid in s.mem && R.Stale(s.mem[sid], s.sweep.asOf, s.timeout)
    ensures Path(AfterSweep(s, ids), [SweepDrop(sid), SweepStore], AfterSweep(s, ids + {sid}))
  {
    var before := AfterSweep(s, ids);
    OfflineNext(s.rows, ids, sid);
    assert R.WentOffline(before.mem, sid) == AllDropped(s.mem, ids + {sid});
    TwoSteps(before, SweepDrop(sid), SweepStore);
  }

  lemma {:induction false} DropsPath(s: Server, list: seq<SessionId>)
    requires s.sweep.Sweeping? && (forall i, j :: 0 <= i < j < |list| ==> list[i] != list[j])
    requires forall sid :: sid in list ==> sid in s.mem && R.Stale(s.mem[sid], s.sweep.asOf, s.timeout)
    ensures Path(s, DropSteps(list), AfterSweep(s, Elements(list)))
  {
    if list == [] {
      assert Elements(list) == {};
      assert AllDropped(s.mem, {}) == s.mem && AllOffline(s.rows, {}) == s.rows;
    } else {
      var init, last := list[..|list| - 1], list[|list| - 1];
      assert list == init + [last];
      DropsPath(s, init);
      DropPath(s, Elements(init), last);
      assert Elements(list) == Elements(init) + {last};
      PathThen(s, DropSteps(init), AfterSweep(s, Elements(init)), [SweepDrop(last), SweepStore], AfterSweep(s, Elements(list)));
    }
  }

  /**
   A pass of the sweep that nothing interrupts, in whatever order it comes to the sessions: exactly those
   online and silent for longer than the timeout are dropped, from the registry and then from the table.
   */
  lemma {:induction false} SweepIsPath(s: Server, asOf: int, list: seq<SessionId>)
    requires Unlocked(s) && asOf <= s.now && Enumerates(list, R.Expired(s.mem, asOf, s.timeout))
    ensures Path(s, SweepSteps(asOf, list), AfterSweep(s, R.Expired(s.mem, asOf, s.timeout)))
  {
    var started := s.(sweep := Sweeping(asOf));
    OneStep(s, SweepStart(asOf));
    DropsPath(started, list);
    assert Elements(list) == R.Expired(s.mem, asOf, s.timeout);
    var swept := AfterSweep(started, Elements(list));
    OneStep(swept, SweepEnd);
    PathThen(s, [SweepStart(asOf)], started, DropSteps(list), swept);
    PathThen(s, [SweepStart(asOf)] + DropSteps(list), swept, [SweepEnd], swept.(sweep := Idle));
  }

  // ---- A Channel -------------------------------------------------------------------------

  function Ticks(n: nat): seq<Step> {
    if n == 0 then [] else Ticks(n - 1) + [Tick]
  }

  lemma {:induction false} TicksPath(s: Server, n: nat)
    ensures Path(s, Ticks(n), s.(now := s.now + n))
  {
    if n > 0 {
      TicksPath(s, n - 1);
      var mid := s.(now := s.now + (n - 1));
      OneStep(mid, Tick);
      PathThen(s, Ticks(n - 1), mid, [Tick], s.(now := s.now + n));
    }
  }

  /** The clock does not go back between heartbeats. */
  predicate Ordered(since: int, events: seq<Incident>) {
    events == []
    || (var init, last := events[..|events| - 1], events[|events| - 1];
        Ordered(since, init) && (last.Heartbeat? ==> LastBeat(since, init) <= last.at))
  }

  /** The steps of one turn of the loop that begins at this time. */
  function IncidentSteps(now: int, sid: SessionId, e: Incident): seq<Step> {
    match e
    case Heartbeat(at) => (if at > now then Ticks(at - now) else []) + [Beat(sid), BeatStore(sid)]
    case AdminKick => [Kick(sid)]
    case _ => []
  }

  function LoopSteps(since: int, sid: SessionId, served: seq<Incident>): seq<Step> {
    if served == [] then []
    else
      var init := served[..|served| - 1];
      LoopSteps(since, sid, init) + IncidentSteps(LastBeat(since, init), sid, served[|served| - 1])
  }

  /** The server when its loop for this session has got so far. */
  function InLoop(s: Server, l: LoopState, now: int): Server {
    s.(mem := l.mem, rows := l.rows, now := now)
  }

  lemma {:induction false} IncidentPath(s: Server, sid: SessionId, e: Incident)
    requires Unlocked(s) && At(s, sid, Serving) && (e.Heartbeat? ==> s.now <= e.at)
    ensures Path(s, IncidentSteps(s.now, sid, e),
                 InLoop(s, AfterIncident(LoopState(s.mem, s.rows, false), sid, e), if e.Heartbeat? then e.at else s.now))
  {
    match e
    case Heartbeat(at) =>
      var later := s.(now := at);
      TicksPath(s, at - s.now);
      HeartbeatIsPath(later, sid);
      PathThen(s, Ticks(at - s.now), later, [Beat(sid), BeatStore(sid)], BeatenTwice(later, sid));
    case AdminKick => OneStep(s, Kick(sid));
    case _ =>
  }

  lemma {:induction false} LoopIsPath(s: Server, sid: SessionId, events: seq<Incident>)
    requires Unlocked(s) && At(s, sid, Serving) && Ordered(s.now, events)
    ensures var start := LoopState(s.mem, s.rows, false);
            var served := Served(start, sid, events);
            Path(s, LoopSteps(s.now, sid, served), InLoop(s, AfterIncidents(start, sid, events), LastBeat(s.now, served)))
  {
    var start := LoopState(s.mem, s.rows, false);
    if events != [] {
      var init, last := events[..|events| - 1], events[|events| - 1];
      LoopIsPath(s, sid, init);
      var l := AfterIncidents(start, sid, init);
      if !l.kicked {
        ServedAll(start, sid, init);
        assert Served(start, sid, events)[..|init|] == init && Served(start, sid, events) == events;
        var now := LastBeat(s.now, init);
        var mid := InLoop(s, l, now);
        IncidentPath(mid, sid, last);
        PathThen(s, LoopSteps(s.now, sid, init), mid, IncidentSteps(now, sid, last),
                 InLoop(s, AfterIncidents(start, sid, events), LastBeat(s.now, events)));
      }
    }
  }

  function ChannelSteps(since: int, sid: SessionId, served: seq<Incident>): seq<Step> {
    [ChanGet(sid), ChanSet(sid)] + LoopSteps(since, sid, served) + [Leave(sid), Clear(sid), ChanOff(sid)]
  }

  lemma {:induction false} LeavingIsPath(s: Server, sid: SessionId)
    requires Unlocked(s) && At(s, sid, Serving)
    ensures Path(s, [Leave(sid), Clear(sid), ChanOff(sid)],
                 s.(mem := R.Cleared(s.mem, sid), rows := T.WentOffline(s.rows, sid), chans := s.chans - {sid}))
  {
    var left := Do(s, Leave(sid));
    OneStep(s, Leave(sid));
    TwoSteps(left, Clear(sid), ChanOff(sid));
    assert s.chans[sid := Leaving][sid := Cleared] - {sid} == s.chans - {sid};
    PathThen(s, [Leave(sid)], left, [Clear(sid), ChanOff(sid)], Do(Do(left, Clear(sid)), ChanOff(sid)));
    assert [Leave(sid)] + [Clear(sid), ChanOff(sid)] == [Leave(sid), Clear(sid), ChanOff(sid)];
  }

  /** A Channel into which only the clock and its own kicks come is exactly its steps in the step system. */
  lemma {:induction false} ChannelIsPath(s: Server, sid: SessionId, events: seq<Incident>)
    requires Unlocked(s) && sid in s.mem && sid !in s.chans && Ordered(s.now, events)
    ensures var served := Served(Opened(s.mem, s.rows, sid, s.now), sid, events);
            Path(s, ChannelSteps(s.now, sid, served),
                 s.(mem := ChannelMem(s.mem, s.rows, sid, s.now, events),
                    rows := ChannelRows(s.mem, s.rows, sid, s.now, events), now := LastBeat(s.now, served)))
  {
    var served := Served(Opened(s.mem, s.rows, sid, s.now), sid, events);
    TwoSteps(s, ChanGet(sid), ChanSet(sid));
    var open := Do(Do(s, ChanGet(sid)), ChanSet(sid));
    LoopIsPath(open, sid, events);
    var l := AfterIncidents(Opened(s.mem, s.rows, sid, s.now), sid, events);
    var looped := InLoop(open, l, LastBeat(s.now, served));
    LeavingIsPath(looped, sid);
    assert looped.chans - {sid} == s.chans;
    var begin, loop, leave := [ChanGet(sid), ChanSet(sid)], LoopSteps(s.now, sid, served), [Leave(sid), Clear(sid), ChanOff(sid)];
    PathThen(s, begin, open, loop, looped);
    PathThen(s, begin + loop, looped, leave,
             looped.(mem := R.Cleared(l.mem, sid), rows := T.WentOffline(l.rows, sid), chans := looped.chans - {sid}));
  }
}
