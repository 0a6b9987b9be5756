/** Runs that show that presence does split without timely handlers, and that the capacity bound is reached. */
module PresenceExamples {
  import opened Options
  import opened Presence
  import opened PresenceRuns
  import R = Registry
  import T = Terminals

  function Start(maxConns: int, timeout: int): Server {
    Server(map[], map[], maxConns, timeout, 0, map[], map[], Idle)
  }

  ghost function Last(run: Run): Server
    requires run.Valid()
  {
    run.states[|run.steps|]
  }

  lemma Extend(run: Run, step: Step) returns (longer: Run)
    requires run.Valid() && Enabled(Last(run), step)
    ensures longer.Valid() && longer.steps == run.steps + [step]
    ensures longer.states == run.states + [Do(Last(run), step)]
  {
    longer := Run(run.states + [Do(Last(run), step)], run.steps + [step]);
    forall k: nat | k < |longer.steps| ensures longer.Happens(k) {
      if k < |run.steps| {
        assert run.Happens(k);
      }
    }
  }

  // ---- The heartbeat race ------------------------------------------------------------

  /** One session, registered and stored, with its Channel open. */
  function ServingAlone(timeout: nat): Server {
    Start(0, timeout).(
      mem := map[5 := R.Conn(9, true, false, 0, true)],
      rows := map[5 := T.Terminal(9, "", 0, 0, None, false, false)],
      chans := map[5 := Serving])
  }

  lemma RegisteredRun(timeout: nat) returns (run: Run)
    ensures run.Valid() && Last(run) == ServingAlone(timeout).(mem := map[5 := R.NewConn(9)], chans := map[])
  {
    run := Run([Start(0, timeout)], []);
    run := Extend(run, RegFull(1, 9));
    run := Extend(run, RegBlock(1));
    run := Extend(run, RegAdd(1, 5));
    run := Extend(run, RegUpsert(1, ""));
    assert Last(run).regs == map[];
  }

  lemma ServingRun(timeout: nat) returns (run: Run)
    ensures run.Valid() && Last(run) == ServingAlone(timeout)
  {
    run := RegisteredRun(timeout);
    run := Extend(run, ChanGet(5));
    run := Extend(run, ChanSet(5));
  }

  function BeatingAlone(timeout: nat): Server {
    ServingAlone(timeout).(chans := map[5 := Beating])
  }

  /** A heartbeat handler that has done its first write, and n ticks later not its second. */
  lemma {:induction false} BeatingRun(timeout: nat, n: nat) returns (run: Run)
    ensures run.Valid() && Last(run) == BeatingAlone(timeout).(now := n)
  {
    if n == 0 {
      run := ServingRun(timeout);
      run := Extend(run, Beat(5));
    } else {
      run := BeatingRun(timeout, n - 1);
      run := Extend(run, Tick);
    }
  }

  function DroppedAlone(timeout: nat): Server {
    BeatingAlone(timeout).(mem := map[5 := R.Conn(9, true, false, 0, false)], now := timeout + 1)
  }

  lemma SweepingRun(timeout: nat) returns (run: Run)
    ensures run.Valid() && Last(run) == DroppedAlone(timeout).(sweep := Dropping(timeout + 1, 5))
  {
    run := BeatingRun(timeout, timeout + 1);
    run := Extend(run, SweepStart(timeout + 1));
    run := Extend(run, SweepDrop(5));
  }

  lemma DroppedWhileBeating(timeout: nat) returns (run: Run)
    ensures run.Valid() && Last(run) == DroppedAlone(timeout)
  {
    run := SweepingRun(timeout);
    run := Extend(run, SweepStore);
    run := Extend(run, SweepEnd);
  }

  /**
   Whatever the heartbeat timeout, a handler that is slower by one tick can leave a session online in
   the table and offline in the registry.
   */
  lemma SlowHandlerSplitsPresence(timeout: nat) returns (run: Run)
    ensures run.Valid() && run.states[0].timeout == timeout && Last(run).now == timeout + 1
    ensures !BetweenWrites(Last(run), 5) && OnlineInStore(Last(run), 5) && !OnlineInMemory(Last(run), 5)
  {
    run := DroppedWhileBeating(timeout);
    run := Extend(run, BeatStore(5));
    SameTimeout(run, |run.steps|);
  }

  lemma {:induction false} SameTimeout(run: Run, k: nat)
    requires run.Valid() && k < |run.states|
    ensures run.states[k].timeout == run.states[0].timeout
  {
    if k > 0 {
      SameTimeout(run, k - 1);
      Next(run, k - 1);
    }
  }

  // ---- The capacity bound is reached -----------------------------------------------------

  /** The numbers below n. */
  ghost function UpTo(n: nat): (s: set<nat>)
    ensures |s| == n && forall i :: i in s <==> 0 <= i < n
  {
    if n == 0 then {} else UpTo(n - 1) + {n - 1}
  }

  /** Some run with this limit, and never more than c calls in flight, ends in s. */
  ghost predicate Reaches(maxConns: int, c: nat, s: Server) {
    exists run: Run ::
      run.Valid() && run.states[0] == Start(maxConns, 0) && InFlight(run, c) && Last(run) == s
  }

  ghost predicate InFlight(run: Run, c: nat) {
    forall i :: 0 <= i < |run.states| ==> |run.states[i].regs| <= c
  }

  lemma ReachesNext(maxConns: int, c: nat, s: Server, step: Step, calls: set<CallId>)
    requires Reaches(maxConns, c, s) && Enabled(s, step)
    requires Do(s, step).regs.Keys == calls && |calls| <= c
    ensures Reaches(maxConns, c, Do(s, step))
  {
    var run: Run :| run.Valid() && run.states[0] == Start(maxConns, 0) && InFlight(run, c) && Last(run) == s;
    var longer := Extend(run, step);
    assert |Do(s, step).regs| == |Do(s, step).regs.Keys|;
    assert InFlight(longer, c);
  }

  /** n sessions 0 .. n - 1, nobody blocked, the lock free, no Channel open. */
  ghost predicate Calm(s: Server, maxConns: int, n: nat) {
    && s.maxConns == maxConns && s.sweep == Idle && s.chans == map[]
    && s.mem.Keys == UpTo(n) && s.rows.Keys <= s.mem.Keys
    && (forall sid :: sid in s.rows ==> !s.rows[sid].blocked)
  }

  /** This call has passed its first check, or both. */
  function AfterFull(s: Server, call: CallId): Server {
    s.(regs := s.regs[call := PastFull(0)])
  }

  function AfterBlock(s: Server, call: CallId): Server {
    s.(regs := s.regs[call := PastBlock(0)])
  }

  lemma CalmPassesFull(s: Server, maxConns: int, n: nat, call: CallId)
    requires Calm(s, maxConns, n) && n < maxConns && call !in s.regs
    ensures Enabled(s, RegFull(call, 0)) && Do(s, RegFull(call, 0)) == AfterFull(s, call)
    ensures Calm(AfterFull(s, call), maxConns, n)
  {
    assert |s.mem| == |s.mem.Keys|;
  }

  lemma CalmPassesBlock(s: Server, maxConns: int, n: nat, call: CallId)
    requires Calm(s, maxConns, n)
    ensures Enabled(AfterFull(s, call), RegBlock(call))
    ensures Do(AfterFull(s, call), RegBlock(call)) == AfterBlock(s, call)
    ensures Calm(AfterBlock(s, call), maxConns, n)
  {
    assert s.regs[call := PastFull(0)][call := PastBlock(0)] == s.regs[call := PastBlock(0)];
  }

  /** The first two steps of a Register call, on a calm server. */
  lemma PassBoth(s: Server, maxConns: int, n: nat, call: CallId, c: nat)
    requires Reaches(maxConns, c, s) && Calm(s, maxConns, n) && n < maxConns && call !in s.regs
    requires |s.regs.Keys + {call}| <= c
    ensures Reaches(maxConns, c, AfterBlock(s, call)) && Calm(AfterBlock(s, call), maxConns, n)
    ensures AfterBlock(s, call).regs.Keys == s.regs.Keys + {call}
  {
    CalmPassesFull(s, maxConns, n, call);
    ReachesNext(maxConns, c, s, RegFull(call, 0), s.regs.Keys + {call});
    CalmPassesBlock(s, maxConns, n, call);
    ReachesNext(maxConns, c, AfterFull(s, call), RegBlock(call), s.regs.Keys + {call});
  }

  lemma CalmAdds(s: Server, maxConns: int, n: nat, call: CallId)
    requires Calm(s, maxConns, n) && call in s.regs && s.regs[call] == PastBlock(0)
    ensures Enabled(s, RegAdd(call, n)) && Calm(Do(s, RegAdd(call, n)), maxConns, n + 1)
    ensures Do(s, RegAdd(call, n)).regs == s.regs[call := Added(0, n)]
  {
    assert n !in UpTo(n) && n !in s.chans;
    assert s.mem.Keys + {n} == UpTo(n + 1);
    assert Do(s, RegAdd(call, n)).mem.Keys == s.mem.Keys + {n};
  }

  lemma CalmStores(s: Server, maxConns: int, n: nat, call: CallId)
    requires Calm(s, maxConns, n + 1) && s.regs == map[call := Added(0, n)]
    ensures Enabled(s, RegUpsert(call, "")) && Calm(Do(s, RegUpsert(call, "")), maxConns, n + 1)
    ensures Do(s, RegUpsert(call, "")).regs == map[]
  {
    assert n in UpTo(n + 1);
  }

  lemma ReachesStart(maxConns: int, c: nat)
    ensures Reaches(maxConns, c, Start(maxConns, 0)) && Calm(Start(maxConns, 0), maxConns, 0)
  {
    var run := Run([Start(maxConns, 0)], []);
    assert run.Valid() && InFlight(run, c) && Last(run) == Start(maxConns, 0);
  }

  /** n registrations one after the other. */
  lemma {:induction false} Sequential(maxConns: int, n: nat, c: nat) returns (s: Server)
    requires n < maxConns && c > 0
    ensures Reaches(maxConns, c, s) && Calm(s, maxConns, n) && s.regs == map[]
  {
    if n == 0 {
      ReachesStart(maxConns, c);
      s := Start(maxConns, 0);
    } else {
      s := Sequential(maxConns, n - 1, c);
      assert s.regs.Keys + {0} == {0};
      PassBoth(s, maxConns, n - 1, 0, c);
      s := AfterBlock(s, 0);
      CalmAdds(s, maxConns, n - 1, 0);
      ReachesNext(maxConns, c, s, RegAdd(0, n - 1), {0});
      s := Do(s, RegAdd(0, n - 1));
      CalmStores(s, maxConns, n - 1, 0);
      ReachesNext(maxConns, c, s, RegUpsert(0, ""), {});
      s := Do(s, RegUpsert(0, ""));
    }
  }

  /** Of the calls 0 .. c - 1, those from i on have passed both checks and not been added. */
  ghost predicate Waiting(s: Server, i: nat, c: nat) {
    s.regs.Keys == UpTo(c) && forall call :: i <= call < c ==> s.regs[call] == PastBlock(0)
  }

  lemma PassesNext(s: Server, maxConns: int, n: nat, j: nat, c: nat) returns (s': Server)
    requires Reaches(maxConns, c, s) && Calm(s, maxConns, n) && n < maxConns && Waiting(s, 0, j) && j < c
    ensures Reaches(maxConns, c, s') && Calm(s', maxConns, n) && Waiting(s', 0, j + 1)
  {
    assert s.regs.Keys + {j} == UpTo(j + 1);
    PassBoth(s, maxConns, n, j, c);
    s' := AfterBlock(s, j);
  }

  lemma AddsNext(s: Server, maxConns: int, n: nat, i: nat, c: nat) returns (s': Server)
    requires Reaches(maxConns, c, s) && Calm(s, maxConns, n) && Waiting(s, i, c) && i < c
    ensures Reaches(maxConns, c, s') && Calm(s', maxConns, n + 1) && Waiting(s', i + 1, c)
  {
    CalmAdds(s, maxConns, n, i);
    assert s.regs[i := Added(0, n)].Keys == UpTo(c);
    ReachesNext(maxConns, c, s, RegAdd(i, n), UpTo(c));
    s' := Do(s, RegAdd(i, n));
  }

  /** j calls have passed both checks when maxConns - 1 sessions are registered. */
  lemma {:induction false} ManyPassed(maxConns: int, c: nat, j: nat) returns (s: Server)
    requires maxConns > 0 && j <= c && c > 0
    ensures Reaches(maxConns, c, s) && Calm(s, maxConns, maxConns - 1) && Waiting(s, 0, j)
  {
    if j == 0 {
      s := Sequential(maxConns, maxConns - 1, c);
    } else {
      s := ManyPassed(maxConns, c, j - 1);
      s := PassesNext(s, maxConns, maxConns - 1, j - 1, c);
    }
  }

  /** i of the c calls have been added. */
  lemma {:induction false} ManyAdded(maxConns: int, c: nat, i: nat) returns (s: Server)
    requires maxConns > 0 && i <= c && c > 0
    ensures Reaches(maxConns, c, s) && Calm(s, maxConns, maxConns - 1 + i) && Waiting(s, i, c)
  {
    if i == 0 {
      s := ManyPassed(maxConns, c, c);
    } else {
      s := ManyAdded(maxConns, c, i - 1);
      s := AddsNext(s, maxConns, maxConns - 1 + (i - 1), i - 1, c);
    }
  }

  /** For every limit and every number of calls in flight, some run ends with limit + c - 1 sessions. */
  lemma CapacityBoundIsReached(maxConns: int, c: nat) returns (s: Server)
    requires maxConns > 0 && c > 0
    ensures Reaches(maxConns, c, s) && |s.mem| == maxConns + c - 1
  {
    s := ManyAdded(maxConns, c, c);
    assert |s.mem| == |s.mem.Keys|;
  }
}
