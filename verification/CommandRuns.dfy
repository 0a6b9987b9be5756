/**
 Whole runs of the command protocol: any number of sessions, admins and commands, interleaved
 in any order, and what every run keeps.
 */
module CommandRuns {
  import opened Options
  import opened CommandSession

  type SessionId = nat

  /** The registered sessions, each with the rows of command_logs that carry its session_id. */
  type System = map<SessionId, Session>

  datatype Event =
    | Register(sid: SessionId)
    | At(sid: SessionId, step: Step)

  /** A command id is a fresh uuid: no session knows it yet. */
  ghost predicate Fresh(g: System, c: CommandId) {
    forall sid :: sid in g ==> c !in g[sid].rows && c !in g[sid].admins
  }

  ghost predicate CanHappen(g: System, e: Event) {
    match e
    case Register(sid) => sid !in g
    case At(sid, step) => sid in g && Enabled(g[sid], step) && (step.Check? ==> Fresh(g, step.c))
  }

  ghost function Happen(g: System, e: Event): System
    requires CanHappen(g, e)
  {
    match e
    case Register(sid) => g[sid := NEW_SESSION]
    case At(sid, step) => g[sid := Do(g[sid], step)]
  }

  /** The states a run goes through and the events between them. */
  datatype Run = Run(states: seq<System>, events: seq<Event>)
  {
    ghost predicate Valid() {
      && |states| == |events| + 1
      && states[0] == map[]
      && (forall k :: 0 <= k < |events| ==> CanHappen(states[k], events[k]) && states[k + 1] == Happen(states[k], events[k]))
    }

    /** Event k is this step of this session. */
    ghost predicate Is(k: int, sid: SessionId, step: Step) {
      0 <= k < |events| && events[k] == At(sid, step)
    }

    /** Event k writes some result of this command. */
    ghost predicate Handles(k: int, sid: SessionId, c: CommandId) {
      0 <= k < |events| && events[k].At? && events[k].sid == sid && events[k].step.Handle? && events[k].step.c == c
    }
  }

  // ---- Induction over a run ------------------------------------------------------

  lemma {:induction false} SessionsStay(run: Run, i: nat, j: nat)
    requires run.Valid() && i <= j < |run.states|
    ensures run.states[i].Keys <= run.states[j].Keys
  {
    if i < j {
      SessionsStay(run, i, j - 1);
      assert CanHappen(run.states[j - 1], run.events[j - 1]);
    }
  }

  lemma {:induction false} InvHolds(run: Run, k: nat, sid: SessionId)
    requires run.Valid() && k < |run.states| && sid in run.states[k]
    ensures Inv(run.states[k][sid])
  {
    if k > 0 {
      var e := run.events[k - 1];
      assert CanHappen(run.states[k - 1], e) && run.states[k] == Happen(run.states[k - 1], e);
      if sid in run.states[k - 1] {
        InvHolds(run, k - 1, sid);
        if e.At? && e.sid == sid {
          StepKeepsInv(run.states[k - 1][sid], e.step);
        }
      } else {
        InitInv();
      }
    }
  }

  /** p is kept by every step of a session that `allowed` lets through. */
  ghost predicate Stable(p: Session -> bool, allowed: Step -> bool) {
    forall s, step :: Inv(s) && Enabled(s, step) && allowed(step) && p(s) ==> p(Do(s, step))
  }

  /** From i on, this session takes only allowed steps before k. */
  ghost predicate Only(run: Run, i: nat, k: nat, sid: SessionId, allowed: Step -> bool) {
    forall m :: i <= m < k && m < |run.events| && run.events[m].At? && run.events[m].sid == sid ==>
      allowed(run.events[m].step)
  }

  lemma {:induction false} StaysTrue(run: Run, i: nat, k: nat, sid: SessionId, p: Session -> bool, allowed: Step -> bool)
    requires run.Valid() && i <= k < |run.states|
    requires Stable(p, allowed) && Only(run, i, k, sid, allowed)
    requires sid in run.states[i] && p(run.states[i][sid])
    ensures sid in run.states[k] && p(run.states[k][sid])
  {
    if i < k {
      StaysTrue(run, i, k - 1, sid, p, allowed);
      InvHolds(run, k - 1, sid);
      assert CanHappen(run.states[k - 1], run.events[k - 1]);
    }
  }

  lemma {:induction false} TrueFromStart(run: Run, k: nat, sid: SessionId, p: Session -> bool, allowed: Step -> bool)
    requires run.Valid() && k < |run.states| && sid in run.states[k]
    requires p(NEW_SESSION) && Stable(p, allowed) && Only(run, 0, k, sid, allowed)
    ensures p(run.states[k][sid])
  {
    if k > 0 {
      assert CanHappen(run.states[k - 1], run.events[k - 1]);
      if sid in run.states[k - 1] {
        TrueFromStart(run, k - 1, sid, p, allowed);
        InvHolds(run, k - 1, sid);
      }
    }
  }

  /** The step that event k is, with the invariant around it. */
  lemma EventAt(run: Run, k: nat, sid: SessionId, step: Step)
    requires run.Valid() && run.Is(k, sid, step)
    ensures sid in run.states[k] && sid in run.states[k + 1]
    ensures Inv(run.states[k][sid]) && Enabled(run.states[k][sid], step)
    ensures run.states[k + 1][sid] == Do(run.states[k][sid], step)
  {
    assert CanHappen(run.states[k], run.events[k]);
    InvHolds(run, k, sid);
  }

  // ---- The verdict ---------------------------------------------------------------

  lemma PastMarkForever(run: Run, i: nat, k: nat, sid: SessionId, c: CommandId)
    requires run.Valid() && i <= k < |run.states|
    requires sid in run.states[i] && PastMark(run.states[i][sid], c)
    ensures sid in run.states[k] && PastMark(run.states[k][sid], c)
  {
    var p := (s: Session) => PastMark(s, c);
    forall s, step | Inv(s) && Enabled(s, step) && p(s) ensures p(Do(s, step)) {
      PastMarkStays(s, step, c);
    }
    StaysTrue(run, i, k, sid, p, _ => true);
  }

  lemma QuietForever(run: Run, i: nat, k: nat, sid: SessionId, c: CommandId)
    requires run.Valid() && i <= k < |run.states|
    requires sid in run.states[i] && Quiet(run.states[i][sid], c)
    ensures sid in run.states[k] && Quiet(run.states[k][sid], c)
  {
    var p := (s: Session) => Quiet(s, c);
    forall s, step | Inv(s) && Enabled(s, step) && p(s) ensures p(Do(s, step)) {
      QuietStays(s, step, c);
    }
    StaysTrue(run, i, k, sid, p, _ => true);
  }

  lemma SettledForever(run: Run, i: nat, k: nat, sid: SessionId, c: CommandId, status: Status)
    requires run.Valid() && i <= k < |run.states|
    requires sid in run.states[i] && Settled(run.states[i][sid], c, status)
    ensures sid in run.states[k] && Settled(run.states[k][sid], c, status)
  {
    var p := (s: Session) => Settled(s, c, status);
    forall s, step | Inv(s) && Enabled(s, step) && p(s) ensures p(Do(s, step)) {
      SettledStays(s, step, c, status);
    }
    StaysTrue(run, i, k, sid, p, _ => true);
  }

  lemma StuckUntilFired(run: Run, i: nat, k: nat, sid: SessionId, c: CommandId)
    requires run.Valid() && i <= k < |run.states|
    requires sid in run.states[i] && StuckSent(run.states[i][sid], c)
    requires forall m :: i <= m < k ==> !run.Is(m, sid, Fire(c))
    ensures sid in run.states[k] && StuckSent(run.states[k][sid], c)
  {
    var p := (s: Session) => StuckSent(s, c);
    var allowed := (step: Step) => step != Fire(c);
    forall s, step | Inv(s) && Enabled(s, step) && allowed(step) && p(s) ensures p(Do(s, step)) {
      StuckSentStays(s, step, c);
    }
    assert Only(run, i, k, sid, allowed) by {
      forall m | i <= m < k && m < |run.events| && run.events[m].At? && run.events[m].sid == sid
        ensures allowed(run.events[m].step)
      {
        assert !run.Is(m, sid, Fire(c));
      }
    }
    StaysTrue(run, i, k, sid, p, allowed);
  }

  /**
   When the Sent mark comes before the final result is handled, the row is the client's verdict
   from the handling on, whenever the watcher fires.
   */
  lemma MarkThenVerdict(run: Run, sid: SessionId, c: CommandId, verdict: Status, mark: nat, handled: nat, k: nat)
    requires run.Valid() && verdict.Verdict()
    requires run.Is(mark, sid, MarkSent(c)) && run.Is(handled, sid, Handle(c, verdict))
    requires mark < handled < k < |run.states|
    ensures sid in run.states[k] && StatusOf(run.states[k][sid], c) == Some(verdict)
  {
    EventAt(run, mark, sid, MarkSent(c));
    MarkSentPasses(run.states[mark][sid], c);
    PastMarkForever(run, mark + 1, handled + 1, sid, c);
    EventAt(run, handled, sid, Handle(c, verdict));
    VerdictSilences(run.states[handled][sid], c, verdict);
    SettledForever(run, handled + 1, k, sid, c, verdict);
  }

  /** When the mark comes after the handling, the row is Sent until the watcher fires and Timeout from then on. */
  lemma VerdictThenMark(run: Run, sid: SessionId, c: CommandId, verdict: Status, handled: nat, mark: nat, k: nat)
    requires run.Valid() && verdict.Verdict()
    requires run.Is(handled, sid, Handle(c, verdict)) && run.Is(mark, sid, MarkSent(c))
    requires handled < mark < k < |run.states|
    ensures sid in run.states[k]
    ensures StatusOf(run.states[k][sid], c)
            == Some(if exists fired :: mark < fired < k && run.Is(fired, sid, Fire(c)) then Timeout else Sent)
  {
    EventAt(run, handled, sid, Handle(c, verdict));
    VerdictSilences(run.states[handled][sid], c, verdict);
    QuietForever(run, handled + 1, mark + 1, sid, c);
    EventAt(run, mark, sid, MarkSent(c));
    MarkSentPasses(run.states[mark][sid], c);
    if fired :| mark < fired < k && run.Is(fired, sid, Fire(c)) {
      var first := FirstFire(run, mark + 1, fired, sid, c);
      StuckUntilFired(run, mark + 1, first, sid, c);
      EventAt(run, first, sid, Fire(c));
      StuckSentStays(run.states[first][sid], Fire(c), c);
      SettledForever(run, first + 1, k, sid, c, Timeout);
    } else {
      StuckUntilFired(run, mark + 1, k, sid, c);
    }
  }

  lemma {:induction false} FirstFire(run: Run, from: nat, fired: nat, sid: SessionId, c: CommandId) returns (first: nat)
    requires from <= fired && run.Is(fired, sid, Fire(c))
    ensures from <= first <= fired && run.Is(first, sid, Fire(c))
    ensures forall m :: from <= m < first ==> !run.Is(m, sid, Fire(c))
    decreases fired
  {
    if earlier :| from <= earlier < fired && run.Is(earlier, sid, Fire(c)) {
      first := FirstFire(run, from, earlier, sid, c);
    } else {
      first := fired;
    }
  }

  /** A watcher is started after the Sent mark, so it fires after it. */
  lemma FireFollowsMark(run: Run, sid: SessionId, c: CommandId, mark: nat, fired: nat)
    requires run.Valid() && run.Is(mark, sid, MarkSent(c)) && run.Is(fired, sid, Fire(c))
    ensures mark < fired
  {
    if fired <= mark {
      EventAt(run, fired, sid, Fire(c));
      WatchedIsPastMark(run.states[fired][sid], c);
      PastMarkForever(run, fired, mark, sid, c);
      EventAt(run, mark, sid, MarkSent(c));
      assert false;
    }
  }

  /**
   Once a command has been marked Sent, its final result handled and its watcher fired, in any
   order the protocol allows, its status is terminal: never left at Sent or Executing.
   */
  lemma FinallyTerminal(run: Run, sid: SessionId, c: CommandId, verdict: Status, mark: nat, handled: nat, fired: nat, k: nat)
    requires run.Valid() && verdict.Verdict()
    requires run.Is(mark, sid, MarkSent(c)) && run.Is(handled, sid, Handle(c, verdict)) && run.Is(fired, sid, Fire(c))
    requires mark < k && handled < k && fired < k < |run.states|
    ensures sid in run.states[k]
    ensures StatusOf(run.states[k][sid], c) == Some(if mark < handled then verdict else Timeout)
  {
    FireFollowsMark(run, sid, c, mark, fired);
    if mark < handled {
      MarkThenVerdict(run, sid, c, verdict, mark, handled, k);
    } else {
      VerdictThenMark(run, sid, c, verdict, handled, mark, k);
    }
  }

  // ---- Pending rows ----------------------------------------------------------------

  /** In every reachable state a Pending row is owed a write by SendCommand or by the consumer. */
  lemma PendingIsOwed(run: Run, k: nat, sid: SessionId, c: CommandId)
    requires run.Valid() && k < |run.states| && sid in run.states[k]
    ensures var s := run.states[k][sid];
            && (StatusOf(s, c) == Some(Pending) ==>
                  || (c in s.admins && s.admins[c] != Checked)
                  || c in s.queue
                  || s.consumer == Holding(c) || s.consumer == SendFailed(c) || s.consumer == Delivered(c))
            && (c in s.queue ==> StatusOf(s, c) == Some(Pending) && c !in s.watchers && c !in s.admins)
  {
    InvHolds(run, k, sid);
    assert CommandInv(run.states[k][sid], c);
    OccursMember(run.states[k][sid].queue, c);
  }

  /** A command left in the queue of a closed Channel stays there, Pending, until the Channel is opened again. */
  lemma StrandedStaysPending(run: Run, i: nat, k: nat, sid: SessionId, c: CommandId)
    requires run.Valid() && i <= k < |run.states| && sid in run.states[i]
    requires run.states[i][sid].loop == Closed && c in run.states[i][sid].queue
    requires forall m :: i <= m < k ==> !run.Is(m, sid, Open)
    ensures sid in run.states[k]
    ensures c in run.states[k][sid].queue && StatusOf(run.states[k][sid], c) == Some(Pending)
  {
    var p := (s: Session) => s.loop == Closed && Occurs(s.queue, c) > 0;
    var allowed := (step: Step) => step != Open;
    forall s, step | Inv(s) && Enabled(s, step) && allowed(step) && p(s) ensures p(Do(s, step)) {
      StepOnWires(s, step, c);
    }
    assert Only(run, i, k, sid, allowed) by {
      forall m | i <= m < k && m < |run.events| && run.events[m].At? && run.events[m].sid == sid
        ensures allowed(run.events[m].step)
      {
        assert !run.Is(m, sid, Open);
      }
    }
    OccursMember(run.states[i][sid].queue, c);
    StaysTrue(run, i, k, sid, p, allowed);
    OccursMember(run.states[k][sid].queue, c);
    PendingIsOwed(run, k, sid, c);
  }
}
