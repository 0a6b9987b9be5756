/**
 The documented lifecycle, Pending, Sent, Executing and then one terminal status for good, is
 not what every run shows. These lemmas say exactly which runs show it.
 */
module CommandLifecycle {
  import opened Options
  import opened CommandSession
  import opened CommandRuns

  ghost function StatusAt(run: Run, k: nat, sid: SessionId, c: CommandId): Option<Status>
    requires k < |run.states|
  {
    if sid in run.states[k] then StatusOf(run.states[k][sid], c) else None
  }

  /** The status of the command only ever moves forward. */
  ghost predicate FollowsLifecycle(run: Run, sid: SessionId, c: CommandId)
    requires run.Valid()
  {
    forall k :: 0 <= k < |run.events| ==> Forward(StatusAt(run, k, sid, c), StatusAt(run, k + 1, sid, c))
  }

  /** No Sent mark after a result was handled, and no result handled after the watcher fired. */
  ghost predicate TimelyResults(run: Run, sid: SessionId, c: CommandId) {
    && (forall h, m :: run.Handles(h, sid, c) && run.Is(m, sid, MarkSent(c)) ==> m < h)
    && (forall f, h :: run.Is(f, sid, Fire(c)) && run.Handles(h, sid, c) ==> h < f)
  }

  /** At the Sent mark the row is still Pending, unless a result has been handled already. */
  lemma PendingAtMark(run: Run, m: nat, sid: SessionId, c: CommandId)
    requires run.Valid() && run.Is(m, sid, MarkSent(c))
    requires forall h :: 0 <= h < m ==> !run.Handles(h, sid, c)
    ensures StatusAt(run, m, sid, c) == Some(Pending)
  {
    var p := (s: Session) => s.consumer == Delivered(c) && c in s.rows ==> s.rows[c] == Pending;
    var allowed := (step: Step) => !(step.Handle? && step.c == c);
    forall s, step | Inv(s) && Enabled(s, step) && allowed(step) && p(s) ensures p(Do(s, step)) {
      assert CommandInv(s, c);
    }
    assert Only(run, 0, m, sid, allowed) by {
      forall h | 0 <= h < m && run.events[h].At? && run.events[h].sid == sid ensures allowed(run.events[h].step) {
        assert !run.Handles(h, sid, c);
      }
    }
    EventAt(run, m, sid, MarkSent(c));
    TrueFromStart(run, m, sid, p, allowed);
    assert CommandInv(run.states[m][sid], c);
  }

  lemma OnlyFireTimesOut(s: Session, step: Step, c: CommandId)
    requires Inv(s) && Enabled(s, step) && step != Fire(c) && StatusOf(s, c) != Some(Timeout)
    ensures StatusOf(Do(s, step), c) != Some(Timeout)
  {
    StepOnWires(s, step, c);
    assert CommandInv(s, c);
  }

  /** Only the watcher writes Timeout. */
  lemma NoTimeoutBeforeFire(run: Run, k: nat, sid: SessionId, c: CommandId)
    requires run.Valid() && k < |run.states|
    requires forall f :: 0 <= f < k ==> !run.Is(f, sid, Fire(c))
    ensures StatusAt(run, k, sid, c) != Some(Timeout)
  {
    if sid in run.states[k] {
      var p := (s: Session) => StatusOf(s, c) != Some(Timeout);
      var allowed := (step: Step) => step != Fire(c);
      forall s, step | Inv(s) && Enabled(s, step) && allowed(step) && p(s) ensures p(Do(s, step)) {
        OnlyFireTimesOut(s, step, c);
      }
      assert Only(run, 0, k, sid, allowed) by {
        forall f | 0 <= f < k && f < |run.events| && run.events[f].At? && run.events[f].sid == sid
          ensures allowed(run.events[f].step)
        {
          assert !run.Is(f, sid, Fire(c));
        }
      }
      TrueFromStart(run, k, sid, p, allowed);
    }
  }

  lemma TimelyGoesForward(run: Run, sid: SessionId, c: CommandId, k: nat)
    requires run.Valid() && TimelyResults(run, sid, c) && k < |run.events|
    ensures Forward(StatusAt(run, k, sid, c), StatusAt(run, k + 1, sid, c))
  {
    var e := run.events[k];
    assert CanHappen(run.states[k], e) && run.states[k + 1] == Happen(run.states[k], e);
    if e.At? && e.sid == sid {
      EventAt(run, k, sid, e.step);
      var s := run.states[k][sid];
      if e.step == MarkSent(c) {
        assert run.Is(k, sid, MarkSent(c));
        PendingAtMark(run, k, sid, c);
        MarkSentForward(s, c);
      } else if e.step.Handle? && e.step.c == c {
        assert run.Handles(k, sid, c);
        NoTimeoutBeforeFire(run, k, sid, c);
        HandleForward(s, c, e.step.status);
      } else {
        OtherStepsGoForward(s, e.step, c);
      }
    }
  }

  lemma PendingIsLeftForGood(s: Session, step: Step, c: CommandId)
    requires Inv(s) && Enabled(s, step) && c in s.rows && s.rows[c] != Pending
    ensures c in Do(s, step).rows && Do(s, step).rows[c] != Pending
  {
    StepOnWires(s, step, c);
    assert CommandInv(s, c);
  }

  /** A row that has left Pending never returns to it. */
  lemma NeverPendingAgain(run: Run, i: nat, k: nat, sid: SessionId, c: CommandId)
    requires run.Valid() && i <= k < |run.states| && sid in run.states[i]
    requires c in run.states[i][sid].rows && run.states[i][sid].rows[c] != Pending
    ensures sid in run.states[k] && c in run.states[k][sid].rows && run.states[k][sid].rows[c] != Pending
  {
    var p := (s: Session) => c in s.rows && s.rows[c] != Pending;
    forall s, step | Inv(s) && Enabled(s, step) && p(s) ensures p(Do(s, step)) {
      PendingIsLeftForGood(s, step, c);
    }
    StaysTrue(run, i, k, sid, p, _ => true);
  }

  lemma MarkAfterResultRegresses(run: Run, sid: SessionId, c: CommandId, h: nat, m: nat)
    requires run.Valid() && run.Handles(h, sid, c) && run.Is(m, sid, MarkSent(c)) && h < m
    ensures !Forward(StatusAt(run, m, sid, c), StatusAt(run, m + 1, sid, c))
  {
    EventAt(run, h, sid, run.events[h].step);
    assert CommandInv(run.states[h][sid], c);
    StepOnWires(run.states[h][sid], run.events[h].step, c);
    NeverPendingAgain(run, h + 1, m, sid, c);
    EventAt(run, m, sid, MarkSent(c));
    MarkSentForward(run.states[m][sid], c);
  }

  lemma {:induction false} ForwardKeepsTimeout(run: Run, sid: SessionId, c: CommandId, i: nat, k: nat)
    requires run.Valid() && FollowsLifecycle(run, sid, c) && i <= k < |run.states|
    requires StatusAt(run, i, sid, c) == Some(Timeout)
    ensures StatusAt(run, k, sid, c) == Some(Timeout)
  {
    if i < k {
      ForwardKeepsTimeout(run, sid, c, i, k - 1);
      assert Forward(StatusAt(run, k - 1, sid, c), StatusAt(run, k - 1 + 1, sid, c));
    }
  }

  lemma TimedOutAtFire(run: Run, sid: SessionId, c: CommandId, f: nat, h: nat)
    requires run.Valid() && run.Is(f, sid, Fire(c)) && run.Handles(h, sid, c) && f < h
    ensures StatusAt(run, f + 1, sid, c) == Some(Timeout)
  {
    EventAt(run, f, sid, Fire(c));
    WatchedIsPastMark(run.states[f][sid], c);
    EventAt(run, h, sid, run.events[h].step);
    StepOnWires(run.states[h][sid], run.events[h].step, c);
    if Quiet(run.states[f][sid], c) {
      QuietForever(run, f, h, sid, c);
      assert false;
    }
    assert CommandInv(run.states[f][sid], c);
  }

  lemma ResultAfterFireRegresses(run: Run, sid: SessionId, c: CommandId, f: nat, h: nat)
    requires run.Valid() && run.Is(f, sid, Fire(c)) && run.Handles(h, sid, c) && f < h
    ensures !FollowsLifecycle(run, sid, c)
  {
    TimedOutAtFire(run, sid, c, f, h);
    EventAt(run, h, sid, run.events[h].step);
    if FollowsLifecycle(run, sid, c) {
      ForwardKeepsTimeout(run, sid, c, f + 1, h);
      ForwardKeepsTimeout(run, sid, c, f + 1, h + 1);
      HandleForward(run.states[h][sid], c, run.events[h].step.status);
      assert false;
    }
  }

  /**
   A run shows the documented lifecycle for a command exactly when its Sent mark precedes every
   result handled for it and its watcher fires after every one of them.
   */
  lemma LifecycleExact(run: Run, sid: SessionId, c: CommandId)
    requires run.Valid()
    ensures FollowsLifecycle(run, sid, c) <==> TimelyResults(run, sid, c)
  {
    if TimelyResults(run, sid, c) {
      forall k | 0 <= k < |run.events| ensures Forward(StatusAt(run, k, sid, c), StatusAt(run, k + 1, sid, c)) {
        TimelyGoesForward(run, sid, c, k);
      }
    } else if h, m :| run.Handles(h, sid, c) && run.Is(m, sid, MarkSent(c)) && h <= m {
      MarkAfterResultRegresses(run, sid, c, h, m);
    } else {
      var f, h :| run.Is(f, sid, Fire(c)) && run.Handles(h, sid, c) && f <= h;
      ResultAfterFireRegresses(run, sid, c, f, h);
    }
  }

  // ---- Two runs that leave the documented lifecycle ------------------------------

  /** A run of session 0 alone, made longer by one of its steps. */
  lemma Then(run: Run, s: Session, step: Step, s': Session) returns (longer: Run)
    requires run.Valid() && run.states[|run.events|] == map[0 := s]
    requires Enabled(s, step) && Do(s, step) == s'
    ensures longer.Valid() && longer.events == run.events + [At(0, step)]
    ensures longer.states == run.states + [map[0 := s']]
  {
    longer := Run(run.states + [map[0 := s']], run.events + [At(0, step)]);
    assert map[0 := s][0 := s'] == map[0 := s'];
  }

  /** A command is saved, queued, taken and sent; the consumer has not marked it yet. */
  const SENT_UNMARKED := NEW_SESSION.(rows := map[7 := Pending], loop := Running, consumer := Delivered(7), toClient := [7])

  lemma SavedRun() returns (run: Run)
    ensures run.Valid() && |run.events| == 3
    ensures run.states[3] == map[0 := NEW_SESSION.(rows := map[7 := Pending], admins := map[7 := Saved])]
  {
    run := Run([map[], map[0 := NEW_SESSION]], [Register(0)]);
    assert map[][0 := NEW_SESSION] == map[0 := NEW_SESSION];
    var checked := NEW_SESSION.(admins := map[7 := Checked]);
    run := Then(run, NEW_SESSION, Check(7), checked);
    run := Then(run, checked, Save(7), NEW_SESSION.(rows := map[7 := Pending], admins := map[7 := Saved]));
  }

  lemma DeliveredRun() returns (run: Run)
    ensures run.Valid() && |run.events| == 7
    ensures run.states[7] == map[0 := SENT_UNMARKED]
  {
    run := SavedRun();
    var saved := NEW_SESSION.(rows := map[7 := Pending], admins := map[7 := Saved]);
    var queued := NEW_SESSION.(rows := map[7 := Pending], queue := [7]);
    assert saved.admins - {7} == map[];
    run := Then(run, saved, Enqueue(7), queued);
    var open := queued.(loop := Running, consumer := AtSelect);
    run := Then(run, queued, Open, open);
    var holding := open.(queue := [], consumer := Holding(7));
    run := Then(run, open, Take(7), holding);
    run := Then(run, holding, SendOk(7), SENT_UNMARKED);
  }

  const ANSWERED_UNMARKED := SENT_UNMARKED.(toClient := [], rows := map[7 := Completed])

  lemma AnsweredRun() returns (run: Run)
    ensures run.Valid() && |run.events| == 11 && run.Handles(10, 0, 7)
    ensures run.states[11] == map[0 := ANSWERED_UNMARKED]
  {
    run := DeliveredRun();
    var s := SENT_UNMARKED;
    var started := s.(toClient := [], client := Some(7), toServer := [Reply(7, Executing)]);
    run := Then(run, s, ClientStart(7, false), started);
    var finished := started.(client := None, toServer := [Reply(7, Executing), Reply(7, Completed)]);
    run := Then(run, started, ClientFinish(7, Completed, false), finished);
    var executing := finished.(toServer := [Reply(7, Completed)], rows := map[7 := Executing]);
    run := Then(run, finished, Handle(7, Executing), executing);
    run := Then(run, executing, Handle(7, Completed), ANSWERED_UNMARKED);
  }

  /**
   The client can answer before the consumer has marked the row Sent: a command that succeeded is
   then logged as Completed, Sent and finally Timeout.
   */
  lemma CompletedCanEndAsTimeout() returns (run: Run)
    ensures run.Valid() && !FollowsLifecycle(run, 0, 7)
    ensures |run.events| == 14
    ensures StatusAt(run, 11, 0, 7) == Some(Completed) && StatusAt(run, 14, 0, 7) == Some(Timeout)
  {
    run := AnsweredRun();
    var completed := ANSWERED_UNMARKED;
    var marked := completed.(consumer := Marked(7), rows := map[7 := Sent]);
    run := Then(run, completed, MarkSent(7), marked);
    var armed := marked.(consumer := AtSelect, watchers := {7});
    run := Then(run, marked, Arm(7), armed);
    run := Then(run, armed, Fire(7), armed.(watchers := {}, rows := map[7 := Timeout]));
    assert run.Handles(10, 0, 7) && run.Is(11, 0, MarkSent(7));
    LifecycleExact(run, 0, 7);
  }

  /** Timeout is not final either: a late Executing overwrites it. */
  lemma TimeoutCanTurnExecuting() returns (run: Run)
    ensures run.Valid() && !FollowsLifecycle(run, 0, 7)
    ensures |run.events| == 12
    ensures StatusAt(run, 11, 0, 7) == Some(Timeout) && StatusAt(run, 12, 0, 7) == Some(Executing)
  {
    run := DeliveredRun();
    var s := SENT_UNMARKED;
    var marked := s.(consumer := Marked(7), rows := map[7 := Sent]);
    run := Then(run, s, MarkSent(7), marked);
    var armed := marked.(consumer := AtSelect, watchers := {7});
    run := Then(run, marked, Arm(7), armed);
    var started := armed.(toClient := [], client := Some(7), toServer := [Reply(7, Executing)]);
    run := Then(run, armed, ClientStart(7, false), started);
    var fired := started.(watchers := {}, rows := map[7 := Timeout]);
    run := Then(run, started, Fire(7), fired);
    run := Then(run, fired, Handle(7, Executing), fired.(toServer := [], rows := map[7 := Executing]));
    assert run.Is(10, 0, Fire(7)) && run.Handles(11, 0, 7);
    LifecycleExact(run, 0, 7);
  }
}
