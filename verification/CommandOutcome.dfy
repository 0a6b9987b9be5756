/**
 Where a command ends up once it has been marked Sent and its watcher has fired, whether or not its
 final result ever arrives.
 */
module CommandOutcome {
  import opened Options
  import opened CommandSession
  import opened CommandRuns
  import opened CommandOrder

  /** A result that was handled: by which event, and what it said. */
  datatype Handled = Handled(at: nat, status: Status)

  /** The last result handled for a command among the first k events. */
  ghost function LastResult(run: Run, k: nat, sid: SessionId, c: CommandId): Option<Handled>
    requires k <= |run.events|
  {
    if k == 0 then None
    else if run.Handles(k - 1, sid, c) then Some(Handled(k - 1, run.events[k - 1].step.status))
    else LastResult(run, k - 1, sid, c)
  }

  lemma {:induction false} LastResultIsHandled(run: Run, k: nat, sid: SessionId, c: CommandId)
    requires k <= |run.events|
    ensures LastResult(run, k, sid, c).Some? ==>
              var last := LastResult(run, k, sid, c).value;
              && last.at < k && run.Is(last.at, sid, Handle(c, last.status)) && run.Handles(last.at, sid, c)
              && (forall later :: last.at < later < k ==> !run.Handles(later, sid, c))
    ensures LastResult(run, k, sid, c).None? ==> forall h :: 0 <= h < k ==> !run.Handles(h, sid, c)
  {
    if k > 0 && !run.Handles(k - 1, sid, c) {
      LastResultIsHandled(run, k - 1, sid, c);
    }
  }

  // ---- One step -------------------------------------------------------------------------

  /** Past the Sent mark, only results and the watcher write the row. */
  lemma RowStays(s: Session, step: Step, c: CommandId)
    requires Inv(s) && Enabled(s, step) && PastMark(s, c)
    requires !(step.Handle? && step.c == c) && step != Fire(c)
    ensures StatusOf(Do(s, step), c) == StatusOf(s, c)
  {
    assert CommandInv(s, c);
  }

  lemma RowIsResult(s: Session, c: CommandId, status: Status)
    requires Inv(s) && Enabled(s, Handle(c, status)) && PastMark(s, c)
    ensures StatusOf(Do(s, Handle(c, status)), c) == Some(status)
  {
  }

  /** The watcher has fired, or can never be armed again. */
  ghost predicate Unwatched(s: Session, c: CommandId) {
    PastMark(s, c) && s.consumer != Marked(c) && c !in s.watchers
  }

  lemma UnwatchedStays(s: Session, step: Step, c: CommandId)
    requires Inv(s) && Enabled(s, step) && Unwatched(s, c)
    ensures Unwatched(Do(s, step), c)
  {
    PastMarkStays(s, step, c);
    assert CommandInv(s, c);
  }

  lemma FireUnwatches(s: Session, c: CommandId)
    requires Inv(s) && Enabled(s, Fire(c))
    ensures Unwatched(Do(s, Fire(c)), c)
    ensures StatusOf(Do(s, Fire(c)), c) == if s.rows[c].Terminal() then StatusOf(s, c) else Some(Timeout)
  {
    WatchedIsPastMark(s, c);
    PastMarkStays(s, Fire(c), c);
    assert CommandInv(s, c);
  }

  // ---- Whole runs -------------------------------------------------------------------------

  /** A watcher fires at most once. */
  lemma FiresOnce(run: Run, sid: SessionId, c: CommandId, i: nat, j: nat)
    requires run.Valid() && run.Is(i, sid, Fire(c)) && run.Is(j, sid, Fire(c))
    ensures i == j
  {
    if i < j {
      FiresOnlyOnce(run, sid, c, i, j);
    } else if j < i {
      FiresOnlyOnce(run, sid, c, j, i);
    }
  }

  lemma FiresOnlyOnce(run: Run, sid: SessionId, c: CommandId, i: nat, j: nat)
    requires run.Valid() && run.Is(i, sid, Fire(c)) && i < j < |run.events|
    ensures !run.Is(j, sid, Fire(c))
  {
    EventAt(run, i, sid, Fire(c));
    FireUnwatches(run.states[i][sid], c);
    var p := (s: Session) => Unwatched(s, c);
    forall s, step | Inv(s) && Enabled(s, step) && p(s) ensures p(Do(s, step)) {
      UnwatchedStays(s, step, c);
    }
    StaysTrue(run, i + 1, j, sid, p, _ => true);
    if run.Is(j, sid, Fire(c)) {
      EventAt(run, j, sid, Fire(c));
      assert false;
    }
  }

  /** What event k does to the row of a command past its mark. */
  lemma EventOnRow(run: Run, k: nat, sid: SessionId, c: CommandId)
    requires run.Valid() && k < |run.events| && sid in run.states[k] && PastMark(run.states[k][sid], c)
    ensures sid in run.states[k + 1]
    ensures var before, after := StatusOf(run.states[k][sid], c), StatusOf(run.states[k + 1][sid], c);
            if run.Handles(k, sid, c) then after == Some(run.events[k].step.status)
            else if run.Is(k, sid, Fire(c)) then
              before.Some? && after == if before.value.Terminal() then before else Some(Timeout)
            else after == before
  {
    SessionsStay(run, k, k + 1);
    EventOnSession(run, k, sid);
    var e := run.events[k];
    if e.At? && e.sid == sid {
      if e.step == Fire(c) {
        FireUnwatches(run.states[k][sid], c);
      } else if e.step.Handle? && e.step.c == c {
        RowIsResult(run.states[k][sid], c, e.step.status);
      } else {
        RowStays(run.states[k][sid], e.step, c);
      }
    }
  }

  /** What the row says after the mark and before the firing: the last result since the mark, or Sent. */
  function Unfired(mark: nat, last: Option<Handled>): Status {
    if last.Some? && mark < last.value.at then last.value.status else Sent
  }

  lemma {:induction false} BeforeFiring(run: Run, sid: SessionId, c: CommandId, mark: nat, k: nat)
    requires run.Valid() && run.Is(mark, sid, MarkSent(c)) && mark < k < |run.states|
    requires forall f :: mark < f < k ==> !run.Is(f, sid, Fire(c))
    ensures sid in run.states[k] && PastMark(run.states[k][sid], c)
    ensures StatusOf(run.states[k][sid], c) == Some(Unfired(mark, LastResult(run, k, sid, c)))
  {
    LastResultIsHandled(run, k, sid, c);
    if k == mark + 1 {
      EventAt(run, mark, sid, MarkSent(c));
      MarkSentPasses(run.states[mark][sid], c);
    } else {
      BeforeFiring(run, sid, c, mark, k - 1);
      PastMarkForever(run, k - 1, k, sid, c);
      EventOnRow(run, k - 1, sid, c);
    }
  }

  /** What the row says after mark and firing. */
  function Outcome(mark: nat, fired: nat, last: Option<Handled>): Status {
    if last.Some? && fired < last.value.at then last.value.status
    else if last.Some? && mark < last.value.at && last.value.status.Verdict() then last.value.status
    else Timeout
  }

  /** After the firing only a result changes the row. */
  lemma {:induction false} AfterFiring(run: Run, sid: SessionId, c: CommandId, mark: nat, fired: nat, k: nat)
    requires run.Valid() && fired < k < |run.events| && sid in run.states[k] && PastMark(run.states[k][sid], c)
    requires !run.Is(k, sid, Fire(c))
    requires StatusOf(run.states[k][sid], c) == Some(Outcome(mark, fired, LastResult(run, k, sid, c)))
    ensures sid in run.states[k + 1] && PastMark(run.states[k + 1][sid], c)
    ensures StatusOf(run.states[k + 1][sid], c) == Some(Outcome(mark, fired, LastResult(run, k + 1, sid, c)))
  {
    PastMarkForever(run, k, k + 1, sid, c);
    EventOnRow(run, k, sid, c);
  }

  /** Results are Executing, Completed or Failed. */
  lemma ResultsAreAnswers(run: Run, sid: SessionId, c: CommandId, h: nat, status: Status)
    requires run.Valid() && run.Is(h, sid, Handle(c, status))
    ensures status == Executing || status.Verdict()
  {
    EventAt(run, h, sid, Handle(c, status));
    assert CommandInv(run.states[h][sid], c);
    StepOnToServer(run.states[h][sid], Handle(c, status), c);
  }

  /**
   The status of every command that was marked Sent and whose watcher has fired, from the order of
   its events alone: the last result if it came after the firing; else the last result if it came
   after the mark and was a verdict; else Timeout.
   */
  lemma {:induction false} OutcomeExact(run: Run, sid: SessionId, c: CommandId, mark: nat, fired: nat, k: nat)
    requires run.Valid() && run.Is(mark, sid, MarkSent(c)) && run.Is(fired, sid, Fire(c)) && fired < k < |run.states|
    ensures sid in run.states[k] && PastMark(run.states[k][sid], c)
    ensures StatusOf(run.states[k][sid], c) == Some(Outcome(mark, fired, LastResult(run, k, sid, c)))
  {
    FireFollowsMark(run, sid, c, mark, fired);
    if k == fired + 1 {
      AtFiring(run, sid, c, mark, fired);
    } else {
      OutcomeExact(run, sid, c, mark, fired, k - 1);
      FiresOnlyOnce(run, sid, c, fired, k - 1);
      AfterFiring(run, sid, c, mark, fired, k - 1);
    }
  }

  lemma {:induction false} AtFiring(run: Run, sid: SessionId, c: CommandId, mark: nat, fired: nat)
    requires run.Valid() && run.Is(mark, sid, MarkSent(c)) && run.Is(fired, sid, Fire(c)) && mark < fired
    ensures sid in run.states[fired + 1] && PastMark(run.states[fired + 1][sid], c)
    ensures StatusOf(run.states[fired + 1][sid], c) == Some(Outcome(mark, fired, LastResult(run, fired + 1, sid, c)))
  {
    forall f | mark < f < fired ensures !run.Is(f, sid, Fire(c)) {
      if run.Is(f, sid, Fire(c)) {
        FiresOnce(run, sid, c, f, fired);
      }
    }
    BeforeFiring(run, sid, c, mark, fired);
    PastMarkForever(run, fired, fired + 1, sid, c);
    EventOnRow(run, fired, sid, c);
    LastResultIsHandled(run, fired, sid, c);
    var last := LastResult(run, fired, sid, c);
    if last.Some? {
      ResultsAreAnswers(run, sid, c, last.value.at, last.value.status);
    }
  }

  /**
   A marked and fired command is not left at a terminal status exactly when the last result handled
   for it is an Executing that came after the firing. If its verdict is lost, that is for good.
   */
  lemma StuckExact(run: Run, sid: SessionId, c: CommandId, mark: nat, fired: nat, k: nat)
    requires run.Valid() && run.Is(mark, sid, MarkSent(c)) && run.Is(fired, sid, Fire(c)) && fired < k < |run.states|
    ensures sid in run.states[k]
    ensures StatusOf(run.states[k][sid], c).Some?
    ensures !StatusOf(run.states[k][sid], c).value.Terminal() <==>
              exists h :: fired < h < k && run.Is(h, sid, Handle(c, Executing))
                          && forall later :: h < later < k ==> !run.Handles(later, sid, c)
    ensures StatusOf(run.states[k][sid], c).value.Terminal() || StatusOf(run.states[k][sid], c) == Some(Executing)
  {
    OutcomeExact(run, sid, c, mark, fired, k);
    LastResultIsHandled(run, k, sid, c);
    var last := LastResult(run, k, sid, c);
    if last.Some? {
      ResultsAreAnswers(run, sid, c, last.value.at, last.value.status);
    }
    if h :| fired < h < k && run.Is(h, sid, Handle(c, Executing)) && forall later :: h < later < k ==> !run.Handles(later, sid, c) {
      LastResultIs(run, k, sid, c, h);
    }
  }

  lemma {:induction false} LastResultIs(run: Run, k: nat, sid: SessionId, c: CommandId, h: nat)
    requires k <= |run.events| && h < k && run.Handles(h, sid, c)
    requires forall later :: h < later < k ==> !run.Handles(later, sid, c)
    ensures LastResult(run, k, sid, c) == Some(Handled(h, run.events[h].step.status))
  {
    LastResultIsHandled(run, k, sid, c);
  }

  // ---- Commands that are never sent -------------------------------------------------------------

  lemma RefusalSettles(s: Session, step: Step, c: CommandId)
    requires Inv(s) && Enabled(s, step) && (step == Reject(c) || step == MarkFailed(c))
    ensures Settled(Do(s, step), c, Failed)
  {
    assert CommandInv(s, c);
    StepOnWires(s, step, c);
  }

  /** A command rejected for a full queue, or whose send failed, is Failed from then on, for good. */
  lemma RefusedIsFailed(run: Run, sid: SessionId, c: CommandId, step: Step, refused: nat, k: nat)
    requires run.Valid() && (step == Reject(c) || step == MarkFailed(c))
    requires run.Is(refused, sid, step) && refused < k < |run.states|
    ensures sid in run.states[k] && StatusOf(run.states[k][sid], c) == Some(Failed)
  {
    EventAt(run, refused, sid, step);
    RefusalSettles(run.states[refused][sid], step, c);
    SettledForever(run, refused + 1, k, sid, c, Failed);
  }

  // ---- The client starts a command once ------------------------------------------------------

  /** The command has left the stream for good. */
  ghost predicate PickedUp(s: Session, c: CommandId) {
    c in s.rows && !Unsent(s, c) && Occurs(s.toClient, c) == 0
  }

  lemma StartPicksUp(s: Session, c: CommandId, lost: bool)
    requires Inv(s) && Enabled(s, ClientStart(c, lost))
    ensures PickedUp(Do(s, ClientStart(c, lost)), c)
  {
    assert CommandInv(s, c);
    StepOnToClient(s, ClientStart(c, lost), c);
    assert Occurs(s.toClient, c) > 0;
  }

  lemma PickedUpStays(s: Session, step: Step, c: CommandId)
    requires Inv(s) && Enabled(s, step) && PickedUp(s, c)
    ensures PickedUp(Do(s, step), c)
  {
    assert CommandInv(s, c);
    StepOnToClient(s, step, c);
    StepOnCommands(s, step, c);
  }

  lemma StartsOnlyOnce(run: Run, sid: SessionId, c: CommandId, i: nat, lost: bool, j: nat, lost': bool)
    requires run.Valid() && run.Is(i, sid, ClientStart(c, lost)) && i < j < |run.events|
    ensures !run.Is(j, sid, ClientStart(c, lost'))
  {
    EventAt(run, i, sid, ClientStart(c, lost));
    StartPicksUp(run.states[i][sid], c, lost);
    var p := (s: Session) => PickedUp(s, c);
    forall s, step | Inv(s) && Enabled(s, step) && p(s) ensures p(Do(s, step)) {
      PickedUpStays(s, step, c);
    }
    StaysTrue(run, i + 1, j, sid, p, _ => true);
    if run.Is(j, sid, ClientStart(c, lost')) {
      EventAt(run, j, sid, ClientStart(c, lost'));
      assert false;
    }
  }

  lemma StarterKnows(run: Run, i: nat, k: nat, sid: SessionId, c: CommandId, lost: bool)
    requires run.Valid() && run.Is(i, sid, ClientStart(c, lost)) && i < k < |run.states|
    ensures sid in run.states[k] && Knows(run.states[k][sid], c)
  {
    EventAt(run, i, sid, ClientStart(c, lost));
    StartPicksUp(run.states[i][sid], c, lost);
    var p := (s: Session) => PickedUp(s, c);
    forall s, step | Inv(s) && Enabled(s, step) && p(s) ensures p(Do(s, step)) {
      PickedUpStays(s, step, c);
    }
    StaysTrue(run, i + 1, k, sid, p, _ => true);
  }

  /** No command is started twice, in one session or in two, whatever breaks and reopens in between. */
  lemma StartsOnce(run: Run, sid: SessionId, other: SessionId, c: CommandId, i: nat, lost: bool, j: nat, lost': bool)
    requires run.Valid() && run.Is(i, sid, ClientStart(c, lost)) && run.Is(j, other, ClientStart(c, lost'))
    ensures i == j && sid == other
  {
    var k := if i < j then j + 1 else i + 1;
    StarterKnows(run, i, k, sid, c, lost);
    StarterKnows(run, j, k, other, c, lost');
    OneSessionPerCommand(run, k, sid, other, c);
    if i < j {
      StartsOnlyOnce(run, sid, c, i, lost, j, lost');
    } else if j < i {
      StartsOnlyOnce(run, sid, c, j, lost', i, lost);
    }
  }
}
