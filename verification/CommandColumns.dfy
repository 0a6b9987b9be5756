/**
 What a command's row holds besides its status, over whole runs of the command protocol: exit code,
 outputs, error text and times, as results and the watcher write them.
 */
module CommandColumns {
  import opened Options
  import opened CommandSession
  import opened CommandRuns
  import opened CommandOrder
  import opened CommandOutcome
  import opened CommandLifecycle
  import opened CommandLog

  /** What the result that event k handles carries, and the clock at event k. */
  datatype Content = Content(carried: nat -> Result, clock: nat -> int)

  ghost predicate Unfinished(status: Option<Status>) {
    status == Some(Pending) || status == Some(Sent) || status == Some(Executing)
  }

  /**
   The columns of a command's row in state k: a result overwrites all of them, a watcher that finds the
   row unfinished writes the error text and the finish time, and every other write keeps them.
   */
  ghost function Columns(run: Run, k: nat, sid: SessionId, c: CommandId, content: Content): Result
    requires k < |run.states| && k <= |run.events|
  {
    if k == 0 then NO_RESULT
    else
      var before := Columns(run, k - 1, sid, c, content);
      if run.Handles(k - 1, sid, c) then content.carried(k - 1)
      else if run.Is(k - 1, sid, Fire(c)) && Unfinished(StatusAt(run, k - 1, sid, c)) then
        before.(error := "command timed out", finishedAt := Some(content.clock(k - 1)))
      else before
  }

  /** The columns that the last result handled for the command has left, if there was one. */
  ghost function LastColumns(run: Run, k: nat, sid: SessionId, c: CommandId, content: Content): Result
    requires k <= |run.events|
  {
    var last := LastResult(run, k, sid, c);
    if last.Some? then content.carried(last.value.at) else NO_RESULT
  }

  /** A write other than a result or the watcher's leaves Timeout and verdicts alone. */
  lemma OtherWrites(s: Session, step: Step, c: CommandId)
    requires Inv(s) && Enabled(s, step) && !(step.Handle? && step.c == c) && step != Fire(c)
    ensures var before, after := StatusOf(s, c), StatusOf(Do(s, step), c);
            || after == before
            || (before == None && after == Some(Pending))
            || (before != Some(Timeout) && after == Some(Sent))
            || (before == Some(Pending) && after == Some(Failed))
  {
    assert CommandInv(s, c);
  }

  /** How event k changes the status of a command. */
  lemma StatusNext(run: Run, k: nat, sid: SessionId, c: CommandId)
    requires run.Valid() && k < |run.events|
    ensures var before, after := StatusAt(run, k, sid, c), StatusAt(run, k + 1, sid, c);
            if run.Handles(k, sid, c) then after == Some(run.events[k].step.status)
            else if run.Is(k, sid, Fire(c)) then after == if Unfinished(before) then Some(Timeout) else before
            else
              || after == before
              || (before == None && after == Some(Pending))
              || (before != Some(Timeout) && after == Some(Sent))
              || (before == Some(Pending) && after == Some(Failed))
  {
    var e := run.events[k];
    SessionsStay(run, k, k + 1);
    assert CanHappen(run.states[k], e);
    if sid in run.states[k + 1] {
      EventOnSession(run, k, sid);
      if e.At? && e.sid == sid {
        assert CommandInv(run.states[k][sid], c);
        if e.step.Handle? && e.step.c == c {
          HandleForward(run.states[k][sid], c, e.step.status);
        } else if e.step != Fire(c) {
          OtherWrites(run.states[k][sid], e.step, c);
        }
      }
    }
  }

  /** Event `fired` has timed the command out with the columns of its last result, and no result has been handled since. */
  ghost predicate TimedOutWith(run: Run, k: nat, sid: SessionId, c: CommandId, content: Content, fired: int)
    requires k < |run.states| && k <= |run.events|
  {
    && 0 <= fired < k && run.Is(fired, sid, Fire(c))
    && Columns(run, k, sid, c, content)
       == LastColumns(run, k, sid, c, content).(error := "command timed out", finishedAt := Some(content.clock(fired)))
    && forall h :: fired < h < k ==> !run.Handles(h, sid, c)
  }

  ghost predicate ColumnsInv(run: Run, k: nat, sid: SessionId, c: CommandId, content: Content)
    requires k < |run.states| && k <= |run.events|
  {
    var status, last := StatusAt(run, k, sid, c), LastResult(run, k, sid, c);
    && (status != Some(Timeout) ==> Columns(run, k, sid, c, content) == LastColumns(run, k, sid, c, content))
    && (status == Some(Timeout) ==> exists fired :: TimedOutWith(run, k, sid, c, content, fired))
    && (last.Some? ==> status.Some? && status != Some(Pending))
    && (last.Some? && status.Some? && status.value.Verdict() ==> status == Some(last.value.status))
  }

  lemma {:induction false} TimeoutNext(run: Run, k: nat, sid: SessionId, c: CommandId, content: Content, fired: int)
    requires run.Valid() && k < |run.events| && TimedOutWith(run, k, sid, c, content, fired)
    requires !run.Handles(k, sid, c) && StatusAt(run, k, sid, c) == Some(Timeout)
    ensures TimedOutWith(run, k + 1, sid, c, content, fired)
  {
  }

  lemma {:induction false} ColumnsHold(run: Run, k: nat, sid: SessionId, c: CommandId, content: Content)
    requires run.Valid() && k < |run.states|
    ensures ColumnsInv(run, k, sid, c, content)
  {
    if k > 0 {
      var before := StatusAt(run, k - 1, sid, c);
      ColumnsHold(run, k - 1, sid, c, content);
      StatusNext(run, k - 1, sid, c);
      if run.Handles(k - 1, sid, c) {
        assert run.Is(k - 1, sid, Handle(c, run.events[k - 1].step.status));
        ResultsAreAnswers(run, sid, c, k - 1, run.events[k - 1].step.status);
      } else if before == Some(Timeout) {
        var fired :| TimedOutWith(run, k - 1, sid, c, content, fired);
        TimeoutNext(run, k - 1, sid, c, content, fired);
      } else if run.Is(k - 1, sid, Fire(c)) && Unfinished(before) {
        assert TimedOutWith(run, k, sid, c, content, k - 1);
      }
    }
  }

  /**
   Whatever the interleaving, a row that says Completed or Failed has exactly the columns of the last
   result handled for it, which said so, or none if the command was refused; neither the Sent mark nor
   the watcher touches them. A row at Timeout keeps the exit code, the outputs and the start of its last
   result, and says that it timed out and when.
   */
  lemma ColumnsExact(run: Run, k: nat, sid: SessionId, c: CommandId, content: Content)
    requires run.Valid() && k < |run.states|
    ensures var status, last := StatusAt(run, k, sid, c), LastResult(run, k, sid, c);
            var row := Columns(run, k, sid, c, content);
            var kept := if last.Some? then content.carried(last.value.at) else NO_RESULT;
            && (status == Some(Completed) ==> last.Some? && last.value.status == Completed && row == kept)
            && (status == Some(Failed) ==> row == kept && (last.Some? ==> last.value.status == Failed))
            && (status != Some(Timeout) ==> row == kept)
            && (status == Some(Timeout) ==>
                  && row.exitCode == kept.exitCode && row.stdout == kept.stdout && row.stderr == kept.stderr
                  && row.startedAt == kept.startedAt && row.error == "command timed out"
                  && exists fired :: 0 <= fired < k && run.Is(fired, sid, Fire(c)) && row.finishedAt == Some(content.clock(fired)))
  {
    ColumnsHold(run, k, sid, c, content);
    CompletedHasResult(run, k, sid, c);
    if StatusAt(run, k, sid, c) == Some(Timeout) {
      var fired :| TimedOutWith(run, k, sid, c, content, fired);
    }
  }

  /** Only a result writes Completed. */
  lemma {:induction false} CompletedHasResult(run: Run, k: nat, sid: SessionId, c: CommandId)
    requires run.Valid() && k < |run.states|
    ensures StatusAt(run, k, sid, c) == Some(Completed) ==> LastResult(run, k, sid, c).Some?
  {
    if k > 0 {
      CompletedHasResult(run, k - 1, sid, c);
      StatusNext(run, k - 1, sid, c);
    }
  }
}
