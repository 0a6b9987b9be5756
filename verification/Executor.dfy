/** The client's command executor and the loops around it: dispatchCommand, recvLoop, connect and Run. */
module Executor {
  import opened Options
  import opened Sequences
  import opened CommandSession
  import opened ClientStream
  import opened ReportDedup

  datatype Kind = CollectNow | RunScript | Restart | Shutdown | Unsupported

  /** `script` is the parameter cmd, empty when it is missing. */
  datatype Command = Command(id: CommandId, kind: Kind, script: string)

  /** How exec.Cmd.Output ended; an exit code is an int, which the result carries as an int32. */
  datatype RunEnd =
    | Ran(stdout: string)
    | DeadlineExceeded
    | Exited(code: int, stdout: string, stderr: string)
    | NotRun(stdout: string, error: string)

  /** Where a command's handling panics, if it does. */
  datatype PanicPoint = NoPanic | BeforeExecuting | InHandler | BeforeFinal | AfterFinal

  /** What the machine and the network do while one command is served. */
  datatype World = World(
    info: Option<Info>, run: RunEnd, panic: PanicPoint,
    executingOk: bool, reportOk: bool, finalOk: bool, recoveredOk: bool)

  datatype Job = Job(cmd: Command, world: World)

  /** A result handed to stream.Send. */
  datatype Emitted = Emitted(id: CommandId, answer: Answer, ok: bool)
  {
    function ToReply(): Reply {
      Reply(id, answer.status)
    }
  }

  // ---- What a command should answer ----------------------------------------------------

  /** Go's int32(n). */
  function ToI32(n: int): (m: int)
    ensures -0x8000_0000 <= m < 0x8000_0000
    ensures (n - m) % 0x1_0000_0000 == 0
  {
    var low := n % 0x1_0000_0000;
    if low < 0x8000_0000 then low else low - 0x1_0000_0000
  }

  const STARTED := Answer(Executing, 0, "", "", "")

  function Refused(error: string): Answer {
    Answer(Failed, -1, "", "", error)
  }

  /** Only a failed command has a nonzero exit code or an error output, and a command that ran keeps its output. */
  function RunAnswer(script: string, run: RunEnd): (a: Answer)
    ensures a.status == Completed || a.status == Failed
    ensures a.status == Completed <==> script != "" && (run.Ran? || (run.Exited? && ToI32(run.code) == 0))
    ensures a.status == Completed <==> a.exitCode == 0
    ensures a.status == Completed ==> a.stderr == "" && a.error == ""
    ensures script != "" && !run.DeadlineExceeded? ==> a.stdout == run.stdout
    ensures script != "" && run.Exited? ==>
      a.exitCode == ToI32(run.code) && (a.exitCode != 0 ==> a.stderr == run.stderr && a.error == "")
    ensures script != "" && run.NotRun? ==> a.exitCode == -1 && a.stderr == run.error && a.error == ""
    ensures script != "" && run.DeadlineExceeded? ==>
      a.exitCode == -1 && a.stdout == a.stderr == "" && a.error == "command timed out"
    ensures script == "" ==> a.exitCode == -1 && a.stdout == a.stderr == "" && a.error == "missing required param: cmd"
  {
    if script == "" then Refused("missing required param: cmd")
    else match run
      case Ran(stdout) => Answer(Completed, 0, stdout, "", "")
      case DeadlineExceeded => Refused("command timed out")
      case Exited(code, stdout, stderr) =>
        if ToI32(code) == 0 then Answer(Completed, 0, stdout, "", "") else Answer(Failed, ToI32(code), stdout, stderr, "")
      case NotRun(stdout, error) => Answer(Failed, -1, stdout, error, "")
  }

  /** Completed means that the server has been sent the snapshot collected, now or before. */
  function CollectAnswer(hash: Hash, last: string, world: World): (a: Answer)
    ensures a.status == Completed || a.status == Failed
    ensures a.status == Completed <==> world.info.Some? && (hash(world.info.value) == last != "" || world.reportOk)
    ensures a.status == Completed ==> a.exitCode == 0 && a.stderr == a.error == ""
    ensures a.status == Failed ==> a.exitCode == -1 && a.stdout == a.stderr == "" && a.error != ""
  {
    if world.info.None? then Refused("hardware collection returned nil")
    else if Changed(hash, last, world.info.value) && !world.reportOk then Refused("send report failed")
    else Answer(Completed, 0, "hardware report triggered", "", "")
  }

  /** The handler's own final answer to a command. */
  function FinalAnswer(hash: Hash, last: string, job: Job): (a: Answer)
    ensures a.status.Verdict()
    ensures a.status.Completed? <==> a.exitCode == 0
    ensures a.status.Completed? ==> a.stderr == "" && a.error == ""
    ensures job.cmd.kind == Restart || job.cmd.kind == Shutdown ==> a.status.Completed?
    ensures job.cmd.kind == Unsupported ==> a.status.Failed? && a.stdout == "" && a.error != ""
  {
    match job.cmd.kind
    case CollectNow => CollectAnswer(hash, last, job.world)
    case RunScript => RunAnswer(job.cmd.script, job.world.run)
    case Restart => Answer(Completed, 0, "restarting", "", "")
    case Shutdown => Answer(Completed, 0, "shutting down", "", "")
    case Unsupported => Refused("unsupported command type")
  }

  function Says(job: Job, answer: Answer, ok: bool): Emitted {
    Emitted(job.cmd.id, answer, ok)
  }

  /** What is left of a handler's final send when it may panic just before it. */
  function FinalOf(job: Job, answer: Answer): seq<Emitted> {
    if job.world.panic.BeforeFinal? then [] else [Says(job, answer, job.world.finalOk)]
  }

  /** The results of one command, given its handler's final answer. */
  function Block(job: Job, final: Answer): seq<Emitted> {
    var started := Says(job, STARTED, job.world.executingOk);
    var recovered := Says(job, Refused("handler panic"), job.world.recoveredOk);
    match job.world.panic
    case NoPanic => [started, Says(job, final, job.world.finalOk)]
    case BeforeExecuting => [recovered]
    case AfterFinal => [started, Says(job, final, job.world.finalOk), recovered]
    case _ => [started, recovered]
  }

  /** The offer a command makes to the report cache, if it gets that far. */
  function OffersOf(job: Job): seq<Offer> {
    if job.cmd.kind == CollectNow && job.world.info.Some? && !job.world.panic.BeforeExecuting? && !job.world.panic.InHandler?
    then [Offer(job.world.info.value, job.world.reportOk)]
    else []
  }

  /** This command ends the session: its handler gets as far as cancelSession. */
  predicate Stops(job: Job) {
    (job.cmd.kind == Restart || job.cmd.kind == Shutdown) && job.world.panic == NoPanic
  }

  lemma {:induction false} OneOffer(hash: Hash, last: string, offer: Offer)
    ensures AttemptsFor(hash, last, [offer]) == if Changed(hash, last, offer.info) then [Attempt(Report(offer.info), offer.ok)] else []
    ensures CacheAfter(hash, last, [offer]) == if Changed(hash, last, offer.info) && offer.ok then hash(offer.info) else last
  {
    assert [offer][..0] == [];
  }

  /**
   A collect-now command whose handler runs to its final send says Completed exactly when the report cache
   then stands for the snapshot it collected; it reports that snapshot exactly when the cache stood for
   another one, and no other command reports anything.
   */
  lemma {:induction false} CollectedIsSent(hash: Hash, last: string, job: Job)
    requires Faithful(hash)
    ensures var world, reports := job.world, AttemptsFor(hash, last, OffersOf(job));
            if job.cmd.kind == CollectNow && world.info.Some? && !world.panic.BeforeExecuting? && !world.panic.InHandler? then
              && (FinalAnswer(hash, last, job).status.Completed?
                  <==> CacheAfter(hash, last, OffersOf(job)) == hash(world.info.value))
              && reports == if hash(world.info.value) == last then [] else [Attempt(Report(world.info.value), world.reportOk)]
            else reports == [] && CacheAfter(hash, last, OffersOf(job)) == last
  {
    if OffersOf(job) != [] {
      OneOffer(hash, last, OffersOf(job)[0]);
    }
  }

  /**
   What the server is told last about a command: its handler's own answer if nothing panics, and otherwise
   that it failed; it is told first that the command is executing, unless the panic came before.
   */
  lemma PanicIsFailed(job: Job, final: Answer)
    ensures var block := Block(job, final);
            && block != [] && (forall i :: 0 <= i < |block| ==> block[i].id == job.cmd.id)
            && block[|block| - 1].answer
               == (if job.world.panic.NoPanic? then final else Answer(Failed, -1, "", "", "handler panic"))
            && (block[0].answer == Answer(Executing, 0, "", "", "") || job.world.panic.BeforeExecuting?)
  {
  }

  // ---- The results among the messages ------------------------------------------------------

  function Results(attempts: seq<Attempt>): seq<Emitted> {
    if attempts == [] then []
    else
      var init, last := attempts[..|attempts| - 1], attempts[|attempts| - 1];
      if last.msg.Result? then Results(init) + [Emitted(last.msg.id, last.msg.answer, last.ok)] else Results(init)
  }

  function ReportAttempts(attempts: seq<Attempt>): seq<Attempt> {
    if attempts == [] then []
    else
      var init, last := attempts[..|attempts| - 1], attempts[|attempts| - 1];
      if last.msg.Report? then ReportAttempts(init) + [last] else ReportAttempts(init)
  }

  // ---- A session's commands ---------------------------------------------------------------

  /**
   What happens before stream.Recv fails: it returns a command to serve or a message that is skipped,
   or the process's context is cancelled before the next call.
   */
  datatype Incoming = Serve(job: Job) | HeartbeatAck | Unknown | Cancel

  /** How the receive loop ends: its context is done, the server closed the stream, or the stream broke. */
  datatype Ended = Cancelled | Eof | Broken(denied: bool)

  predicate EndsInStop(jobs: seq<Job>) {
    jobs != [] && Stops(jobs[|jobs| - 1])
  }

  /** The session's context is done: a handler has ended the session, or the process's context is cancelled. */
  predicate Done(cancelled: bool, incoming: seq<Incoming>) {
    if incoming == [] then cancelled
    else
      var last := incoming[|incoming| - 1];
      Done(cancelled, incoming[..|incoming| - 1]) || last.Cancel? || (last.Serve? && Stops(last.job))
  }

  /** The process's context is cancelled before any handler has ended the session. */
  predicate FromOutside(cancelled: bool, incoming: seq<Incoming>) {
    incoming != []
    && (|| FromOutside(cancelled, incoming[..|incoming| - 1])
        || (incoming[|incoming| - 1].Cancel? && !Done(cancelled, incoming[..|incoming| - 1])))
  }

  /** The commands served: none once the context is done. */
  function Served(cancelled: bool, incoming: seq<Incoming>): seq<Job> {
    if incoming == [] then []
    else
      var init, last := incoming[..|incoming| - 1], incoming[|incoming| - 1];
      if last.Serve? && !Done(cancelled, init) then Served(cancelled, init) + [last.job] else Served(cancelled, init)
  }

  predicate EndsIn(jobs: seq<Job>, kind: Kind) {
    EndsInStop(jobs) && jobs[|jobs| - 1].cmd.kind == kind
  }

  /** What the next message changes. */
  lemma {:induction false} ServedNext(cancelled: bool, incoming: seq<Incoming>, i: nat)
    requires i < |incoming| && !Done(cancelled, incoming[..i])
    ensures var before, next := Served(cancelled, incoming[..i]), incoming[i];
            && !EndsInStop(before)
            && Served(cancelled, incoming[..i + 1]) == (if next.Serve? then before + [next.job] else before)
            && Done(cancelled, incoming[..i + 1]) == (next.Cancel? || (next.Serve? && Stops(next.job)))
            && FromOutside(cancelled, incoming[..i + 1]) == (FromOutside(cancelled, incoming[..i]) || next.Cancel?)
  {
    assert incoming[..i + 1][..i] == incoming[..i];
    StopIsDone(cancelled, incoming[..i]);
  }

  lemma {:induction false} StopIsDone(cancelled: bool, incoming: seq<Incoming>)
    ensures EndsInStop(Served(cancelled, incoming)) ==> Done(cancelled, incoming)
  {
    if incoming != [] {
      StopIsDone(cancelled, incoming[..|incoming| - 1]);
    }
  }

  lemma {:induction false} NothingAfterDone(cancelled: bool, incoming: seq<Incoming>, i: nat)
    requires i <= |incoming| && Done(cancelled, incoming[..i])
    ensures Done(cancelled, incoming)
    ensures Served(cancelled, incoming) == Served(cancelled, incoming[..i])
    ensures FromOutside(cancelled, incoming) == FromOutside(cancelled, incoming[..i])
  {
    if i == |incoming| {
      assert incoming[..i] == incoming;
    } else {
      var init := incoming[..|incoming| - 1];
      assert init[..i] == incoming[..i];
      NothingAfterDone(cancelled, init, i);
    }
  }

  function AllOffers(jobs: seq<Job>): seq<Offer> {
    if jobs == [] then [] else AllOffers(jobs[..|jobs| - 1]) + OffersOf(jobs[|jobs| - 1])
  }

  /** The results a session's commands cause, oldest first. */
  function Trace(hash: Hash, last: string, jobs: seq<Job>): seq<Emitted> {
    if jobs == [] then []
    else
      var init, job := jobs[..|jobs| - 1], jobs[|jobs| - 1];
      Trace(hash, last, init) + Block(job, FinalAnswer(hash, CacheAfter(hash, last, AllOffers(init)), job))
  }

  /** Serving these commands has added these messages to the stream's and left this cache. */
  ghost predicate Answers(hash: Hash, last: string, jobs: seq<Job>, before: seq<Attempt>, after: seq<Attempt>, cached: string) {
    && Results(after) == Results(before) + Trace(hash, last, jobs)
    && ReportAttempts(after) == ReportAttempts(before) + AttemptsFor(hash, last, AllOffers(jobs))
    && cached == CacheAfter(hash, last, AllOffers(jobs))
  }

  lemma NoAnswers(hash: Hash, last: string, before: seq<Attempt>)
    ensures Answers(hash, last, [], before, before, last)
  {
  }

  /** One more command served. */
  lemma {:induction false} AnswersNext(hash: Hash, last: string, jobs: seq<Job>, job: Job, before: seq<Attempt>,
                    mid: seq<Attempt>, cached: string, after: seq<Attempt>, cached': string)
    requires Answers(hash, last, jobs, before, mid, cached)
    requires Results(after) == Results(mid) + Block(job, FinalAnswer(hash, cached, job))
    requires ReportAttempts(after) == ReportAttempts(mid) + AttemptsFor(hash, cached, OffersOf(job))
    requires cached' == CacheAfter(hash, cached, OffersOf(job))
    ensures Answers(hash, last, jobs + [job], before, after, cached')
    ensures EndsInStop(jobs + [job]) == Stops(job)
    ensures forall kind :: EndsIn(jobs + [job], kind) == (Stops(job) && job.cmd.kind == kind)
  {
    assert (jobs + [job])[..|jobs|] == jobs;
    AcrossReconnects(hash, last, AllOffers(jobs), OffersOf(job));
    CacheAcross(hash, last, AllOffers(jobs), OffersOf(job));
    Assoc(Results(before), Trace(hash, last, jobs), Block(job, FinalAnswer(hash, cached, job)));
    Assoc(ReportAttempts(before), AttemptsFor(hash, last, AllOffers(jobs)), AttemptsFor(hash, cached, OffersOf(job)));
  }

  class Client {
    const cache: ReportCache
    var restartRequested: bool
    var shutdownRequested: bool
    /** The process's context is done. */
    var parentDone: bool
    /** The session's context is done. */
    var cancelled: bool

    constructor (cache: ReportCache)
      ensures this.cache == cache && !restartRequested && !shutdownRequested && !parentDone && !cancelled
    {
      this.cache := cache;
      restartRequested, shutdownRequested, parentDone, cancelled := false, false, false, false;
    }

    method SendCommandResult(stream: Stream, id: CommandId, answer: Answer, ok: bool)
      modifies stream
      ensures Results(stream.attempts) == Results(old(stream.attempts)) + [Emitted(id, answer, ok)]
      ensures ReportAttempts(stream.attempts) == ReportAttempts(old(stream.attempts))
    {
      stream.Send(Result(id, answer), ok);
      assert stream.attempts[..|stream.attempts| - 1] == old(stream.attempts);
    }

    /** A handler's final send, with the panics just before and just after it. */
    method Finish(stream: Stream, job: Job, answer: Answer) returns (panicked: bool)
      modifies stream
      ensures Results(stream.attempts) == Results(old(stream.attempts)) + FinalOf(job, answer)
      ensures ReportAttempts(stream.attempts) == ReportAttempts(old(stream.attempts))
      ensures panicked <==> job.world.panic.BeforeFinal? || job.world.panic.AfterFinal?
    {
      if job.world.panic.BeforeFinal? {
        return true;
      }
      SendCommandResult(stream, job.cmd.id, answer, job.world.finalOk);
      panicked := job.world.panic.AfterFinal?;
    }

    /** The check, send and mark of handleCollectNow. */
    method SendIfChanged(stream: Stream, offer: Offer) returns (ok: bool)
      modifies stream, cache
      ensures Results(stream.attempts) == Results(old(stream.attempts))
      ensures ReportAttempts(stream.attempts)
              == ReportAttempts(old(stream.attempts)) + AttemptsFor(cache.hash, old(cache.lastHash), [offer])
      ensures cache.lastHash == CacheAfter(cache.hash, old(cache.lastHash), [offer])
      ensures ok <==> !Changed(cache.hash, old(cache.lastHash), offer.info) || offer.ok
    {
      OneOffer(cache.hash, cache.lastHash, offer);
      var changed := cache.IsChanged(offer.info);
      if changed {
        stream.Send(Report(offer.info), offer.ok);
        assert stream.attempts[..|stream.attempts| - 1] == old(stream.attempts);
        if !offer.ok {
          return false;
        }
        cache.MarkSent(offer.info);
      }
      ok := true;
    }

    method HandleCollectNow(stream: Stream, job: Job) returns (panicked: bool)
      requires job.cmd.kind == CollectNow && !job.world.panic.BeforeExecuting? && !job.world.panic.InHandler?
      modifies stream, cache
      ensures Results(stream.attempts)
              == Results(old(stream.attempts)) + FinalOf(job, CollectAnswer(cache.hash, old(cache.lastHash), job.world))
      ensures ReportAttempts(stream.attempts)
              == ReportAttempts(old(stream.attempts)) + AttemptsFor(cache.hash, old(cache.lastHash), OffersOf(job))
      ensures cache.lastHash == CacheAfter(cache.hash, old(cache.lastHash), OffersOf(job))
      ensures panicked <==> job.world.panic.BeforeFinal? || job.world.panic.AfterFinal?
    {
      if job.world.info.None? {
        panicked := Finish(stream, job, Refused("hardware collection returned nil"));
        return;
      }
      var ok := SendIfChanged(stream, Offer(job.world.info.value, job.world.reportOk));
      if !ok {
        panicked := Finish(stream, job, Refused("send report failed"));
        return;
      }
      panicked := Finish(stream, job, Answer(Completed, 0, "hardware report triggered", "", ""));
    }

    method HandleRunScript(stream: Stream, job: Job) returns (panicked: bool)
      modifies stream
      ensures Results(stream.attempts)
              == Results(old(stream.attempts)) + FinalOf(job, RunAnswer(job.cmd.script, job.world.run))
      ensures ReportAttempts(stream.attempts) == ReportAttempts(old(stream.attempts))
      ensures panicked <==> job.world.panic.BeforeFinal? || job.world.panic.AfterFinal?
    {
      if job.cmd.script == "" {
        panicked := Finish(stream, job, Refused("missing required param: cmd"));
        return;
      }
      var run := job.world.run;
      var exitCode, stdout, stderr := 0, "", "";
      match run {
        case Ran(out) =>
          stdout := out;
        case DeadlineExceeded =>
          panicked := Finish(stream, job, Refused("command timed out"));
          return;
        case Exited(code, out, err) =>
          exitCode, stdout := ToI32(code), out;
          if exitCode != 0 {
            stderr := err;
          }
        case NotRun(out, error) =>
          exitCode, stdout, stderr := -1, out, error;
      }
      var status := if exitCode != 0 then Failed else Completed;
      panicked := Finish(stream, job, Answer(status, exitCode, stdout, stderr, ""));
    }

    method HandleRestart(stream: Stream, job: Job) returns (panicked: bool)
      modifies stream, this`restartRequested, this`cancelled
      ensures Results(stream.attempts) == Results(old(stream.attempts)) + FinalOf(job, Answer(Completed, 0, "restarting", "", ""))
      ensures ReportAttempts(stream.attempts) == ReportAttempts(old(stream.attempts))
      ensures panicked <==> job.world.panic.BeforeFinal? || job.world.panic.AfterFinal?
      ensures restartRequested == (old(restartRequested) || !panicked)
      ensures cancelled == (old(cancelled) || !panicked)
    {
      panicked := Finish(stream, job, Answer(Completed, 0, "restarting", "", ""));
      if !panicked {
        restartRequested := true;
        cancelled := true;
      }
    }

    /** os.Exit follows: nothing of this process runs after it. */
    method HandleShutdown(stream: Stream, job: Job) returns (panicked: bool)
      modifies stream, this`shutdownRequested, this`cancelled
      ensures Results(stream.attempts) == Results(old(stream.attempts)) + FinalOf(job, Answer(Completed, 0, "shutting down", "", ""))
      ensures ReportAttempts(stream.attempts) == ReportAttempts(old(stream.attempts))
      ensures panicked <==> job.world.panic.BeforeFinal? || job.world.panic.AfterFinal?
      ensures shutdownRequested == (old(shutdownRequested) || !panicked)
      ensures cancelled == (old(cancelled) || !panicked)
    {
      panicked := Finish(stream, job, Answer(Completed, 0, "shutting down", "", ""));
      if !panicked {
        shutdownRequested := true;
        cancelled := true;
      }
    }

    /** The switch of dispatchCommand. */
    method RunHandler(stream: Stream, job: Job) returns (panicked: bool)
      requires !job.world.panic.BeforeExecuting? && !job.world.panic.InHandler?
      modifies stream, cache, this`restartRequested, this`shutdownRequested, this`cancelled
      ensures Results(stream.attempts)
              == Results(old(stream.attempts)) + FinalOf(job, FinalAnswer(cache.hash, old(cache.lastHash), job))
      ensures ReportAttempts(stream.attempts)
              == ReportAttempts(old(stream.attempts)) + AttemptsFor(cache.hash, old(cache.lastHash), OffersOf(job))
      ensures cache.lastHash == CacheAfter(cache.hash, old(cache.lastHash), OffersOf(job))
      ensures panicked <==> job.world.panic.BeforeFinal? || job.world.panic.AfterFinal?
      ensures restartRequested == (old(restartRequested) || (Stops(job) && job.cmd.kind == Restart))
      ensures shutdownRequested == (old(shutdownRequested) || (Stops(job) && job.cmd.kind == Shutdown))
      ensures cancelled == (old(cancelled) || Stops(job))
    {
      match job.cmd.kind
      case CollectNow => panicked := HandleCollectNow(stream, job);
      case RunScript => panicked := HandleRunScript(stream, job);
      case Restart => panicked := HandleRestart(stream, job);
      case Shutdown => panicked := HandleShutdown(stream, job);
      case Unsupported => panicked := Finish(stream, job, Refused("unsupported command type"));
    }

    /** dispatchCommand: the deferred recovery answers Failed for a panic anywhere before it. */
    method DispatchCommand(stream: Stream, job: Job)
      modifies stream, cache, this`restartRequested, this`shutdownRequested, this`cancelled
      ensures Results(stream.attempts)
              == Results(old(stream.attempts)) + Block(job, FinalAnswer(cache.hash, old(cache.lastHash), job))
      ensures ReportAttempts(stream.attempts)
              == ReportAttempts(old(stream.attempts)) + AttemptsFor(cache.hash, old(cache.lastHash), OffersOf(job))
      ensures cache.lastHash == CacheAfter(cache.hash, old(cache.lastHash), OffersOf(job))
      ensures restartRequested == (old(restartRequested) || (Stops(job) && job.cmd.kind == Restart))
      ensures shutdownRequested == (old(shutdownRequested) || (Stops(job) && job.cmd.kind == Shutdown))
      ensures cancelled == (old(cancelled) || Stops(job))
    {
      var panicked := true;
      if !job.world.panic.BeforeExecuting? {
        SendCommandResult(stream, job.cmd.id, STARTED, job.world.executingOk);
        if !job.world.panic.InHandler? {
          panicked := RunHandler(stream, job);
        }
      }
      if panicked {
        SendCommandResult(stream, job.cmd.id, Refused("handler panic"), job.world.recoveredOk);
      }
    }

    /** The switch of recvLoop over what comes next. */
    method ReceiveNext(stream: Stream, next: Incoming, ghost last: string, ghost jobs: seq<Job>, ghost before: seq<Attempt>)
      requires !cancelled && !EndsInStop(jobs) && Answers(cache.hash, last, jobs, before, stream.attempts, cache.lastHash)
      modifies stream, cache, this
      ensures var jobs' := if next.Serve? then jobs + [next.job] else jobs;
              && Answers(cache.hash, last, jobs', before, stream.attempts, cache.lastHash)
              && restartRequested == (old(restartRequested) || EndsIn(jobs', Restart))
              && shutdownRequested == (old(shutdownRequested) || EndsIn(jobs', Shutdown))
      ensures cancelled == (next.Cancel? || (next.Serve? && Stops(next.job)))
      ensures parentDone == (old(parentDone) || next.Cancel?)
    {
      if next.Cancel? {
        parentDone, cancelled := true, true;
      } else if next.Serve? {
        ghost var attempts, cached := stream.attempts, cache.lastHash;
        DispatchCommand(stream, next.job);
        AnswersNext(cache.hash, last, jobs, next.job, before, attempts, cached, stream.attempts, cache.lastHash);
      }
    }

    /** recvLoop: the context is looked at before each Recv, and commands are served one at a time. */
    method RecvLoop(stream: Stream, incoming: seq<Incoming>, end: Ended) returns (ended: Ended)
      modifies stream, cache, this
      ensures Answers(cache.hash, old(cache.lastHash), Served(old(cancelled), incoming),
                      old(stream.attempts), stream.attempts, cache.lastHash)
      ensures cancelled == Done(old(cancelled), incoming)
      ensures parentDone == (old(parentDone) || FromOutside(old(cancelled), incoming))
      ensures restartRequested == (old(restartRequested) || EndsIn(Served(old(cancelled), incoming), Restart))
      ensures shutdownRequested == (old(shutdownRequested) || EndsIn(Served(old(cancelled), incoming), Shutdown))
      ensures ended == if cancelled then Cancelled else end
    {
      ghost var was, before, last := cancelled, stream.attempts, cache.lastHash;
      NoAnswers(cache.hash, last, before);
      for i := 0 to |incoming|
        invariant Answers(cache.hash, last, Served(was, incoming[..i]), before, stream.attempts, cache.lastHash)
        invariant cancelled == Done(was, incoming[..i])
        invariant parentDone == (old(parentDone) || FromOutside(was, incoming[..i]))
        invariant restartRequested == (old(restartRequested) || EndsIn(Served(was, incoming[..i]), Restart))
        invariant shutdownRequested == (old(shutdownRequested) || EndsIn(Served(was, incoming[..i]), Shutdown))
      {
        if cancelled {
          NothingAfterDone(was, incoming, i);
          return Cancelled;
        }
        ServedNext(was, incoming, i);
        ReceiveNext(stream, incoming[i], last, Served(was, incoming[..i]), before);
      }
      assert incoming[..|incoming|] == incoming;
      ended := if cancelled then Cancelled else end;
    }

    /** One register-and-stream session, from flags that are down. */
    method Connect(session: SessionEnd) returns (outcome: Outcome)
      requires !restartRequested && !shutdownRequested && !parentDone
      modifies cache, this
      ensures outcome == OutcomeOf(session)
      ensures outcome == Fatal <==> RefusedForGood(session)
      ensures outcome == Exit <==> ShutsDown(session)
      ensures outcome == Clean <==> EndsCleanly(session)
      ensures !restartRequested && (shutdownRequested <==> outcome == Exit)
      ensures parentDone <==> ProcessCancelled(session)
    {
      SessionEndExact(session);
      if session.Rejected? {
        return if session.fatal then Fatal else Retry;
      }
      var stream := new Stream();
      cancelled := false;
      DoneBy(session.incoming);
      var ended := RecvLoop(stream, session.incoming, session.end);
      if shutdownRequested {
        return Exit;
      }
      var restart := restartRequested;
      restartRequested := false;
      if restart {
        return Clean;
      }
      match ended
      case Eof => outcome := Clean;
      case Broken(denied) => outcome := if denied then Fatal else Retry;
      case Cancelled => outcome := Retry;
    }

    /**
     Run: waits[k] is the number the backoff before the k-th session is computed from, and no wait
     if it is zero. A session that ended cleanly, which a Restart command counts as, sets it back to
     zero and any other adds one. A fatal refusal, a Shutdown command and the cancelling of the
     process's context end the loop; the sessions run out when it is cancelled between two of them.
     */
    method Run(sessions: seq<SessionEnd>) returns (waits: seq<nat>)
      requires !restartRequested && !shutdownRequested && !parentDone
      modifies cache, this
      ensures |waits| <= |sessions|
      ensures Waits(sessions, waits)
      ensures forall k :: 0 <= k < |waits| - 1 ==> !EndsRun(sessions[k])
      ensures |waits| < |sessions| ==> |waits| > 0 && EndsRun(sessions[|waits| - 1])
    {
      waits := [];
      var attempt := 0;
      while |waits| < |sessions|
        invariant |waits| <= |sessions| && !restartRequested && !shutdownRequested && !parentDone
        invariant Waits(sessions, waits) && attempt == NextWait(sessions, waits)
        invariant forall k :: 0 <= k < |waits| ==> !EndsRun(sessions[k])
        decreases |sessions| - |waits|
      {
        var session := sessions[|waits|];
        WaitsNext(sessions, waits);
        waits := waits + [attempt];
        var outcome := Connect(session);
        match outcome {
          case Fatal => return;
          case Exit => return;
          case Retry => attempt := attempt + 1;
          case Clean => attempt := 0;
        }
        if parentDone {
          return;
        }
      }
    }
  }

  // ---- Sessions and reconnects --------------------------------------------------------------

  /** How one connect goes: refused before the stream opens, or a stream and how it ends. */
  datatype SessionEnd = Rejected(fatal: bool) | Streamed(incoming: seq<Incoming>, end: Ended)

  /** What Run makes of a connect; Exit is os.Exit. */
  datatype Outcome = Clean | Retry | Fatal | Exit

  /** Neither the process's cancelling nor a Restart or Shutdown that runs through. */
  predicate Harmless(e: Incoming) {
    !e.Cancel? && !RunsThrough(e, Restart) && !RunsThrough(e, Shutdown)
  }

  predicate RunsThrough(e: Incoming, kind: Kind) {
    e.Serve? && e.job.cmd.kind == kind && e.job.world.panic == NoPanic
  }

  /** The i-th message is the first that is not harmless, and a command of this kind. */
  ghost predicate StoppedAt(incoming: seq<Incoming>, i: int, kind: Kind) {
    0 <= i < |incoming| && RunsThrough(incoming[i], kind) && forall j :: 0 <= j < i ==> Harmless(incoming[j])
  }

  /** The process is cancelled first. */
  ghost predicate CancelledAt(incoming: seq<Incoming>, i: int) {
    0 <= i < |incoming| && incoming[i].Cancel? && forall j :: 0 <= j < i ==> Harmless(incoming[j])
  }

  /** Nothing but the stream's own end ends the session. */
  ghost predicate Uneventful(session: SessionEnd) {
    session.Streamed? && forall j :: 0 <= j < |session.incoming| ==> Harmless(session.incoming[j])
  }

  /** The server has refused the device, or has ended the stream with a denial. */
  ghost predicate RefusedForGood(session: SessionEnd) {
    session == Rejected(true) || (Uneventful(session) && session.end == Broken(true))
  }

  /** A Restart has run through, however the stream ended, or the server has closed the stream. */
  ghost predicate EndsCleanly(session: SessionEnd) {
    || (session.Streamed? && exists i :: StoppedAt(session.incoming, i, Restart))
    || (Uneventful(session) && session.end == Eof)
  }

  /** A Shutdown has run through. */
  ghost predicate ShutsDown(session: SessionEnd) {
    session.Streamed? && exists i :: StoppedAt(session.incoming, i, Shutdown)
  }

  ghost predicate ProcessCancelled(session: SessionEnd) {
    session.Streamed? && exists i :: CancelledAt(session.incoming, i)
  }

  /** No session follows this one. */
  ghost predicate EndsRun(session: SessionEnd) {
    RefusedForGood(session) || ShutsDown(session) || ProcessCancelled(session)
  }

  /** The wait before the session that comes next: none at first and after a clean end, else one step more than the last. */
  ghost function NextWait(sessions: seq<SessionEnd>, waits: seq<nat>): nat
    requires |waits| <= |sessions|
  {
    if waits == [] || EndsCleanly(sessions[|waits| - 1]) then 0 else waits[|waits| - 1] + 1
  }

  ghost predicate Waits(sessions: seq<SessionEnd>, waits: seq<nat>)
    requires |waits| <= |sessions|
  {
    && (waits != [] ==> waits[0] == 0)
    && (forall k :: 0 < k < |waits| ==> waits[k] == if EndsCleanly(sessions[k - 1]) then 0 else waits[k - 1] + 1)
  }

  lemma WaitsNext(sessions: seq<SessionEnd>, waits: seq<nat>)
    requires |waits| < |sessions| && Waits(sessions, waits)
    ensures Waits(sessions, waits + [NextWait(sessions, waits)])
  {
  }

  /** A restart counts as a clean end, however the stream ended. */
  function OutcomeOf(session: SessionEnd): Outcome {
    match session
    case Rejected(fatal) => if fatal then Fatal else Retry
    case Streamed(incoming, end) =>
      var served := Served(false, incoming);
      if EndsIn(served, Shutdown) then Exit
      else if EndsIn(served, Restart) then Clean
      else if FromOutside(false, incoming) then Retry
      else match end
        case Eof => Clean
        case Broken(denied) => if denied then Fatal else Retry
        case Cancelled => Retry
  }

  lemma StopNext(incoming: seq<Incoming>, kind: Kind)
    requires incoming != []
    ensures var init, n := incoming[..|incoming| - 1], |incoming| - 1;
            && ((exists i :: StoppedAt(incoming, i, kind)) <==>
                  (exists i :: StoppedAt(init, i, kind)) || StoppedAt(incoming, n, kind))
            && ((exists i :: CancelledAt(incoming, i)) <==>
                  (exists i :: CancelledAt(init, i)) || CancelledAt(incoming, n))
  {
    var init := incoming[..|incoming| - 1];
    forall i | 0 <= i < |init|
      ensures StoppedAt(incoming, i, kind) <==> StoppedAt(init, i, kind)
      ensures CancelledAt(incoming, i) <==> CancelledAt(init, i)
    {
      assert forall j :: 0 <= j <= i ==> incoming[j] == init[j];
    }
  }

  /** What ends a session's context, message by message. */
  lemma {:induction false} DoneExact(incoming: seq<Incoming>)
    ensures Done(false, incoming) <==> exists j :: 0 <= j < |incoming| && !Harmless(incoming[j])
  {
    if incoming != [] {
      var init := incoming[..|incoming| - 1];
      DoneExact(init);
      assert forall j :: 0 <= j < |init| ==> incoming[j] == init[j];
    }
  }

  lemma {:induction false} StopExact(incoming: seq<Incoming>, kind: Kind)
    requires kind == Restart || kind == Shutdown
    ensures EndsIn(Served(false, incoming), kind) <==> exists i :: StoppedAt(incoming, i, kind)
    ensures FromOutside(false, incoming) <==> exists i :: CancelledAt(incoming, i)
  {
    if incoming != [] {
      var init := incoming[..|incoming| - 1];
      StopExact(init, kind);
      StopNext(incoming, kind);
      DoneExact(init);
      StopIsDone(false, init);
      assert forall j :: 0 <= j < |init| ==> incoming[j] == init[j];
    }
  }

  /** How a session ends for the reconnect loop. */
  lemma SessionEndExact(session: SessionEnd)
    ensures OutcomeOf(session) == Fatal <==> RefusedForGood(session)
    ensures OutcomeOf(session) == Exit <==> ShutsDown(session)
    ensures OutcomeOf(session) == Clean <==> EndsCleanly(session)
    ensures session.Streamed? ==> (FromOutside(false, session.incoming) <==> ProcessCancelled(session))
  {
    if session.Streamed? {
      StopExact(session.incoming, Restart);
      StopExact(session.incoming, Shutdown);
      DoneExact(session.incoming);
      DoneBy(session.incoming);
    }
  }

  /** What ends a session's context. */
  lemma {:induction false} DoneBy(incoming: seq<Incoming>)
    ensures var served := Served(false, incoming);
            Done(false, incoming) <==> EndsIn(served, Restart) || EndsIn(served, Shutdown) || FromOutside(false, incoming)
  {
    ServedUpToStop(incoming);
  }

  /** n sessions that did not end cleanly come directly before session k, and before them a clean one or none. */
  ghost predicate CountsFailures(sessions: seq<SessionEnd>, k: nat, n: nat) {
    && n <= k <= |sessions|
    && (forall j :: k - n <= j < k ==> !EndsCleanly(sessions[j]))
    && (n < k ==> EndsCleanly(sessions[k - n - 1]))
  }

  /** Each wait counts the failures since the last session that ended cleanly. */
  lemma {:induction false} WaitsCountFailures(sessions: seq<SessionEnd>, waits: seq<nat>, k: nat)
    requires |waits| <= |sessions| && Waits(sessions, waits) && k < |waits|
    ensures CountsFailures(sessions, k, waits[k])
  {
    if k > 0 {
      WaitsCountFailures(sessions, waits, k - 1);
    }
  }

  // ---- The trace ---------------------------------------------------------------------------------

  /** One Executing and then one verdict for each command, in order, with the command's id. */
  ghost predicate InBlocks(results: seq<Emitted>, jobs: seq<Job>)
    decreases |jobs|
  {
    if jobs == [] then results == []
    else
      var n, id := |results|, jobs[|jobs| - 1].cmd.id;
      && n >= 2
      && results[n - 2].ToReply() == Reply(id, Executing)
      && results[n - 1].id == id && results[n - 1].answer.status.Verdict()
      && InBlocks(results[..n - 2], jobs[..|jobs| - 1])
  }

  /** The handler does not panic before the Executing result or after its own final one. */
  predicate PanicsInside(job: Job) {
    job.world.panic != BeforeExecuting && job.world.panic != AfterFinal
  }

  predicate AllPanicInside(jobs: seq<Job>) {
    jobs == [] || (AllPanicInside(jobs[..|jobs| - 1]) && PanicsInside(jobs[|jobs| - 1]))
  }

  ghost predicate EndsInVerdict(results: seq<Emitted>) {
    results != [] && results[|results| - 1].answer.status.Verdict()
  }

  lemma BlockEndsInVerdict(job: Job, final: Answer)
    requires final.status.Verdict()
    ensures EndsInVerdict(Block(job, final))
  {
  }

  lemma {:induction false} TraceEndsInVerdict(hash: Hash, last: string, jobs: seq<Job>)
    requires jobs != []
    ensures EndsInVerdict(Trace(hash, last, jobs))
  {
    var init, job := jobs[..|jobs| - 1], jobs[|jobs| - 1];
    BlockEndsInVerdict(job, FinalAnswer(hash, CacheAfter(hash, last, AllOffers(init)), job));
  }

  lemma {:induction false} LastBlock(results: seq<Emitted>, jobs: seq<Job>, final: Answer)
    requires jobs != [] && final.status.Verdict()
    requires results == [] || EndsInVerdict(results)
    ensures var init, job := jobs[..|jobs| - 1], jobs[|jobs| - 1];
            InBlocks(results + Block(job, final), jobs) <==> InBlocks(results, init) && PanicsInside(job)
  {
    var job := jobs[|jobs| - 1];
    if PanicsInside(job) {
      assert (results + Block(job, final))[..|results|] == results;
    }
  }

  lemma {:induction false} TraceStart(hash: Hash, last: string, jobs: seq<Job>)
    ensures Trace(hash, last, jobs) == [] || EndsInVerdict(Trace(hash, last, jobs))
  {
    if jobs != [] {
      TraceEndsInVerdict(hash, last, jobs);
    }
  }

  /**
   The results of a session are, in receive order, one Executing and one verdict for each command
   served, with its id, exactly when no handler panics before its Executing or after its verdict.
   */
  lemma {:induction false} TraceExact(hash: Hash, last: string, jobs: seq<Job>)
    ensures InBlocks(Trace(hash, last, jobs), jobs) <==> AllPanicInside(jobs)
  {
    if jobs != [] {
      var init, job := jobs[..|jobs| - 1], jobs[|jobs| - 1];
      TraceExact(hash, last, init);
      TraceStart(hash, last, init);
      LastBlock(Trace(hash, last, init), jobs, FinalAnswer(hash, CacheAfter(hash, last, AllOffers(init)), job));
    }
  }

  /** The commands received. */
  function Commands(incoming: seq<Incoming>): seq<Job> {
    if incoming == [] then []
    else
      var init, last := incoming[..|incoming| - 1], incoming[|incoming| - 1];
      if last.Serve? then Commands(init) + [last.job] else Commands(init)
  }

  /**
   The commands served are all those received, up to the first one that ends the session or up to
   the cancelling of the process's context, whichever comes first.
   */
  lemma {:induction false} ServedUpToStop(incoming: seq<Incoming>)
    ensures var served, all := Served(false, incoming), Commands(incoming);
            && served <= all
            && (forall i :: 0 <= i < |served| - 1 ==> !Stops(served[i]))
            && (Done(false, incoming) <==> EndsInStop(served) || FromOutside(false, incoming))
            && (served == all || Done(false, incoming))
  {
    if incoming != [] {
      ServedUpToStop(incoming[..|incoming| - 1]);
    }
  }

  // ---- The honest client of the command protocol ------------------------------------------------

  /** The results that reach the stream. */
  function Wire(results: seq<Emitted>): seq<Reply> {
    if results == [] then []
    else
      var rest := Wire(results[1..]);
      if results[0].ok then [results[0].ToReply()] + rest else rest
  }

  /** Serving a command is a ClientStart and a ClientFinish step of the command protocol. */
  lemma BlockIsTwoSteps(s: Session, job: Job, final: Answer)
    requires final.status.Verdict() && PanicsInside(job)
    requires Enabled(s, ClientStart(job.cmd.id, !job.world.executingOk))
    ensures var s' := Do(s, ClientStart(job.cmd.id, !job.world.executingOk));
            var last := Block(job, final)[1];
            && Enabled(s', ClientFinish(job.cmd.id, last.answer.status, !last.ok))
            && Do(s', ClientFinish(job.cmd.id, last.answer.status, !last.ok)).toServer
               == s.toServer + Wire(Block(job, final))
  {
    var block := Block(job, final);
    WireOfTwo(block[0], block[1]);
    assert block == [block[0], block[1]];
    var first := if block[0].ok then [block[0].ToReply()] else [];
    var second := if block[1].ok then [block[1].ToReply()] else [];
    Assoc(s.toServer, first, second);
  }

  lemma WireOfTwo(a: Emitted, b: Emitted)
    ensures Wire([a, b]) == (if a.ok then [a.ToReply()] else []) + (if b.ok then [b.ToReply()] else [])
  {
    assert [a, b][1..] == [b] && [b][1..] == [];
    assert Wire([b]) == if b.ok then [b.ToReply()] else [];
    assert [] + Wire([b]) == Wire([b]);
  }
}
