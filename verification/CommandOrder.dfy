/** The order in which a session's commands are accepted, consumed and delivered. */
module CommandOrder {
  import opened Options
  import opened CommandSession
  import opened CommandRuns

  /** SendCommand answered "queued"; the consumer took it off the queue; its stream.Send succeeded. */
  datatype Kind = Accepted | Consumed | Delivered

  predicate OfKind(step: Step, kind: Kind) {
    match kind
    case Accepted => step.Enqueue?
    case Consumed => step.Take?
    case Delivered => step.SendOk?
  }

  /** Event k is a step of that kind in this session. */
  ghost predicate Logs(run: Run, k: nat, sid: SessionId, kind: Kind)
    requires k < |run.events|
  {
    run.events[k].At? && run.events[k].sid == sid && OfKind(run.events[k].step, kind)
  }

  /** The commands of the steps of that kind among the first k events, oldest first. */
  ghost function Log(run: Run, k: nat, sid: SessionId, kind: Kind): seq<CommandId>
    requires k <= |run.events|
  {
    if k == 0 then []
    else if Logs(run, k - 1, sid, kind) then Log(run, k - 1, sid, kind) + [CommandOf(run.events[k - 1].step)]
    else Log(run, k - 1, sid, kind)
  }

  function CommandOf(step: Step): CommandId {
    if step.Enqueue? || step.Take? || step.SendOk? then step.c else 0
  }

  /** xs is ys with some elements left out. */
  ghost predicate Subsequence(xs: seq<CommandId>, ys: seq<CommandId>)
    decreases |ys|
  {
    || xs == []
    || (ys != [] && Subsequence(xs, ys[..|ys| - 1]))
    || (ys != [] && xs[|xs| - 1] == ys[|ys| - 1] && Subsequence(xs[..|xs| - 1], ys[..|ys| - 1]))
  }

  ghost predicate Distinct(xs: seq<CommandId>) {
    forall i, j :: 0 <= i < j < |xs| ==> xs[i] != xs[j]
  }

  lemma {:induction false} SubsequenceMember(xs: seq<CommandId>, ys: seq<CommandId>, c: CommandId)
    requires Subsequence(xs, ys) && c in xs
    ensures c in ys
    decreases |ys|
  {
    if Subsequence(xs, ys[..|ys| - 1]) {
      SubsequenceMember(xs, ys[..|ys| - 1], c);
    } else if c != xs[|xs| - 1] {
      assert c in xs[..|xs| - 1];
      SubsequenceMember(xs[..|xs| - 1], ys[..|ys| - 1], c);
    }
  }

  lemma {:induction false} SubsequenceDistinct(xs: seq<CommandId>, ys: seq<CommandId>)
    requires Subsequence(xs, ys) && Distinct(ys)
    ensures Distinct(xs)
    decreases |ys|
  {
    if xs == [] {
    } else if Subsequence(xs, ys[..|ys| - 1]) {
      SubsequenceDistinct(xs, ys[..|ys| - 1]);
    } else {
      var init := xs[..|xs| - 1];
      SubsequenceDistinct(init, ys[..|ys| - 1]);
      if xs[|xs| - 1] in init {
        SubsequenceMember(init, ys[..|ys| - 1], xs[|xs| - 1]);
        assert false;
      }
      assert xs == init + [xs[|xs| - 1]];
    }
  }

  lemma {:induction false} SubsequenceGrows(xs: seq<CommandId>, ys: seq<CommandId>, y: CommandId)
    requires Subsequence(xs, ys)
    ensures Subsequence(xs, ys + [y]) && Subsequence(xs + [y], ys + [y])
  {
    assert (ys + [y])[..|ys|] == ys && (xs + [y])[..|xs|] == xs;
  }

  /** What a step does to the queue and to the consumer's hand. */
  lemma StepOnQueue(s: Session, step: Step)
    requires Enabled(s, step) && ShapeInv(s)
    ensures var s' := Do(s, step);
            && s'.queue == (if step.Enqueue? then s.queue + [step.c] else if step.Take? then s.queue[1..] else s.queue)
            && (step.Take? ==> |s.queue| > 0 && s.queue[0] == step.c && s'.consumer == Holding(step.c))
            && (step.SendOk? || step.SendError? ==> s.consumer == Holding(step.c) && !s'.consumer.Holding?)
            && (!step.Take? && !step.SendOk? && !step.SendError? && (s.consumer.Holding? || s'.consumer.Holding?) ==>
                  s'.consumer == s.consumer)
            && (step.Take? ==> !s.consumer.Holding?)
  {
  }

  /** What event k does to one session: its first state, nothing, or one of its steps. */
  lemma EventOnSession(run: Run, k: nat, sid: SessionId)
    requires run.Valid() && k < |run.events| && sid in run.states[k + 1]
    ensures if sid !in run.states[k] then run.events[k] == Register(sid) && run.states[k + 1][sid] == NEW_SESSION
            else if run.events[k].At? && run.events[k].sid == sid then
              && Inv(run.states[k][sid])
              && Enabled(run.states[k][sid], run.events[k].step)
              && run.states[k + 1][sid] == Do(run.states[k][sid], run.events[k].step)
            else run.states[k + 1][sid] == run.states[k][sid]
  {
    assert CanHappen(run.states[k], run.events[k]);
    if sid in run.states[k] {
      InvHolds(run, k, sid);
    }
  }

  /** Before its first event a session has accepted nothing. */
  lemma {:induction false} NothingBeforeRegister(run: Run, k: nat, sid: SessionId)
    requires run.Valid() && k <= |run.events| && sid !in run.states[k]
    ensures forall kind :: Log(run, k, sid, kind) == []
  {
    if k > 0 {
      assert CanHappen(run.states[k - 1], run.events[k - 1]);
      SessionsStay(run, k - 1, k);
      NothingBeforeRegister(run, k - 1, sid);
    }
  }

  /** What event k does to the queue of one session. */
  lemma EventOnQueue(run: Run, k: nat, sid: SessionId)
    requires run.Valid() && k < |run.events| && sid in run.states[k]
    ensures sid in run.states[k + 1]
    ensures var e := run.events[k];
            var before, after := run.states[k][sid].queue, run.states[k + 1][sid].queue;
            if e.At? && e.sid == sid && e.step.Enqueue? then after == before + [e.step.c]
            else if e.At? && e.sid == sid && e.step.Take? then before == [e.step.c] + after
            else after == before
  {
    SessionsStay(run, k, k + 1);
    EventOnSession(run, k, sid);
    var e := run.events[k];
    if e.At? && e.sid == sid {
      StepOnQueue(run.states[k][sid], e.step);
    }
  }

  /**
   However many admins send at once, the commands accepted as "queued" are, in that order, the
   ones consumed followed by the ones still in the queue.
   */
  lemma {:induction false} QueueIsFifo(run: Run, k: nat, sid: SessionId)
    requires run.Valid() && k < |run.states| && sid in run.states[k]
    ensures Log(run, k, sid, Accepted) == Log(run, k, sid, Consumed) + run.states[k][sid].queue
  {
    if k > 0 {
      var e := run.events[k - 1];
      if sid !in run.states[k - 1] {
        EventOnSession(run, k - 1, sid);
        NothingBeforeRegister(run, k - 1, sid);
      } else {
        QueueIsFifo(run, k - 1, sid);
        EventOnQueue(run, k - 1, sid);
        var taken, before, after := Log(run, k - 1, sid, Consumed), run.states[k - 1][sid].queue, run.states[k][sid].queue;
        if e.At? && e.sid == sid && e.step.Enqueue? {
          assert (taken + before) + [e.step.c] == taken + after;
        } else if e.At? && e.sid == sid && e.step.Take? {
          assert taken + before == (taken + [e.step.c]) + after;
        }
      }
    }
  }

  /** The non-blocking enqueue never exceeds the channel's capacity. */
  lemma QueueIsBounded(run: Run, k: nat, sid: SessionId)
    requires run.Valid() && k < |run.states| && sid in run.states[k]
    ensures |run.states[k][sid].queue| <= QUEUE_CAPACITY
  {
    InvHolds(run, k, sid);
  }

  lemma LoggedStays(s: Session, step: Step, c: CommandId)
    requires Enabled(s, step) && c in s.rows && c !in s.admins
    ensures c in Do(s, step).rows && c !in Do(s, step).admins
  {
    assert UpdateStatus(s.rows, c, Failed).Keys == s.rows.Keys;
  }

  /** A command is accepted once its row is saved, and its SendCommand call is then over. */
  lemma EnqueueIsLogged(run: Run, k: nat, sid: SessionId, c: CommandId)
    requires run.Valid() && run.Is(k, sid, Enqueue(c))
    ensures sid in run.states[k + 1] && c in run.states[k + 1][sid].rows && c !in run.states[k + 1][sid].admins
    ensures c in run.states[k][sid].admins
  {
    EventAt(run, k, sid, Enqueue(c));
    assert CommandInv(run.states[k][sid], c);
  }

  /** An accepted command is no longer in its SendCommand call, and it has a row. */
  lemma {:induction false} AcceptedIsLogged(run: Run, k: nat, sid: SessionId, c: CommandId)
    requires run.Valid() && k < |run.states| && c in Log(run, k, sid, Accepted)
    ensures sid in run.states[k] && c in run.states[k][sid].rows && c !in run.states[k][sid].admins
  {
    if k > 0 {
      var e := run.events[k - 1];
      if c in Log(run, k - 1, sid, Accepted) {
        AcceptedIsLogged(run, k - 1, sid, c);
        SessionsStay(run, k - 1, k);
        EventOnSession(run, k - 1, sid);
        if e.At? && e.sid == sid {
          LoggedStays(run.states[k - 1][sid], e.step, c);
        }
      } else {
        EnqueueIsLogged(run, k - 1, sid, c);
      }
    }
  }

  /** No command is accepted twice. */
  lemma {:induction false} AcceptedOnce(run: Run, k: nat, sid: SessionId)
    requires run.Valid() && k < |run.states|
    ensures Distinct(Log(run, k, sid, Accepted))
  {
    if k > 0 {
      var e := run.events[k - 1];
      AcceptedOnce(run, k - 1, sid);
      if e.At? && e.sid == sid && e.step.Enqueue? {
        EnqueueIsLogged(run, k - 1, sid, e.step.c);
        if e.step.c in Log(run, k - 1, sid, Accepted) {
          AcceptedIsLogged(run, k - 1, sid, e.step.c);
          assert false;
        }
      }
    }
  }

  /** The sent commands are consumed ones in order; the one in the consumer's hand comes last and is not among them. */
  ghost predicate SendsMatch(sends: seq<CommandId>, taken: seq<CommandId>, consumer: ConsumerPc) {
    if consumer.Holding? then
      taken != [] && taken[|taken| - 1] == consumer.c && Subsequence(sends, taken[..|taken| - 1])
    else Subsequence(sends, taken)
  }

  lemma StepKeepsSendsMatch(sends: seq<CommandId>, taken: seq<CommandId>, s: Session, step: Step)
    requires Enabled(s, step) && ShapeInv(s) && SendsMatch(sends, taken, s.consumer)
    ensures SendsMatch(if step.SendOk? then sends + [step.c] else sends,
                       if step.Take? then taken + [step.c] else taken, Do(s, step).consumer)
  {
    StepOnQueue(s, step);
    if step.Take? {
      assert (taken + [step.c])[..|taken|] == taken;
    } else if step.SendOk? || step.SendError? {
      var init := taken[..|taken| - 1];
      assert taken == init + [step.c];
      SubsequenceGrows(sends, init, step.c);
    }
  }

  /** What a step of this session adds to its logs. */
  lemma LogsNext(run: Run, k: nat, sid: SessionId)
    requires k < |run.events| && run.events[k].At? && run.events[k].sid == sid
    ensures var step := run.events[k].step;
            && Log(run, k + 1, sid, Kind.Delivered)
               == (if step.SendOk? then Log(run, k, sid, Kind.Delivered) + [step.c] else Log(run, k, sid, Kind.Delivered))
            && Log(run, k + 1, sid, Consumed)
               == (if step.Take? then Log(run, k, sid, Consumed) + [step.c] else Log(run, k, sid, Consumed))
  {
  }

  lemma {:induction false} SendsFollowQueue(run: Run, k: nat, sid: SessionId)
    requires run.Valid() && k < |run.states| && sid in run.states[k]
    ensures SendsMatch(Log(run, k, sid, Kind.Delivered), Log(run, k, sid, Consumed), run.states[k][sid].consumer)
  {
    if k > 0 {
      var e := run.events[k - 1];
      EventOnSession(run, k - 1, sid);
      if sid !in run.states[k - 1] {
        NothingBeforeRegister(run, k - 1, sid);
      } else {
        SendsFollowQueue(run, k - 1, sid);
        if e.At? && e.sid == sid {
          LogsNext(run, k - 1, sid);
          StepKeepsSendsMatch(Log(run, k - 1, sid, Kind.Delivered), Log(run, k - 1, sid, Consumed),
                              run.states[k - 1][sid], e.step);
        }
      }
    }
  }

  lemma {:induction false} SubsequenceOfPrefix(xs: seq<CommandId>, ys: seq<CommandId>, zs: seq<CommandId>)
    requires Subsequence(xs, ys)
    ensures Subsequence(xs, ys + zs)
    decreases |zs|
  {
    if zs == [] {
      assert ys + zs == ys;
    } else {
      SubsequenceOfPrefix(xs, ys, zs[..|zs| - 1]);
      assert (ys + zs)[..|ys + zs| - 1] == ys + zs[..|zs| - 1];
    }
  }

  /** What reaches the client's stream is what was accepted, in order, some commands left out, none twice. */
  lemma {:induction false} DeliveryInOrder(run: Run, k: nat, sid: SessionId)
    requires run.Valid() && k < |run.states|
    ensures Subsequence(Log(run, k, sid, Kind.Delivered), Log(run, k, sid, Accepted))
    ensures Distinct(Log(run, k, sid, Kind.Delivered))
  {
    if sid in run.states[k] {
      SendsFollowQueue(run, k, sid);
      QueueIsFifo(run, k, sid);
      var taken := Log(run, k, sid, Consumed);
      var queue := run.states[k][sid].queue;
      if run.states[k][sid].consumer.Holding? {
        var init, rest := taken[..|taken| - 1], [taken[|taken| - 1]] + queue;
        assert taken + queue == init + rest;
        SubsequenceOfPrefix(Log(run, k, sid, Kind.Delivered), init, rest);
      } else {
        SubsequenceOfPrefix(Log(run, k, sid, Kind.Delivered), taken, queue);
      }
    } else {
      NothingBeforeRegister(run, k, sid);
    }
    AcceptedOnce(run, k, sid);
    SubsequenceDistinct(Log(run, k, sid, Kind.Delivered), Log(run, k, sid, Accepted));
  }

  /** A command id has a row, or a SendCommand call, in one session only: command_logs is one table. */
  lemma {:induction false} OneSessionPerCommand(run: Run, k: nat, sid: SessionId, other: SessionId, c: CommandId)
    requires run.Valid() && k < |run.states| && sid in run.states[k] && other in run.states[k]
    requires Knows(run.states[k][sid], c) && Knows(run.states[k][other], c)
    ensures sid == other
  {
    if k > 0 {
      var e := run.events[k - 1];
      assert CanHappen(run.states[k - 1], e) && run.states[k] == Happen(run.states[k - 1], e);
      if !(e.At? && e.step == Check(c)) && !(e.Register? && e.sid in {sid, other}) {
        KnownBefore(run, k - 1, sid, c);
        KnownBefore(run, k - 1, other, c);
        OneSessionPerCommand(run, k - 1, sid, other, c);
      }
    }
  }

  ghost predicate Knows(s: Session, c: CommandId) {
    c in s.rows || c in s.admins
  }

  /** Only the Check step makes a session know a new command. */
  lemma KnownBefore(run: Run, k: nat, sid: SessionId, c: CommandId)
    requires run.Valid() && k < |run.events| && sid in run.states[k + 1] && Knows(run.states[k + 1][sid], c)
    requires !(run.events[k].At? && run.events[k].step == Check(c))
    ensures sid in run.states[k] && Knows(run.states[k][sid], c)
  {
    EventOnSession(run, k, sid);
  }

  // ---- The stream of one Channel -----------------------------------------------------------

  /** What has happened on a session's stream since its Channel was last opened. */
  datatype Traffic = Traffic(
    sent: seq<CommandId>,      // commands the server has put on the stream
    started: seq<CommandId>,   // commands the client has taken from it
    posted: seq<Reply>,        // results the client has put on it
    handled: seq<Reply>,       // results the server has taken from it
    arrive: Option<nat>)       // once it has broken, how many of the results posted arrive at the server

  const NO_TRAFFIC := Traffic([], [], [], [], None)

  function AddTraffic(t: Traffic, step: Step): Traffic {
    match step
    case Open => NO_TRAFFIC
    case SendOk(c) => t.(sent := t.sent + [c])
    case ClientStart(c, lost) =>
      t.(started := t.started + [c], posted := if lost then t.posted else t.posted + [Reply(c, Executing)])
    case ClientFinish(c, verdict, lost) => t.(posted := if lost then t.posted else t.posted + [Reply(c, verdict)])
    case Handle(c, status) => t.(handled := t.handled + [Reply(c, status)])
    case StreamBreak(kept) => t.(arrive := Some(|t.handled| + kept))
    case _ => t
  }

  ghost function TrafficAt(run: Run, k: nat, sid: SessionId): Traffic
    requires k <= |run.events|
  {
    if k == 0 then NO_TRAFFIC
    else
      var before, e := TrafficAt(run, k - 1, sid), run.events[k - 1];
      if e.At? && e.sid == sid then AddTraffic(before, e.step) else before
  }

  /** Each direction delivers in order; a whole stream has lost nothing, and a broken one exactly what does not arrive. */
  ghost predicate Fifo(s: Session, t: Traffic) {
    && s.broken == t.arrive.Some?
    && t.started <= t.sent
    && (t.arrive.None? ==> t.started + s.toClient == t.sent && t.handled + s.toServer == t.posted)
    && (t.arrive.Some? ==>
          s.client == None && t.arrive.value <= |t.posted| && t.handled + s.toServer == t.posted[..t.arrive.value])
  }

  lemma ServerKeepsFifo(s: Session, t: Traffic, step: Step)
    requires Enabled(s, step) && Fifo(s, t) && !step.ClientStart? && !step.ClientFinish? && !step.StreamBreak?
    ensures Fifo(Do(s, step), AddTraffic(t, step))
  {
    match step
    case Handle(c, status) =>
      assert [Reply(c, status)] + s.toServer[1..] == s.toServer;
      assert t.handled + [Reply(c, status)] + s.toServer[1..] == t.handled + s.toServer;
    case SendOk(c) =>
      assert (t.started + s.toClient) + [c] == t.started + (s.toClient + [c]);
    case _ =>
  }

  lemma ClientKeepsFifo(s: Session, t: Traffic, step: Step)
    requires Enabled(s, step) && Fifo(s, t) && (step.ClientStart? || step.ClientFinish? || step.StreamBreak?)
    ensures Fifo(Do(s, step), AddTraffic(t, step))
  {
    match step
    case ClientStart(c, lost) =>
      assert [c] + s.toClient[1..] == s.toClient;
      assert t.started + [c] + s.toClient[1..] == t.started + s.toClient;
      assert t.handled + (s.toServer + [Reply(c, Executing)]) == (t.handled + s.toServer) + [Reply(c, Executing)];
    case ClientFinish(c, verdict, lost) =>
      assert t.handled + (s.toServer + [Reply(c, verdict)]) == (t.handled + s.toServer) + [Reply(c, verdict)];
    case StreamBreak(kept) =>
      var inFlight := t.handled + s.toServer;
      assert inFlight <= t.posted;
      assert t.handled + s.toServer[..kept] == inFlight[..|t.handled| + kept];
      assert inFlight[..|t.handled| + kept] == t.posted[..|t.handled| + kept];
  }

  /**
   While a Channel is open the client has started a prefix of the commands sent. Of the results posted the
   server has handled a prefix and the rest is in flight, as long as the stream is whole; once it has broken
   this holds of exactly those that arrive.
   */
  lemma {:induction false} StreamIsFifo(run: Run, k: nat, sid: SessionId)
    requires run.Valid() && k < |run.states|
    ensures sid !in run.states[k] ==> TrafficAt(run, k, sid) == NO_TRAFFIC
    ensures sid in run.states[k] ==> Fifo(run.states[k][sid], TrafficAt(run, k, sid))
  {
    if k > 0 {
      var e := run.events[k - 1];
      StreamIsFifo(run, k - 1, sid);
      SessionsStay(run, k - 1, k);
      assert CanHappen(run.states[k - 1], e);
      if sid in run.states[k] {
        EventOnSession(run, k - 1, sid);
        if sid in run.states[k - 1] && e.At? && e.sid == sid {
          if e.step.ClientStart? || e.step.ClientFinish? || e.step.StreamBreak? {
            ClientKeepsFifo(run.states[k - 1][sid], TrafficAt(run, k - 1, sid), e.step);
          } else {
            ServerKeepsFifo(run.states[k - 1][sid], TrafficAt(run, k - 1, sid), e.step);
          }
        }
      }
    }
  }
}
