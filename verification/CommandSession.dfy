/**
 The command protocol of one session, as a step system.

 A SendCommand call, the consumer goroutine, the Channel receive loop, the timeout watchers
 and the client run concurrently. Each has its own program counter here, and one `Step` is one
 access to something the others can see: the session's rows of command_logs, its command queue,
 or the two directions of its stream. Any enabled step may come next.
 */
module CommandSession {
  import opened Options

  type CommandId = nat

  /** cmdQueueCapacity: the buffer size of a session's command channel. */
  const QUEUE_CAPACITY: nat := 32

  /** The values the status column takes. */
  datatype Status = Pending | Sent | Executing | Completed | Failed | Timeout
  {
    /** The client's final answers. */
    predicate Verdict() {
      Completed? || Failed?
    }

    predicate Terminal() {
      Verdict() || Timeout?
    }
  }

  /** A SendCommand call, named by the command id it drew. */
  datatype AdminPc =
    | Checked   // session found online, row not saved yet
    | Saved     // row saved, queue not tried yet
    | Full      // queue was full, row not marked Failed yet

  /** commandConsumer. */
  datatype ConsumerPc =
    | Gone
    | AtSelect
    | Holding(c: CommandId)     // taken from the queue, not sent yet
    | SendFailed(c: CommandId)  // stream.Send failed, row not marked Failed yet
    | Delivered(c: CommandId)   // stream.Send succeeded, row not marked Sent yet
    | Marked(c: CommandId)      // row marked Sent, watcher not started yet

  /** The Channel handler. */
  datatype LoopPc =
    | Closed
    | Running
    | Draining  // receive loop has returned, waiting for the consumer

  datatype Reply = Reply(c: CommandId, status: Status)

  datatype Session = Session(
    rows: map<CommandId, Status>,
    admins: map<CommandId, AdminPc>,
    queue: seq<CommandId>,
    loop: LoopPc,
    consumer: ConsumerPc,
    broken: bool,
    toClient: seq<CommandId>,
    client: Option<CommandId>,
    toServer: seq<Reply>,
    watchers: set<CommandId>)

  const NEW_SESSION := Session(map[], map[], [], Closed, Gone, false, [], None, [], {})

  datatype Step =
    // SendCommand
    | Check(c: CommandId)
    | Save(c: CommandId)
    | Enqueue(c: CommandId)
    | Overflow(c: CommandId)
    | Reject(c: CommandId)
    // Channel
    | Open
    | Handle(c: CommandId, status: Status)
    | LoopExit
    | Close
    // commandConsumer
    | Take(c: CommandId)
    | SendOk(c: CommandId)
    | SendError(c: CommandId)
    | MarkFailed(c: CommandId)
    | MarkSent(c: CommandId)
    | Arm(c: CommandId)
    | ConsumerExit
    // watchCommandTimeout
    | Fire(c: CommandId)
    // the client; a result whose send fails is lost
    | ClientStart(c: CommandId, lost: bool)
    | ClientFinish(c: CommandId, verdict: Status, lost: bool)
    // the network: the stream breaks and only a prefix of what is in flight arrives
    | StreamBreak(kept: nat)

  predicate Enabled(s: Session, step: Step) {
    match step
    case Check(c) => c !in s.rows && c !in s.admins
    case Save(c) => c in s.admins && s.admins[c] == Checked
    case Enqueue(c) => c in s.admins && s.admins[c] == Saved && |s.queue| < QUEUE_CAPACITY
    case Overflow(c) => c in s.admins && s.admins[c] == Saved && |s.queue| >= QUEUE_CAPACITY
    case Reject(c) => c in s.admins && s.admins[c] == Full
    case Open => s.loop == Closed
    case Handle(c, status) => s.loop == Running && |s.toServer| > 0 && s.toServer[0] == Reply(c, status)
    case LoopExit => s.loop == Running
    case Close => s.loop == Draining && s.consumer == Gone
    case Take(c) => s.consumer == AtSelect && |s.queue| > 0 && s.queue[0] == c
    case SendOk(c) => s.consumer == Holding(c)
    case SendError(c) => s.consumer == Holding(c)
    case MarkFailed(c) => s.consumer == SendFailed(c)
    case MarkSent(c) => s.consumer == Delivered(c)
    case Arm(c) => s.consumer == Marked(c)
    case ConsumerExit => s.consumer == AtSelect && (s.broken || s.loop == Draining)
    case Fire(c) => c in s.watchers
    case ClientStart(c, _) => s.client == None && !s.broken && |s.toClient| > 0 && s.toClient[0] == c
    case ClientFinish(c, verdict, _) => s.client == Some(c) && verdict.Verdict()
    case StreamBreak(kept) => kept <= |s.toServer|
  }

  /** UPDATE command_logs SET status = ? WHERE command_id = ?, which ignores an unknown id. */
  function UpdateStatus(rows: map<CommandId, Status>, c: CommandId, status: Status): map<CommandId, Status> {
    if c in rows then rows[c := status] else rows
  }

  /** MarkCommandTimeout: the one guarded write. */
  function TimeoutIfOpen(rows: map<CommandId, Status>, c: CommandId): map<CommandId, Status> {
    if c in rows && !rows[c].Terminal() then rows[c := Timeout] else rows
  }

  function Post(wire: seq<Reply>, reply: Reply, lost: bool): seq<Reply> {
    if lost then wire else wire + [reply]
  }

  function Do(s: Session, step: Step): Session
    requires Enabled(s, step)
  {
    match step
    case Check(c) => s.(admins := s.admins[c := Checked])
    case Save(c) => s.(admins := s.admins[c := Saved], rows := s.rows[c := Pending])
    case Enqueue(c) => s.(admins := s.admins - {c}, queue := s.queue + [c])
    case Overflow(c) => s.(admins := s.admins[c := Full])
    case Reject(c) => s.(admins := s.admins - {c}, rows := UpdateStatus(s.rows, c, Failed))
    case Open => s.(loop := Running, consumer := AtSelect, broken := false, toClient := [], client := None, toServer := [])
    case Handle(c, status) => s.(toServer := s.toServer[1..], rows := UpdateStatus(s.rows, c, status))
    case LoopExit => s.(loop := Draining)
    case Close => s.(loop := Closed)
    case Take(c) => s.(queue := s.queue[1..], consumer := Holding(c))
    case SendOk(c) => s.(consumer := Delivered(c), toClient := s.toClient + [c])
    case SendError(c) => s.(consumer := SendFailed(c))
    case MarkFailed(c) => s.(consumer := AtSelect, rows := UpdateStatus(s.rows, c, Failed))
    case MarkSent(c) => s.(consumer := Marked(c), rows := UpdateStatus(s.rows, c, Sent))
    case Arm(c) => s.(consumer := AtSelect, watchers := s.watchers + {c})
    case ConsumerExit => s.(consumer := Gone)
    case Fire(c) => s.(watchers := s.watchers - {c}, rows := TimeoutIfOpen(s.rows, c))
    case ClientStart(c, lost) =>
      s.(toClient := s.toClient[1..], client := Some(c), toServer := Post(s.toServer, Reply(c, Executing), lost))
    case ClientFinish(c, verdict, lost) =>
      s.(client := None, toServer := Post(s.toServer, Reply(c, verdict), lost))
    case StreamBreak(kept) =>
      s.(broken := true, toClient := [], client := None, toServer := s.toServer[..kept])
  }

  // ---- One command's view of the session ----------------------------------------

  /** How often a command occurs in a queue. */
  ghost function Occurs(xs: seq<CommandId>, c: CommandId): nat {
    if |xs| == 0 then 0 else (if xs[0] == c then 1 else 0) + Occurs(xs[1..], c)
  }

  /** The statuses on their way to the server for a command, oldest first. */
  ghost function Replies(wire: seq<Reply>, c: CommandId): seq<Status> {
    if |wire| == 0 then []
    else (if wire[0].c == c then [wire[0].status] else []) + Replies(wire[1..], c)
  }

  lemma {:induction false} OccursAppend(xs: seq<CommandId>, ys: seq<CommandId>, c: CommandId)
    ensures Occurs(xs + ys, c) == Occurs(xs, c) + Occurs(ys, c)
  {
    if |xs| == 0 {
      assert xs + ys == ys;
    } else {
      assert (xs + ys)[1..] == xs[1..] + ys;
      OccursAppend(xs[1..], ys, c);
    }
  }

  lemma {:induction false} OccursMember(xs: seq<CommandId>, c: CommandId)
    ensures c in xs <==> Occurs(xs, c) > 0
  {
    if |xs| > 0 {
      assert xs == [xs[0]] + xs[1..];
      OccursMember(xs[1..], c);
    }
  }

  lemma {:induction false} RepliesAppend(xs: seq<Reply>, ys: seq<Reply>, c: CommandId)
    ensures Replies(xs + ys, c) == Replies(xs, c) + Replies(ys, c)
  {
    if |xs| == 0 {
      assert xs + ys == ys;
    } else {
      assert (xs + ys)[1..] == xs[1..] + ys;
      RepliesAppend(xs[1..], ys, c);
    }
  }

  lemma {:induction false} RepliesPrefix(wire: seq<Reply>, kept: nat, c: CommandId)
    requires kept <= |wire|
    ensures Replies(wire[..kept], c) <= Replies(wire, c)
  {
    assert wire == wire[..kept] + wire[kept..];
    RepliesAppend(wire[..kept], wire[kept..], c);
  }

  /** SendCommand still owns it, it is queued, or the consumer has not got it through Send. */
  ghost predicate Unsent(s: Session, c: CommandId) {
    c in s.admins || Occurs(s.queue, c) > 0 || s.consumer == Holding(c) || s.consumer == SendFailed(c)
  }

  /** Every status write of SendCommand and of the consumer for this command is over. */
  ghost predicate PastMark(s: Session, c: CommandId) {
    c in s.rows && !Unsent(s, c) && s.consumer != Delivered(c)
  }

  /** The client may still cause a status write for this command. */
  ghost predicate Replying(s: Session, c: CommandId) {
    Occurs(s.toClient, c) > 0 || s.client == Some(c) || Replies(s.toServer, c) != []
  }

  /** What one step does to the command queue, seen from one command. */
  lemma {:induction false} StepOnCommands(s: Session, step: Step, c: CommandId)
    requires Enabled(s, step)
    ensures Occurs(Do(s, step).queue, c)
            == Occurs(s.queue, c) + (if step == Enqueue(c) then 1 else 0) - (if step == Take(c) then 1 else 0)
  {
    if step.Enqueue? {
      OccursAppend(s.queue, [step.c], c);
    }
  }

  /** What it does to the stream's direction to the client. */
  lemma {:induction false} StepOnToClient(s: Session, step: Step, c: CommandId)
    requires Enabled(s, step)
    ensures Occurs(Do(s, step).toClient, c)
            == if step.Open? || step.StreamBreak? then 0
               else Occurs(s.toClient, c)
                    + (if step == SendOk(c) then 1 else 0) - (if step.ClientStart? && step.c == c then 1 else 0)
  {
    if step.SendOk? {
      OccursAppend(s.toClient, [step.c], c);
    }
  }

  /** What it does to the direction to the server. */
  lemma {:induction false} StepOnToServer(s: Session, step: Step, c: CommandId)
    requires Enabled(s, step)
    ensures var before, after := Replies(s.toServer, c), Replies(Do(s, step).toServer, c);
            if step.Open? then after == []
            else if step.StreamBreak? then after <= before
            else if step.Handle? && step.c == c then before == [step.status] + after
            else if step == ClientStart(c, false) then after == before + [Executing]
            else if step.ClientFinish? && step.c == c && !step.lost then after == before + [step.verdict]
            else after == before
  {
    match step
    case ClientStart(d, lost) => RepliesAppend(s.toServer, [Reply(d, Executing)], c);
    case ClientFinish(d, verdict, lost) => RepliesAppend(s.toServer, [Reply(d, verdict)], c);
    case StreamBreak(kept) => RepliesPrefix(s.toServer, kept, c);
    case _ =>
  }

  /** What one step does to the two queues and the stream, seen from one command. */
  lemma {:induction false} StepOnWires(s: Session, step: Step, c: CommandId)
    requires Enabled(s, step)
    ensures var s' := Do(s, step);
            && Occurs(s'.queue, c)
               == Occurs(s.queue, c) + (if step == Enqueue(c) then 1 else 0) - (if step == Take(c) then 1 else 0)
            && (if step.Open? || step.StreamBreak? then Occurs(s'.toClient, c) == 0
                else Occurs(s'.toClient, c) == Occurs(s.toClient, c)
                     + (if step == SendOk(c) then 1 else 0) - (if step.ClientStart? && step.c == c then 1 else 0))
            && (if step.Open? then Replies(s'.toServer, c) == []
                else if step.StreamBreak? then Replies(s'.toServer, c) <= Replies(s.toServer, c)
                else if step.Handle? && step.c == c then Replies(s.toServer, c) == [step.status] + Replies(s'.toServer, c)
                else if step == ClientStart(c, false) then Replies(s'.toServer, c) == Replies(s.toServer, c) + [Executing]
                else if step.ClientFinish? && step.c == c && !step.lost then
                  Replies(s'.toServer, c) == Replies(s.toServer, c) + [step.verdict]
                else Replies(s'.toServer, c) == Replies(s.toServer, c))
  {
    StepOnCommands(s, step, c);
    StepOnToClient(s, step, c);
    StepOnToServer(s, step, c);
  }

  // ---- The invariant, command by command ---------------------------------------

  /** The stream's goroutines exist only while a Channel is open. */
  ghost predicate ShapeInv(s: Session) {
    |s.queue| <= QUEUE_CAPACITY && (s.loop == Closed ==> s.consumer == Gone)
  }

  /** A row is Pending exactly while SendCommand or the consumer still owes it a write. */
  ghost predicate PendingInv(s: Session, c: CommandId) {
    && (c in s.admins ==> if s.admins[c] == Checked then c !in s.rows else c in s.rows && s.rows[c] == Pending)
    && (Occurs(s.queue, c) > 0 || s.consumer == Holding(c) || s.consumer == SendFailed(c) ==>
          c in s.rows && s.rows[c] == Pending)
    && (s.consumer == Delivered(c) || s.consumer == Marked(c) ==> c in s.rows)
    && (s.consumer == Delivered(c) ==> s.rows[c] != Sent && s.rows[c] != Timeout)
    && (PastMark(s, c) ==> s.rows[c] != Pending)
  }

  /** A command is in one place: a call, one queue slot, the consumer's hand, or beyond Send. */
  ghost predicate PlaceInv(s: Session, c: CommandId) {
    && Occurs(s.queue, c) + (if c in s.admins then 1 else 0) <= 1
    && (c in s.admins || Occurs(s.queue, c) > 0 ==>
          s.consumer != Holding(c) && s.consumer != SendFailed(c) && s.consumer != Delivered(c) && s.consumer != Marked(c))
    && (Unsent(s, c) ==> !Replying(s, c) && c !in s.watchers)
    && (s.consumer == Delivered(c) || s.consumer == Marked(c) ==> c !in s.watchers)
    && (Replying(s, c) || c in s.watchers ==> c in s.rows)
  }

  /** The answers to one command arrive in order: perhaps Executing, then perhaps one verdict. */
  ghost predicate InOrder(replies: seq<Status>) {
    || replies == []
    || replies == [Executing]
    || (|replies| == 1 && replies[0].Verdict())
    || (|replies| == 2 && replies[0] == Executing && replies[1].Verdict())
  }

  /** What the client has yet to say about a command fits what the row already says. */
  ghost predicate ReplyInv(s: Session, c: CommandId) {
    var replies := Replies(s.toServer, c);
    && Occurs(s.toClient, c) <= 1
    && InOrder(replies)
    && (Occurs(s.toClient, c) > 0 ==> s.client != Some(c) && replies == [])
    && (s.client == Some(c) ==> replies == [] || replies == [Executing])
    && (Replying(s, c) && c in s.rows ==> !s.rows[c].Verdict())
    && ((Occurs(s.toClient, c) > 0 || (replies != [] && replies[0] == Executing)) && c in s.rows ==> s.rows[c] != Executing)
  }

  ghost predicate CommandInv(s: Session, c: CommandId) {
    PendingInv(s, c) && PlaceInv(s, c) && ReplyInv(s, c)
  }

  ghost predicate Inv(s: Session) {
    ShapeInv(s) && (forall c :: CommandInv(s, c))
  }

  lemma InitInv()
    ensures Inv(NEW_SESSION)
  {
  }

  lemma AdminKeepsInv(s: Session, step: Step, c: CommandId)
    requires Enabled(s, step) && ShapeInv(s) && CommandInv(s, c)
    requires step.Check? || step.Save? || step.Enqueue? || step.Overflow? || step.Reject?
    ensures ShapeInv(Do(s, step)) && CommandInv(Do(s, step), c)
  {
    StepOnWires(s, step, c);
  }

  lemma ConsumerSendKeepsInv(s: Session, step: Step, c: CommandId)
    requires Enabled(s, step) && ShapeInv(s) && CommandInv(s, c)
    requires step.Take? || step.SendOk? || step.SendError?
    ensures ShapeInv(Do(s, step)) && CommandInv(Do(s, step), c)
  {
    StepOnWires(s, step, c);
  }

  lemma ConsumerMarkKeepsInv(s: Session, step: Step, c: CommandId)
    requires Enabled(s, step) && ShapeInv(s) && CommandInv(s, c)
    requires step.MarkFailed? || step.MarkSent? || step.Arm?
    ensures ShapeInv(Do(s, step)) && CommandInv(Do(s, step), c)
  {
    StepOnWires(s, step, c);
  }

  lemma ChannelKeepsInv(s: Session, step: Step, c: CommandId)
    requires Enabled(s, step) && ShapeInv(s) && CommandInv(s, c)
    requires step.Open? || step.LoopExit? || step.Close? || step.ConsumerExit?
    ensures ShapeInv(Do(s, step)) && CommandInv(Do(s, step), c)
  {
    StepOnWires(s, step, c);
  }

  lemma ResultKeepsInv(s: Session, step: Step, c: CommandId)
    requires Enabled(s, step) && ShapeInv(s) && CommandInv(s, c)
    requires step.Handle? || step.Fire?
    ensures ShapeInv(Do(s, step)) && CommandInv(Do(s, step), c)
  {
    StepOnWires(s, step, c);
  }

  lemma ClientKeepsInv(s: Session, step: Step, c: CommandId)
    requires Enabled(s, step) && ShapeInv(s) && CommandInv(s, c)
    requires step.ClientStart? || step.ClientFinish? || step.StreamBreak?
    ensures ShapeInv(Do(s, step)) && CommandInv(Do(s, step), c)
  {
    StepOnWires(s, step, c);
  }

  /** Every step of every actor keeps the invariant. */
  lemma StepKeepsInv(s: Session, step: Step)
    requires Inv(s) && Enabled(s, step)
    ensures Inv(Do(s, step))
  {
    forall c ensures CommandInv(Do(s, step), c) {
      assert CommandInv(s, c);
      match step
      case Check(_) | Save(_) | Enqueue(_) | Overflow(_) | Reject(_) => AdminKeepsInv(s, step, c);
      case Take(_) | SendOk(_) | SendError(_) => ConsumerSendKeepsInv(s, step, c);
      case MarkFailed(_) | MarkSent(_) | Arm(_) => ConsumerMarkKeepsInv(s, step, c);
      case Open | LoopExit | Close | ConsumerExit => ChannelKeepsInv(s, step, c);
      case Handle(_, _) | Fire(_) => ResultKeepsInv(s, step, c);
      case ClientStart(_, _) | ClientFinish(_, _, _) | StreamBreak(_) => ClientKeepsInv(s, step, c);
    }
  }

  // ---- Facts about one command that no step undoes -------------------------------

  /** Nothing more will be sent to the client, or heard from it, about this command. */
  ghost predicate Quiet(s: Session, c: CommandId) {
    c in s.rows && c !in s.admins && Occurs(s.queue, c) == 0 && s.consumer != Holding(c) && !Replying(s, c)
  }

  /** Only a watcher can still write the row, and its guard will refuse. */
  ghost predicate Settled(s: Session, c: CommandId, status: Status) {
    PastMark(s, c) && Quiet(s, c) && s.rows[c] == status && status.Terminal()
  }

  /** The verdict was overwritten by Sent, and only a watcher can still write the row. */
  ghost predicate StuckSent(s: Session, c: CommandId) {
    PastMark(s, c) && Quiet(s, c) && s.rows[c] == Sent
  }

  lemma PastMarkStays(s: Session, step: Step, c: CommandId)
    requires Inv(s) && Enabled(s, step) && PastMark(s, c)
    ensures PastMark(Do(s, step), c)
  {
    StepOnWires(s, step, c);
    assert CommandInv(s, c);
  }

  lemma QuietStays(s: Session, step: Step, c: CommandId)
    requires Inv(s) && Enabled(s, step) && Quiet(s, c)
    ensures Quiet(Do(s, step), c)
  {
    StepOnWires(s, step, c);
    assert CommandInv(s, c);
  }

  lemma SettledStays(s: Session, step: Step, c: CommandId, status: Status)
    requires Inv(s) && Enabled(s, step) && Settled(s, c, status)
    ensures Settled(Do(s, step), c, status)
  {
    PastMarkStays(s, step, c);
    QuietStays(s, step, c);
    assert CommandInv(s, c);
    StepOnWires(s, step, c);
  }

  lemma StuckSentStays(s: Session, step: Step, c: CommandId)
    requires Inv(s) && Enabled(s, step) && StuckSent(s, c)
    ensures if step == Fire(c) then Settled(Do(s, step), c, Timeout) else StuckSent(Do(s, step), c)
  {
    PastMarkStays(s, step, c);
    QuietStays(s, step, c);
    assert CommandInv(s, c);
    StepOnWires(s, step, c);
  }

  lemma VerdictSilences(s: Session, c: CommandId, verdict: Status)
    requires Inv(s) && Enabled(s, Handle(c, verdict)) && verdict.Verdict()
    ensures Quiet(Do(s, Handle(c, verdict)), c) && Do(s, Handle(c, verdict)).rows[c] == verdict
  {
    assert CommandInv(s, c);
    StepOnWires(s, Handle(c, verdict), c);
  }

  lemma MarkSentPasses(s: Session, c: CommandId)
    requires Inv(s) && Enabled(s, MarkSent(c))
    ensures PastMark(Do(s, MarkSent(c)), c) && Do(s, MarkSent(c)).rows[c] == Sent
  {
    assert CommandInv(s, c);
  }

  lemma WatchedIsPastMark(s: Session, c: CommandId)
    requires Inv(s) && c in s.watchers
    ensures PastMark(s, c)
  {
    assert CommandInv(s, c);
  }

  // ---- The documented order of the statuses ---------------------------------------

  function Rank(status: Status): nat {
    match status
    case Pending => 0
    case Sent => 1
    case Executing => 2
    case _ => 3
  }

  function StatusOf(s: Session, c: CommandId): Option<Status> {
    if c in s.rows then Some(s.rows[c]) else None
  }

  /** Pending, then Sent, then Executing, then one terminal status for good. */
  predicate Forward(before: Option<Status>, after: Option<Status>) {
    before == after || before == None || (after.Some? && Rank(before.value) < Rank(after.value))
  }

  /** Only the consumer's Sent mark and a client's result can move a row backwards. */
  lemma OtherStepsGoForward(s: Session, step: Step, c: CommandId)
    requires Inv(s) && Enabled(s, step)
    requires step != MarkSent(c) && !(step.Handle? && step.c == c)
    ensures Forward(StatusOf(s, c), StatusOf(Do(s, step), c))
  {
    assert CommandInv(s, c);
  }

  /** The Sent mark goes forward exactly when no result has been written yet. */
  lemma MarkSentForward(s: Session, c: CommandId)
    requires Inv(s) && Enabled(s, MarkSent(c))
    ensures c in s.rows
    ensures Forward(StatusOf(s, c), StatusOf(Do(s, MarkSent(c)), c)) <==> s.rows[c] == Pending
  {
    assert CommandInv(s, c);
  }

  /** A result goes forward exactly when the watcher has not already written Timeout. */
  lemma HandleForward(s: Session, c: CommandId, status: Status)
    requires Inv(s) && Enabled(s, Handle(c, status))
    ensures c in s.rows
    ensures Forward(StatusOf(s, c), StatusOf(Do(s, Handle(c, status)), c)) <==> s.rows[c] != Timeout
  {
    assert CommandInv(s, c);
    StepOnWires(s, Handle(c, status), c);
  }
}
