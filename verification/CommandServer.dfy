/**
 internal/server/command.go over the real tables: the command log, the terminals table, the registry
 and each session's queue and stream. Each operation is proved to be a path of the step system, so
 what the step system's runs keep is kept by the code.
 */
module CommandServer {
  import opened Options
  import opened CommandSession
  import opened CommandRuns
  import opened CommandLog
  import Registry
  import Terminals

  /** These steps lead from one state to the other. */
  ghost predicate Path(s: Session, steps: seq<Step>, s': Session)
    decreases |steps|
  {
    if steps == [] then s == s' else Enabled(s, steps[0]) && Path(Do(s, steps[0]), steps[1..], s')
  }

  lemma {:induction false} PathKeepsInv(s: Session, steps: seq<Step>, s': Session)
    requires Inv(s) && Path(s, steps, s')
    ensures Inv(s')
    decreases |steps|
  {
    if steps != [] {
      StepKeepsInv(s, steps[0]);
      PathKeepsInv(Do(s, steps[0]), steps[1..], s');
    }
  }

  lemma {:induction false} PathThen(s: Session, steps: seq<Step>, mid: Session, more: seq<Step>, s': Session)
    requires Path(s, steps, mid) && Path(mid, more, s')
    ensures Path(s, steps + more, s')
    decreases |steps|
  {
    if steps == [] {
      assert steps + more == more;
    } else {
      PathThen(Do(s, steps[0]), steps[1..], mid, more, s');
      assert (steps + more)[1..] == steps[1..] + more;
    }
  }

  lemma {:induction false} PathOfThree(s: Session, a: Step, b: Step, c: Step, s': Session)
    requires Enabled(s, a) && Enabled(Do(s, a), b) && Enabled(Do(Do(s, a), b), c)
    requires Do(Do(Do(s, a), b), c) == s'
    ensures Path(s, [a, b, c], s')
  {
    assert [a, b, c][1..] == [b, c] && [b, c][1..] == [c] && [c][1..] == [];
    assert Path(Do(Do(s, a), b), [c], s');
  }

  lemma {:induction false} PathOfFour(s: Session, a: Step, b: Step, c: Step, d: Step, s': Session)
    requires Enabled(s, a) && Path(Do(s, a), [b, c, d], s')
    ensures Path(s, [a, b, c, d], s')
  {
    assert [a, b, c, d][1..] == [b, c, d];
  }

  // ---- The four uninterrupted paths ------------------------------------------------

  lemma {:induction false} QueuedPath(s: Session, id: CommandId)
    requires id !in s.rows && id !in s.admins && |s.queue| < QUEUE_CAPACITY
    ensures Path(s, [Check(id), Save(id), Enqueue(id)], s.(rows := s.rows[id := Pending], queue := s.queue + [id]))
  {
    assert s.admins[id := Checked][id := Saved] - {id} == s.admins;
    PathOfThree(s, Check(id), Save(id), Enqueue(id), s.(rows := s.rows[id := Pending], queue := s.queue + [id]));
  }

  lemma {:induction false} FullPath(s: Session, id: CommandId)
    requires id !in s.rows && id !in s.admins && |s.queue| >= QUEUE_CAPACITY
    ensures Path(s, [Check(id), Save(id), Overflow(id), Reject(id)], s.(rows := s.rows[id := Failed]))
  {
    assert s.admins[id := Checked][id := Saved][id := Full] - {id} == s.admins;
    assert s.rows[id := Pending][id := Failed] == s.rows[id := Failed];
    PathOfThree(Do(s, Check(id)), Save(id), Overflow(id), Reject(id), s.(rows := s.rows[id := Failed]));
    PathOfFour(s, Check(id), Save(id), Overflow(id), Reject(id), s.(rows := s.rows[id := Failed]));
  }

  /** One round of the consumer: the command taken is sent, marked and watched, or marked Failed. */
  function Round(c: CommandId, delivered: bool): seq<Step> {
    if delivered then [Take(c), SendOk(c), MarkSent(c), Arm(c)] else [Take(c), SendError(c), MarkFailed(c)]
  }

  function AfterRound(s: Session, delivered: bool): Session
    requires |s.queue| > 0
  {
    var c := s.queue[0];
    if delivered then
      s.(queue := s.queue[1..], toClient := s.toClient + [c], rows := UpdateStatus(s.rows, c, Sent), watchers := s.watchers + {c})
    else s.(queue := s.queue[1..], rows := UpdateStatus(s.rows, c, Failed))
  }

  lemma {:induction false} RoundPath(s: Session, delivered: bool)
    requires s.consumer == AtSelect && |s.queue| > 0
    ensures Path(s, Round(s.queue[0], delivered), AfterRound(s, delivered))
  {
    var c := s.queue[0];
    if delivered {
      PathOfThree(Do(s, Take(c)), SendOk(c), MarkSent(c), Arm(c), AfterRound(s, true));
      PathOfFour(s, Take(c), SendOk(c), MarkSent(c), Arm(c), AfterRound(s, true));
    } else {
      PathOfThree(s, Take(c), SendError(c), MarkFailed(c), AfterRound(s, false));
    }
  }

  /** A stream that breaks ends its Channel; opening another one starts afresh with the queue that is left. */
  lemma {:induction false} ReopenIsPath(s: Session, kept: nat)
    requires s.loop == Running && s.consumer == AtSelect && kept <= |s.toServer|
    ensures Path(s, [StreamBreak(kept), LoopExit, ConsumerExit, Close, Open],
                 NEW_SESSION.(rows := s.rows, admins := s.admins, queue := s.queue, watchers := s.watchers,
                              loop := Running, consumer := AtSelect))
  {
    var broken := Do(s, StreamBreak(kept));
    var closed := Do(Do(broken, LoopExit), ConsumerExit);
    var open := Do(Do(closed, Close), Open);
    PathOfThree(Do(broken, LoopExit), ConsumerExit, Close, Open, open);
    PathOfFour(broken, LoopExit, ConsumerExit, Close, Open, open);
    assert [StreamBreak(kept), LoopExit, ConsumerExit, Close, Open][1..] == [LoopExit, ConsumerExit, Close, Open];
  }

  // ---- The consumer's life -------------------------------------------------------------

  /**
   Between two rounds of the consumer a SendCommand call may put its command into the queue. The
   consumer's select is a round when a command is ready, and otherwise it goes on waiting.
   */
  datatype Turn = Arrives(c: CommandId) | Selects(delivered: bool)

  predicate Ready(s: Session, turn: Turn) {
    turn.Selects? || Enabled(s, Enqueue(turn.c))
  }

  function TurnSteps(s: Session, turn: Turn): seq<Step> {
    match turn
    case Arrives(c) => [Enqueue(c)]
    case Selects(delivered) => if s.queue == [] then [] else Round(s.queue[0], delivered)
  }

  function AfterTurn(s: Session, turn: Turn): Session {
    match turn
    case Arrives(c) => s.(admins := s.admins - {c}, queue := s.queue + [c])
    case Selects(delivered) => if s.queue == [] then s else AfterRound(s, delivered)
  }

  function AfterTurns(s: Session, turns: seq<Turn>): Session {
    if turns == [] then s else AfterTurn(AfterTurns(s, turns[..|turns| - 1]), turns[|turns| - 1])
  }

  function TurnsSteps(s: Session, turns: seq<Turn>): seq<Step> {
    if turns == [] then []
    else
      var init := turns[..|turns| - 1];
      TurnsSteps(s, init) + TurnSteps(AfterTurns(s, init), turns[|turns| - 1])
  }

  /** Every command that arrives is one whose call has saved it, and finds room. */
  predicate Possible(s: Session, turns: seq<Turn>) {
    turns == []
    || (Possible(s, turns[..|turns| - 1]) && Ready(AfterTurns(s, turns[..|turns| - 1]), turns[|turns| - 1]))
  }

  lemma {:induction false} TurnPath(s: Session, turn: Turn)
    requires s.consumer == AtSelect && Ready(s, turn)
    ensures Path(s, TurnSteps(s, turn), AfterTurn(s, turn)) && AfterTurn(s, turn).consumer == AtSelect
  {
    if turn.Arrives? {
      assert [Enqueue(turn.c)][1..] == [];
      assert Path(Do(s, Enqueue(turn.c)), [], AfterTurn(s, turn));
    } else if s.queue != [] {
      RoundPath(s, turn.delivered);
    }
  }

  lemma {:induction false} TurnsPath(s: Session, turns: seq<Turn>)
    requires s.consumer == AtSelect && Possible(s, turns)
    ensures Path(s, TurnsSteps(s, turns), AfterTurns(s, turns)) && AfterTurns(s, turns).consumer == AtSelect
  {
    if turns != [] {
      var init, turn := turns[..|turns| - 1], turns[|turns| - 1];
      TurnsPath(s, init);
      TurnPath(AfterTurns(s, init), turn);
      PathThen(s, TurnsSteps(s, init), AfterTurns(s, init), TurnSteps(AfterTurns(s, init), turn), AfterTurns(s, turns));
    }
  }

  lemma {:induction false} TurnsKeepStream(s: Session, turns: seq<Turn>)
    ensures AfterTurns(s, turns).broken == s.broken && AfterTurns(s, turns).loop == s.loop
  {
    if turns != [] {
      TurnsKeepStream(s, turns[..|turns| - 1]);
    }
  }

  lemma {:induction false} NextTurn(s: Session, turns: seq<Turn>, i: nat)
    requires i < |turns| && Possible(s, turns[..i + 1])
    ensures Possible(s, turns[..i]) && Ready(AfterTurns(s, turns[..i]), turns[i])
    ensures AfterTurns(s, turns[..i + 1]) == AfterTurn(AfterTurns(s, turns[..i]), turns[i])
  {
    assert turns[..i + 1][..i] == turns[..i];
  }

  lemma {:induction false} PossiblePrefix(s: Session, turns: seq<Turn>, i: nat)
    requires i <= |turns| && Possible(s, turns)
    ensures Possible(s, turns[..i])
  {
    if i == |turns| {
      assert turns[..i] == turns;
    } else {
      var init := turns[..|turns| - 1];
      assert init[..i] == turns[..i];
      PossiblePrefix(s, init, i);
    }
  }

  datatype Response =
    | InvalidArgument
    | NotFound
    | Offline
    | SaveFailed
    | QueueFull(id: CommandId)
    | Queued(id: CommandId)

  /** The steps a SendCommand call has taken when it gives this answer. */
  function SendSteps(r: Response): seq<Step> {
    match r
    case Queued(id) => [Check(id), Save(id), Enqueue(id)]
    case QueueFull(id) => [Check(id), Save(id), Overflow(id), Reject(id)]
    case _ => []
  }

  function AfterSend(s: Session, r: Response): Session {
    match r
    case Queued(id) => s.(rows := s.rows[id := Pending], queue := s.queue + [id])
    case QueueFull(id) => s.(rows := s.rows[id := Failed])
    case _ => s
  }

  // ---- Paths of the whole system -----------------------------------------------------

  ghost predicate Leads(g: System, events: seq<Event>, g': System)
    decreases |events|
  {
    if events == [] then g == g' else CanHappen(g, events[0]) && Leads(Happen(g, events[0]), events[1..], g')
  }

  /** One session's steps as events. */
  function AllAt(sid: SessionId, steps: seq<Step>): seq<Event> {
    seq(|steps|, i requires 0 <= i < |steps| => At(sid, steps[i]))
  }

  lemma {:induction false} PathLeads(g: System, sid: SessionId, steps: seq<Step>, s': Session)
    requires sid in g && Path(g[sid], steps, s')
    requires forall i :: 0 <= i < |steps| && steps[i].Check? ==> i == 0 && Fresh(g, steps[i].c)
    ensures Leads(g, AllAt(sid, steps), g[sid := s'])
    decreases |steps|
  {
    if steps == [] {
      assert g[sid := s'] == g;
    } else {
      var mid := Do(g[sid], steps[0]);
      PathLeads(g[sid := mid], sid, steps[1..], s');
      assert AllAt(sid, steps)[1..] == AllAt(sid, steps[1..]);
      assert g[sid := mid][sid := s'] == g[sid := s'];
    }
  }

  /** An uninterrupted SendCommand is three or four steps of the protocol, or none. */
  lemma {:induction false} SendIsPath(g: System, sid: SessionId, r: Response)
    requires sid in g
    requires r.Queued? || r.QueueFull? ==> Fresh(g, r.id) && (r.Queued? <==> |g[sid].queue| < QUEUE_CAPACITY)
    ensures Leads(g, AllAt(sid, SendSteps(r)), g[sid := AfterSend(g[sid], r)])
  {
    if r.Queued? {
      QueuedPath(g[sid], r.id);
    } else if r.QueueFull? {
      FullPath(g[sid], r.id);
    }
    PathLeads(g, sid, SendSteps(r), AfterSend(g[sid], r));
  }

  /** A consumer's life, with the arrivals in it, is as many protocol steps, and its exit. */
  lemma {:induction false} ConsumerIsPath(s: Session, turns: seq<Turn>)
    requires s.consumer == AtSelect && Possible(s, turns) && (s.broken || s.loop == Draining)
    ensures Path(s, TurnsSteps(s, turns) + [ConsumerExit], AfterTurns(s, turns).(consumer := Gone))
  {
    TurnsPath(s, turns);
    TurnsKeepStream(s, turns);
    var mid := AfterTurns(s, turns);
    assert [ConsumerExit][1..] == [];
    assert Path(Do(mid, ConsumerExit), [], mid.(consumer := Gone));
    PathThen(s, TurnsSteps(s, turns), mid, [ConsumerExit], mid.(consumer := Gone));
  }

  /** States with an event between each two of them. */
  ghost predicate Segment(states: seq<System>, events: seq<Event>) {
    && |states| == |events| + 1
    && (forall k :: 0 <= k < |events| ==> CanHappen(states[k], events[k]) && states[k + 1] == Happen(states[k], events[k]))
  }

  /** A run in the first state can go on with these events and is then in the second. */
  ghost predicate RunsTo(g: System, events: seq<Event>, g': System) {
    exists states: seq<System> :: Segment(states, events) && states[0] == g && states[|events|] == g'
  }

  lemma {:induction false} LeadsRunsTo(g: System, events: seq<Event>, g': System)
    requires Leads(g, events, g')
    ensures RunsTo(g, events, g')
    decreases |events|
  {
    if events == [] {
      assert Segment([g], events);
    } else {
      var mid := Happen(g, events[0]);
      LeadsRunsTo(mid, events[1..], g');
      var states :| Segment(states, events[1..]) && states[0] == mid && states[|events[1..]|] == g';
      assert Segment([g] + states, events);
    }
  }

  /** Whatever takes the system along events makes any run so far a longer run. */
  lemma RunGoesOn(run: Run, events: seq<Event>, g': System) returns (longer: Run)
    requires run.Valid() && RunsTo(run.states[|run.events|], events, g')
    ensures longer.Valid() && longer.events == run.events + events
    ensures run.states <= longer.states && longer.states[|longer.events|] == g'
  {
    var n := |run.events|;
    var states :| Segment(states, events) && states[0] == run.states[n] && states[|events|] == g';
    longer := Run(run.states[..n] + states, run.events + events);
    assert run.states[..n] + [states[0]] == run.states;
    forall k | 0 <= k < |longer.events|
      ensures CanHappen(longer.states[k], longer.events[k]) && longer.states[k + 1] == Happen(longer.states[k], longer.events[k])
    {
      if k < n {
        assert longer.states[k] == run.states[k] && longer.states[k + 1] == run.states[k + 1];
        assert longer.events[k] == run.events[k];
      } else {
        assert longer.states[k] == states[k - n] && longer.states[k + 1] == states[k - n + 1];
        assert longer.events[k] == events[k - n];
      }
    }
  }

  /** The protocol's events that a call with this target and this answer amounts to. */
  function SendEvents(target: Option<SessionId>, r: Response): seq<Event> {
    if target.Some? then AllAt(target.value, SendSteps(r)) else []
  }

  /** Only the target moves, and only if the answer says that a row was saved. */
  ghost predicate Sends(g: System, g': System, target: Option<SessionId>, r: Response) {
    && g'.Keys == g.Keys
    && (forall sid :: sid in g ==> g'[sid] == if target == Some(sid) then AfterSend(g[sid], r) else g[sid])
    && (r.Queued? || r.QueueFull? ==>
          && target.Some? && target.value in g && (r.Queued? <==> |g[target.value].queue| < QUEUE_CAPACITY))
  }

  lemma NothingSent(g: System, target: Option<SessionId>, r: Response)
    requires !r.Queued? && !r.QueueFull?
    ensures Sends(g, g, target, r)
  {
  }

  /** A call with a fresh id is its events, none if it saves nothing. */
  lemma SendIsEvents(g: System, g': System, target: Option<SessionId>, r: Response)
    requires Sends(g, g', target, r)
    requires r.Queued? || r.QueueFull? ==> Fresh(g, r.id)
    ensures RunsTo(g, SendEvents(target, r), g')
  {
    if r.Queued? || r.QueueFull? {
      SendIsPath(g, target.value, r);
      assert g' == g[target.value := AfterSend(g[target.value], r)];
    } else {
      assert g' == g;
      assert SendEvents(target, r) == [];
    }
    LeadsRunsTo(g, SendEvents(target, r), g');
  }

  lemma {:induction false} NoStatusWithoutRow(rows: seq<LogRow>, id: CommandId)
    requires !HasRow(rows, id)
    ensures forall session :: id !in Statuses(rows, session)
  {
    forall session ensures id !in Statuses(rows, session) {
      StatusesKnown(rows, session, id);
    }
  }

  /**
   The call's answer and what it leaves: a new row, Pending with the command queued or Failed because 32
   are queued already, and nothing at all if the id has a row.
   */
  ghost predicate Accepted(rows: seq<LogRow>, queue: seq<CommandId>, sid: SessionId, id: CommandId, kind: CommandType, now: int,
                           r: Response, rows': seq<LogRow>, queue': seq<CommandId>) {
    if HasRow(rows, id) then r == SaveFailed && rows' == rows && queue' == queue
    else if |queue| < 32 then
      && r == Queued(id)
      && rows' == rows + [LogRow(id, sid, TypeName(kind), now, Pending, NO_RESULT)]
      && queue' == queue + [id]
    else
      && r == QueueFull(id)
      && rows' == rows + [LogRow(id, sid, TypeName(kind), now, Failed, NO_RESULT)]
      && queue' == queue
  }

  /** One session's command queue, its stream in both directions and its timeout watchers. */
  class Link {
    const sid: SessionId
    const store: CommandStore
    var queue: seq<CommandId>
    var outbox: seq<CommandId>
    var inbox: seq<Reply>
    var watchers: set<CommandId>
    /** Where the goroutines that are not executing, and the client, stand. */
    ghost var others: Session

    constructor (sid: SessionId, store: CommandStore)
      ensures this.sid == sid && this.store == store
      ensures View() == NEW_SESSION.(rows := Statuses(store.rows, sid))
    {
      this.sid, this.store := sid, store;
      queue, outbox, inbox, watchers, others := [], [], [], {}, NEW_SESSION;
    }

    ghost function View(): Session
      reads this, store
    {
      others.(rows := Statuses(store.rows, sid), queue := queue, toClient := outbox, toServer := inbox, watchers := watchers)
    }

    /** One unguarded write to the status column. */
    method Mark(id: CommandId, status: Status)
      modifies store
      ensures View() == old(View()).(rows := UpdateStatus(old(View()).rows, id, status))
      ensures |store.rows| == |old(store.rows)|
      ensures forall i :: 0 <= i < |store.rows| ==>
        store.rows[i] == if old(store.rows)[i].id == id then old(store.rows)[i].(status := status) else old(store.rows)[i]
      ensures forall other :: id !in Statuses(old(store.rows), other) ==>
        Statuses(store.rows, other) == Statuses(old(store.rows), other)
      ensures DistinctIds(old(store.rows)) ==> DistinctIds(store.rows)
    {
      store.UpdateCommandStatus(id, status);
    }

    /** The non-blocking enqueue: a command that does not fit is marked Failed. */
    method TryEnqueue(id: CommandId) returns (queued: bool)
      modifies store, this`queue
      ensures queued <==> |old(queue)| < QUEUE_CAPACITY
      ensures queued ==> View() == old(View()).(queue := old(queue) + [id]) && store.rows == old(store.rows)
      ensures !queued ==> View() == old(View()).(rows := UpdateStatus(old(View()).rows, id, Failed))
      ensures |store.rows| == |old(store.rows)|
      ensures !queued ==> forall i :: 0 <= i < |store.rows| ==>
        store.rows[i] == if old(store.rows)[i].id == id then old(store.rows)[i].(status := Failed) else old(store.rows)[i]
      ensures forall other :: id !in Statuses(old(store.rows), other) ==>
        Statuses(store.rows, other) == Statuses(old(store.rows), other)
      ensures DistinctIds(old(store.rows)) ==> DistinctIds(store.rows)
    {
      queued := |queue| < QUEUE_CAPACITY;
      if queued {
        queue := queue + [id];
      } else {
        Mark(id, Failed);
      }
    }

    /** What SendCommand answers once it has this session. */
    ghost function Answer(id: CommandId): Response
      reads this, store
    {
      if HasRow(store.rows, id) then SaveFailed
      else if |queue| < QUEUE_CAPACITY then Queued(id)
      else QueueFull(id)
    }

    /** SendCommand from the INSERT on. */
    method SaveAndEnqueue(id: CommandId, kind: CommandType, now: int) returns (r: Response)
      requires DistinctIds(store.rows)
      modifies store, this`queue
      ensures DistinctIds(store.rows)
      ensures r == old(Answer(id))
      ensures View() == AfterSend(old(View()), r)
      ensures forall other :: other != sid ==> Statuses(store.rows, other) == Statuses(old(store.rows), other)
      ensures Accepted(old(store.rows), old(queue), sid, id, kind, now, r, store.rows, queue)
    {
      if !HasRow(store.rows, id) {
        NoStatusWithoutRow(store.rows, id);
      }
      ghost var before, was := View(), store.rows;
      var saved := store.SaveCommandLog(id, sid, kind, now);
      if !saved {
        return SaveFailed;
      }
      var queued := TryEnqueue(id);
      assert before.rows[id := Pending][id := Failed] == before.rows[id := Failed];
      assert forall i :: 0 <= i < |was| ==> was[i].id != id;
      r := if queued then Queued(id) else QueueFull(id);
    }

    /** One round of commandConsumer with a command ready. */
    method Deliver(delivered: bool)
      requires |queue| > 0
      modifies store, this`queue, this`outbox, this`watchers
      ensures View() == AfterRound(old(View()), delivered)
      ensures DistinctIds(old(store.rows)) ==> DistinctIds(store.rows)
    {
      var c := queue[0];
      queue := queue[1..];
      if delivered {
        outbox := outbox + [c];
        Mark(c, Sent);
        watchers := watchers + {c};
      } else {
        Mark(c, Failed);
      }
    }

    /** The last step of a SendCommand call in another goroutine. */
    method Arrive(c: CommandId)
      modifies this`queue, this`others
      ensures View() == AfterTurn(old(View()), Arrives(c))
    {
      queue := queue + [c];
      others := others.(admins := others.admins - {c});
    }

    /**
     commandConsumer until its context is done: commands arrive while it works and while it waits, and
     each time it selects a command its stream.Send succeeds or not.
     */
    method CommandConsumer(turns: seq<Turn>)
      requires Possible(View(), turns)
      modifies store, this`queue, this`outbox, this`watchers, this`others
      ensures View() == AfterTurns(old(View()), turns).(consumer := Gone)
      ensures DistinctIds(old(store.rows)) ==> DistinctIds(store.rows)
    {
      ghost var before := View();
      for i := 0 to |turns|
        invariant View() == AfterTurns(before, turns[..i])
        invariant DistinctIds(old(store.rows)) ==> DistinctIds(store.rows)
      {
        PossiblePrefix(before, turns, i + 1);
        NextTurn(before, turns, i);
        match turns[i] {
          case Arrives(c) => Arrive(c);
          case Selects(delivered) =>
            if |queue| > 0 {
              Deliver(delivered);
            }
        }
      }
      assert turns[..|turns|] == turns;
      others := others.(consumer := Gone);
    }

    /** handleCommandResult for the next result on the stream. */
    method HandleCommandResult(result: Result)
      requires others.loop == Running && |inbox| > 0
      modifies store, this`inbox
      ensures var reply := old(inbox)[0];
              && View() == Do(old(View()), Handle(reply.c, reply.status))
              && inbox == old(inbox)[1..] && |store.rows| == |old(store.rows)|
              && forall i :: 0 <= i < |store.rows| ==>
                   var row := old(store.rows)[i];
                   store.rows[i] == if row.id == reply.c then row.(status := reply.status, result := result) else row
      ensures DistinctIds(old(store.rows)) ==> DistinctIds(store.rows)
    {
      var reply := inbox[0];
      inbox := inbox[1..];
      store.UpdateCommandResult(reply.c, reply.status, result);
    }

    /** watchCommandTimeout once its timer has fired. */
    method WatchCommandTimeout(c: CommandId, now: int)
      requires c in watchers && DistinctIds(store.rows)
      modifies store, this`watchers
      ensures View() == Do(old(View()), Fire(c))
      ensures SparedByTimeout(old(store.rows), store.rows, c) && HitByTimeout(old(store.rows), store.rows, c, now)
      ensures DistinctIds(store.rows)
    {
      watchers := watchers - {c};
      store.MarkCommandTimeout(c, now);
    }
  }

  /** The service: its tables, its registry and a Link for each registered session. */
  class Server {
    const store: CommandStore
    const terminals: Terminals.TerminalStore
    const registry: Registry.ConnectionManager
    var links: map<SessionId, Link>

    constructor ()
      ensures Valid() && links == map[]
    {
      store := new CommandStore();
      terminals := new Terminals.TerminalStore();
      registry := new Registry.ConnectionManager();
      links := map[];
    }

    /** Every Link is under its session id and writes the one command log. */
    ghost predicate Wired()
      reads this
    {
      forall sid :: sid in links ==> links[sid].sid == sid && links[sid].store == store
    }

    ghost predicate Valid()
      reads this, store, registry, registry.sessions.Values
    {
      Wired() && DistinctIds(store.rows) && links.Keys == registry.sessions.Keys && registry.Valid()
    }

    /** Every session's command protocol. */
    ghost function View(): System
      reads this, store, links.Values, set sid | sid in links :: links[sid].store
    {
      map sid | sid in links :: links[sid].View()
    }

    /** The session SendCommand addresses: the device's latest, if the registry has it online. */
    ghost function Target(device: DeviceId): Option<SessionId>
      reads this, terminals, registry, registry.sessions.Values
    {
      var found := Terminals.ByDevice(terminals.rows, device);
      if found.Some? && found.value in registry.sessions && registry.sessions[found.value].online then found else None
    }

    ghost function TargetOf(device: Option<DeviceId>): Option<SessionId>
      reads this, terminals, registry, registry.sessions.Values
    {
      if device.Some? then Target(device.value) else None
    }

    /** The device's latest session is this one, and the registry has it online. */
    ghost predicate Reachable(device: Option<DeviceId>, sid: SessionId)
      reads this, terminals, registry, registry.sessions.Values
    {
      Latest(device, sid) && sid in registry.sessions && registry.sessions[sid].online
    }

    /** The device's latest session is this one: no other session of it was seen later. */
    ghost predicate Latest(device: Option<DeviceId>, sid: SessionId)
      reads this, terminals
    {
      device.Some? && Terminals.IsLatest(terminals.rows, sid) && terminals.rows[sid].device == device.value
    }

    /** The device has a row. */
    ghost predicate Stored(device: DeviceId)
      reads this, terminals
    {
      exists sid :: sid in terminals.rows && terminals.rows[sid].device == device
    }

    /** The six answers, in the order the checks are made. */
    ghost function FullAnswer(device: Option<DeviceId>, kind: CommandType, id: CommandId): Response
      requires Valid()
      reads this, store, terminals, registry, registry.sessions.Values, links.Values
    {
      if device.None? || kind == UNSPECIFIED then InvalidArgument
      else if Terminals.SessionsOf(terminals.rows, device.value) == {} then NotFound
      else if Target(device.value).None? then Offline
      else links[Target(device.value).value].Answer(id)
    }

    /** A fresh uuid: no SendCommand call of any session is using it. */
    ghost predicate Unused(id: CommandId)
      reads this, links.Values
    {
      forall sid :: sid in links ==> id !in links[sid].others.admins
    }

    lemma TargetNeedsSession(device: Option<DeviceId>)
      ensures device.Some? && Terminals.SessionsOf(terminals.rows, device.value) == {} ==> Target(device.value) == None
    {
      if device.Some? {
        Terminals.FirstLeads(Terminals.LastSeen(terminals.rows), Terminals.SessionsOf(terminals.rows, device.value));
      }
    }

    lemma UnusedIsFresh(id: CommandId)
      requires Valid() && Unused(id) && !HasRow(store.rows, id)
      ensures Fresh(View(), id)
    {
      NoStatusWithoutRow(store.rows, id);
    }

    method SaveAndEnqueue(sid: SessionId, id: CommandId, kind: CommandType, now: int) returns (r: Response)
      requires Wired() && DistinctIds(store.rows) && sid in links
      modifies store, links[sid]
      ensures DistinctIds(store.rows) && links == old(links)
      ensures old(Valid()) ==> Valid()
      ensures r == old(links[sid].Answer(id))
      ensures Sends(old(View()), View(), Some(sid), r)
      ensures Accepted(old(store.rows), old(links[sid].queue), sid, id, kind, now, r, store.rows, links[sid].queue)
    {
      ghost var before := View();
      assert before[sid] == links[sid].View();
      r := links[sid].SaveAndEnqueue(id, kind, now);
      assert View()[sid] == AfterSend(before[sid], r);
      assert forall other :: other in links && other != sid ==> View()[other] == before[other];
    }

    /** The checks before the INSERT; they read, and write nothing. */
    method Locate(device: Option<DeviceId>, kind: CommandType, ghost id: CommandId)
      returns (found: Option<SessionId>, refusal: Response)
      requires Valid()
      ensures found == (if kind != UNSPECIFIED then TargetOf(device) else None)
      ensures found.Some? ==> found.value in links
      ensures FullAnswer(device, kind, id) == if found.None? then refusal else links[found.value].Answer(id)
      ensures refusal.InvalidArgument? || refusal.NotFound? || refusal.Offline?
      ensures found.Some? ==> kind != UNSPECIFIED && Reachable(device, found.value)
      ensures found.Some? ==> forall sid :: Reachable(device, sid) ==> sid == found.value
      ensures found.None? ==>
        && (refusal.InvalidArgument? <==> device.None? || kind == UNSPECIFIED)
        && (refusal.NotFound? <==> device.Some? && kind != UNSPECIFIED && !Stored(device.value))
        && (refusal.Offline? ==> Stored(device.value) && forall sid :: !Reachable(device, sid))
      ensures Valid() && View() == old(View())
      ensures TargetOf(device) == old(TargetOf(device)) && FullAnswer(device, kind, id) == old(FullAnswer(device, kind, id))
    {
      TargetNeedsSession(device);
      if device.None? {
        return None, InvalidArgument;
      }
      if kind == UNSPECIFIED {
        return None, InvalidArgument;
      }
      found := terminals.GetTerminalByDevice(device.value);
      OneLatest(device.value);
      if found.None? {
        return None, NotFound;
      }
      if found.value !in registry.sessions || !registry.sessions[found.value].online {
        return None, Offline;
      }
      refusal := Offline;
    }

    /** At most one session is the latest of a device, and the lookup finds it. */
    lemma OneLatest(device: DeviceId)
      ensures forall sid: SessionId :: Latest(Some(device), sid) ==> Terminals.ByDevice(terminals.rows, device) == Some(sid)
      ensures Stored(device) ==> exists sid :: Latest(Some(device), sid)
    {
      Terminals.HasSession(terminals.rows, device);
      if Terminals.SessionsOf(terminals.rows, device) != {} {
        Terminals.LatestUnique(terminals.rows, device);
        assert Latest(Some(device), Terminals.ByDevice(terminals.rows, device).value);
      }
    }

    lemma AnswerIsFresh(device: Option<DeviceId>, kind: CommandType, id: CommandId)
      requires Valid() && Unused(id)
      ensures var r := FullAnswer(device, kind, id);
              r.Queued? || r.QueueFull? ==> Fresh(View(), r.id)
    {
      if !HasRow(store.rows, id) {
        UnusedIsFresh(id);
      }
    }

    /** The call, and the session it has addressed, if it got so far. */
    method Send(device: Option<DeviceId>, kind: CommandType, id: CommandId, now: int)
      returns (r: Response, ghost found: Option<SessionId>)
      requires Valid()
      modifies store, links.Values
      ensures Valid() && links == old(links)
      ensures r == old(FullAnswer(device, kind, id))
      ensures Sends(old(View()), View(), old(TargetOf(device)), r)
      ensures found.Some? ==>
        && kind != UNSPECIFIED && old(Reachable(device, found.value)) && found.value in links
        && (forall sid :: old(Reachable(device, sid)) ==> sid == found.value)
        && Accepted(old(store.rows), old(links[found.value].queue), found.value, id, kind, now, r, store.rows, links[found.value].queue)
      ensures found.None? ==>
        && (r.InvalidArgument? <==> device.None? || kind == UNSPECIFIED)
        && (r.NotFound? <==> device.Some? && kind != UNSPECIFIED && !old(Stored(device.value)))
        && (r.Offline? ==> old(Stored(device.value)) && forall sid :: !old(Reachable(device, sid)))
        && (r.InvalidArgument? || r.NotFound? || r.Offline?)
        && store.rows == old(store.rows)
    {
      var target, refusal := Locate(device, kind, id);
      found := target;
      if target.None? {
        NothingSent(View(), TargetOf(device), refusal);
        return refusal, target;
      }
      r := SaveAndEnqueue(target.value, id, kind, now);
    }

    /**
     SendCommand. With an unused id, an uninterrupted call takes the whole system exactly along the
     protocol's events for its answer, so what every run keeps it keeps.
     */
    method SendCommand(device: Option<DeviceId>, kind: CommandType, id: CommandId, now: int) returns (r: Response)
      requires Valid()
      modifies store, links.Values
      ensures Valid() && links == old(links)
      ensures r == old(FullAnswer(device, kind, id))
      ensures r.InvalidArgument? <==> device.None? || kind == UNSPECIFIED
      ensures r.NotFound? <==> device.Some? && kind != UNSPECIFIED && !old(Stored(device.value))
      ensures r.Offline? <==>
        device.Some? && kind != UNSPECIFIED && old(Stored(device.value)) && forall sid :: !old(Reachable(device, sid))
      ensures r.SaveFailed? || r.QueueFull? || r.Queued? ==> kind != UNSPECIFIED && exists sid :: old(Reachable(device, sid))
      ensures kind != UNSPECIFIED ==> forall sid :: old(Reachable(device, sid)) ==>
        && sid in old(links)
        && Accepted(old(store.rows), old(links[sid].queue), sid, id, kind, now, r, store.rows, old(links)[sid].queue)
      ensures !r.Queued? && !r.QueueFull? ==> store.rows == old(store.rows)
      ensures Sends(old(View()), View(), old(TargetOf(device)), r)
      ensures old(Unused(id)) ==> RunsTo(old(View()), SendEvents(old(TargetOf(device)), r), View())
    {
      ghost var before, target, unused := View(), TargetOf(device), Unused(id);
      if unused {
        AnswerIsFresh(device, kind, id);
      }
      ghost var found;
      r, found := Send(device, kind, id, now);
      if unused {
        SendIsEvents(before, View(), target, r);
      }
    }
  }
}
