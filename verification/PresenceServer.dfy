/**
 The handlers of internal/server/server.go over the registry and the terminals table. Each one is
 proved to do what its steps in the step system do when nothing comes between them.
 */
module PresenceServer {
  import opened Options
  import opened Presence
  import R = Registry
  import T = Terminals

  datatype Handshake = Full | Blocked | Welcome(sid: SessionId)

  /** These steps lead from one state to the other. */
  ghost predicate Path(s: Server, steps: seq<Step>, s': Server)
    decreases |steps|
  {
    if steps == [] then s == s' else Enabled(s, steps[0]) && Path(Do(s, steps[0]), steps[1..], s')
  }

  // ---- What uninterrupted handlers do ----------------------------------------------------

  function Greeting(m: R.Sessions, maxConns: int, rows: T.Table, device: DeviceId, sid: SessionId): Handshake {
    if R.Full(m, maxConns) then Full else if T.IsBlocked(rows, device) then Blocked else Welcome(sid)
  }

  function Registered(s: Server, device: DeviceId, facts: string, r: Handshake): Server {
    match r
    case Welcome(sid) => s.(mem := s.mem[sid := R.NewConn(device)], rows := T.Upserted(s.rows, sid, device, facts, s.now))
    case _ => s
  }

  /** The steps a Register call has taken when it gives this answer. */
  function RegisterSteps(call: CallId, device: DeviceId, facts: string, r: Handshake): seq<Step> {
    match r
    case Full => []
    case Blocked => [RegFull(call, device), RegRefuse(call)]
    case Welcome(sid) => [RegFull(call, device), RegBlock(call), RegAdd(call, sid), RegUpsert(call, facts)]
  }

  /** Nothing of this server knows the session id: it is a fresh uuid. */
  predicate Unknown(s: Server, sid: SessionId) {
    sid !in s.mem && sid !in s.rows && sid !in s.chans
  }

  lemma AddIsPath(s: Server, call: CallId, device: DeviceId, facts: string, sid: SessionId)
    requires Unlocked(s) && call !in s.regs && Unknown(s, sid)
    ensures Path(s.(regs := s.regs[call := PastBlock(device)]), [RegAdd(call, sid), RegUpsert(call, facts)],
                 Registered(s, device, facts, Welcome(sid)))
  {
    var steps := [RegAdd(call, sid), RegUpsert(call, facts)];
    var block := s.(regs := s.regs[call := PastBlock(device)]);
    var added := s.(regs := s.regs[call := Added(device, sid)], mem := s.mem[sid := R.NewConn(device)]);
    var done := Registered(s, device, facts, Welcome(sid));
    assert block.regs[call := Added(device, sid)] == added.regs;
    assert added.regs - {call} == s.regs;
    assert Path(done, steps[1..][1..], done);
    assert Path(added, steps[1..], done);
  }

  lemma {:induction false} WelcomeIsPath(s: Server, call: CallId, device: DeviceId, facts: string, sid: SessionId)
    requires Unlocked(s) && call !in s.regs && Unknown(s, sid) && Greeting(s.mem, s.maxConns, s.rows, device, sid) == Welcome(sid)
    ensures Path(s, RegisterSteps(call, device, facts, Welcome(sid)), Registered(s, device, facts, Welcome(sid)))
  {
    var steps := RegisterSteps(call, device, facts, Welcome(sid));
    var full := s.(regs := s.regs[call := PastFull(device)]);
    var block := s.(regs := s.regs[call := PastBlock(device)]);
    AddIsPath(s, call, device, facts, sid);
    assert full.regs[call := PastBlock(device)] == block.regs;
    assert steps[1..][1..] == [RegAdd(call, sid), RegUpsert(call, facts)];
    assert Path(full, steps[1..], Registered(s, device, facts, Welcome(sid)));
  }

  lemma {:induction false} RefusalIsPath(s: Server, call: CallId, device: DeviceId, facts: string)
    requires Unlocked(s) && call !in s.regs && !R.Full(s.mem, s.maxConns) && T.IsBlocked(s.rows, device)
    ensures Path(s, RegisterSteps(call, device, facts, Blocked), s)
  {
    var full := s.(regs := s.regs[call := PastFull(device)]);
    assert full.regs - {call} == s.regs;
    assert Path(s, [RegFull(call, device), RegRefuse(call)][1..][1..], s);
    assert Path(full, [RegFull(call, device), RegRefuse(call)][1..], s);
  }

  /** A Register call that nothing interrupts is the steps of its answer. */
  lemma {:induction false} RegisterIsPath(s: Server, call: CallId, device: DeviceId, facts: string, sid: SessionId)
    requires Unlocked(s) && call !in s.regs && Unknown(s, sid)
    ensures var r := Greeting(s.mem, s.maxConns, s.rows, device, sid);
            Path(s, RegisterSteps(call, device, facts, r), Registered(s, device, facts, r))
  {
    match Greeting(s.mem, s.maxConns, s.rows, device, sid)
    case Full =>
    case Blocked => RefusalIsPath(s, call, device, facts);
    case Welcome(_) => WelcomeIsPath(s, call, device, facts, sid);
  }

  /** BlockTerminal writes the table and then kicks; with nothing in between, these are its two steps. */
  function BlockedAndKicked(s: Server, device: DeviceId): Server {
    s.(rows := T.WithBlocked(s.rows, device, true), mem := R.KickedDevice(s.mem, device))
  }

  lemma {:induction false} BlockIsPath(s: Server, device: DeviceId)
    requires Unlocked(s)
    ensures Path(s, [Block(device), KickDevice(device)], BlockedAndKicked(s, device))
  {
    var done := BlockedAndKicked(s, device);
    assert Path(done, [Block(device), KickDevice(device)][1..][1..], done);
    assert Path(Do(s, Block(device)), [Block(device), KickDevice(device)][1..], done);
  }

  /** What a heartbeat handler does when nothing comes between its writes. */
  function BeatenTwice(s: Server, sid: SessionId): Server {
    s.(mem := R.Beaten(s.mem, sid, s.now), rows := T.Beaten(s.rows, sid, s.now))
  }

  lemma {:induction false} HeartbeatIsPath(s: Server, sid: SessionId)
    requires Unlocked(s) && At(s, sid, Serving)
    ensures Path(s, [Beat(sid), BeatStore(sid)], BeatenTwice(s, sid))
  {
    var done := BeatenTwice(s, sid);
    assert s.chans[sid := Beating][sid := Serving] == s.chans;
    assert Path(done, [Beat(sid), BeatStore(sid)][1..][1..], done);
    assert Path(Do(s, Beat(sid)), [Beat(sid), BeatStore(sid)][1..], done);
  }

  // ---- One pass of the heartbeat sweep ---------------------------------------------------

  /** The order in which a pass comes to these sessions: each once. */
  ghost predicate Enumerates(list: seq<SessionId>, ids: set<SessionId>) {
    && (forall sid :: sid in list <==> sid in ids)
    && (forall i, j :: 0 <= i < j < |list| ==> list[i] != list[j])
  }

  function AllDropped(m: R.Sessions, ids: set<SessionId>): R.Sessions {
    map sid | sid in m :: if sid in ids then m[sid].(online := false) else m[sid]
  }

  function AllOffline(t: T.Table, ids: set<SessionId>): T.Table {
    map sid | sid in t :: if sid in ids then t[sid].(online := false) else t[sid]
  }

  /** What a pass does when nothing comes between its writes. */
  function AfterSweep(s: Server, ids: set<SessionId>): Server {
    s.(mem := AllDropped(s.mem, ids), rows := AllOffline(s.rows, ids))
  }

  lemma SweptIsDropped(m: R.Sessions, now: int, timeout: int)
    ensures R.Swept(m, now, timeout) == AllDropped(m, R.Expired(m, now, timeout))
  {
  }

  lemma OfflineNext(t: T.Table, ids: set<SessionId>, sid: SessionId)
    ensures AllOffline(t, ids + {sid}) == T.WentOffline(AllOffline(t, ids), sid)
  {
  }

  lemma EnumeratesNext(list: seq<SessionId>, ids: set<SessionId>, sid: SessionId)
    requires Enumerates(list, ids) && sid !in ids
    ensures Enumerates(list + [sid], ids + {sid})
  {
  }

  // ---- The receive loop of a Channel ----------------------------------------------------

  /**
   What the select sees: a message of the client, an admin's kick of the session in another goroutine,
   or the disconnect channel, which it can take once that is closed.
   */
  datatype Incident = Heartbeat(at: int) | Report | CommandResult | Unknown | AdminKick | TakesDisconnect

  /** Kicked is the PermissionDenied answer; StreamEnded is an end of file or an error of Recv. */
  datatype ChannelEnd = NotFound | Kicked | StreamEnded

  /** The two copies of presence, and whether the loop has returned because of a kick. */
  datatype LoopState = LoopState(mem: R.Sessions, rows: T.Table, kicked: bool)

  predicate Disconnected(m: R.Sessions, sid: SessionId) {
    sid in m && m[sid].disconnected
  }

  function AfterIncident(s: LoopState, sid: SessionId, e: Incident): LoopState {
    if s.kicked then s
    else match e
      case Heartbeat(at) => LoopState(R.Beaten(s.mem, sid, at), T.Beaten(s.rows, sid, at), false)
      case AdminKick => s.(mem := R.Kicked(s.mem, sid))
      case TakesDisconnect => s.(kicked := Disconnected(s.mem, sid))
      case _ => s
  }

  function AfterIncidents(s: LoopState, sid: SessionId, events: seq<Incident>): LoopState {
    if events == [] then s
    else AfterIncident(AfterIncidents(s, sid, events[..|events| - 1]), sid, events[|events| - 1])
  }

  lemma {:induction false} NextIncident(s: LoopState, sid: SessionId, events: seq<Incident>, i: nat)
    requires i < |events|
    ensures AfterIncidents(s, sid, events[..i + 1]) == AfterIncident(AfterIncidents(s, sid, events[..i]), sid, events[i])
  {
    assert events[..i + 1][..i] == events[..i];
  }

  /** A loop that has returned is past everything. */
  lemma {:induction false} KickedStays(s: LoopState, sid: SessionId, events: seq<Incident>, i: nat)
    requires i <= |events| && AfterIncidents(s, sid, events[..i]).kicked
    ensures AfterIncidents(s, sid, events) == AfterIncidents(s, sid, events[..i])
  {
    if i == |events| {
      assert events[..i] == events;
    } else {
      var init := events[..|events| - 1];
      assert init[..i] == events[..i];
      KickedStays(s, sid, init, i);
    }
  }

  /** A Channel just opened. */
  function Opened(m: R.Sessions, rows: T.Table, sid: SessionId, since: int): LoopState {
    LoopState(R.Streaming(m, sid, since), rows, false)
  }

  /** What the loop got to before it returned. */
  function Served(s: LoopState, sid: SessionId, events: seq<Incident>): seq<Incident> {
    if events == [] then []
    else
      var init := events[..|events| - 1];
      if AfterIncidents(s, sid, init).kicked then Served(s, sid, init) else Served(s, sid, init) + [events[|events| - 1]]
  }

  /** The time of the last heartbeat, or of the opening. */
  function LastBeat(since: int, served: seq<Incident>): int {
    if served == [] then since
    else if served[|served| - 1].Heartbeat? then served[|served| - 1].at
    else LastBeat(since, served[..|served| - 1])
  }

  function KickedBy(closed: bool, served: seq<Incident>): bool {
    closed || AdminKick in served
  }

  /** An open Channel's session: online with its last heartbeat, and disconnected if it was or has been kicked. */
  function OpenConn(c: R.Conn, since: int, served: seq<Incident>): R.Conn {
    c.(hasStream := true, online := true, lastHeartbeat := LastBeat(since, served),
       disconnected := KickedBy(c.disconnected, served))
  }

  lemma {:induction false} OpenConnNext(c: R.Conn, since: int, served: seq<Incident>, e: Incident)
    ensures OpenConn(c, since, served + [e])
            == var open := OpenConn(c, since, served);
               if e.Heartbeat? then open.(lastHeartbeat := e.at)
               else if e.AdminKick? then open.(disconnected := true)
               else open
  {
    assert (served + [e])[..|served|] == served;
  }

  /** While the Channel is open only its own session changes in the registry, and a kick always closes its channel. */
  lemma {:induction false} LoopKeepsMem(m: R.Sessions, rows: T.Table, sid: SessionId, since: int, events: seq<Incident>)
    requires sid in m
    ensures var s := Opened(m, rows, sid, since);
            AfterIncidents(s, sid, events).mem == m[sid := OpenConn(m[sid], since, Served(s, sid, events))]
  {
    var s := Opened(m, rows, sid, since);
    if events != [] {
      var init := events[..|events| - 1];
      LoopKeepsMem(m, rows, sid, since, init);
      OpenConnNext(m[sid], since, Served(s, sid, init), events[|events| - 1]);
    }
  }

  /** An open Channel's row: it is online with the time of its last heartbeat once there has been one. */
  function OpenRow(row: T.Terminal, since: int, served: seq<Incident>): T.Terminal {
    if exists i :: 0 <= i < |served| && served[i].Heartbeat? then
      row.(online := true, lastHeartbeat := Some(LastBeat(since, served)))
    else row
  }

  lemma {:induction false} OpenRowNext(row: T.Terminal, since: int, served: seq<Incident>, e: Incident)
    ensures OpenRow(row, since, served + [e])
            == if e.Heartbeat? then row.(online := true, lastHeartbeat := Some(e.at)) else OpenRow(row, since, served)
  {
    var longer := served + [e];
    assert longer[..|served|] == served && longer[|served|] == e;
    if i :| 0 <= i < |served| && served[i].Heartbeat? {
      assert longer[i].Heartbeat?;
    }
    if i :| 0 <= i < |longer| && longer[i].Heartbeat? && i < |served| {
      assert served[i].Heartbeat?;
    }
  }

  /** While the Channel is open only its own row changes in the table, and only by its heartbeats. */
  lemma {:induction false} LoopKeepsRows(m: R.Sessions, rows: T.Table, sid: SessionId, since: int, events: seq<Incident>)
    ensures var s := Opened(m, rows, sid, since);
            AfterIncidents(s, sid, events).rows
            == if sid in rows then rows[sid := OpenRow(rows[sid], since, Served(s, sid, events))] else rows
  {
    var s := Opened(m, rows, sid, since);
    if events != [] {
      var init := events[..|events| - 1];
      LoopKeepsRows(m, rows, sid, since, init);
      if sid in rows {
        OpenRowNext(rows[sid], since, Served(s, sid, init), events[|events| - 1]);
      }
    }
  }

  /** What a Channel leaves behind in the registry. */
  function ChannelMem(m: R.Sessions, rows: T.Table, sid: SessionId, since: int, events: seq<Incident>): R.Sessions {
    R.Cleared(AfterIncidents(Opened(m, rows, sid, since), sid, events).mem, sid)
  }

  function ChannelRows(m: R.Sessions, rows: T.Table, sid: SessionId, since: int, events: seq<Incident>): T.Table {
    T.WentOffline(AfterIncidents(Opened(m, rows, sid, since), sid, events).rows, sid)
  }

  /**
   When a Channel returns, its session is offline in the registry and in the table, with the time of
   its last heartbeat in both and its channel closed if a kick came, and nothing else has changed.
   */
  lemma ChannelLeavesOffline(m: R.Sessions, rows: T.Table, sid: SessionId, since: int, events: seq<Incident>)
    requires sid in m
    ensures var served := Served(Opened(m, rows, sid, since), sid, events);
            ChannelMem(m, rows, sid, since, events)
            == m[sid := OpenConn(m[sid], since, served).(hasStream := false, online := false)]
    ensures var served := Served(Opened(m, rows, sid, since), sid, events);
            ChannelRows(m, rows, sid, since, events)
            == if sid in rows then rows[sid := OpenRow(rows[sid], since, served).(online := false)] else rows
  {
    LoopKeepsMem(m, rows, sid, since, events);
    LoopKeepsRows(m, rows, sid, since, events);
  }

  /** The loop has taken the disconnect channel after it was closed, before the Channel or by a kick during it. */
  ghost predicate TakenAt(closed: bool, events: seq<Incident>, i: int) {
    0 <= i < |events| && events[i] == TakesDisconnect && KickedBy(closed, events[..i])
  }

  lemma {:induction false} ServedAll(s: LoopState, sid: SessionId, events: seq<Incident>)
    requires !AfterIncidents(s, sid, events).kicked
    ensures Served(s, sid, events) == events
  {
    if events != [] {
      ServedAll(s, sid, events[..|events| - 1]);
    }
  }

  /** A Channel is denied exactly when the select takes a disconnect channel that was closed before or that a kick has closed. */
  lemma {:induction false} DeniedExact(m: R.Sessions, rows: T.Table, sid: SessionId, since: int, events: seq<Incident>)
    requires sid in m
    ensures AfterIncidents(Opened(m, rows, sid, since), sid, events).kicked
            <==> exists i :: TakenAt(m[sid].disconnected, events, i)
  {
    var s, closed := Opened(m, rows, sid, since), m[sid].disconnected;
    if events != [] {
      var init, n := events[..|events| - 1], |events| - 1;
      DeniedExact(m, rows, sid, since, init);
      TakenEarlier(closed, events);
      if !AfterIncidents(s, sid, init).kicked {
        LoopKeepsMem(m, rows, sid, since, init);
        ServedAll(s, sid, init);
      }
    }
  }

  /** What is so of the first i events stays so when one more comes. */
  lemma TakenBefore(closed: bool, events: seq<Incident>)
    requires events != []
    ensures forall i :: 0 <= i < |events| - 1 ==> (TakenAt(closed, events, i) <==> TakenAt(closed, events[..|events| - 1], i))
  {
    forall i | 0 <= i < |events| - 1 ensures TakenAt(closed, events, i) <==> TakenAt(closed, events[..|events| - 1], i) {
      assert events[..i] == events[..|events| - 1][..i];
    }
  }

  lemma TakenEarlier(closed: bool, events: seq<Incident>)
    requires events != []
    ensures var init := events[..|events| - 1];
            (exists i :: TakenAt(closed, events, i))
            <==> (exists i :: TakenAt(closed, init, i)) || TakenAt(closed, events, |events| - 1)
  {
    var init := events[..|events| - 1];
    TakenBefore(closed, events);
    if i :| TakenAt(closed, init, i) {
      assert TakenAt(closed, events, i);
    }
    if i :| TakenAt(closed, events, i) && i < |init| {
      assert TakenAt(closed, init, i);
    }
  }

  /** The loop serves what it sees up to and including the first taking of a closed disconnect channel. */
  lemma {:induction false} ServedExact(m: R.Sessions, rows: T.Table, sid: SessionId, since: int, events: seq<Incident>)
    requires sid in m
    ensures var served, closed := Served(Opened(m, rows, sid, since), sid, events), m[sid].disconnected;
            && served <= events
            && (forall i :: 0 <= i < |served| - 1 ==> !TakenAt(closed, events, i))
            && (served == events || (served != [] && TakenAt(closed, events, |served| - 1)))
  {
    var s := Opened(m, rows, sid, since);
    if events != [] {
      var init := events[..|events| - 1];
      DeniedExact(m, rows, sid, since, init);
      TakenBefore(m[sid].disconnected, events);
      if AfterIncidents(s, sid, init).kicked {
        ServedExact(m, rows, sid, since, init);
      } else {
        ServedAll(s, sid, init);
        assert Served(s, sid, events) == events;
      }
    }
  }

  class Service {
    const registry: R.ConnectionManager
    const terminals: T.TerminalStore
    /** The clock, the heartbeat timeout and where the handlers in flight stand. */
    ghost var others: Server

    constructor ()
      ensures Valid() && View().mem == map[] && View().rows == map[]
    {
      registry := new R.ConnectionManager();
      terminals := new T.TerminalStore();
      others := Server(map[], map[], 0, 0, 0, map[], map[], Idle);
    }

    ghost predicate Valid()
      reads registry, registry.sessions.Values
    {
      registry.Valid()
    }

    ghost function View(): Server
      reads this, registry, registry.sessions.Values, terminals
    {
      others.(mem := registry.View(), rows := terminals.rows, maxConns := registry.maxConns)
    }

    /** The two writes of an accepted registration. */
    method AddSession(sid: SessionId, device: DeviceId, facts: string, now: int)
      requires Valid()
      modifies registry, terminals
      ensures Valid() && registry.maxConns == old(registry.maxConns)
      ensures registry.View() == old(registry.View())[sid := R.NewConn(device)]
      ensures terminals.rows == T.Upserted(old(terminals.rows), sid, device, facts, now)
    {
      var conn := new R.ClientConn(sid, device);
      registry.Add(conn);
      terminals.UpsertTerminal(sid, device, facts, now);
    }

    method Register(device: DeviceId, facts: string, sid: SessionId, now: int) returns (r: Handshake)
      requires Valid()
      modifies registry, terminals
      ensures Valid() && registry.maxConns == old(registry.maxConns)
      ensures r == Greeting(old(registry.View()), old(registry.maxConns), old(terminals.rows), device, sid)
      ensures r == Full <==> old(registry.maxConns > 0 && |registry.sessions| >= registry.maxConns)
      ensures r == Blocked ==>
        (exists other :: other in old(terminals.rows) && old(terminals.rows[other].device == device && terminals.rows[other].blocked))
      ensures r.Welcome? ==> r.sid == sid
      ensures r.Welcome? ==>
        (forall other :: other in old(terminals.rows) && old(terminals.rows[other].device == device) ==> old(!terminals.rows[other].blocked))
      ensures registry.View() == if r.Welcome? then old(registry.View())[sid := R.NewConn(device)] else old(registry.View())
      ensures terminals.rows
              == if r.Welcome? then T.Upserted(old(terminals.rows), sid, device, facts, now) else old(terminals.rows)
    {
      assert registry.View().Keys == registry.sessions.Keys;
      var full := registry.IsFull();
      if full {
        return Full;
      }
      var blocked := terminals.IsDeviceBlocked(device);
      if blocked {
        return Blocked;
      }
      AddSession(sid, device, facts, now);
      r := Welcome(sid);
    }

    method HandleHeartbeat(sid: SessionId, now: int)
      requires Valid()
      modifies registry.sessions.Values, terminals
      ensures Valid()
      ensures registry.View() == R.Beaten(old(registry.View()), sid, now)
      ensures terminals.rows == T.Beaten(old(terminals.rows), sid, now)
    {
      registry.RecordHeartbeat(sid, now);
      terminals.UpdateHeartbeat(sid, now);
    }

    /** The receive loop of Channel. Reports and results are handled without touching presence. */
    method ReceiveLoop(sid: SessionId, events: seq<Incident>) returns (kicked: bool)
      requires Valid() && sid in registry.sessions
      modifies registry.sessions.Values, terminals
      ensures Valid()
      ensures LoopState(registry.View(), terminals.rows, kicked)
              == AfterIncidents(LoopState(old(registry.View()), old(terminals.rows), false), sid, events)
    {
      ghost var start := LoopState(registry.View(), terminals.rows, false);
      for i := 0 to |events|
        invariant Valid()
        invariant LoopState(registry.View(), terminals.rows, false) == AfterIncidents(start, sid, events[..i])
      {
        NextIncident(start, sid, events, i);
        kicked := Select(sid, events[i]);
        if kicked {
          KickedStays(start, sid, events, i + 1);
          return;
        }
      }
      assert events[..|events|] == events;
      kicked := false;
    }

    /** One turn of the select. */
    method Select(sid: SessionId, e: Incident) returns (kicked: bool)
      requires Valid() && sid in registry.sessions
      modifies registry.sessions.Values, terminals
      ensures Valid()
      ensures LoopState(registry.View(), terminals.rows, kicked)
              == AfterIncident(LoopState(old(registry.View()), old(terminals.rows), false), sid, e)
    {
      kicked := false;
      match e
      case Heartbeat(at) => HandleHeartbeat(sid, at);
      case AdminKick => registry.Kick(sid);
      case TakesDisconnect =>
        assert registry.View()[sid] == registry.sessions[sid].Value();
        kicked := registry.sessions[sid].disconnected;
      case _ =>
    }

    method Channel(sid: SessionId, since: int, events: seq<Incident>) returns (end: ChannelEnd)
      requires Valid()
      modifies registry.sessions.Values, terminals
      ensures Valid()
      ensures end.NotFound? <==> sid !in old(registry.View())
      ensures end.NotFound? ==> registry.View() == old(registry.View()) && terminals.rows == old(terminals.rows)
      ensures !end.NotFound? ==>
        && registry.View() == ChannelMem(old(registry.View()), old(terminals.rows), sid, since, events)
        && terminals.rows == ChannelRows(old(registry.View()), old(terminals.rows), sid, since, events)
        && (end.Kicked? <==>
              AfterIncidents(Opened(old(registry.View()), old(terminals.rows), sid, since), sid, events).kicked)
    {
      if sid !in registry.sessions {
        return NotFound;
      }
      registry.SetStream(sid, since);
      var kicked := ReceiveLoop(sid, events);
      registry.ClearStream(sid);
      terminals.MarkOffline(sid);
      end := if kicked then Kicked else StreamEnded;
    }

    /**
     One tick of HeartbeatChecker with its onOffline callback, which marks each session it drops offline
     in the table; `dropped` is the order in which the pass comes to them.
     */
    method HeartbeatTick(now: int, timeout: int) returns (dropped: seq<SessionId>)
      requires Valid()
      modifies registry.sessions.Values, terminals
      ensures Valid()
      ensures Enumerates(dropped, R.Expired(old(registry.View()), now, timeout))
      ensures View() == AfterSweep(old(View()), R.Expired(old(registry.View()), now, timeout))
    {
      SweptIsDropped(registry.View(), now, timeout);
      var reported := registry.Sweep(now, timeout);
      dropped := MarkAllOffline(reported);
    }

    method MarkAllOffline(ids: set<SessionId>) returns (list: seq<SessionId>)
      modifies terminals
      ensures Enumerates(list, ids) && terminals.rows == AllOffline(old(terminals.rows), ids)
    {
      ghost var before := terminals.rows;
      list := [];
      var todo := ids;
      while todo != {}
        invariant todo <= ids && Enumerates(list, ids - todo)
        invariant terminals.rows == AllOffline(before, ids - todo)
        decreases |todo|
      {
        var sid :| sid in todo;
        OfflineNext(before, ids - todo, sid);
        EnumeratesNext(list, ids - todo, sid);
        assert ids - (todo - {sid}) == (ids - todo) + {sid};
        terminals.MarkOffline(sid);
        list := list + [sid];
        todo := todo - {sid};
      }
      assert ids - {} == ids;
    }

    method DisconnectTerminal(sid: SessionId) returns (ok: bool)
      requires Valid()
      modifies registry.sessions.Values
      ensures Valid()
      ensures ok <==> OnlineInMemory(old(View()), sid)
      ensures View() == old(View()).(mem := R.Kicked(old(View()).mem, sid))
      ensures Unlocked(old(View())) ==> View() == Do(old(View()), Kick(sid))
    {
      if sid !in registry.sessions || !registry.sessions[sid].online {
        return false;
      }
      registry.Kick(sid);
      ok := true;
    }

    method BlockTerminal(device: DeviceId)
      requires Valid()
      modifies registry.sessions.Values, terminals
      ensures Valid()
      ensures View() == BlockedAndKicked(old(View()), device)
      ensures forall sid :: sid in terminals.rows && terminals.rows[sid].device != device ==>
        sid in old(terminals.rows) && terminals.rows[sid] == old(terminals.rows)[sid]
      ensures forall other :: other != device ==>
        (T.IsBlocked(terminals.rows, other) <==> T.IsBlocked(old(terminals.rows), other))
    {
      terminals.MarkBlocked(device);
      registry.KickDeviceSessions(device);
    }

    method UnblockTerminal(device: DeviceId)
      requires Valid()
      modifies terminals
      ensures Valid()
      ensures View() == old(View()).(rows := T.WithBlocked(old(View()).rows, device, false))
      ensures View() == Do(old(View()), Unblock(device))
      ensures !T.IsBlocked(View().rows, device)
    {
      terminals.UnblockTerminal(device);
    }
  }
}
