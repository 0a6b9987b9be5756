/**
 Registration, presence and the blocklist as a step system. "Online" is kept twice, in the registry
 and in the terminals table, and every handler writes the two one after the other; capacity and the
 blocklist are checked first and acted on later. Each step is one access to shared state.
 */
module Presence {
  import opened Options
  import R = Registry
  import T = Terminals

  type SessionId = nat
  type DeviceId = nat
  type CallId = nat

  /** A Register call. */
  datatype RegPc =
    | PastFull(device: DeviceId)                 // IsFull said no
    | PastBlock(device: DeviceId)                // IsDeviceBlocked said no
    | Added(device: DeviceId, sid: SessionId)    // in the registry, not in the table yet

  /** A session's Channel handler. */
  datatype ChanPc =
    | Opening   // session found, stream not set yet
    | Serving
    | Beating   // heartbeat recorded in the registry, not in the table yet
    | Leaving   // receive loop has returned, stream not cleared yet
    | Cleared   // offline in the registry, not in the table yet

  /** HeartbeatChecker, which holds the registry's lock for a whole pass. */
  datatype SweepPc =
    | Idle
    | Sweeping(asOf: int)
    | Dropping(asOf: int, sid: SessionId)  // offline in the registry, onOffline not called yet

  datatype Server = Server(
    mem: R.Sessions,
    rows: T.Table,
    maxConns: int,
    timeout: int,
    now: int,
    regs: map<CallId, RegPc>,
    chans: map<SessionId, ChanPc>,
    sweep: SweepPc)

  datatype Step =
    | Tick
    // Register
    | RegFull(call: CallId, device: DeviceId)
    | RegBlock(call: CallId)
    | RegRefuse(call: CallId)
    | RegAdd(call: CallId, sid: SessionId)
    | RegUpsert(call: CallId, facts: string)
    // Channel
    | ChanGet(sid: SessionId)
    | ChanSet(sid: SessionId)
    | Beat(sid: SessionId)
    | BeatStore(sid: SessionId)
    | Leave(sid: SessionId)
    | Clear(sid: SessionId)
    | ChanOff(sid: SessionId)
    // HeartbeatChecker; it reads the clock before it takes the lock
    | SweepStart(asOf: int)
    | SweepDrop(sid: SessionId)
    | SweepStore
    | SweepEnd
    // DisconnectTerminal, BlockTerminal (two steps) and UnblockTerminal
    | Kick(sid: SessionId)
    | Block(device: DeviceId)
    | KickDevice(device: DeviceId)
    | Unblock(device: DeviceId)

  predicate At(s: Server, sid: SessionId, pc: ChanPc) {
    sid in s.chans && s.chans[sid] == pc
  }

  predicate Unlocked(s: Server) {
    s.sweep == Idle
  }

  predicate Enabled(s: Server, step: Step) {
    match step
    case Tick => true
    case RegFull(call, _) => call !in s.regs && Unlocked(s) && !R.Full(s.mem, s.maxConns)
    case RegBlock(call) => call in s.regs && s.regs[call].PastFull? && !T.IsBlocked(s.rows, s.regs[call].device)
    case RegRefuse(call) => call in s.regs && s.regs[call].PastFull? && T.IsBlocked(s.rows, s.regs[call].device)
    case RegAdd(call, sid) =>
      call in s.regs && s.regs[call].PastBlock? && Unlocked(s) && sid !in s.mem && sid !in s.rows && sid !in s.chans
    case RegUpsert(call, _) => call in s.regs && s.regs[call].Added?
    case ChanGet(sid) => sid in s.mem && sid !in s.chans && Unlocked(s)
    case ChanSet(sid) => At(s, sid, Opening) && Unlocked(s)
    case Beat(sid) => At(s, sid, Serving) && Unlocked(s)
    case BeatStore(sid) => At(s, sid, Beating)
    case Leave(sid) => At(s, sid, Serving)
    case Clear(sid) => At(s, sid, Leaving) && Unlocked(s)
    case ChanOff(sid) => At(s, sid, Cleared)
    case SweepStart(asOf) => Unlocked(s) && asOf <= s.now
    case SweepDrop(sid) => s.sweep.Sweeping? && sid in s.mem && R.Stale(s.mem[sid], s.sweep.asOf, s.timeout)
    case SweepStore => s.sweep.Dropping?
    case SweepEnd => s.sweep.Sweeping?
    case Kick(_) => Unlocked(s)
    case Block(_) => true
    case KickDevice(_) => Unlocked(s)
    case Unblock(_) => true
  }

  function Do(s: Server, step: Step): Server
    requires Enabled(s, step)
  {
    match step
    case Tick => s.(now := s.now + 1)
    case RegFull(call, device) => s.(regs := s.regs[call := PastFull(device)])
    case RegBlock(call) => s.(regs := s.regs[call := PastBlock(s.regs[call].device)])
    case RegRefuse(call) => s.(regs := s.regs - {call})
    case RegAdd(call, sid) =>
      s.(regs := s.regs[call := Added(s.regs[call].device, sid)], mem := s.mem[sid := R.NewConn(s.regs[call].device)])
    case RegUpsert(call, facts) =>
      s.(regs := s.regs - {call}, rows := T.Upserted(s.rows, s.regs[call].sid, s.regs[call].device, facts, s.now))
    case ChanGet(sid) => s.(chans := s.chans[sid := Opening])
    case ChanSet(sid) => s.(chans := s.chans[sid := Serving], mem := R.Streaming(s.mem, sid, s.now))
    case Beat(sid) => s.(chans := s.chans[sid := Beating], mem := R.Beaten(s.mem, sid, s.now))
    case BeatStore(sid) => s.(chans := s.chans[sid := Serving], rows := T.Beaten(s.rows, sid, s.now))
    case Leave(sid) => s.(chans := s.chans[sid := Leaving])
    case Clear(sid) => s.(chans := s.chans[sid := Cleared], mem := R.Cleared(s.mem, sid))
    case ChanOff(sid) => s.(chans := s.chans - {sid}, rows := T.WentOffline(s.rows, sid))
    case SweepStart(asOf) => s.(sweep := Sweeping(asOf))
    case SweepDrop(sid) => s.(sweep := Dropping(s.sweep.asOf, sid), mem := R.WentOffline(s.mem, sid))
    case SweepStore => s.(sweep := Sweeping(s.sweep.asOf), rows := T.WentOffline(s.rows, s.sweep.sid))
    case SweepEnd => s.(sweep := Idle)
    case Kick(sid) => s.(mem := R.Kicked(s.mem, sid))
    case Block(device) => s.(rows := T.WithBlocked(s.rows, device, true))
    case KickDevice(device) => s.(mem := R.KickedDevice(s.mem, device))
    case Unblock(device) => s.(rows := T.WithBlocked(s.rows, device, false))
  }

  // ---- Presence -------------------------------------------------------------------

  predicate OnlineInMemory(s: Server, sid: SessionId) {
    sid in s.mem && s.mem[sid].online
  }

  predicate OnlineInStore(s: Server, sid: SessionId) {
    sid in s.rows && s.rows[sid].online
  }

  predicate BeingDropped(s: Server, sid: SessionId) {
    s.sweep.Dropping? && s.sweep.sid == sid
  }

  /** A handler or the sweep has done the first of its two writes for this session. */
  predicate BetweenWrites(s: Server, sid: SessionId) {
    At(s, sid, Beating) || At(s, sid, Cleared) || BeingDropped(s, sid)
  }

  /** No handleHeartbeat has been running for longer than the heartbeat timeout. */
  ghost predicate TimelyHandlers(s: Server) {
    forall sid :: sid in s.chans && s.chans[sid] == Beating && sid in s.mem ==> s.now - s.mem[sid].lastHeartbeat <= s.timeout
  }

  /** What does not depend on timing. */
  predicate ShapeInv(s: Server, sid: SessionId) {
    && (sid in s.chans ==> sid in s.mem)
    && (!s.sweep.Idle? ==> s.sweep.asOf <= s.now)
    && (BeingDropped(s, sid) ==> !OnlineInMemory(s, sid))
  }

  /** Without a Channel past its opening, a session is offline in both copies. */
  predicate ClosedInv(s: Server, sid: SessionId) {
    && (sid !in s.chans || At(s, sid, Opening) ==> !OnlineInMemory(s, sid) && !OnlineInStore(s, sid))
    && (At(s, sid, Cleared) ==> !OnlineInMemory(s, sid))
  }

  /** The table is not ahead of the registry, unless a heartbeat or the sweep is between its two writes. */
  predicate QuietInv(s: Server, sid: SessionId) {
    && ClosedInv(s, sid)
    && (At(s, sid, Serving) || At(s, sid, Leaving) ==>
          OnlineInStore(s, sid) ==> OnlineInMemory(s, sid) || BeingDropped(s, sid))
  }

  predicate PresenceInv(s: Server, sid: SessionId) {
    QuietInv(s, sid) && (At(s, sid, Beating) ==> OnlineInMemory(s, sid))
  }

  /**
   A heartbeat's second write to a session that a whole sweep, drop and store, has taken offline since
   the first.
   */
  predicate Overtaken(s: Server, step: Step, sid: SessionId) {
    step == BeatStore(sid) && sid in s.rows && !OnlineInMemory(s, sid) && !BeingDropped(s, sid)
  }

  lemma StepKeepsShape(s: Server, step: Step, sid: SessionId)
    requires Enabled(s, step) && ShapeInv(s, sid)
    ensures ShapeInv(Do(s, step), sid)
  {
  }

  predicate OfChannel(step: Step) {
    step.ChanGet? || step.ChanSet? || step.Beat? || step.BeatStore? || step.Leave? || step.Clear? || step.ChanOff?
  }

  lemma ChannelKeepsPresence(s: Server, step: Step, sid: SessionId)
    requires Enabled(s, step) && ShapeInv(s, sid) && PresenceInv(s, sid) && OfChannel(step)
    ensures PresenceInv(Do(s, step), sid)
  {
  }

  lemma OthersKeepPresence(s: Server, step: Step, sid: SessionId)
    requires Enabled(s, step) && ShapeInv(s, sid) && PresenceInv(s, sid) && !OfChannel(step) && TimelyHandlers(s)
    ensures PresenceInv(Do(s, step), sid)
  {
  }

  // ---- Whatever the clock does --------------------------------------------------------------

  lemma ChannelKeepsClosed(s: Server, step: Step, sid: SessionId)
    requires Enabled(s, step) && ShapeInv(s, sid) && ClosedInv(s, sid) && OfChannel(step)
    ensures ClosedInv(Do(s, step), sid)
  {
  }

  lemma OthersKeepClosed(s: Server, step: Step, sid: SessionId)
    requires Enabled(s, step) && ShapeInv(s, sid) && ClosedInv(s, sid) && !OfChannel(step)
    ensures ClosedInv(Do(s, step), sid)
  {
  }

  lemma ChannelKeepsQuiet(s: Server, step: Step, sid: SessionId)
    requires Enabled(s, step) && ShapeInv(s, sid) && QuietInv(s, sid) && OfChannel(step) && !Overtaken(s, step, sid)
    ensures QuietInv(Do(s, step), sid)
  {
    ChannelKeepsClosed(s, step, sid);
  }

  lemma OthersKeepQuiet(s: Server, step: Step, sid: SessionId)
    requires Enabled(s, step) && ShapeInv(s, sid) && QuietInv(s, sid) && !OfChannel(step)
    ensures QuietInv(Do(s, step), sid)
  {
    OthersKeepClosed(s, step, sid);
  }

  /** An overtaken heartbeat leaves the table ahead of the registry with nobody between two writes. */
  lemma OvertakenSplits(s: Server, step: Step, sid: SessionId)
    requires Enabled(s, step) && Overtaken(s, step, sid)
    ensures var s' := Do(s, step);
            !BetweenWrites(s', sid) && OnlineInStore(s', sid) && !OnlineInMemory(s', sid)
  {
  }
}
