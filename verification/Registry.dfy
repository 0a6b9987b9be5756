/** The in-memory registry of sessions: ClientConn and ConnectionManager. */
module Registry {

  type SessionId = nat
  type DeviceId = nat

  // ---- What the operations do to the registry as a value ---------------------------

  /** A session's entry; `disconnected` says that its DisconnectCh is closed. */
  datatype Conn = Conn(device: DeviceId, hasStream: bool, disconnected: bool, lastHeartbeat: int, online: bool)

  type Sessions = map<SessionId, Conn>

  /** A new session is offline until its Channel opens; its heartbeat time is Go's zero time. */
  function NewConn(device: DeviceId): Conn {
    Conn(device, false, false, 0, false)
  }

  function Kicked(m: Sessions, sid: SessionId): Sessions {
    if sid in m && m[sid].online then m[sid := m[sid].(disconnected := true)] else m
  }

  function KickedDevice(m: Sessions, device: DeviceId): Sessions {
    map sid | sid in m :: if m[sid].device == device && m[sid].online then m[sid].(disconnected := true) else m[sid]
  }

  function Beaten(m: Sessions, sid: SessionId, now: int): Sessions {
    if sid in m then m[sid := m[sid].(lastHeartbeat := now, online := true)] else m
  }

  function WentOffline(m: Sessions, sid: SessionId): Sessions {
    if sid in m then m[sid := m[sid].(online := false)] else m
  }

  function Streaming(m: Sessions, sid: SessionId, now: int): Sessions {
    if sid in m then m[sid := m[sid].(hasStream := true, online := true, lastHeartbeat := now)] else m
  }

  function Cleared(m: Sessions, sid: SessionId): Sessions {
    if sid in m then m[sid := m[sid].(hasStream := false, online := false)] else m
  }

  predicate Stale(c: Conn, now: int, timeout: int) {
    c.online && now - c.lastHeartbeat > timeout
  }

  function SweptConn(c: Conn, now: int, timeout: int): Conn {
    if Stale(c, now, timeout) then c.(online := false) else c
  }

  /** The sessions one pass of HeartbeatChecker takes offline. */
  function Expired(m: Sessions, now: int, timeout: int): set<SessionId> {
    set sid | sid in m && Stale(m[sid], now, timeout)
  }

  function Swept(m: Sessions, now: int, timeout: int): Sessions {
    map sid | sid in m :: SweptConn(m[sid], now, timeout)
  }

  /** Only this entry differs. */
  ghost predicate OnlyEntry(m: Sessions, m': Sessions, sid: SessionId) {
    m'.Keys == m.Keys && forall other :: other in m && other != sid ==> m'[other] == m[other]
  }

  predicate Full(m: Sessions, maxConns: int) {
    maxConns > 0 && |m| >= maxConns
  }

  // ---- The objects -------------------------------------------------------------------

  class ClientConn {
    const sessionID: SessionId
    const deviceID: DeviceId
    var hasStream: bool
    var disconnected: bool
    var lastHeartbeat: int
    var online: bool

    constructor (sessionID: SessionId, deviceID: DeviceId)
      ensures this.sessionID == sessionID && Value() == NewConn(deviceID)
      ensures this.deviceID == deviceID && !hasStream && !disconnected && !online && lastHeartbeat == 0
    {
      this.sessionID, this.deviceID := sessionID, deviceID;
      hasStream, disconnected, lastHeartbeat, online := false, false, 0, false;
    }

    function Value(): Conn
      reads this
    {
      Conn(deviceID, hasStream, disconnected, lastHeartbeat, online)
    }

    /** close(conn.DisconnectCh), which panics on a closed channel. */
    method CloseDisconnect()
      requires !disconnected
      modifies this`disconnected
      ensures Value() == old(Value()).(disconnected := true)
    {
      disconnected := true;
    }

    /** The body of HeartbeatChecker's loop. */
    method ExpireIfStale(now: int, timeout: int) returns (expired: bool)
      modifies this`online
      ensures Value() == SweptConn(old(Value()), now, timeout)
      ensures expired <==> Stale(old(Value()), now, timeout)
    {
      expired := online && now - lastHeartbeat > timeout;
      if expired {
        online := false;
      }
    }
  }

  class ConnectionManager {
    var sessions: map<SessionId, ClientConn>
    var maxConns: int

    ghost predicate Valid()
      reads this, sessions.Values
    {
      forall sid :: sid in sessions ==> sessions[sid].sessionID == sid
    }

    ghost function View(): Sessions
      reads this, sessions.Values
    {
      map sid | sid in sessions :: sessions[sid].Value()
    }

    constructor ()
      ensures Valid() && View() == map[] && maxConns == 0
    {
      sessions, maxConns := map[], 0;
    }

    method SetMaxConns(n: int)
      modifies this`maxConns
      ensures maxConns == n
    {
      maxConns := n;
    }

    method Add(conn: ClientConn)
      requires Valid()
      modifies this`sessions, conn`disconnected
      ensures Valid()
      ensures View() == old(View())[conn.sessionID := old(conn.Value()).(disconnected := false)]
    {
      conn.disconnected := false;
      sessions := sessions[conn.sessionID := conn];
    }

    method Remove(sid: SessionId)
      requires Valid()
      modifies this`sessions
      ensures Valid() && View() == old(View()) - {sid}
    {
      sessions := sessions - {sid};
    }

    method IsFull() returns (full: bool)
      ensures full <==> Full(View(), maxConns)
      ensures full <==> maxConns > 0 && |sessions| >= maxConns
    {
      assert View().Keys == sessions.Keys;
      full := maxConns > 0 && |sessions| >= maxConns;
    }

    method Kick(sid: SessionId)
      requires Valid()
      modifies sessions.Values
      ensures Valid() && View() == Kicked(old(View()), sid)
      ensures OnlyEntry(old(View()), View(), sid)
      ensures sid in View() ==> var was := old(View())[sid];
                                View()[sid] == was.(disconnected := was.disconnected || was.online)
    {
      if sid !in sessions || !sessions[sid].online {
        return;
      }
      if !sessions[sid].disconnected {
        sessions[sid].CloseDisconnect();
      }
    }

    method RecordHeartbeat(sid: SessionId, now: int)
      requires Valid()
      modifies sessions.Values
      ensures Valid() && View() == Beaten(old(View()), sid, now)
      ensures OnlyEntry(old(View()), View(), sid)
      ensures sid in View() ==> View()[sid] == old(View())[sid].(online := true, lastHeartbeat := now)
    {
      if sid in sessions {
        sessions[sid].lastHeartbeat := now;
        sessions[sid].online := true;
      }
    }

    method MarkOffline(sid: SessionId)
      requires Valid()
      modifies sessions.Values
      ensures Valid() && View() == WentOffline(old(View()), sid)
      ensures OnlyEntry(old(View()), View(), sid)
      ensures sid in View() ==> View()[sid] == old(View())[sid].(online := false)
    {
      if sid in sessions {
        sessions[sid].online := false;
      }
    }

    method SetStream(sid: SessionId, now: int)
      requires Valid()
      modifies sessions.Values
      ensures Valid() && View() == Streaming(old(View()), sid, now)
      ensures OnlyEntry(old(View()), View(), sid)
      ensures sid in View() ==> View()[sid] == old(View())[sid].(hasStream := true, online := true, lastHeartbeat := now)
    {
      if sid in sessions {
        sessions[sid].hasStream := true;
        sessions[sid].online := true;
        sessions[sid].lastHeartbeat := now;
      }
    }

    method ClearStream(sid: SessionId)
      requires Valid()
      modifies sessions.Values
      ensures Valid() && View() == Cleared(old(View()), sid)
      ensures OnlyEntry(old(View()), View(), sid)
      ensures sid in View() ==> View()[sid] == old(View())[sid].(hasStream := false, online := false)
    {
      if sid in sessions {
        sessions[sid].hasStream := false;
        sessions[sid].online := false;
      }
    }

    /** One tick of HeartbeatChecker; `reported` are the ids given to onOffline. */
    method Sweep(now: int, timeout: int) returns (reported: set<SessionId>)
      requires Valid()
      modifies sessions.Values
      ensures Valid() && View() == Swept(old(View()), now, timeout)
      ensures reported == Expired(old(View()), now, timeout)
      ensures forall sid :: sid in reported <==>
        sid in old(View()) && old(View())[sid].online && now - old(View())[sid].lastHeartbeat > timeout
      ensures View().Keys == old(View()).Keys
      ensures forall sid :: sid in View() ==>
        View()[sid] == if sid in reported then old(View())[sid].(online := false) else old(View())[sid]
    {
      ghost var before := View();
      reported := {};
      var todo := sessions.Keys;
      while todo != {}
        invariant todo <= sessions.Keys
        invariant forall sid :: sid in reported <==> sid in sessions && sid !in todo && Stale(before[sid], now, timeout)
        invariant forall sid :: sid in sessions ==>
          sessions[sid].Value() == if sid in todo then before[sid] else SweptConn(before[sid], now, timeout)
        decreases |todo|
      {
        var sid :| sid in todo;
        var expired := sessions[sid].ExpireIfStale(now, timeout);
        if expired {
          reported := reported + {sid};
        }
        todo := todo - {sid};
      }
    }

    /** kickDeviceSessions: no channel is closed twice. */
    method KickDeviceSessions(device: DeviceId)
      requires Valid()
      modifies sessions.Values
      ensures Valid() && View() == KickedDevice(old(View()), device)
      ensures View().Keys == old(View()).Keys
      ensures forall sid :: sid in View() ==>
        var was := old(View())[sid];
        View()[sid] == was.(disconnected := was.disconnected || (was.online && was.device == device))
    {
      ghost var before := View();
      var todo := sessions.Keys;
      while todo != {}
        invariant todo <= sessions.Keys
        invariant forall sid :: sid in sessions ==>
          sessions[sid].Value() == if sid in todo then before[sid] else KickedDevice(before, device)[sid]
        decreases |todo|
      {
        var sid :| sid in todo;
        var conn := sessions[sid];
        if conn.deviceID == device && conn.online {
          if !conn.disconnected {
            conn.CloseDisconnect();
          }
        }
        todo := todo - {sid};
      }
    }
  }
}
