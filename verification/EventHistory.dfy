/**
 The gateway's events against the server that answers its polls: over any history of writes to the
 terminals table and of polls, what every listener is told, and what it is not.
 */
module EventHistory {
  import opened EventStream
  import opened Options
  import opened Ranking
  import opened Sets
  import opened Terminals

  type SessionId = nat

  /** The size of the page an empty ListTerminals request gets. */
  const PAGE := 50

  // ---- Who is on the first page ----------------------------------------------------------

  /** The devices that have a session listed before this one, latest or not. */
  function DevicesAhead(t: Table, sid: SessionId): set<DeviceId>
    requires sid in t
  {
    set o | o in t && Before(LastSeen(t), o, sid) :: t[o].device
  }

  /** The session is its device's latest, and fewer devices than the page has room for come before it. */
  predicate OnPage(t: Table, sid: SessionId, size: nat) {
    sid in t && IsLatest(t, sid) && |DevicesAhead(t, sid)| < size
  }

  /** Among the latest sessions, those ahead of one are as many as the devices ahead of it. */
  lemma LatestAhead(t: Table, sid: SessionId)
    requires sid in t
    ensures |Ahead(LastSeen(t), Selected(t, None), sid)| == |DevicesAhead(t, sid)|
  {
    var ahead := Ahead(LastSeen(t), Selected(t, None), sid);
    var deviceOf := (o: SessionId) => if o in t then t[o].device else 0;
    forall x, y | x in ahead && y in ahead && deviceOf(x) == deviceOf(y) ensures x == y {
      LatestUnique(t, t[x].device);
    }
    ImageSize(ahead, deviceOf);
    forall device ensures device in Image(ahead, deviceOf) <==> device in DevicesAhead(t, sid) {
      if device in DevicesAhead(t, sid) {
        var o :| o in t && Before(LastSeen(t), o, sid) && t[o].device == device;
        LatestIsAhead(t, o, sid);
        var latest := ByDevice(t, device).value;
        assert latest in ahead && deviceOf(latest) == device;
      }
    }
    assert Image(ahead, deviceOf) == DevicesAhead(t, sid);
  }

  lemma LatestIsAhead(t: Table, o: SessionId, sid: SessionId)
    requires o in t && sid in t && Before(LastSeen(t), o, sid)
    ensures ByDevice(t, t[o].device).Some?
    ensures var latest := ByDevice(t, t[o].device).value;
            latest in Ahead(LastSeen(t), Selected(t, None), sid) && t[latest].device == t[o].device
  {
    assert o in SessionsOf(t, t[o].device);
    LatestUnique(t, t[o].device);
  }

  lemma FirstPageHas(list: seq<SessionId>, i: nat, size: nat)
    requires i < |list| && forall j, k :: 0 <= j < k < |list| ==> list[j] != list[k]
    ensures list[i] in Slice(list, 0, size) <==> i < size
  {
    var page := Slice(list, 0, size);
    assert page == list[..if size < |list| then size else |list|];
    if i < size {
      assert page[i] == list[i];
    }
  }

  /** The first page holds exactly the latest sessions that fewer devices than its size come before. */
  lemma OnPageExact(t: Table, sid: SessionId, size: nat)
    ensures sid in Slice(Listing(t, None), 0, size) <==> OnPage(t, sid, size)
  {
    var list := Listing(t, None);
    RankedExact(LastSeen(t), Selected(t, None));
    if sid in t && IsLatest(t, sid) {
      assert sid in list;
      var i :| 0 <= i < |list| && list[i] == sid;
      PlaceIsCount(LastSeen(t), Selected(t, None), list, i);
      LatestAhead(t, sid);
      FirstPageHas(list, i, size);
    } else {
      assert sid !in list;
      var page := Slice(list, 0, size);
      assert forall k :: 0 <= k < |page| ==> page[k] == list[k];
    }
  }

  /** No write puts a stored session on the page: only its own registration can. */
  lemma OffPageStays(t: Table, write: Write, sid: SessionId, size: nat)
    requires sid in t && MayWrite(t, write) && OnPage(Written(t, write), sid, size)
    ensures OnPage(t, sid, size)
  {
    var t' := Written(t, write);
    if write.Upsert? {
      AheadGrows(t, write, sid);
      SubsetSize(DevicesAhead(t, sid), DevicesAhead(t', sid));
    } else {
      assert LastSeen(t') == LastSeen(t);
      assert SessionsOf(t', t[sid].device) == SessionsOf(t, t[sid].device);
      assert DevicesAhead(t', sid) == DevicesAhead(t, sid);
    }
  }

  lemma AheadGrows(t: Table, write: Write, sid: SessionId)
    requires sid in t && MayWrite(t, write) && write.Upsert?
    ensures sid in Written(t, write) && DevicesAhead(t, sid) <= DevicesAhead(Written(t, write), sid)
    ensures IsLatest(Written(t, write), sid) ==> IsLatest(t, sid)
  {
    var t' := Written(t, write);
    forall device | device in DevicesAhead(t, sid) ensures device in DevicesAhead(t', sid) {
      var o :| o in t && Before(LastSeen(t), o, sid) && t[o].device == device;
      assert o in t' && Before(LastSeen(t'), o, sid) && t'[o].device == device;
    }
    if IsLatest(t', sid) {
      forall o | o in SessionsOf(t, t[sid].device) && o != sid ensures Before(LastSeen(t), sid, o) {
        assert o in SessionsOf(t', t'[sid].device);
      }
    }
  }

  // ---- The answer to a poll -------------------------------------------------------------------

  function RowsOf(t: Table, ids: seq<SessionId>): seq<Row> {
    if ids == [] then []
    else
      var init, last := RowsOf(t, ids[..|ids| - 1]), ids[|ids| - 1];
      if last in t then init + [Row(last, t[last].online)] else init
  }

  /** What an empty ListTerminals request is answered: page 0 of size 0, which is the first page of 50. */
  function Answer(t: Table): seq<Row> {
    RowsOf(t, Page(t, None, 0, 0))
  }

  lemma {:induction false} RowsFind(t: Table, ids: seq<SessionId>, sid: SessionId)
    ensures In(SnapshotOf(RowsOf(t, ids)), sid) == if sid in ids && sid in t then Some(t[sid].online) else None
  {
    if ids != [] {
      var init, last := ids[..|ids| - 1], ids[|ids| - 1];
      RowsFind(t, init, sid);
      assert sid in ids <==> sid in init || sid == last;
      if last in t {
        assert (RowsOf(t, init) + [Row(last, t[last].online)])[..|RowsOf(t, init)|] == RowsOf(t, init);
      }
    }
  }

  /** A poll sees a session exactly when it is on the page, and then with its stored status. */
  lemma AnswerExact(t: Table, sid: SessionId)
    ensures In(SnapshotOf(Answer(t)), sid) == if OnPage(t, sid, PAGE) then Some(t[sid].online) else None
  {
    RowsFind(t, Page(t, None, 0, 0), sid);
    OnPageExact(t, sid, PAGE);
  }

  /** One poll of the hub, with the store behind the server. */
  method PollStore(hub: Hub, store: TerminalStore, broadcast: bool)
    modifies hub
    ensures hub.last == SnapshotOf(Answer(store.rows))
    ensures !broadcast ==> hub.log == old(hub.log)
    ensures broadcast ==> forall sid ::
      var now := if OnPage(store.rows, sid, PAGE) then Some(store.rows[sid].online) else None;
      EventsOf(hub.log, sid) == EventsOf(old(hub.log), sid) + Change(In(old(hub.last), sid), now)
  {
    var terminals, total := store.ListPage(None, 0, 0);
    var rows: seq<Row> := [];
    ghost var ids := Page(store.rows, None, 0, 0);
    for i := 0 to |terminals|
      invariant rows == RowsOf(store.rows, ids[..i])
    {
      assert ids[..i + 1][..i] == ids[..i];
      rows := rows + [Row(terminals[i].0, terminals[i].1.online)];
    }
    assert ids[..|ids|] == ids;
    hub.Poll(Some(rows), broadcast);
    forall sid
      ensures In(hub.last, sid) == if OnPage(store.rows, sid, PAGE) then Some(store.rows[sid].online) else None
    {
      AnswerExact(store.rows, sid);
    }
  }

  // ---- Histories ---------------------------------------------------------------------------------

  /** A write to the table, or a poll of the gateway, which may fail. */
  datatype Moment = Writes(write: Write) | Polls(ok: bool)

  function TableAfter(h: seq<Moment>): Table {
    if h == [] then map[]
    else
      var before, last := TableAfter(h[..|h| - 1]), h[|h| - 1];
      if last.Writes? then Written(before, last.write) else before
  }

  predicate History(h: seq<Moment>) {
    h == []
    || (History(h[..|h| - 1]) && (h[|h| - 1].Writes? ==> MayWrite(TableAfter(h[..|h| - 1]), h[|h| - 1].write)))
  }

  function Responses(h: seq<Moment>): seq<Response> {
    if h == [] then []
    else
      var before, last := Responses(h[..|h| - 1]), h[|h| - 1];
      if last.Polls? then before + [if last.ok then Some(Answer(TableAfter(h))) else None] else before
  }

  /** What the polls of a history say about a session. */
  function Seen(h: seq<Moment>, sid: SessionId): seq<Option<bool>> {
    Observed(Responses(h), sid)
  }

  /** What one more moment lets the polls see. */
  lemma SeenNext(h: seq<Moment>, sid: SessionId)
    requires h != []
    ensures var init, last, t := h[..|h| - 1], h[|h| - 1], TableAfter(h);
            Seen(h, sid) == if last == Polls(true) then
                              Seen(init, sid) + [if OnPage(t, sid, PAGE) then Some(t[sid].online) else None]
                            else Seen(init, sid)
  {
    var init, last := h[..|h| - 1], h[|h| - 1];
    if last.Polls? {
      var response := if last.ok then Some(Answer(TableAfter(h))) else None;
      assert Responses(h) == Responses(init) + [response];
      assert Responses(h)[..|Responses(h)| - 1] == Responses(init);
      AnswerExact(TableAfter(h), sid);
    }
  }

  /** Once a successful poll has missed a session seen before, no later one sees it. */
  predicate NeverReturns(obs: seq<Option<bool>>) {
    if obs == [] then true
    else
      var init, now := obs[..|obs| - 1], obs[|obs| - 1];
      NeverReturns(init) && (LastStatus(init).Some? && LatestOf(init).None? ==> now.None?)
  }

  /** One more observation. */
  lemma {:induction false} OneMore(obs: seq<Option<bool>>, now: Option<bool>)
    ensures var obs' := obs + [now];
            && LatestOf(obs') == now
            && LastStatus(obs') == (if now.Some? then now else LastStatus(obs))
            && NeverReturns(obs') == (NeverReturns(obs) && (LastStatus(obs).Some? && LatestOf(obs).None? ==> now.None?))
  {
    assert (obs + [now])[..|obs|] == obs;
  }

  /** A session seen is stored, and one seen before but not at the last poll is off the page. */
  ghost predicate SeenInv(h: seq<Moment>, sid: SessionId) {
    var obs, t := Seen(h, sid), TableAfter(h);
    && NeverReturns(obs)
    && (LastStatus(obs).Some? ==> sid in t)
    && (LastStatus(obs).Some? && LatestOf(obs).None? ==> !OnPage(t, sid, PAGE))
  }

  lemma {:induction false} WriteKeepsSeen(h: seq<Moment>, sid: SessionId)
    requires h != [] && h[|h| - 1].Writes? && History(h) && SeenInv(h[..|h| - 1], sid)
    ensures SeenInv(h, sid)
  {
    var t, write := TableAfter(h[..|h| - 1]), h[|h| - 1].write;
    SeenNext(h, sid);
    if sid in t && OnPage(Written(t, write), sid, PAGE) {
      OffPageStays(t, write, sid, PAGE);
    }
  }

  lemma {:induction false} SeenHolds(h: seq<Moment>, sid: SessionId)
    requires History(h)
    ensures SeenInv(h, sid)
  {
    if h != [] {
      var init := h[..|h| - 1];
      SeenHolds(init, sid);
      if h[|h| - 1].Writes? {
        WriteKeepsSeen(h, sid);
      } else {
        SeenNext(h, sid);
        var t := TableAfter(h);
        OneMore(Seen(init, sid), if OnPage(t, sid, PAGE) then Some(t[sid].online) else None);
      }
    }
  }

  lemma {:induction false} NeverReturnsIsUnchanged(obs: seq<Option<bool>>)
    requires NeverReturns(obs)
    ensures ReturnsUnchanged(obs)
  {
    if obs != [] {
      NeverReturnsIsUnchanged(obs[..|obs| - 1]);
    }
  }

  /**
   Over every history, for every session and with no condition on it: it never comes back to the
   page, its listeners are right after every poll that sees it, and its events strictly alternate.
   */
  lemma {:induction false} EveryListenerIsRight(h: seq<Moment>, sid: SessionId)
    requires History(h)
    ensures var obs := Seen(h, sid);
            && NeverReturns(obs)
            && ListenerIsRight(obs)
            && (if FirstStatus(obs).None? then Events(obs) == [] else Alternates(FirstStatus(obs).value, Events(obs)))
  {
    var obs := Seen(h, sid);
    SeenHolds(h, sid);
    NeverReturnsIsUnchanged(obs);
    ListenerExact(obs);
    SeenTogether(obs);
    if FirstStatus(obs).Some? {
      EventsAlternate(obs);
    }
  }

  // ---- What listeners are not told ------------------------------------------------------------------

  /** The stored status at the last successful poll that had the session on its page. */
  function StatusWhenLastOnPage(h: seq<Moment>, sid: SessionId): Option<bool> {
    if h == [] then None
    else
      var t := TableAfter(h);
      if h[|h| - 1] == Polls(true) && OnPage(t, sid, PAGE) then Some(t[sid].online)
      else StatusWhenLastOnPage(h[..|h| - 1], sid)
  }

  lemma {:induction false} LastSeenOnPage(h: seq<Moment>, sid: SessionId)
    ensures LastStatus(Seen(h, sid)) == StatusWhenLastOnPage(h, sid)
  {
    if h != [] {
      LastSeenOnPage(h[..|h| - 1], sid);
      SeenNext(h, sid);
      var t := TableAfter(h);
      OneMore(Seen(h[..|h| - 1], sid), if OnPage(t, sid, PAGE) then Some(t[sid].online) else None);
    }
  }

  /** A listener holds the status the session had when a poll last had it on its page, whatever happened since. */
  lemma {:induction false} ListenerHolds(h: seq<Moment>, sid: SessionId)
    requires History(h)
    ensures Told(Seen(h, sid)) == StatusWhenLastOnPage(h, sid)
  {
    EveryListenerIsRight(h, sid);
    RightHoldsLast(Seen(h, sid));
    LastSeenOnPage(h, sid);
  }

  /**
   After a successful poll a listener holds a stored session's status exactly when the session is on
   the page, or has the status it had when a poll last had it there.
   */
  lemma {:induction false} StaleExact(h: seq<Moment>, sid: SessionId)
    requires h != [] && h[|h| - 1] == Polls(true) && History(h) && sid in TableAfter(h)
    ensures var t := TableAfter(h);
            Told(Seen(h, sid)) == Some(t[sid].online) <==>
              OnPage(t, sid, PAGE) || StatusWhenLastOnPage(h[..|h| - 1], sid) == Some(t[sid].online)
  {
    ListenerHolds(h, sid);
  }

  /** A session off the page is off it for good, and its listeners hold what they hold for good. */
  lemma {:induction false} FrozenOffPage(h: seq<Moment>, more: seq<Moment>, sid: SessionId)
    requires History(h + more) && sid in TableAfter(h) && !OnPage(TableAfter(h), sid, PAGE)
    ensures sid in TableAfter(h + more) && !OnPage(TableAfter(h + more), sid, PAGE)
    ensures StatusWhenLastOnPage(h + more, sid) == StatusWhenLastOnPage(h, sid)
    decreases |more|
  {
    if more == [] {
      assert h + more == h;
    } else {
      var init, last := more[..|more| - 1], more[|more| - 1];
      assert (h + more)[..|h + more| - 1] == h + init;
      FrozenOffPage(h, init, sid);
      var t := TableAfter(h + init);
      if last.Writes? && OnPage(Written(t, last.write), sid, PAGE) {
        OffPageStays(t, last.write, sid, PAGE);
      }
    }
  }

  /** A session whose device has a more recent one is off every page. */
  lemma SupersededIsOff(t: Table, sid: SessionId, newer: SessionId)
    requires sid in t && newer in t && t[sid].device == t[newer].device && Before(LastSeen(t), newer, sid)
    ensures !OnPage(t, sid, PAGE)
  {
    assert newer in SessionsOf(t, t[sid].device);
  }

  predicate Superseded(t: Table, sid: SessionId) {
    sid in t && exists newer :: newer in t && t[newer].device == t[sid].device && Before(LastSeen(t), newer, sid)
  }

  /** Between polls a session stays stored, and nothing is seen of it. */
  lemma {:induction false} BetweenPolls(h: seq<Moment>, mid: seq<Moment>, sid: SessionId)
    requires sid in TableAfter(h) && Polls(true) !in mid
    ensures sid in TableAfter(h + mid) && StatusWhenLastOnPage(h + mid, sid) == StatusWhenLastOnPage(h, sid)
  {
    if mid == [] {
      assert h + mid == h;
    } else {
      var init := mid[..|mid| - 1];
      assert (h + mid)[..|h + mid| - 1] == h + init;
      BetweenPolls(h, init, sid);
    }
  }

  /**
   A session on the page at a poll whose device has a more recent session before the next successful
   one, whatever else is written in between: its listeners hold the status of that poll for good. So
   no reconnect that falls between two polls is ever told.
   */
  lemma {:induction false} ReconnectIsNotTold(h: seq<Moment>, mid: seq<Moment>, more: seq<Moment>, sid: SessionId)
    requires h != [] && h[|h| - 1] == Polls(true) && OnPage(TableAfter(h), sid, PAGE)
    requires Polls(true) !in mid && Superseded(TableAfter(h + mid), sid)
    requires History(h + mid + more)
    ensures Told(Seen(h + mid + more, sid)) == Some(TableAfter(h)[sid].online)
  {
    BetweenPolls(h, mid, sid);
    var t := TableAfter(h + mid);
    var newer :| newer in t && t[newer].device == t[sid].device && Before(LastSeen(t), newer, sid);
    SupersededIsOff(t, sid, newer);
    FrozenOffPage(h + mid, more, sid);
    ListenerHolds(h + mid + more, sid);
  }

  /** Such a history: one device registers, goes online and is polled. */
  const ONLINE_POLLED := [Writes(Upsert(1, 9, "", 0)), Writes(Heartbeat(1, 0)), Polls(true)]

  lemma OnlinePolled()
    ensures History(ONLINE_POLLED)
    ensures TableAfter(ONLINE_POLLED) == map[1 := Terminal(9, "", 0, 0, Some(0), true, false)]
    ensures OnPage(TableAfter(ONLINE_POLLED), 1, PAGE)
  {
    var h := ONLINE_POLLED;
    var one, two := [Writes(Upsert(1, 9, "", 0))], [Writes(Upsert(1, 9, "", 0)), Writes(Heartbeat(1, 0))];
    assert h[..2] == two && two[..1] == one && one[..0] == [];
    assert TableAfter(one) == map[1 := Terminal(9, "", 0, 0, None, false, false)];
    assert TableAfter(two) == map[1 := Terminal(9, "", 0, 0, Some(0), true, false)];
    assert DevicesAhead(TableAfter(h), 1) == {};
  }

  lemma OneMoreWrite(h: seq<Moment>, write: Write)
    requires History(h) && MayWrite(TableAfter(h), write)
    ensures History(h + [Writes(write)]) && TableAfter(h + [Writes(write)]) == Written(TableAfter(h), write)
  {
    assert (h + [Writes(write)])[..|h|] == h;
  }

  /** What the client's reconnect writes: its session goes offline, and its device registers again. */
  const RECONNECTED := [Writes(Offline(1)), Writes(Upsert(2, 9, "", 1))]

  lemma {:induction false} Reconnected()
    ensures History(ONLINE_POLLED + RECONNECTED)
    ensures TableAfter(ONLINE_POLLED + RECONNECTED)
            == map[1 := Terminal(9, "", 0, 0, Some(0), false, false), 2 := Terminal(9, "", 1, 1, None, false, false)]
  {
    OnlinePolled();
    var off := ONLINE_POLLED + [Writes(Offline(1))];
    OneMoreWrite(ONLINE_POLLED, Offline(1));
    assert TableAfter(off) == map[1 := Terminal(9, "", 0, 0, Some(0), false, false)];
    OneMoreWrite(off, Upsert(2, 9, "", 1));
    assert ONLINE_POLLED + RECONNECTED == off + [Writes(Upsert(2, 9, "", 1))];
  }

  /** Polled online, reconnected, polled again: the listener holds online, the table offline, and nothing was said. */
  lemma {:induction false} StaleAfterReconnect() returns (h: seq<Moment>)
    ensures History(h) && h != [] && h[|h| - 1] == Polls(true)
    ensures 1 in TableAfter(h) && !TableAfter(h)[1].online && Told(Seen(h, 1)) == Some(true)
  {
    OnlinePolled();
    Reconnected();
    var before := ONLINE_POLLED + RECONNECTED;
    h := before + [Polls(true)];
    assert h[..|h| - 1] == before;
    assert TableAfter(h) == TableAfter(before) && History(h);
    assert Superseded(TableAfter(before), 1) by {
      assert Before(LastSeen(TableAfter(before)), 2, 1);
    }
    ReconnectIsNotTold(ONLINE_POLLED, RECONNECTED, [Polls(true)], 1);
  }
}
