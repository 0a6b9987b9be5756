/** The terminals table: one row per session, many sessions per device. */
module Terminals {
  import opened Integers
  import opened Options
  import opened Ranking

  type SessionId = nat
  type DeviceId = nat

  /** The columns the queries use; `facts` stands for the descriptive text columns. */
  datatype Terminal = Terminal(
    device: DeviceId, facts: string, firstSeen: int, lastSeen: int, lastHeartbeat: Option<int>, online: bool, blocked: bool)

  type Table = map<SessionId, Terminal>

  // ---- The statements ----------------------------------------------------------------

  /** INSERT ... ON CONFLICT DO UPDATE: first_seen_at, online, blocked and last_heartbeat survive a conflict. */
  function Upserted(t: Table, sid: SessionId, device: DeviceId, facts: string, now: int): Table {
    if sid in t then t[sid := t[sid].(device := device, facts := facts, lastSeen := now)]
    else t[sid := Terminal(device, facts, now, now, None, false, false)]
  }

  function Beaten(t: Table, sid: SessionId, now: int): Table {
    if sid in t then t[sid := t[sid].(lastHeartbeat := Some(now), online := true)] else t
  }

  function WentOffline(t: Table, sid: SessionId): Table {
    if sid in t then t[sid := t[sid].(online := false)] else t
  }

  function WithBlocked(t: Table, device: DeviceId, blocked: bool): Table {
    map sid | sid in t :: if t[sid].device == device then t[sid].(blocked := blocked) else t[sid]
  }

  /** Everything that writes the table. */
  datatype Write =
    | Upsert(sid: SessionId, device: DeviceId, facts: string, at: int)
    | Heartbeat(sid: SessionId, at: int)
    | Offline(sid: SessionId)
    | SetBlocked(device: DeviceId, blocked: bool)

  function Written(t: Table, write: Write): Table {
    match write
    case Upsert(sid, device, facts, at) => Upserted(t, sid, device, facts, at)
    case Heartbeat(sid, at) => Beaten(t, sid, at)
    case Offline(sid) => WentOffline(t, sid)
    case SetBlocked(device, blocked) => WithBlocked(t, device, blocked)
  }

  /** A session id is a fresh uuid, and Register stores each one once. */
  predicate MayWrite(t: Table, write: Write) {
    write.Upsert? ==> write.sid !in t
  }

  /** Only this row differs. */
  ghost predicate OnlyRow(t: Table, t': Table, sid: SessionId) {
    t'.Keys == t.Keys && forall other :: other in t && other != sid ==> t'[other] == t[other]
  }

  predicate IsBlocked(t: Table, device: DeviceId) {
    exists sid :: sid in t && t[sid].device == device && t[sid].blocked
  }

  // ---- The latest session of a device --------------------------------------------------

  function LastSeen(t: Table): map<nat, int> {
    map sid | sid in t :: t[sid].lastSeen
  }

  function SessionsOf(t: Table, device: DeviceId): set<SessionId> {
    set sid | sid in t && t[sid].device == device
  }

  /** rn = 1 in its device's partition. */
  predicate IsLatest(t: Table, sid: SessionId) {
    sid in t && Leads(LastSeen(t), SessionsOf(t, t[sid].device), sid)
  }

  /** GetTerminalByDevice: ORDER BY last_seen_at DESC LIMIT 1. */
  function ByDevice(t: Table, device: DeviceId): Option<SessionId> {
    var list := Ranked(LastSeen(t), SessionsOf(t, device));
    if list == [] then None else Some(list[0])
  }

  function Selected(t: Table, online: Option<bool>): set<SessionId> {
    set sid | sid in t && IsLatest(t, sid) && (online.Some? ==> t[sid].online == online.value)
  }

  /** The whole answer that ListTerminals cuts into pages. */
  function Listing(t: Table, online: Option<bool>): seq<SessionId> {
    Ranked(LastSeen(t), Selected(t, online))
  }

  /** LIMIT ? OFFSET ? */
  function Slice(list: seq<SessionId>, offset: nat, limit: nat): (slice: seq<SessionId>)
    ensures |slice| <= limit && (|slice| < limit ==> |list| <= offset + |slice|)
    ensures slice != [] ==> offset + |slice| <= |list|
    ensures forall i :: 0 <= i < |slice| ==> slice[i] == list[offset + i]
  {
    if offset >= |list| then []
    else if offset + limit >= |list| then list[offset..]
    else list[offset..offset + limit]
  }

  /** The offset of a page; pages count from one. */
  function FirstRow(page: int, size: nat): nat
    requires page >= 1
  {
    (page - 1) * size
  }

  /** The page size a request gets. */
  function PageSize(requested: int): (size: nat)
    ensures 1 <= size <= 500
    ensures size == requested <==> 1 <= requested <= 500
    ensures size != requested ==> size == 50
  {
    if requested <= 0 || requested > 500 then 50 else requested
  }

  // ---- The store ------------------------------------------------------------------------

  class TerminalStore {
    var rows: Table

    constructor ()
      ensures rows == map[]
    {
      rows := map[];
    }

    method UpsertTerminal(sid: SessionId, device: DeviceId, facts: string, now: int)
      modifies this
      ensures rows == Upserted(old(rows), sid, device, facts, now)
      ensures sid in rows && rows[sid].device == device && rows[sid].facts == facts && rows[sid].lastSeen == now
      ensures sid in old(rows) ==> rows[sid].firstSeen == old(rows)[sid].firstSeen
                                   && rows[sid].lastHeartbeat == old(rows)[sid].lastHeartbeat
                                   && rows[sid].online == old(rows)[sid].online
                                   && rows[sid].blocked == old(rows)[sid].blocked
      ensures sid !in old(rows) ==> rows[sid].firstSeen == now && rows[sid].lastHeartbeat.None?
                                    && !rows[sid].online && !rows[sid].blocked
      ensures rows.Keys == old(rows).Keys + {sid}
      ensures forall other :: other in old(rows) && other != sid ==> rows[other] == old(rows)[other]
    {
      if sid in rows {
        var row := rows[sid];
        rows := rows[sid := Terminal(device, facts, row.firstSeen, now, row.lastHeartbeat, row.online, row.blocked)];
      } else {
        rows := rows[sid := Terminal(device, facts, now, now, None, false, false)];
      }
    }

    method UpdateHeartbeat(sid: SessionId, now: int)
      modifies this
      ensures rows == Beaten(old(rows), sid, now)
      ensures OnlyRow(old(rows), rows, sid)
      ensures sid in rows ==> rows[sid] == old(rows)[sid].(online := true, lastHeartbeat := Some(now))
    {
      if sid in rows {
        rows := rows[sid := rows[sid].(lastHeartbeat := Some(now), online := true)];
      }
    }

    method MarkOffline(sid: SessionId)
      modifies this
      ensures rows == WentOffline(old(rows), sid)
      ensures OnlyRow(old(rows), rows, sid)
      ensures sid in rows ==> rows[sid] == old(rows)[sid].(online := false)
    {
      if sid in rows {
        rows := rows[sid := rows[sid].(online := false)];
      }
    }

    method MarkBlocked(device: DeviceId)
      modifies this
      ensures rows == WithBlocked(old(rows), device, true)
      ensures rows.Keys == old(rows).Keys
      ensures forall sid :: sid in rows && rows[sid].device != device ==> rows[sid] == old(rows)[sid]
      ensures forall sid :: sid in rows && rows[sid].device == device ==> rows[sid] == old(rows)[sid].(blocked := true)
      ensures IsBlocked(rows, device) <==> SessionsOf(old(rows), device) != {}
      ensures forall other :: other != device ==> (IsBlocked(rows, other) <==> IsBlocked(old(rows), other))
    {
      BlockNeedsRow(rows, device);
      OthersStayAsBlocked(rows, device, true);
      rows := map sid | sid in rows :: if rows[sid].device == device then rows[sid].(blocked := true) else rows[sid];
    }

    method UnblockTerminal(device: DeviceId)
      modifies this
      ensures rows == WithBlocked(old(rows), device, false) && !IsBlocked(rows, device)
      ensures rows.Keys == old(rows).Keys
      ensures forall sid :: sid in rows && rows[sid].device != device ==> rows[sid] == old(rows)[sid]
      ensures forall sid :: sid in rows && rows[sid].device == device ==> rows[sid] == old(rows)[sid].(blocked := false)
      ensures forall other :: other != device ==> (IsBlocked(rows, other) <==> IsBlocked(old(rows), other))
    {
      OthersStayAsBlocked(rows, device, false);
      rows := map sid | sid in rows :: if rows[sid].device == device then rows[sid].(blocked := false) else rows[sid];
    }

    method IsDeviceBlocked(device: DeviceId) returns (blocked: bool)
      ensures blocked <==> IsBlocked(rows, device)
    {
      var hits := set sid | sid in rows && rows[sid].device == device && rows[sid].blocked;
      blocked := |hits| > 0;
      if sid :| sid in rows && rows[sid].device == device && rows[sid].blocked {
        assert sid in hits;
      }
    }

    method GetTerminalByDevice(device: DeviceId) returns (found: Option<SessionId>)
      ensures found == ByDevice(rows, device)
      ensures found.None? <==> forall sid :: sid in rows ==> rows[sid].device != device
      ensures found.Some? ==> IsLatest(rows, found.value) && rows[found.value].device == device
      ensures found.Some? ==> forall sid :: sid in rows && rows[sid].device == device ==>
        rows[sid].lastSeen <= rows[found.value].lastSeen
    {
      found := ByDevice(rows, device);
      HasSession(rows, device);
      FirstLeads(LastSeen(rows), SessionsOf(rows, device));
      if SessionsOf(rows, device) != {} {
        LatestUnique(rows, device);
      }
    }

    /** The count of all the query's rows, and the scan of one page of them. */
    method ListTerminals(online: Option<bool>, offset: int, limit: int) returns (terminals: seq<(SessionId, Terminal)>, total: nat)
      ensures total == |Listing(rows, online)|
      ensures AreRows(rows, Slice(Listing(rows, online), if offset < 0 then 0 else offset, PageSize(limit)), terminals)
    {
      ListingInTable(rows, online);
      total := |Listing(rows, online)|;
      var from := if offset < 0 then 0 else offset;
      var size := if limit <= 0 || limit > 500 then 50 else limit;
      var ids := Slice(Listing(rows, online), from, size);
      assert forall i :: 0 <= i < |ids| ==> ids[i] in Listing(rows, online);
      terminals := [];
      for i := 0 to |ids|
        invariant AreRows(rows, ids[..i], terminals)
      {
        terminals := terminals + [(ids[i], rows[ids[i]])];
      }
      assert ids[..|ids|] == ids;
    }

    /** The RPC: pages count from one. */
    method ListPage(online: Option<bool>, page: int, pageSize: int) returns (terminals: seq<(SessionId, Terminal)>, total: nat)
      ensures total == |Listing(rows, online)|
      ensures AreRows(rows, Page(rows, online, page, pageSize), terminals)
      ensures page < 1 ==> AreRows(rows, Page(rows, online, 1, pageSize), terminals)
    {
      var size := if pageSize <= 0 || pageSize > 500 then 50 else pageSize;
      var number := if page < 1 then 1 else page;
      var offset := FirstRow(number, size);
      terminals, total := ListTerminals(online, offset, size);
    }
  }

  /** The answer carries these sessions' rows, in this order. */
  ghost predicate AreRows(t: Table, ids: seq<SessionId>, terminals: seq<(SessionId, Terminal)>) {
    |terminals| == |ids| && forall i :: 0 <= i < |ids| ==> ids[i] in t && terminals[i] == (ids[i], t[ids[i]])
  }

  lemma ListingInTable(t: Table, online: Option<bool>)
    ensures forall sid :: sid in Listing(t, online) ==> sid in t
  {
    RankedExact(LastSeen(t), Selected(t, online));
  }

  lemma HasSession(t: Table, device: DeviceId)
    ensures SessionsOf(t, device) == {} <==> forall sid :: sid in t ==> t[sid].device != device
  {
    if sid :| sid in t && t[sid].device == device {
      assert sid in SessionsOf(t, device);
    }
  }

  /** What any write makes of any row, column by column. */
  lemma WriteExact(t: Table, write: Write, sid: SessionId)
    ensures sid in Written(t, write) <==> sid in t || (write.Upsert? && write.sid == sid)
    ensures sid in t ==>
              var row, row' := t[sid], Written(t, write)[sid];
              var upserted := write.Upsert? && write.sid == sid;
              var beaten := write.Heartbeat? && write.sid == sid;
              && row'.device == (if upserted then write.device else row.device)
              && row'.facts == (if upserted then write.facts else row.facts)
              && row'.firstSeen == row.firstSeen
              && row'.lastSeen == (if upserted then write.at else row.lastSeen)
              && row'.lastHeartbeat == (if beaten then Some(write.at) else row.lastHeartbeat)
              && (row'.online <==> beaten || (row.online && write != Offline(sid)))
              && (row'.blocked <==> write == SetBlocked(row.device, true) || (row.blocked && write != SetBlocked(row.device, false)))
    ensures sid !in t && sid in Written(t, write) ==>
              Written(t, write)[sid] == Terminal(write.device, write.facts, write.at, write.at, None, false, false)
  {
  }

  /** Blocking or unblocking a device changes nothing for any other device. */
  lemma OthersStayAsBlocked(t: Table, device: DeviceId, blocked: bool)
    ensures forall other :: other != device ==> (IsBlocked(WithBlocked(t, device, blocked), other) <==> IsBlocked(t, other))
    ensures forall sid :: sid in t && t[sid].device != device ==> WithBlocked(t, device, blocked)[sid] == t[sid]
  {
    var t' := WithBlocked(t, device, blocked);
    forall other | other != device ensures IsBlocked(t', other) <==> IsBlocked(t, other) {
      if sid :| sid in t && t[sid].device == other && t[sid].blocked {
        assert t'[sid] == t[sid];
      }
      if sid :| sid in t' && t'[sid].device == other && t'[sid].blocked {
        assert t'[sid] == t[sid];
      }
    }
  }

  /** Blocking a device takes effect exactly when a session of it is stored. */
  lemma BlockNeedsRow(t: Table, device: DeviceId)
    ensures IsBlocked(WithBlocked(t, device, true), device) <==> SessionsOf(t, device) != {}
  {
    var t' := WithBlocked(t, device, true);
    if sid :| sid in SessionsOf(t, device) {
      assert sid in t' && t'[sid].device == device && t'[sid].blocked;
    }
    if sid :| sid in t' && t'[sid].device == device && t'[sid].blocked {
      assert sid in SessionsOf(t, device);
    }
  }

  lemma {:induction false} FirstLeads(key: map<nat, int>, ids: set<nat>)
    requires ids <= key.Keys
    ensures Ranked(key, ids) == [] <==> ids == {}
    ensures forall top :: Leads(key, ids, top) ==> Ranked(key, ids) != [] && Ranked(key, ids)[0] == top
  {
    if ids != {} {
      SomeoneLeads(key, ids);
      assert Leads(key, ids, Ranked(key, ids)[0]);
    }
  }

  // ---- Paging -----------------------------------------------------------------------------

  function Page(t: Table, online: Option<bool>, page: int, pageSize: int): seq<SessionId> {
    var size := PageSize(pageSize);
    Slice(Listing(t, online), FirstRow(if page < 1 then 1 else page, size), size)
  }

  /** Pages one to n, one after the other. */
  function Pages(t: Table, online: Option<bool>, n: nat, pageSize: int): seq<SessionId> {
    if n == 0 then [] else Pages(t, online, n - 1, pageSize) + Page(t, online, n, pageSize)
  }

  /** n * size, one page at a time. */
  ghost function Offset(n: nat, size: nat): nat {
    if n == 0 then 0 else Offset(n - 1, size) + size
  }

  lemma {:induction false} OffsetIsProduct(n: nat, size: nat)
    ensures Offset(n, size) == n * size
  {
    if n > 0 {
      OffsetIsProduct(n - 1, size);
      assert n * size == (n - 1) * size + size;
    }
  }

  lemma {:induction false} PagesArePrefix(t: Table, online: Option<bool>, n: nat, pageSize: int)
    ensures var list, upTo := Listing(t, online), Offset(n, PageSize(pageSize));
            Pages(t, online, n, pageSize) == list[..if upTo < |list| then upTo else |list|]
  {
    if n > 0 {
      var list, size := Listing(t, online), PageSize(pageSize);
      PagesArePrefix(t, online, n - 1, pageSize);
      OffsetIsProduct(n - 1, size);
      SliceExtends(list, Offset(n - 1, size), size);
      assert Page(t, online, n, pageSize) == Slice(list, Offset(n - 1, size), size);
    }
  }

  lemma SliceExtends(list: seq<SessionId>, offset: nat, limit: nat)
    ensures list[..if offset < |list| then offset else |list|] + Slice(list, offset, limit)
            == list[..if offset + limit < |list| then offset + limit else |list|]
  {
  }

  /** ceil(total / size) */
  function PageCount(total: nat, size: nat): nat
    requires size > 0
  {
    (total + size - 1) / size
  }

  lemma PageCountCovers(total: nat, size: nat)
    requires size > 0
    ensures PageCount(total, size) * size >= total
  {
    var q, r := (total + size - 1) / size, (total + size - 1) % size;
    assert total + size - 1 == q * size + r;
  }

  lemma BeyondLastPage(t: Table, online: Option<bool>, page: int, pageSize: int)
    requires page > PageCount(|Listing(t, online)|, PageSize(pageSize))
    ensures Page(t, online, page, pageSize) == []
  {
    var total, size := |Listing(t, online)|, PageSize(pageSize);
    PageCountCovers(total, size);
    MulMonotone(size, PageCount(total, size), page - 1);
  }

  lemma UpToLastPage(t: Table, online: Option<bool>, page: int, pageSize: int)
    requires 1 <= page <= PageCount(|Listing(t, online)|, PageSize(pageSize))
    ensures Page(t, online, page, pageSize) != []
  {
    var total, size := |Listing(t, online)|, PageSize(pageSize);
    var count := PageCount(total, size);
    MulMonotone(size, page - 1, count - 1);
    assert total + size - 1 == count * size + (total + size - 1) % size;
    assert count * size == (count - 1) * size + size;
  }

  /** The pages up to the last one partition the listing, whatever page size was asked for. */
  lemma {:induction false} PagesPartition(t: Table, online: Option<bool>, pageSize: int)
    ensures var count := PageCount(|Listing(t, online)|, PageSize(pageSize));
            && Pages(t, online, count, pageSize) == Listing(t, online)
            && (forall page :: page >= 1 ==> (Page(t, online, page, pageSize) == [] <==> page > count))
  {
    var list, size := Listing(t, online), PageSize(pageSize);
    var count := PageCount(|list|, size);
    PagesArePrefix(t, online, count, pageSize);
    OffsetIsProduct(count, size);
    PageCountCovers(|list|, size);
    forall page | page >= 1 ensures Page(t, online, page, pageSize) == [] <==> page > count {
      if page > count {
        BeyondLastPage(t, online, page, pageSize);
      } else {
        UpToLastPage(t, online, page, pageSize);
      }
    }
  }

  /** Each device that has a session is listed once without a filter, and by its latest session. */
  lemma LatestUnique(t: Table, device: DeviceId)
    requires SessionsOf(t, device) != {}
    ensures ByDevice(t, device).Some? && IsLatest(t, ByDevice(t, device).value)
    ensures t[ByDevice(t, device).value].device == device
    ensures forall sid :: IsLatest(t, sid) && t[sid].device == device ==> ByDevice(t, device) == Some(sid)
  {
    SomeoneLeads(LastSeen(t), SessionsOf(t, device));
    FirstLeads(LastSeen(t), SessionsOf(t, device));
  }

  /**
   The listing: the latest session of each device, if it passes the filter; no device twice; the
   most recently seen first.
   */
  lemma ListingExact(t: Table, online: Option<bool>)
    ensures var list := Listing(t, online);
            && (forall sid :: sid in list ==> sid in t)
            && (forall device :: SessionsOf(t, device) != {} ==>
                  var latest := ByDevice(t, device);
                  latest.Some? && latest.value in t
                  && (latest.value in list <==> (online.Some? ==> t[latest.value].online == online.value)))
            && (forall sid :: sid in list ==> ByDevice(t, t[sid].device) == Some(sid))
            && (forall i, j :: 0 <= i < j < |list| ==>
                  t[list[i]].device != t[list[j]].device && t[list[i]].lastSeen >= t[list[j]].lastSeen)
  {
    ListingInTable(t, online);
    RankedExact(LastSeen(t), Selected(t, online));
    forall device | SessionsOf(t, device) != {}
      ensures ByDevice(t, device).Some? && IsLatest(t, ByDevice(t, device).value)
    {
      LatestUnique(t, device);
    }
    ListingOrdered(t, online);
  }

  lemma ListedIsLatest(t: Table, online: Option<bool>, sid: SessionId)
    requires sid in Listing(t, online)
    ensures sid in t && ByDevice(t, t[sid].device) == Some(sid)
  {
    RankedExact(LastSeen(t), Selected(t, online));
    assert sid in SessionsOf(t, t[sid].device);
    LatestUnique(t, t[sid].device);
  }

  lemma ListingOrdered(t: Table, online: Option<bool>)
    ensures var list := Listing(t, online);
            && (forall sid :: sid in list ==> sid in t && ByDevice(t, t[sid].device) == Some(sid))
            && (forall i, j :: 0 <= i < j < |list| ==>
                  t[list[i]].device != t[list[j]].device && t[list[i]].lastSeen >= t[list[j]].lastSeen)
  {
    var list := Listing(t, online);
    RankedExact(LastSeen(t), Selected(t, online));
    forall sid | sid in list ensures sid in t && ByDevice(t, t[sid].device) == Some(sid) {
      ListedIsLatest(t, online, sid);
    }
    forall i, j | 0 <= i < j < |list|
      ensures t[list[i]].device != t[list[j]].device && t[list[i]].lastSeen >= t[list[j]].lastSeen
    {
      assert Before(LastSeen(t), list[i], list[j]);
      assert list[i] in list && list[j] in list;
    }
  }
}
