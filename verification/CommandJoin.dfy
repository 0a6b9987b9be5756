/**
 The command log as its readers see it: over any history of registrations, commands, status changes,
 results and timeouts, GetCommandLog gives back what SendCommand saved and what was written since,
 though the table has no device column.
 */
module CommandJoin {
  import opened Options
  import opened Ranking
  import opened CommandSession
  import opened CommandLog
  import opened Sets
  import T = Terminals

  datatype Op =
    | Terminal(write: T.Write)
    // the INSERT of a SendCommand for this device, which looked up this session of it earlier on
    | Send(device: DeviceId, found: SessionId, id: CommandId, kind: CommandType, at: int)
    // the three UPDATE statements
    | SetStatus(id: CommandId, status: Status)
    | SetResult(id: CommandId, status: Status, result: Result)
    | Expire(id: CommandId, at: int)

  datatype Db = Db(terminals: T.Table, log: seq<LogRow>)

  const EMPTY := Db(map[], [])

  predicate Belongs(db: Db, sid: SessionId, device: DeviceId) {
    sid in db.terminals && db.terminals[sid].device == device
  }

  /** Session and command ids are fresh uuids. */
  predicate Allowed(db: Db, op: Op) {
    match op
    case Terminal(write) => T.MayWrite(db.terminals, write)
    case Send(device, found, id, _, _) => Belongs(db, found, device) && !HasRow(db.log, id)
    case _ => true
  }

  function Apply(db: Db, op: Op): Db {
    match op
    case Terminal(write) => db.(terminals := T.Written(db.terminals, write))
    case Send(device, found, id, kind, at) =>
      db.(log := db.log + [LogRow(id, found, TypeName(kind), at, Pending, NO_RESULT)])
    case SetStatus(id, status) => db.(log := Updated(db.log, id, (row: LogRow) => row.(status := status)))
    case SetResult(id, status, result) =>
      db.(log := Updated(db.log, id, (row: LogRow) => row.(status := status, result := result)))
    case Expire(id, at) => db.(log := Updated(db.log, id, (row: LogRow) => TimedOut(row, at)))
  }

  function After(ops: seq<Op>): Db {
    if ops == [] then EMPTY else Apply(After(ops[..|ops| - 1]), ops[|ops| - 1])
  }

  predicate History(ops: seq<Op>) {
    ops == [] || (History(ops[..|ops| - 1]) && Allowed(After(ops[..|ops| - 1]), ops[|ops| - 1]))
  }

  /** The session GetTerminalByDevice finds for a device is one that SendCommand may save under, then and later. */
  lemma LookupBelongs(db: Db, device: DeviceId)
    ensures T.ByDevice(db.terminals, device).Some? ==> Belongs(db, T.ByDevice(db.terminals, device).value, device)
  {
    T.FirstLeads(T.LastSeen(db.terminals), T.SessionsOf(db.terminals, device));
    if T.SessionsOf(db.terminals, device) != {} {
      T.LatestUnique(db.terminals, device);
    }
  }

  lemma BelongsStays(db: Db, op: Op, sid: SessionId, device: DeviceId)
    requires Allowed(db, op) && Belongs(db, sid, device)
    ensures Belongs(Apply(db, op), sid, device)
  {
  }

  // ---- What the history says of each command -------------------------------------------------

  /** A saved command: for which device, under which session, its type and when; and its status and result by now. */
  datatype Order = Order(device: DeviceId, session: SessionId, kind: CommandType, at: int, status: Status, result: Result)

  type Orders = map<CommandId, Order>

  /** A command that is not finished is when its watcher fires. */
  function Expired(order: Order, at: int): Order {
    if order.status == Completed || order.status == Failed || order.status == Timeout then order
    else
      var r := order.result;
      order.(status := Timeout,
             result := Result(r.exitCode, r.stdout, r.stderr, "command timed out", r.startedAt, Some(at)))
  }

  /** What one operation makes of what is known of one command. */
  function Told(before: Option<Order>, id: CommandId, op: Op): Option<Order> {
    match op
    case Send(device, found, id', kind, at) =>
      if id' == id then Some(Order(device, found, kind, at, Pending, NO_RESULT)) else before
    case SetStatus(id', status) =>
      if id' == id && before.Some? then Some(before.value.(status := status)) else before
    case SetResult(id', status, result) =>
      if id' == id && before.Some? then Some(before.value.(status := status, result := result)) else before
    case Expire(id', at) =>
      if id' == id && before.Some? then Some(Expired(before.value, at)) else before
    case Terminal(_) => before
  }

  /** One command's own history, whatever happens to the others. */
  function OrderOf(ops: seq<Op>, id: CommandId): Option<Order> {
    if ops == [] then None else Told(OrderOf(ops[..|ops| - 1], id), id, ops[|ops| - 1])
  }

  // ---- The invariant -----------------------------------------------------------------

  /** The row says of its command what the history says, and the join finds the device it was saved for. */
  predicate RowTells(t: T.Table, row: LogRow, order: Option<Order>) {
    && order.Some?
    && row == LogRow(row.id, order.value.session, TypeName(order.value.kind), order.value.at,
                     order.value.status, order.value.result)
    && Joined(t, row) == Some(order.value.device)
  }

  /** The table holds one row for each saved command, and nothing else. */
  ghost predicate LogTells(ops: seq<Op>) {
    var db := After(ops);
    && (forall i :: 0 <= i < |db.log| ==> RowTells(db.terminals, db.log[i], OrderOf(ops, db.log[i].id)))
    && DistinctIds(db.log)
    && (forall id :: OrderOf(ops, id).Some? ==> HasRow(db.log, id))
  }

  lemma TerminalKeepsJoin(t: T.Table, write: T.Write, row: LogRow, order: Option<Order>)
    requires T.MayWrite(t, write) && RowTells(t, row, order)
    ensures RowTells(T.Written(t, write), row, order)
  {
  }

  /** One row under one of the three updates. */
  lemma UpdateTells(t: T.Table, row: LogRow, order: Option<Order>, op: Op)
    requires RowTells(t, row, order)
    ensures op.SetStatus? ==> RowTells(t, if op.id == row.id then row.(status := op.status) else row, Told(order, row.id, op))
    ensures op.SetResult? ==>
      RowTells(t, if op.id == row.id then row.(status := op.status, result := op.result) else row, Told(order, row.id, op))
    ensures op.Expire? ==> RowTells(t, if op.id == row.id then TimedOut(row, op.at) else row, Told(order, row.id, op))
  {
  }

  /** What an operation other than a Send leaves at position i. */
  lemma LogNext(db: Db, op: Op)
    requires !op.Send?
    ensures |Apply(db, op).log| == |db.log|
    ensures forall i :: 0 <= i < |db.log| ==>
      var row, row' := db.log[i], Apply(db, op).log[i];
      row' == match op
              case SetStatus(id, status) => if id == row.id then row.(status := status) else row
              case SetResult(id, status, result) => if id == row.id then row.(status := status, result := result) else row
              case Expire(id, at) => if id == row.id then TimedOut(row, at) else row
              case _ => row
  {
    match op
    case SetStatus(id, status) => UpdatedRows(db.log, id, (row: LogRow) => row.(status := status));
    case SetResult(id, status, result) => UpdatedRows(db.log, id, (row: LogRow) => row.(status := status, result := result));
    case Expire(id, at) => UpdatedRows(db.log, id, (row: LogRow) => TimedOut(row, at));
    case _ =>
  }

  lemma {:induction false} UpdateKeepsTelling(ops: seq<Op>)
    requires ops != [] && History(ops) && LogTells(ops[..|ops| - 1]) && !ops[|ops| - 1].Send?
    ensures LogTells(ops)
  {
    var init, op := ops[..|ops| - 1], ops[|ops| - 1];
    var db, db' := After(init), After(ops);
    LogNext(db, op);
    forall i | 0 <= i < |db'.log|
      ensures db'.log[i].id == db.log[i].id && RowTells(db'.terminals, db'.log[i], OrderOf(ops, db'.log[i].id))
    {
      assert RowTells(db.terminals, db.log[i], OrderOf(init, db.log[i].id));
      if op.Terminal? {
        TerminalKeepsJoin(db.terminals, op.write, db.log[i], OrderOf(init, db.log[i].id));
      } else {
        UpdateTells(db.terminals, db.log[i], OrderOf(init, db.log[i].id), op);
      }
    }
    SameIds(db.log, db'.log);
  }

  lemma SameIds(log: seq<LogRow>, log': seq<LogRow>)
    requires |log'| == |log| && forall i :: 0 <= i < |log| ==> log'[i].id == log[i].id
    ensures DistinctIds(log) ==> DistinctIds(log')
    ensures forall id :: HasRow(log, id) ==> HasRow(log', id)
  {
    forall id | HasRow(log, id) ensures HasRow(log', id) {
      var i :| 0 <= i < |log| && log[i].id == id;
      assert log'[i].id == id;
    }
  }

  lemma {:induction false} SendKeepsTelling(ops: seq<Op>)
    requires ops != [] && History(ops) && LogTells(ops[..|ops| - 1]) && ops[|ops| - 1].Send?
    ensures LogTells(ops)
  {
    var init, op := ops[..|ops| - 1], ops[|ops| - 1];
    var db, db' := After(init), After(ops);
    forall i | 0 <= i < |db'.log| ensures RowTells(db'.terminals, db'.log[i], OrderOf(ops, db'.log[i].id)) {
      if i < |db.log| {
        assert RowTells(db.terminals, db.log[i], OrderOf(init, db.log[i].id));
        assert db.log[i].id != op.id;
      }
    }
    forall id | OrderOf(ops, id).Some? ensures HasRow(db'.log, id) {
      HasRowNext(db.log, db'.log[|db.log|], id);
    }
  }

  /**
   Over any history the table holds one row for each saved command, and the row says what the command's
   own history says; the join gives back the device it was saved for.
   */
  lemma {:induction false} JoinRecoversDevice(ops: seq<Op>)
    requires History(ops)
    ensures LogTells(ops)
  {
    if ops != [] {
      JoinRecoversDevice(ops[..|ops| - 1]);
      if ops[|ops| - 1].Send? {
        SendKeepsTelling(ops);
      } else {
        UpdateKeepsTelling(ops);
      }
    }
  }

  // ---- What a log query answers ----------------------------------------------------------------

  /** The request names a device, a session or neither. */
  datatype Filter = OfDevice(device: DeviceId) | OfSession(session: SessionId) | All
  {
    function Device(): Option<DeviceId> {
      if OfDevice? then Some(device) else None
    }

    function Session(): Option<SessionId> {
      if OfSession? then Some(session) else None
    }
  }

  predicate Wanted(order: Order, filter: Filter) {
    match filter
    case OfDevice(device) => order.device == device
    case OfSession(session) => order.session == session
    case All => true
  }

  /** The commands the history has saved that the request asks for. */
  ghost function SavedIds(ops: seq<Op>, filter: Filter): set<CommandId> {
    set id | id in Ids(ops) && OrderOf(ops, id).Some? && Wanted(OrderOf(ops, id).value, filter)
  }

  /** The ids the history mentions. */
  function Ids(ops: seq<Op>): set<CommandId> {
    if ops == [] then {}
    else Ids(ops[..|ops| - 1]) + if ops[|ops| - 1].Send? then {ops[|ops| - 1].id} else {}
  }

  lemma {:induction false} OrderedIds(ops: seq<Op>, id: CommandId)
    ensures OrderOf(ops, id).Some? ==> id in Ids(ops)
  {
    if ops != [] {
      OrderedIds(ops[..|ops| - 1], id);
    }
  }

  function IdsAt(rows: seq<LogRow>, positions: set<nat>): set<CommandId>
    requires forall i :: i in positions ==> i < |rows|
  {
    set i | i in positions :: rows[i].id
  }

  lemma IdsAtSize(rows: seq<LogRow>, positions: set<nat>)
    requires forall i :: i in positions ==> i < |rows|
    requires DistinctIds(rows)
    ensures |IdsAt(rows, positions)| == |positions|
  {
    var idAt := (i: nat) => if i < |rows| then rows[i].id else 0;
    ImageSize(positions, idAt);
    assert Image(positions, idAt) == IdsAt(rows, positions);
  }

  /** The rows the query's filter hits are those of the commands asked for. */
  lemma {:induction false} HitsAreSaved(ops: seq<Op>, filter: Filter)
    requires History(ops)
    ensures var db := After(ops);
            var hits := Hits(db.terminals, db.log, filter.Device(), filter.Session());
            && IdsAt(db.log, hits) == SavedIds(ops, filter)
            && |hits| == |SavedIds(ops, filter)|
  {
    JoinRecoversDevice(ops);
    var db := After(ops);
    var hits := Hits(db.terminals, db.log, filter.Device(), filter.Session());
    forall id | id in IdsAt(db.log, hits) ensures id in SavedIds(ops, filter) {
      var i :| i in hits && db.log[i].id == id;
      assert RowTells(db.terminals, db.log[i], OrderOf(ops, id));
      OrderedIds(ops, id);
    }
    forall id | id in SavedIds(ops, filter) ensures id in IdsAt(db.log, hits) {
      var i :| 0 <= i < |db.log| && db.log[i].id == id;
      assert RowTells(db.terminals, db.log[i], OrderOf(ops, id));
      assert i in hits;
    }
    IdsAtSize(db.log, hits);
  }

  /** A prefix of a ranking: each listed once, and nothing left out outranks what is in. */
  lemma {:induction false} CutIsNewest(key: map<nat, int>, ids: set<nat>, limit: int)
    requires ids <= key.Keys
    ensures var list := Cut(Ranked(key, ids), limit);
            && |list| == (if 0 <= limit < |ids| then limit else |ids|)
            && (forall i :: 0 <= i < |list| ==> list[i] in ids)
            && (forall i, j :: 0 <= i < j < |list| ==> list[i] != list[j] && key[list[i]] >= key[list[j]])
            && (forall o, i :: o in ids && o !in list && 0 <= i < |list| ==> key[list[i]] >= key[o])
  {
    RankedExact(key, ids);
    var all := Ranked(key, ids);
    var list := Cut(all, limit);
    forall i | 0 <= i < |list| ensures list[i] in ids {
      assert all[i] in all;
    }
    forall i, j | 0 <= i < j < |list| ensures list[i] != list[j] && key[list[i]] >= key[list[j]] {
      assert Before(key, all[i], all[j]);
    }
    assert forall m :: 0 <= m < |list| ==> all[m] in list;
    forall o, i | o in ids && o !in list && 0 <= i < |list| ensures key[list[i]] >= key[o] {
      var k :| 0 <= k < |all| && all[k] == o;
      assert Before(key, all[i], all[k]);
    }
  }

  /** The query's answer to this request is these entries; a negative limit is none. */
  ghost predicate Answers(ops: seq<Op>, filter: Filter, limit: int, entries: seq<Entry>) {
    var db := After(ops);
    Lists(db.terminals, db.log, NewestUpTo(db.terminals, db.log, filter.Device(), filter.Session(), limit), entries)
  }

  /** The entry is of a command asked for and says everything that is known of it; a type without a name reads as unspecified. */
  ghost predicate Tells(ops: seq<Op>, filter: Filter, entry: Entry) {
    && entry.row.id in SavedIds(ops, filter)
    && var order := OrderOf(ops, entry.row.id).value;
       && entry.device == Some(order.device) && entry.row.session == order.session
       && entry.kind == (if 0 <= order.kind <= 7 then order.kind else UNSPECIFIED)
       && entry.row.createdAt == order.at
       && entry.row.status == order.status && entry.row.result == order.result
  }

  ghost function ListedIds(entries: seq<Entry>): set<CommandId> {
    set i | 0 <= i < |entries| :: entries[i].row.id
  }

  lemma {:induction false} EntryIsSaved(ops: seq<Op>, filter: Filter, limit: int, entries: seq<Entry>, i: nat)
    requires History(ops) && Answers(ops, filter, limit, entries) && i < |entries|
    ensures Tells(ops, filter, entries[i])
  {
    JoinRecoversDevice(ops);
    HitsAreSaved(ops, filter);
    var db := After(ops);
    NewestInRange(db.terminals, db.log, filter.Device(), filter.Session(), limit);
    var ids := NewestUpTo(db.terminals, db.log, filter.Device(), filter.Session(), limit);
    var row := db.log[ids[i]];
    assert ids[i] in Hits(db.terminals, db.log, filter.Device(), filter.Session());
    assert row.id in IdsAt(db.log, Hits(db.terminals, db.log, filter.Device(), filter.Session()));
    assert RowTells(db.terminals, row, OrderOf(ops, row.id));
    TypeRoundTrip(OrderOf(ops, row.id).value.kind);
  }

  lemma {:induction false} LeftOutIsOlder(ops: seq<Op>, filter: Filter, limit: int, entries: seq<Entry>, id: CommandId, i: nat)
    requires History(ops) && Answers(ops, filter, limit, entries) && i < |entries|
    requires id in SavedIds(ops, filter) && id !in ListedIds(entries)
    ensures entries[i].row.createdAt >= OrderOf(ops, id).value.at
  {
    JoinRecoversDevice(ops);
    HitsAreSaved(ops, filter);
    var db := After(ops);
    var hits := Hits(db.terminals, db.log, filter.Device(), filter.Session());
    var ids := NewestUpTo(db.terminals, db.log, filter.Device(), filter.Session(), limit);
    CutIsNewest(CreatedAt(db.log), hits, limit);
    assert id in IdsAt(db.log, hits);
    var o :| o in hits && db.log[o].id == id;
    assert RowTells(db.terminals, db.log[o], OrderOf(ops, id));
    assert forall k :: 0 <= k < |ids| ==> entries[k].row.id in ListedIds(entries);
  }

  lemma {:induction false} EntriesDiffer(ops: seq<Op>, filter: Filter, limit: int, entries: seq<Entry>, i: nat, j: nat)
    requires History(ops) && Answers(ops, filter, limit, entries) && i < j < |entries|
    ensures entries[i].row.id != entries[j].row.id && entries[i].row.createdAt >= entries[j].row.createdAt
  {
    JoinRecoversDevice(ops);
    var db := After(ops);
    var ids := NewestUpTo(db.terminals, db.log, filter.Device(), filter.Session(), limit);
    CutIsNewest(CreatedAt(db.log), Hits(db.terminals, db.log, filter.Device(), filter.Session()), limit);
    assert ids[i] != ids[j];
  }

  /**
   The log of a device, of a session or of everything: as many of the commands asked for as the limit
   allows, each once, the most recently saved first, none left out that is newer than one listed; and
   each says its device, session, type, time, status and result as the command's own history has them.
   */
  lemma {:induction false} LogExact(ops: seq<Op>, filter: Filter, limit: int, entries: seq<Entry>)
    requires History(ops) && Answers(ops, filter, limit, entries)
    ensures var wanted := SavedIds(ops, filter);
            && |entries| == (if 0 <= limit < |wanted| then limit else |wanted|)
            && (forall i :: 0 <= i < |entries| ==> Tells(ops, filter, entries[i]))
            && (forall i, j :: 0 <= i < j < |entries| ==>
                  entries[i].row.id != entries[j].row.id && entries[i].row.createdAt >= entries[j].row.createdAt)
            && (forall id, i :: id in wanted && id !in ListedIds(entries) && 0 <= i < |entries| ==>
                  entries[i].row.createdAt >= OrderOf(ops, id).value.at)
  {
    var db := After(ops);
    HitsAreSaved(ops, filter);
    CutIsNewest(CreatedAt(db.log), Hits(db.terminals, db.log, filter.Device(), filter.Session()), limit);
    forall i | 0 <= i < |entries| ensures Tells(ops, filter, entries[i]) {
      EntryIsSaved(ops, filter, limit, entries, i);
    }
    forall i, j | 0 <= i < j < |entries|
      ensures entries[i].row.id != entries[j].row.id && entries[i].row.createdAt >= entries[j].row.createdAt
    {
      EntriesDiffer(ops, filter, limit, entries, i, j);
    }
    forall id, i | id in SavedIds(ops, filter) && id !in ListedIds(entries) && 0 <= i < |entries|
      ensures entries[i].row.createdAt >= OrderOf(ops, id).value.at
    {
      LeftOutIsOlder(ops, filter, limit, entries, id, i);
    }
  }
}
