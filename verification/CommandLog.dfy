/**
 The command_logs table. It has no device column: the device of a command is recovered by joining
 the terminals table on the session.
 */
module CommandLog {
  import opened Options
  import opened Ranking
  import opened CommandSession
  import Terminals

  type SessionId = Terminals.SessionId
  type DeviceId = Terminals.DeviceId

  datatype Result = Result(exitCode: int, stdout: string, stderr: string, error: string, startedAt: Option<int>, finishedAt: Option<int>)

  const NO_RESULT := Result(0, "", "", "", None, None)

  datatype LogRow =
    LogRow(id: CommandId, session: SessionId, kind: string, createdAt: int, status: Status, result: Result)

  /** One line of the answer: a row, the device the join found, if any, and the command type its name parses to. */
  datatype Entry = Entry(row: LogRow, device: Option<DeviceId>, kind: CommandType)

  // ---- The type column -----------------------------------------------------------------

  /** An open enumeration of the wire format: any int32, of which eight values have names. */
  type CommandType = int

  const UNSPECIFIED: CommandType := 0

  const TYPE_NAMES := [
    "COMMAND_TYPE_UNSPECIFIED", "COMMAND_TYPE_COLLECT_NOW", "COMMAND_TYPE_RUN_SCRIPT", "COMMAND_TYPE_KILL_PROCESS",
    "COMMAND_TYPE_UPDATE_CONFIG", "COMMAND_TYPE_UPGRADE", "COMMAND_TYPE_RESTART", "COMMAND_TYPE_SHUTDOWN"]

  predicate Named(kind: CommandType) {
    0 <= kind < |TYPE_NAMES|
  }

  function Digits(n: nat): string {
    if n < 10 then [('0' as int + n) as char] else Digits(n / 10) + [('0' as int + n % 10) as char]
  }

  /** cmdTypeName */
  function TypeName(kind: CommandType): string {
    if Named(kind) then TYPE_NAMES[kind]
    else "COMMAND_TYPE_UNSPECIFIED_" + Suffix(kind)
  }

  /** parseCommandType */
  function ParseType(name: string): CommandType {
    if exists k :: 0 <= k < |TYPE_NAMES| && TYPE_NAMES[k] == name then
      NamesDiffer();
      var k :| 0 <= k < |TYPE_NAMES| && TYPE_NAMES[k] == name;
      k
    else UNSPECIFIED
  }

  lemma NamesDiffer()
    ensures forall i, j :: 0 <= i < j < |TYPE_NAMES| ==> TYPE_NAMES[i] != TYPE_NAMES[j]
  {
    forall i, j | 0 <= i < j < |TYPE_NAMES| ensures TYPE_NAMES[i] != TYPE_NAMES[j] {
      assert TYPE_NAMES[i][13] != TYPE_NAMES[j][13] || TYPE_NAMES[i][14] != TYPE_NAMES[j][14]
             || TYPE_NAMES[i][15] != TYPE_NAMES[j][15];
    }
  }

  /** A type survives the column exactly when it has a name; any other comes back as unspecified. */
  lemma TypeRoundTrip(kind: CommandType)
    ensures ParseType(TypeName(kind)) == if Named(kind) then kind else UNSPECIFIED
  {
    NamesDiffer();
    if !Named(kind) {
      var name := TypeName(kind);
      assert |name| > 25 && name[13] == 'U' && name[14] == 'N';
      assert |TYPE_NAMES[0]| == 24;
      assert forall k :: 0 < k < |TYPE_NAMES| ==> TYPE_NAMES[k][13] != 'U' || TYPE_NAMES[k][14] != 'N';
    }
  }

  /** What a log's reader sees for each name in the type column. */
  lemma NamesRead()
    ensures ParseType("COMMAND_TYPE_UNSPECIFIED") == 0 && ParseType("COMMAND_TYPE_COLLECT_NOW") == 1
    ensures ParseType("COMMAND_TYPE_RUN_SCRIPT") == 2 && ParseType("COMMAND_TYPE_KILL_PROCESS") == 3
    ensures ParseType("COMMAND_TYPE_UPDATE_CONFIG") == 4 && ParseType("COMMAND_TYPE_UPGRADE") == 5
    ensures ParseType("COMMAND_TYPE_RESTART") == 6 && ParseType("COMMAND_TYPE_SHUTDOWN") == 7
  {
    forall k | 0 <= k < |TYPE_NAMES| ensures ParseType(TYPE_NAMES[k]) == k {
      TypeRoundTrip(k);
    }
    assert TYPE_NAMES[0] == "COMMAND_TYPE_UNSPECIFIED" && TYPE_NAMES[1] == "COMMAND_TYPE_COLLECT_NOW";
    assert TYPE_NAMES[2] == "COMMAND_TYPE_RUN_SCRIPT" && TYPE_NAMES[3] == "COMMAND_TYPE_KILL_PROCESS";
    assert TYPE_NAMES[4] == "COMMAND_TYPE_UPDATE_CONFIG" && TYPE_NAMES[5] == "COMMAND_TYPE_UPGRADE";
    assert TYPE_NAMES[6] == "COMMAND_TYPE_RESTART" && TYPE_NAMES[7] == "COMMAND_TYPE_SHUTDOWN";
  }

  /** The number that decimal digits denote. */
  function Denoted(digits: string): int {
    if digits == "" then 0
    else 10 * Denoted(digits[..|digits| - 1]) + (digits[|digits| - 1] as int - '0' as int)
  }

  lemma {:induction false} DigitsDenote(n: nat)
    ensures Denoted(Digits(n)) == n && Digits(n) != ""
    ensures forall i :: 0 <= i < |Digits(n)| ==> '0' <= Digits(n)[i] <= '9'
  {
    if n >= 10 {
      DigitsDenote(n / 10);
      assert Digits(n)[..|Digits(n)| - 1] == Digits(n / 10);
    }
  }

  /** The type column tells any two types apart, named or not. */
  lemma TypeNamesDiffer(a: CommandType, b: CommandType)
    requires TypeName(a) == TypeName(b)
    ensures a == b
  {
    TypeRoundTrip(a);
    TypeRoundTrip(b);
    assert |TYPE_NAMES[0]| == 24;
    assert !Named(a) ==> |TypeName(a)| > 25;
    assert !Named(b) ==> |TypeName(b)| > 25;
    if !Named(a) && !Named(b) {
      var prefix := "COMMAND_TYPE_UNSPECIFIED_";
      assert TypeName(a)[|prefix|..] == Suffix(a) && TypeName(b)[|prefix|..] == Suffix(b);
      SuffixDenotes(a);
      SuffixDenotes(b);
    }
  }

  function Suffix(kind: CommandType): string {
    if kind < 0 then "-" + Digits(-kind) else Digits(kind)
  }

  lemma SuffixDenotes(kind: CommandType)
    ensures Suffix(kind) != ""
    ensures kind == if Suffix(kind)[0] == '-' then -Denoted(Suffix(kind)[1..]) else Denoted(Suffix(kind))
  {
    DigitsDenote(if kind < 0 then -kind else kind);
  }

  /** The arguments of the query, in the order they are appended. */
  datatype Arg = SessionArg(session: SessionId) | DeviceArg(device: DeviceId) | LimitArg(limit: int)

  /** The column the where clause compares with its placeholder, if there is one. */
  datatype Column = NoColumn | SessionColumn | DeviceColumn

  datatype Answer = Entries(entries: seq<Entry>) | BadArguments

  // ---- The statements ------------------------------------------------------------------

  predicate HasRow(rows: seq<LogRow>, id: CommandId) {
    exists i :: 0 <= i < |rows| && rows[i].id == id
  }

  /** The status column of one session's rows, by command. */
  function Statuses(rows: seq<LogRow>, session: SessionId): map<CommandId, Status> {
    if rows == [] then map[]
    else
      var last := rows[|rows| - 1];
      var before := Statuses(rows[..|rows| - 1], session);
      if last.session == session then before[last.id := last.status] else before
  }

  ghost predicate DistinctIds(rows: seq<LogRow>) {
    forall i, j :: 0 <= i < j < |rows| ==> rows[i].id != rows[j].id
  }

  /** UPDATE command_logs SET ... WHERE command_id = ? */
  function Updated(rows: seq<LogRow>, id: CommandId, change: LogRow -> LogRow): seq<LogRow> {
    if rows == [] then []
    else
      var last := rows[|rows| - 1];
      Updated(rows[..|rows| - 1], id, change) + [if last.id == id then change(last) else last]
  }

  function TimedOut(row: LogRow, now: int): LogRow {
    if row.status.Terminal() then row
    else row.(status := Timeout, result := row.result.(error := "command timed out", finishedAt := Some(now)))
  }

  /** Rows of other commands and rows that are finished are left as they were, every column of them. */
  ghost predicate SparedByTimeout(before: seq<LogRow>, after: seq<LogRow>, id: CommandId) {
    && |after| == |before|
    && (forall i :: 0 <= i < |before| && (before[i].id != id || before[i].status in {Completed, Failed, Timeout}) ==>
          after[i] == before[i])
  }

  /** The command's unfinished row times out, and keeps its exit code, its outputs and its start. */
  ghost predicate HitByTimeout(before: seq<LogRow>, after: seq<LogRow>, id: CommandId, now: int)
    requires |after| == |before|
  {
    forall i :: 0 <= i < |before| && before[i].id == id && before[i].status in {Pending, Sent, Executing} ==>
      var row := before[i];
      after[i] == row.(
        status := Timeout,
        result := Result(row.result.exitCode, row.result.stdout, row.result.stderr, "command timed out",
                         row.result.startedAt, Some(now)))
  }

  lemma {:induction false} UpdatedRows(rows: seq<LogRow>, id: CommandId, change: LogRow -> LogRow)
    ensures |Updated(rows, id, change)| == |rows|
    ensures forall i :: 0 <= i < |rows| ==>
      Updated(rows, id, change)[i] == if rows[i].id == id then change(rows[i]) else rows[i]
  {
    if rows != [] {
      UpdatedRows(rows[..|rows| - 1], id, change);
    }
  }

  /** One session's statuses are those of its rows, command by command. */
  lemma {:induction false} StatusesExact(rows: seq<LogRow>, session: SessionId, id: CommandId)
    requires DistinctIds(rows)
    ensures id in Statuses(rows, session) <==> exists i :: 0 <= i < |rows| && rows[i].id == id && rows[i].session == session
    ensures forall i :: 0 <= i < |rows| && rows[i].id == id && rows[i].session == session ==>
      id in Statuses(rows, session) && Statuses(rows, session)[id] == rows[i].status
  {
    if rows != [] {
      var init, n := rows[..|rows| - 1], |rows| - 1;
      DistinctInit(rows);
      StatusesExact(init, session, id);
      assert forall i :: 0 <= i < n ==> init[i] == rows[i];
    }
  }

  // ---- The query -------------------------------------------------------------------------

  /** How many rows a request gets. */
  function Limit(requested: int): (limit: nat)
    ensures 1 <= limit <= 200
    ensures limit == requested <==> 1 <= requested <= 200
    ensures limit != requested ==> limit == 50
  {
    if requested <= 0 || requested > 200 then 50 else requested
  }

  function CreatedAt(rows: seq<LogRow>): map<nat, int> {
    map i | 0 <= i < |rows| :: rows[i].createdAt
  }

  /** LEFT JOIN terminals t ON t.session_id = cl.session_id */
  function Joined(t: Terminals.Table, row: LogRow): Option<DeviceId> {
    if row.session in t then Some(t[row.session].device) else None
  }

  predicate Matches(t: Terminals.Table, row: LogRow, device: Option<DeviceId>, session: Option<SessionId>) {
    && (device.Some? ==> Joined(t, row) == device)
    && (device.None? && session.Some? ==> row.session == session.value)
  }

  function Hits(t: Terminals.Table, rows: seq<LogRow>, device: Option<DeviceId>, session: Option<SessionId>): set<nat> {
    set i | 0 <= i < |rows| && Matches(t, rows[i], device, session)
  }

  /** LIMIT ?, where a negative number is no limit. */
  function Cut(ids: seq<nat>, limit: int): seq<nat> {
    if limit < 0 || |ids| <= limit then ids else ids[..limit]
  }

  /** The positions of the newest rows that pass the filter. */
  function NewestUpTo(
      t: Terminals.Table, rows: seq<LogRow>, device: Option<DeviceId>, session: Option<SessionId>, limit: int): seq<nat>
  {
    Cut(Ranked(CreatedAt(rows), Hits(t, rows, device, session)), limit)
  }

  function EntryOf(t: Terminals.Table, row: LogRow): Entry {
    Entry(row, Joined(t, row), ParseType(row.kind))
  }

  /** The answer lists these rows, joined. */
  ghost predicate Lists(t: Terminals.Table, rows: seq<LogRow>, ids: seq<nat>, entries: seq<Entry>) {
    |entries| == |ids|
    && forall i :: 0 <= i < |ids| ==> ids[i] < |rows| && entries[i] == EntryOf(t, rows[ids[i]])
  }

  class CommandStore {
    var rows: seq<LogRow>

    constructor ()
      ensures rows == []
    {
      rows := [];
    }

    /** INSERT; command_id is UNIQUE, so a second insert fails. */
    method SaveCommandLog(id: CommandId, session: SessionId, kind: CommandType, now: int) returns (ok: bool)
      modifies this
      ensures ok <==> !HasRow(old(rows), id)
      ensures rows == if ok then old(rows) + [LogRow(id, session, TypeName(kind), now, Pending, NO_RESULT)] else old(rows)
      ensures ok ==> Statuses(rows, session) == Statuses(old(rows), session)[id := Pending]
      ensures forall other :: other != session ==> Statuses(rows, other) == Statuses(old(rows), other)
      ensures DistinctIds(old(rows)) ==> DistinctIds(rows)
    {
      ok := !HasRow(rows, id);
      if ok {
        rows := rows + [LogRow(id, session, TypeName(kind), now, Pending, NO_RESULT)];
        assert rows[..|rows| - 1] == old(rows);
      }
    }

    method UpdateCommandStatus(id: CommandId, status: Status)
      modifies this
      ensures rows == Updated(old(rows), id, (row: LogRow) => row.(status := status))
      ensures |rows| == |old(rows)|
      ensures forall i :: 0 <= i < |rows| ==>
        rows[i] == if old(rows)[i].id == id then old(rows)[i].(status := status) else old(rows)[i]
      ensures forall session :: Statuses(rows, session) == UpdateStatus(Statuses(old(rows), session), id, status)
      ensures DistinctIds(old(rows)) ==> DistinctIds(rows)
    {
      AllStatusesUpdated(rows, id, (row: LogRow) => row.(status := status), status);
      UpdatedRows(rows, id, (row: LogRow) => row.(status := status));
      rows := Updated(rows, id, (row: LogRow) => row.(status := status));
    }

    method UpdateCommandResult(id: CommandId, status: Status, result: Result)
      modifies this
      ensures rows == Updated(old(rows), id, (row: LogRow) => row.(status := status, result := result))
      ensures |rows| == |old(rows)|
      ensures forall i :: 0 <= i < |rows| ==>
        rows[i] == if old(rows)[i].id == id then old(rows)[i].(status := status, result := result) else old(rows)[i]
      ensures forall session :: Statuses(rows, session) == UpdateStatus(Statuses(old(rows), session), id, status)
      ensures DistinctIds(old(rows)) ==> DistinctIds(rows)
    {
      AllStatusesUpdated(rows, id, (row: LogRow) => row.(status := status, result := result), status);
      UpdatedRows(rows, id, (row: LogRow) => row.(status := status, result := result));
      rows := Updated(rows, id, (row: LogRow) => row.(status := status, result := result));
    }

    method MarkCommandTimeout(id: CommandId, now: int)
      requires DistinctIds(rows)
      modifies this
      ensures rows == Updated(old(rows), id, (row: LogRow) => TimedOut(row, now))
      ensures SparedByTimeout(old(rows), rows, id) && HitByTimeout(old(rows), rows, id, now)
      ensures forall session :: Statuses(rows, session) == TimeoutIfOpen(Statuses(old(rows), session), id)
      ensures DistinctIds(rows)
    {
      AllStatusesTimedOut(rows, id, now);
      UpdatedRows(rows, id, (row: LogRow) => TimedOut(row, now));
      rows := Updated(rows, id, (row: LogRow) => TimedOut(row, now));
    }

    /**
     The where clause has one placeholder at most, but deviceID and sessionID each append an argument.
     Arguments are bound in order, so with both of them the device column is compared with the session
     id and LIMIT gets the device id, which the statement refuses unless it reads as an integer.
     `asInteger` is what a device id's text reads as, and `sameText` the device id that is spelled like
     a session id.
     */
    method GetCommandLog(t: Terminals.Table, device: Option<DeviceId>, session: Option<SessionId>, limit: int,
                         asInteger: DeviceId -> Option<int>, sameText: SessionId -> DeviceId)
      returns (answer: Answer)
      ensures answer == BadArguments <==> device.Some? && session.Some? && asInteger(device.value).None?
      ensures device.None? || session.None? ==>
        answer.Entries? && Lists(t, rows, NewestUpTo(t, rows, device, session, Limit(limit)), answer.entries)
      ensures device.Some? && session.Some? && answer.Entries? ==>
        Lists(t, rows, NewestUpTo(t, rows, Some(sameText(session.value)), None, asInteger(device.value).value), answer.entries)
    {
      var args: seq<Arg>, column := [], NoColumn;
      if session.Some? {
        args, column := args + [SessionArg(session.value)], SessionColumn;
      }
      if device.Some? {
        args, column := args + [DeviceArg(device.value)], DeviceColumn;
      }
      args := args + [LimitArg(Limit(limit))];

      var limitArg := args[if column.NoColumn? then 0 else 1];
      var bound := if limitArg.LimitArg? then Some(limitArg.limit) else asInteger(device.value);
      if bound.None? {
        return BadArguments;
      }
      var byDevice, bySession := None, None;
      if column.DeviceColumn? {
        byDevice := Some(if args[0].DeviceArg? then args[0].device else sameText(session.value));
      } else if column.SessionColumn? {
        bySession := session;
      }
      answer := Scan(t, byDevice, bySession, bound.value);
    }

    /** The loop over the query's rows. */
    method Scan(t: Terminals.Table, device: Option<DeviceId>, session: Option<SessionId>, limit: int) returns (answer: Answer)
      ensures answer.Entries? && Lists(t, rows, NewestUpTo(t, rows, device, session, limit), answer.entries)
    {
      var ids := NewestUpTo(t, rows, device, session, limit);
      NewestInRange(t, rows, device, session, limit);
      var entries: seq<Entry> := [];
      for i := 0 to |ids|
        invariant Lists(t, rows, ids[..i], entries)
      {
        entries := entries + [EntryOf(t, rows[ids[i]])];
      }
      assert ids[..|ids|] == ids;
      answer := Entries(entries);
    }
  }

  lemma NewestInRange(t: Terminals.Table, rows: seq<LogRow>, device: Option<DeviceId>, session: Option<SessionId>, limit: int)
    ensures var ids := NewestUpTo(t, rows, device, session, limit);
            forall i :: 0 <= i < |ids| ==> ids[i] in Hits(t, rows, device, session)
  {
    var hits := Hits(t, rows, device, session);
    RankedExact(CreatedAt(rows), hits);
    var ids := NewestUpTo(t, rows, device, session, limit);
    forall i | 0 <= i < |ids| ensures ids[i] in hits {
      assert ids[i] in Ranked(CreatedAt(rows), hits);
    }
  }

  lemma HasRowNext(init: seq<LogRow>, last: LogRow, id: CommandId)
    ensures HasRow(init + [last], id) <==> HasRow(init, id) || last.id == id
  {
    var rows := init + [last];
    assert rows[|init|] == last;
    if i :| 0 <= i < |init| && init[i].id == id {
      assert rows[i].id == id;
    }
    if i :| 0 <= i < |rows| && rows[i].id == id && i < |init| {
      assert init[i].id == id;
    }
  }

  lemma {:induction false} StatusesKnown(rows: seq<LogRow>, session: SessionId, id: CommandId)
    ensures id in Statuses(rows, session) ==> HasRow(rows, id)
  {
    if rows != [] {
      var init, last := rows[..|rows| - 1], rows[|rows| - 1];
      StatusesKnown(init, session, id);
      HasRowNext(init, last, id);
      assert rows == init + [last];
    }
  }

  /** One more row seen by an UPDATE. */
  lemma StatusNext(m: map<CommandId, Status>, last: LogRow, last': LogRow, session: SessionId, id: CommandId, status: Status)
    requires last'.id == last.id && last'.session == last.session
    requires last'.status == if last.id == id then status else last.status
    ensures var m' := UpdateStatus(m, id, status);
            (if last.session == session then m'[last.id := last'.status] else m')
            == UpdateStatus(if last.session == session then m[last.id := last.status] else m, id, status)
  {
  }

  lemma {:induction false} StatusesUpdated(
      rows: seq<LogRow>, session: SessionId, id: CommandId, change: LogRow -> LogRow, status: Status)
    requires forall row :: change(row).id == row.id && change(row).session == row.session && change(row).status == status
    ensures Statuses(Updated(rows, id, change), session) == UpdateStatus(Statuses(rows, session), id, status)
  {
    if rows != [] {
      var init, last := rows[..|rows| - 1], rows[|rows| - 1];
      StatusesUpdated(init, session, id, change, status);
      var updated := if last.id == id then change(last) else last;
      StatusesOfLast(Updated(init, id, change), updated, session);
      StatusNext(Statuses(init, session), last, updated, session, id, status);
    }
  }

  lemma {:induction false} AllStatusesUpdated(rows: seq<LogRow>, id: CommandId, change: LogRow -> LogRow, status: Status)
    requires forall row :: change(row).id == row.id && change(row).session == row.session && change(row).status == status
    ensures forall session ::
      Statuses(Updated(rows, id, change), session) == UpdateStatus(Statuses(rows, session), id, status)
    ensures DistinctIds(rows) ==> DistinctIds(Updated(rows, id, change))
  {
    forall session
      ensures Statuses(Updated(rows, id, change), session) == UpdateStatus(Statuses(rows, session), id, status)
    {
      StatusesUpdated(rows, session, id, change, status);
    }
    UpdatedRows(rows, id, change);
  }

  lemma {:induction false} StatusesUntouched(rows: seq<LogRow>, id: CommandId, change: LogRow -> LogRow)
    requires !HasRow(rows, id)
    ensures Updated(rows, id, change) == rows
  {
    if rows != [] {
      var init, last := rows[..|rows| - 1], rows[|rows| - 1];
      assert rows == init + [last];
      HasRowNext(init, last, id);
      StatusesUntouched(init, id, change);
    }
  }

  lemma DistinctInit(rows: seq<LogRow>)
    requires DistinctIds(rows) && rows != []
    ensures DistinctIds(rows[..|rows| - 1]) && !HasRow(rows[..|rows| - 1], rows[|rows| - 1].id)
  {
    var init := rows[..|rows| - 1];
    assert forall i :: 0 <= i < |init| ==> init[i] == rows[i];
  }

  lemma {:induction false} StatusesTimedOut(rows: seq<LogRow>, session: SessionId, id: CommandId, now: int)
    requires DistinctIds(rows)
    ensures Statuses(Updated(rows, id, (row: LogRow) => TimedOut(row, now)), session)
            == TimeoutIfOpen(Statuses(rows, session), id)
  {
    var change := (row: LogRow) => TimedOut(row, now);
    if rows != [] {
      var init, last := rows[..|rows| - 1], rows[|rows| - 1];
      DistinctInit(rows);
      if last.id == id {
        StatusesUntouched(init, id, change);
        StatusesKnown(init, session, id);
        StatusesOfLast(init, TimedOut(last, now), session);
      } else {
        StatusesTimedOut(init, session, id, now);
        StatusesOfLast(Updated(init, id, change), last, session);
      }
    }
  }

  lemma {:induction false} StatusesOfLast(init: seq<LogRow>, last: LogRow, session: SessionId)
    ensures Statuses(init + [last], session)
            == if last.session == session then Statuses(init, session)[last.id := last.status] else Statuses(init, session)
  {
    assert (init + [last])[..|init|] == init;
  }

  lemma AllStatusesTimedOut(rows: seq<LogRow>, id: CommandId, now: int)
    requires DistinctIds(rows)
    ensures var rows' := Updated(rows, id, (row: LogRow) => TimedOut(row, now));
            && DistinctIds(rows')
            && forall session :: Statuses(rows', session) == TimeoutIfOpen(Statuses(rows, session), id)
  {
    forall session
      ensures Statuses(Updated(rows, id, (row: LogRow) => TimedOut(row, now)), session)
              == TimeoutIfOpen(Statuses(rows, session), id)
    {
      StatusesTimedOut(rows, session, id, now);
    }
    UpdatedRows(rows, id, (row: LogRow) => TimedOut(row, now));
  }
}
