# TeamX, modelled in Dafny

TeamX manages terminals. Admins push commands to agents over one bidirectional stream per session,
and a server keeps presence, a blocklist, hardware reports and a command log. This project models
the parts of it that hold state shared between goroutines, tables or processes, and proves what they
keep. `dafny verify dfyconfig.toml` checks all of it.

**The command protocol.** `CommandSession` has one program counter for each actor: SendCommand calls,
the consumer, the receive loop, the timeout watchers and the client. Each step is one access to the
status rows, the command queue or the stream. `CommandRuns`, `CommandOrder` and `CommandLifecycle` are
about whole runs with any interleaving. `CommandServer` holds the code over real tables and proves
each operation to be a path of those steps. `CommandLog` is the log's table and `CommandJoin` what its
readers see of it over any history. `CommandOutcome` is where every watched command ends up, and
`CommandColumns` what its row then says besides the status.

**Registry, presence, blocklist.** `Registry` and `Terminals` are the two places that know who is
online. `Presence` and `PresenceRuns` let the handlers, the heartbeat sweep, kicks and blocks
interleave between their two writes and between check and act. `PresenceExact` is the exact condition
under which the two places agree, `PresenceExamples` has a run in which they do not and one that
reaches the capacity bound. `PresenceServer` is the handlers as code and `PresencePaths` shows a whole
Channel and a whole sweep to be steps. `Ranking` is what ORDER BY gives.

**Hardware reports.** `ArrayCodec` is the store's string-array codec, `JsonReader` what a reader of JSON
makes of its text, `HardwareStore` splits a report
over five tables and reassembles it, `HardwareHistory` is about any sequence of saves.

**Client and gateway.** `Executor` is the command executor with its receive and reconnect loops,
`ReportDedup` the report cache and its loop, `ClientStream` the messages, `EventStream` the gateway's
online and offline events and `EventHistory` the same events against the server's own listing,
`FormatBytes` a bounded loop. `Options`, `Sequences`, `Sets` and `Integers` are shared helpers.

Five places where the code does less than it promises or seems to, each with its exact condition:

- The lifecycle in docs/protocol.md:200-212 is not what every run shows: `LifecycleExact` gives the
  runs that do show it, and two concrete runs do not.
- The string-array codec loses strings that end in a backslash: `ArrayCodecExact`. It is the parser that
  loses them: `PrintsJsonExact`.
- Registry and table do not always agree on who is online: `AgreesFromEvents` says that they do exactly when
  no sweep makes both its writes between the two writes of a heartbeat.
- GetCommandLog with both a device and a session is documented to prefer the device
  (internal/server/store/store.go:87); the statement has one filter but is given both arguments, so its
  LIMIT is bound to the device id: `GetCommandLog` is an error exactly when that does not read as an
  integer, which a fingerprint does not, and otherwise answers for the wrong device.
- The gateway's events are right for every session a poll sees (`EveryListenerIsRight`), but a session
  that has left the first page of 50 never returns to it, so what happens to it afterwards is never told:
  `StaleExact` says when a listener is right, and `ReconnectIsNotTold` that after a reconnect between two
  polls, whatever else is written there, listeners keep the old session's last status for good.

Assumptions, all of them hypotheses or parameters in the files:

- Session ids and command ids are fresh uuids. Ids, devices and hashes are compared and nothing else.
- Runs start from an empty database, and the store returns no errors. Sends may fail at any time.
- A stream is first-in first-out; a broken stream delivers a prefix. A session has at most one Channel
  open at a time, as the client registers again before every Channel.
- Equal timestamps: the smaller id is listed first; the first stored report wins.
- The clock of a step system is a number that only grows; time.Time's zero value is 0.
- The client sends results for the commands it received, in the order `TraceExact` allows: the command
  protocol's client steps are what `BlockIsTwoSteps` shows a command to be.
- The step systems allow slightly more than the code does: a session's Channel may start before its
  row is stored, SendCommand may have found its session online at any earlier time, and a stream.Send may fail or
  succeed on a broken stream. What is proved of all their runs holds of the code's.
- The hash of a snapshot is collision-free, and check, send and mark of the report cache are not interleaved.

## Model

| member | source | states |
|---|---|---|
| `CommandSession.StepKeepsInv` | internal/server/command.go:20-211 | In every interleaving of SendCommand calls, consumer, receive loop, watchers and client: a command is in one place, its row is Pending exactly while a writer owes it a status, it has no watcher before its Sent mark, and its results reach the server as at most one Executing and then at most one verdict, none of them once a verdict is stored |
| `CommandSession.OtherStepsGoForward` | internal/server/command.go:48-154 | Of all steps, only the Sent mark and the handling of a result can move a row against the documented order |
| `CommandSession.MarkSentForward` | internal/server/command.go:125-129 | The Sent mark follows the documented order if and only if the row is still Pending when it is written |
| `CommandSession.HandleForward` | internal/server/command.go:193-211 | Handling a result follows the documented order if and only if the row is not Timeout yet |
| `CommandRuns.InvHolds` | internal/server/command.go:20-211 | The invariant holds in every session and every state of every run of any number of sessions, admins and commands |
| `CommandRuns.MarkThenVerdict` | internal/server/command.go:118-139 | If the Sent mark precedes the handling of the final result, the row is the client's verdict from the handling on, forever, whenever the watcher fires |
| `CommandRuns.VerdictThenMark` | internal/server/command.go:118-139 | If the mark comes after the handling, the row is Sent until the watcher fires and Timeout from then on |
| `CommandRuns.FireFollowsMark` | internal/server/command.go:125-139 | A watcher never fires before the Sent mark of its command |
| `CommandRuns.FinallyTerminal` | internal/server/store/command.go:38-92 | Marked Sent, final result handled and watcher fired, in whatever order: the status is the verdict or Timeout, never Sent or Executing, and which of the two is decided by the order of mark and handling |
| `CommandRuns.PendingIsOwed` | internal/server/command.go:48-141 | In every reachable state a Pending row belongs to a SendCommand call past its save, to its session's queue or to the consumer's hand; a queued command is Pending, has no watcher and its call is over |
| `CommandRuns.StrandedStaysPending` | internal/server/command.go:104-141 | A command left in the queue of a closed Channel stays queued and Pending until that session's Channel is opened again |
| `CommandOutcome.OutcomeExact` | internal/server/command.go:118-154 | The status of every command marked Sent whose watcher has fired, from the order of its events alone and whether or not its verdict ever arrives: the last result if it came after the firing, else the last result if it came after the mark and is a verdict, else Timeout |
| `CommandOutcome.StuckExact` | internal/server/store/command.go:38-92 | Such a command is not at a terminal status if and only if the last result handled is an Executing that came after the firing; it is then at Executing, for good if no more results come |
| `CommandOutcome.RefusedIsFailed` | internal/server/command.go:72-123 | A command rejected for a full queue, or whose send failed, is Failed from that write on, for good |
| `CommandOutcome.FiresOnce` | internal/server/command.go:133-154 | A command's watcher fires at most once in a run |
| `CommandOutcome.StartsOnce` | internal/server/command.go:104-142 | The client starts a command at most once in a run, in one session, whatever breaks and reopens in between |
| `CommandColumns.ColumnsExact` | internal/server/store/command.go:38-92 | Over every interleaving: a row that says Completed or Failed has exactly the exit code, outputs, error text and times of the last result handled for its command, which said the same, or none if the command was refused; a row at Timeout keeps the exit code, outputs and start of its last result and has the error text and the time of the firing; no other write touches them |
| `CommandLifecycle.LifecycleExact` | docs/protocol.md:200-212 | A run shows the documented lifecycle for a command if and only if its Sent mark precedes every result handled for it and its watcher fires after every one of them |
| `CommandLifecycle.NoTimeoutBeforeFire` | internal/server/store/command.go:80-92 | A row is not Timeout before its watcher has fired |
| `CommandLifecycle.NeverPendingAgain` | internal/server/store/command.go:15-75 | A row that has left Pending never returns to it |
| `CommandLifecycle.CompletedCanEndAsTimeout` | internal/server/command.go:118-139 | A run in which a command that the client completed ends as Timeout |
| `CommandLifecycle.TimeoutCanTurnExecuting` | internal/server/store/command.go:38-65 | A run in which a late Executing overwrites Timeout |
| `CommandOrder.QueueIsFifo` | internal/server/command.go:72-142 | Under any number of concurrent admins, the commands accepted as queued are the consumed ones followed by those in the queue |
| `CommandOrder.QueueIsBounded` | internal/server/connection.go:13-73 | The queue of a session never holds more than 32 commands |
| `CommandOrder.AcceptedOnce` | internal/server/command.go:72-84 | No command is accepted twice |
| `CommandOrder.DeliveryInOrder` | internal/server/command.go:104-142 | The commands sent on the stream are an order-preserving subsequence of the accepted ones, without duplicates |
| `CommandOrder.StreamIsFifo` | internal/server/command.go:104-142 | In every run and since a Channel was last opened: the commands the client has started are a prefix of those sent, and the results handled and in flight are, in order, all those posted, or once the stream has broken exactly the ones that arrive |
| `CommandOrder.OneSessionPerCommand` | internal/server/command.go:48-58 | No two sessions share a command id, so one table of rows can be seen session by session |
| `CommandServer.Server.SendCommand` | internal/server/command.go:20-97 | InvalidArgument, NotFound and Offline if and only if the device or type is missing, the device has no row, its latest session is not an online registry session; otherwise the row of that session is saved Pending and queued if fewer than 32 are, saved and Failed if not, refused if the id is taken; no other session moves; with an unused id the whole system goes exactly along the protocol's events for that answer |
| `CommandServer.Server.Locate` | internal/server/command.go:21-46 | The session addressed is the device's latest one, in the registry and online there; otherwise the refusal says which of the three is missing |
| `CommandServer.SendIsEvents` | internal/server/command.go:48-97 | A call with a fresh id is the three or four events of the protocol that its answer stands for, or none |
| `CommandServer.RunGoesOn` | internal/server/command.go:20-211 | Whatever goes along events of the protocol makes any run so far a longer run, so every theorem about runs covers it |
| `CommandServer.Link.SaveAndEnqueue` | internal/server/command.go:48-84 | The row is saved once, with session, type, time and status; the command is queued if and only if fewer than 32 are, and marked Failed otherwise; other sessions' rows stay |
| `CommandServer.Link.TryEnqueue` | internal/server/command.go:72-84 | The non-blocking enqueue appends to the queue or marks the row Failed, and nothing else |
| `CommandServer.Link.Deliver` | internal/server/command.go:113-140 | One round of the consumer takes the oldest command; sent, it is on the stream, marked Sent and watched; not sent, it is Failed |
| `CommandServer.Link.CommandConsumer` | internal/server/command.go:104-142 | The consumer's whole life, with commands arriving while it works and while it waits on an empty queue: the fold of arrivals and rounds in queue order, and then gone |
| `CommandServer.Link.HandleCommandResult` | internal/server/command.go:193-211 | The next result on the stream is taken off it and overwrites status and columns of its command's row, whatever they were, and of no other row |
| `CommandServer.Link.WatchCommandTimeout` | internal/server/command.go:147-154 | A watcher fires once and writes only an unfinished row of its command: every other row, and a row at Completed, Failed or Timeout, is left as it was, result columns included |
| `CommandServer.SendIsPath` | internal/server/command.go:48-97 | With a fresh id, an uninterrupted SendCommand is exactly three or four steps of the protocol's step system |
| `CommandServer.ConsumerIsPath` | internal/server/command.go:104-142 | The consumer's loop is exactly its rounds of four or three protocol steps, the enqueues of the calls between them, and its exit |
| `CommandServer.ReopenIsPath` | internal/server/server.go:101-177 | A stream that breaks, the end of its Channel and the opening of another are steps of the protocol that leave rows, calls, queue and watchers alone and start with a fresh stream |
| `CommandServer.PathKeepsInv` | internal/server/command.go:20-211 | Whatever is a path of protocol steps keeps the protocol's invariant |
| `CommandServer.Server.UnusedIsFresh` | internal/server/command.go:49-54 | An id with no row and no call in flight is fresh for the whole system |
| `CommandLog.CommandStore.SaveCommandLog` | internal/server/store/command.go:15-35 | A row is inserted with the type's name and status Pending unless its command id is taken; no other session's rows change |
| `CommandLog.CommandStore.UpdateCommandStatus` | internal/server/store/command.go:68-75 | Overwrites the status of the command's row, whatever it was, and no other column and no other row |
| `CommandLog.CommandStore.UpdateCommandResult` | internal/server/store/command.go:38-65 | Overwrites status and result of the command's row, whatever they were, and no other column and no other row |
| `CommandLog.CommandStore.MarkCommandTimeout` | internal/server/store/command.go:80-92 | A row of this command at Pending, Sent or Executing becomes Timeout with the error text and the finish time and keeps its exit code, outputs and start; every other row is left exactly as it was |
| `CommandLog.CommandStore.GetCommandLog` | internal/server/store/command.go:95-159 | The newest rows that pass the filter, up to the limit, joined to their device, their type parsed back; refused if and only if both a device and a session are given and the device id does not read as an integer, because the arguments are then bound to the wrong placeholders; if it does, the answer is that many rows of the device spelled like the session |
| `CommandLog.Limit` | internal/server/command.go:159-162 | A limit between 1 and 200 is kept and any other becomes 50 |
| `CommandLog.TypeRoundTrip` | internal/server/store/command.go:164-177 | A command type survives the type column if and only if it has a name; any other is read back as unspecified |
| `CommandLog.TypeNamesDiffer` | internal/server/store/command.go:164-169 | The type column tells any two types of the open enumeration apart, named or not |
| `CommandLog.NamesRead` | internal/server/store/command.go:172-177 | The eight names of the wire format read back as their numbers |
| `CommandJoin.JoinRecoversDevice` | internal/server/store/command.go:95-159 | Over any history of registrations, commands, status updates, results and timeouts, the table has exactly one row for each saved command, the row has session, type, time, status and result as that command's own history gives them, and the join finds the device it was saved for |
| `CommandJoin.HitsAreSaved` | internal/server/store/command.go:95-130 | The rows the filter selects, by device, by session or none, are exactly those of the commands saved for it |
| `CommandJoin.LogExact` | internal/server/store/command.go:95-159 | The log of a device, of a session or of everything: min(limit, count) of the commands saved for it, each once, the newest first, none left out that is newer than one listed, and each with its device, session, type if named, time, status and result |
| `CommandJoin.LookupBelongs` | internal/server/command.go:31-57 | The session SendCommand looks up belongs to the device it was asked for |
| `CommandJoin.BelongsStays` | internal/server/store/terminal.go:14-43 | A session found for a device stays that device's session, whatever happens between the lookup and the insert |
| `Registry.ConnectionManager.constructor` | internal/server/connection.go:53-58 | An empty registry without a limit |
| `Registry.ConnectionManager.SetMaxConns` | internal/server/connection.go:60-64 | Sets the limit |
| `Registry.ConnectionManager.Add` | internal/server/connection.go:67-73 | Registers a session with an open disconnect channel, replacing an entry with the same id |
| `Registry.ConnectionManager.Remove` | internal/server/connection.go:76-80 | Deletes one entry |
| `Registry.ConnectionManager.IsFull` | internal/server/connection.go:97-101 | Full if and only if there is a limit and the number of sessions has reached it |
| `Registry.ConnectionManager.Kick` | internal/server/connection.go:105-118 | Closes the channel of an online session that exists, never a closed channel, and touches nothing else |
| `Registry.ConnectionManager.RecordHeartbeat` | internal/server/connection.go:122-131 | Marks one known session online at the given time |
| `Registry.ConnectionManager.MarkOffline` | internal/server/connection.go:134-142 | Marks one known session offline |
| `Registry.ConnectionManager.SetStream` | internal/server/connection.go:145-155 | A known session gets its stream, goes online and counts as just heard from |
| `Registry.ConnectionManager.ClearStream` | internal/server/connection.go:170-179 | A known session loses its stream and goes offline |
| `Registry.ConnectionManager.Sweep` | internal/server/connection.go:185-201 | Exactly the online sessions silent for longer than the timeout are reported, and they go offline with nothing else of them changed; every other session stays as it was |
| `Registry.ConnectionManager.KickDeviceSessions` | internal/server/server.go:336-353 | Closes the channels of exactly the device's online sessions, none of them twice, and changes nothing else |
| `Presence.ChannelKeepsPresence` | internal/server/server.go:95-183 | Every step of a Channel handler keeps what registry and table owe each other about a session, whatever the clock does |
| `Presence.OthersKeepPresence` | internal/server/connection.go:105-201 | Every other step keeps it too, as long as no heartbeat handler has outlasted the heartbeat timeout |
| `PresenceExact.AgreesExact` | internal/server/server.go:95-183 | Over every run: whenever nobody is between two writes for a session the table shows it online only if the registry does, if and only if no heartbeat's second write is overtaken by a sweep that has dropped the session and stored the drop |
| `PresenceExact.AgreesFromEvents` | internal/server/connection.go:122-201 | The same from the events alone: the copies agree in every quiet state if and only if no sweep stores its drop of the session between the two writes of one of its heartbeats |
| `PresenceExact.DropFallsInside` | internal/server/connection.go:185-201 | For such a sweep both writes, to the registry and to the table, fall between the heartbeat's two |
| `PresenceExact.SweptSinceBeat` | internal/server/server.go:179-183 | Between a heartbeat's writes the session is offline and not being dropped if and only if a sweep has stored its drop since the first |
| `PresenceExact.ClosedIsOffline` | internal/server/server.go:101-112 | At any speed of the handlers, a session without an open Channel is offline in both copies |
| `PresenceExact.TimelyIsNeverOvertaken` | internal/server/server.go:179-183 | A heartbeat handler quicker than the heartbeat timeout is never overtaken |
| `PresenceExact.PresenceAgrees` | internal/server/server.go:95-183 | With timely heartbeat handlers the copies agree in every reachable state where nobody is between the two writes |
| `PresenceExact.HeartbeatRaceExact` | internal/server/server.go:179-183 | Right after a heartbeat's second write the table says online, and the registry agrees if and only if no sweep dropped the session since the first write |
| `PresenceExact.OnlineExact` | internal/server/connection.go:120-201 | In every state of every run a session is online in the registry if and only if its Channel was opened or a heartbeat recorded and neither its leaving nor a sweep has taken it offline since |
| `PresenceExact.StoredExact` | internal/server/store/terminal.go:46-63 | It is online in the table if and only if a heartbeat was stored for it, its row being there, and neither the end of its Channel nor a sweep's drop has been stored since |
| `PresenceRuns.BlockTakesEffect` | internal/server/store/terminal.go:183-189 | Blocking makes a device blocked if and only if a session of it is stored |
| `PresenceRuns.BlockHolds` | internal/server/server.go:319-334 | From the blocking of a device with a stored row until its unblocking it is blocked in every state of every run |
| `PresenceRuns.BlockedExact` | internal/server/store/terminal.go:181-209 | In every state of every run a device is blocked if and only if BlockTerminal was called for that device while it had a row and UnblockTerminal has not been called for it since; nothing done to another device, no registration and no heartbeat changes that |
| `PresenceRuns.LateAddWasChecked` | internal/server/server.go:41-65 | A session added for a blocked device belongs to a Register call that was past its own blocklist check, and not yet added, in the very state in which the device was blocked |
| `PresenceRuns.CapacityOvershoot` | internal/server/server.go:35-65 | With at most c Register calls in flight, sessions plus registrations past the check never exceed the limit plus c - 1 |
| `PresenceRuns.SessionsAreRegistrations` | internal/server/connection.go:67-80 | The registry only grows: its size is the number of registrations accepted in the whole run |
| `PresenceRuns.RegistrationsAreBounded` | internal/server/connection.go:67-101 | The same bound holds for all registrations accepted in the whole run: disconnecting frees no capacity |
| `PresenceRuns.ClosedOnce` | internal/server/connection.go:105-118 | Over any interleaving of kicks and blocks each session's channel is closed at most once and stays closed |
| `PresenceRuns.ClosesExact` | internal/server/server.go:336-353 | In any run, a step closes a session's channel if and only if it kicks that session or its device while the session is online and its channel open: blocking closes exactly the device's online sessions |
| `PresenceRuns.DisconnectedForever` | internal/server/connection.go:105-118 | A closed channel stays closed |
| `PresenceExamples.SlowHandlerSplitsPresence` | internal/server/server.go:179-183 | For every heartbeat timeout, a run in which a handler slower than it by one tick leaves a session online in the table and offline in the registry |
| `PresenceExamples.CapacityBoundIsReached` | internal/server/server.go:35-65 | For every limit and every c some run reaches limit + c - 1 sessions: the bound is exact |
| `PresenceServer.Service.Register` | internal/server/server.go:35-88 | Full if and only if there is a limit and it is reached; blocked only if some row of the device is, welcome only if none is; a refusal changes nothing, a welcome adds an offline session to the registry and its row to the table |
| `PresenceServer.Service.HandleHeartbeat` | internal/server/server.go:179-183 | Both copies of the presence are written |
| `PresenceServer.Service.HeartbeatTick` | cmd/server/main.go:58-63 | One tick of the checker with its callback: exactly the expired sessions go offline in the registry and then in the table, each once |
| `PresenceServer.Service.ReceiveLoop` | internal/server/server.go:142-171 | The loop is the fold of what its select sees, heartbeats, other messages, kicks that arrive and the taking of the disconnect channel, up to the first taking of a closed one |
| `PresenceServer.Service.Channel` | internal/server/server.go:95-177 | Not found if and only if the session is unknown; otherwise the fold of opening, loop and leaving over both copies, denied if and only if the loop has taken the closed disconnect channel |
| `PresenceServer.DeniedExact` | internal/server/server.go:143-147 | A Channel is denied if and only if its select takes the disconnect channel after it was closed, before the Channel or by a kick that arrives while it runs |
| `PresenceServer.ServedExact` | internal/server/server.go:142-171 | The loop serves what it sees up to and including the first taking of a closed disconnect channel, and everything if there is none |
| `PresenceServer.LoopKeepsMem` | internal/server/server.go:142-171 | While a Channel runs only its own session changes in the registry, stays online with its last heartbeat, and is disconnected from the first kick on |
| `PresenceServer.ChannelLeavesOffline` | internal/server/server.go:107-112 | When a Channel returns its session is offline in both copies, with the time of its last heartbeat in both and its channel closed if a kick came, and nothing else has changed in either |
| `PresenceServer.Service.DisconnectTerminal` | internal/server/server.go:309-317 | Answers whether the session is online, and is the kick step of the step system if so and nothing otherwise |
| `PresenceServer.Service.BlockTerminal` | internal/server/server.go:319-326 | The device's rows are blocked and its online sessions kicked; no row of another device changes, and no other device becomes blocked or unblocked |
| `PresenceServer.Service.UnblockTerminal` | internal/server/server.go:328-334 | The device is not blocked afterwards; it is the unblock step of the step system |
| `PresenceServer.RegisterIsPath` | internal/server/server.go:35-88 | An uninterrupted Register call is exactly the steps of the step system that its answer stands for |
| `PresenceServer.HeartbeatIsPath` | internal/server/server.go:179-183 | An uninterrupted heartbeat handler is its two steps |
| `PresenceServer.BlockIsPath` | internal/server/server.go:319-353 | An uninterrupted BlockTerminal is its two steps |
| `PresencePaths.SweepIsPath` | internal/server/connection.go:185-201 | An uninterrupted pass of the sweep, in whatever order it comes to the sessions, is its drop and store steps for exactly the expired sessions |
| `PresencePaths.ChannelIsPath` | internal/server/server.go:95-177 | A Channel into which only the clock and its own kicks come is exactly its steps in the step system, from opening to leaving |
| `Terminals.TerminalStore.UpsertTerminal` | internal/server/store/terminal.go:14-43 | A conflict keeps first_seen_at, last_heartbeat, online and blocked; a new row starts offline, unblocked and without a heartbeat; no other row changes |
| `Terminals.TerminalStore.UpdateHeartbeat` | internal/server/store/terminal.go:46-53 | Marks one row online at the given time; no other column and no other row changes |
| `Terminals.TerminalStore.MarkOffline` | internal/server/store/terminal.go:56-63 | Marks one row offline; no other column and no other row changes |
| `Terminals.TerminalStore.MarkBlocked` | internal/server/store/terminal.go:183-189 | Blocks exactly the device's rows and leaves those of other devices as they were; the device is then blocked if and only if it had one, and every other device is if and only if it was |
| `Terminals.TerminalStore.UnblockTerminal` | internal/server/store/terminal.go:192-199 | Unblocks exactly the device's rows; every other device is blocked if and only if it was |
| `Terminals.TerminalStore.IsDeviceBlocked` | internal/server/store/terminal.go:202-209 | Blocked if and only if some row of the device is |
| `Terminals.WriteExact` | internal/server/store/terminal.go:14-63 | What any write makes of any column of any row: each column has its own writers, and they write no other device's or session's rows |
| `Terminals.OthersStayAsBlocked` | internal/server/store/terminal.go:183-199 | Blocking or unblocking a device changes neither the rows of other devices nor whether they are blocked |
| `Terminals.TerminalStore.GetTerminalByDevice` | internal/server/store/terminal.go:76-83 | Nothing if and only if the device has no row; otherwise the device's most recently seen session |
| `Terminals.TerminalStore.ListTerminals` | internal/server/store/terminal.go:103-178 | The rows of one slice of the listing, and the length of the whole listing |
| `Terminals.TerminalStore.ListPage` | internal/server/server.go:221-256 | The rows of one page, pages counted from one, and the length of the whole listing |
| `Terminals.PagesPartition` | internal/server/store/terminal.go:103-178 | For every table, filter and page size, pages 1 to ceil(total/size) one after the other are the listing, and a page is empty if and only if it comes after them |
| `Terminals.ListingExact` | internal/server/store/terminal.go:103-178 | The listing holds the latest session of each device if it passes the filter and nothing else, no device twice, the most recently seen first |
| `Terminals.LatestUnique` | internal/server/store/terminal.go:76-83 | The latest session of a device is unique and is the one the device lookup gives |
| `Ranking.RankedExact` | internal/server/store/terminal.go:103-178 | An ordered query lists exactly the rows selected, each once, the greatest key first |
| `Ranking.RankedUnique` | internal/server/store/terminal.go:103-178 | With ties settled a query has one answer |
| `ArrayCodec.MarshalJSONArray` | internal/server/store/store.go:186-211 | The printer's loops compute the recursive printing function |
| `ArrayCodec.LowByte` | internal/server/store/store.go:202-206 | The printer keeps the low byte of each code point |
| `ArrayCodec.SplitJSON` | internal/server/store/hardware.go:339-355 | The splitting loop computes the one-pass scan over quotes that no backslash precedes |
| `ArrayCodec.UnescapeJSON` | internal/server/store/hardware.go:358-372 | The unescaping loop computes the recursive function |
| `ArrayCodec.ParseJSONStringArray` | internal/server/store/hardware.go:319-336 | The parser computes the composition of splitting and unescaping |
| `ArrayCodec.UnescapeEscape` | internal/server/store/hardware.go:358-372 | Unescaping undoes escaping for every ASCII string |
| `ArrayCodec.CountParts` | internal/server/store/hardware.go:339-355 | How many parts a printed list falls into, from inside or outside a part |
| `ArrayCodec.ArrayCodecExact` | internal/server/store/hardware.go:319-372 | Of n ASCII strings of which k end in a backslash, n - ceil(k/2) come back, and they are the strings that went in if and only if k is zero |
| `JsonReader.PrintsJsonExact` | internal/server/store/store.go:186-211 | The printer is right where the parser is not: a reader of the RFC 8259 grammar gets back exactly the ASCII strings that were printed, backslashes at their ends included, if and only if none holds a control character |
| `HardwareStore.Store.SaveHardwareReport` | internal/server/store/hardware.go:16-110 | One report becomes one main row and its sub-rows, each column as reported: sizes modulo 2^64, zeros for an absent CPU or memory; a replayed id and an absent payload change no table; ids stay unique and no sub-row is orphaned |
| `HardwareStore.Store.GetLatestHardware` | internal/server/store/hardware.go:114-161 | Rebuilds the device's newest report from the five tables, or gives nothing |
| `HardwareStore.Store.LoadDisks` | internal/server/store/hardware.go:250-272 | The report's disks in insertion order, sizes cast back to uint64 |
| `HardwareStore.Store.LoadNets` | internal/server/store/hardware.go:274-294 | The report's networks in insertion order, addresses parsed back |
| `HardwareStore.CastsRoundTrip` | internal/server/store/hardware.go:50-110 | A uint64 survives the int64 column |
| `HardwareStore.SavedKeepsIntegrity` | internal/server/store/hardware.go:16-110 | Every save keeps report ids unique and sub-rows attached |
| `HardwareHistory.LoadGivesFirst` | internal/server/store/hardware.go:114-314 | After any saves with repeated ids, loading an id rebuilds the first payload saved under it |
| `HardwareHistory.PartsComeBack` | internal/server/store/hardware.go:114-314 | Part by part and whatever the addresses, loading gives back the CPU, or a zero record for an absent one, total, available and used memory, or zeros, the disks, BIOS and board of the first payload saved under the id, and its interfaces but perhaps for their addresses |
| `HardwareHistory.RoundTripExact` | internal/server/store/hardware.go:114-314 | That payload comes back whole, absent CPU and memory as zero records, if and only if none of its addresses ends in a backslash; with both present it comes back exactly as it was saved if and only if so |
| `HardwareHistory.ReplaysAreIgnored` | internal/server/store/hardware.go:16-60 | The tables after any history are those after its first saves alone |
| `HardwareHistory.LatestHardwareIsNewest` | internal/server/store/hardware.go:114-161 | The newest of a device's first saves is what it gets, and nothing if and only if it has none |
| `Executor.Client.DispatchCommand` | internal/client/executor.go:19-56 | The results one command causes, status, exit code and texts, on every handler path and for a panic anywhere in it; the report it may send; the flags it raises |
| `Executor.Client.HandleCollectNow` | internal/client/executor.go:60-98 | Failed if nothing was collected or a changed report could not be sent, Completed otherwise; the report cache is used as the report loop uses it |
| `Executor.Client.HandleRunScript` | internal/client/executor.go:102-166 | The final answer in full, as `RunAnswer` ensures: Completed if and only if there is a script and it ends with int32 exit code zero, its output kept, an error output only for a failure |
| `Executor.Client.HandleRestart` | internal/client/executor.go:170-193 | Completed, then restart requested and session cancelled, unless it panics first |
| `Executor.Client.HandleShutdown` | internal/client/executor.go:197-219 | Completed, then shutdown requested and session cancelled, unless it panics first |
| `Executor.Client.SendCommandResult` | internal/client/executor.go:223-247 | One result is handed to the stream, sent or lost |
| `Executor.RunAnswer` | internal/client/executor.go:102-166 | Completed if and only if there is a script and the process ended without error or with int32 exit code zero; Completed if and only if the exit code sent is zero; output kept; a failed script's own exit code and error output |
| `Executor.CollectedIsSent` | internal/client/executor.go:60-98 | A collect-now command that runs to its answer says Completed if and only if the report cache then stands for the snapshot it collected, and sends that snapshot if and only if the cache stood for another; no other command sends a report |
| `Executor.PanicIsFailed` | internal/client/executor.go:27-38 | The last word on a command is its handler's own answer, or Failed after a panic anywhere; the first is Executing unless the panic came before; all carry its id |
| `Executor.Client.RecvLoop` | internal/client/client.go:268-297 | The results of a session are the blocks of the commands served, in receive order; nothing is served once a handler has ended the session or the process is cancelled |
| `Executor.Client.Connect` | internal/client/client.go:145-235 | From the session alone: fatal if and only if the server refuses the device or, with nothing else ending the session, denies the stream; an exit if and only if a Shutdown runs through; clean if and only if a Restart runs through or, with nothing else, the server closes the stream; any other end is a failure |
| `Executor.Client.Run` | internal/client/client.go:98-141 | No wait before the first session and after a clean end, and otherwise one step more than the last; no session follows a fatal end, a Shutdown that ran through or the cancelling of the process, and one follows everything else |
| `Executor.SessionEndExact` | internal/client/client.go:145-235 | What a session's outcome is, from its first message that is not harmless and its end |
| `Executor.WaitsCountFailures` | internal/client/client.go:98-141 | Each wait is the number of sessions that have failed since the last clean end |
| `Executor.TraceExact` | internal/client/executor.go:19-219 | The results of a session are one Executing and one verdict for each command served, in order and with its id, if and only if no handler panics before its Executing or after its own verdict |
| `Executor.ServedUpToStop` | internal/client/client.go:268-297 | The commands served are those received up to and including the first Restart or Shutdown that runs through, or up to the cancelling of the process |
| `Executor.BlockIsTwoSteps` | internal/client/executor.go:19-56 | Serving a command puts on the stream exactly what the client's two steps of the command protocol put there |
| `ReportDedup.ReportCache.IsChanged` | internal/client/collector/cache.go:22-32 | Changed if nothing was sent yet or the hash differs |
| `ReportDedup.ReportCache.MarkSent` | internal/client/collector/cache.go:36-40 | With a collision-free hash, exactly the snapshot marked is unchanged afterwards |
| `ReportDedup.ReportLoop` | internal/client/report.go:16-57 | The loop's sends and final cache over any ticks; it ends early only on a failed send |
| `ReportDedup.DedupExact` | internal/client/report.go:22-55 | The reports that get through are the snapshots collected when a send would succeed, with adjacent repeats removed |
| `ReportDedup.AttemptsExact` | internal/client/report.go:22-55 | A snapshot is handed to the stream, whether or not the send gets through, if and only if it differs from the last sendable one |
| `ReportDedup.ConsecutiveReportsDiffer` | internal/client/collector/cache.go:22-40 | No two consecutive reports that get through are equal, and the cache holds the last of them |
| `ReportDedup.AcrossReconnects` | internal/client/report.go:16-57 | Loops and collect-now commands that follow one another on one cache act as one loop |
| `EventStream.Hub.Poll` | cmd/admin/gateway.go:200-244 | A failed poll changes nothing, a seeding poll only the baseline; otherwise each session in both snapshots with different statuses gets one event, and no other session gets any |
| `EventStream.Hub.PollLoop` | cmd/admin/gateway.go:183-198 | Over any responses, each session's events are those of its successive observations |
| `EventStream.ListenerExact` | cmd/admin/gateway.go:217-237 | Whatever server answers the polls: replaying a session's events over its first status is right after every poll that sees it if and only if it never leaves the snapshots and returns with the other status |
| `EventStream.StreamIsFaithful` | cmd/admin/gateway.go:183-244 | Whatever server answers the polls: for a session in every successful snapshot since first seen, events strictly alternate and replaying them is right after every poll |
| `EventStream.EventsAlternate` | cmd/admin/gateway.go:217-237 | Events strictly alternate, beginning with the opposite of the first status, unless the session returns changed |
| `EventHistory.OnPageExact` | internal/server/store/terminal.go:103-178 | A session is on the first page if and only if it is its device's latest and fewer devices than the page size have a session before it |
| `EventHistory.OffPageStays` | internal/server/store/terminal.go:14-63 | No write to the table puts a stored session on the page: only its own registration can |
| `EventHistory.PollStore` | cmd/admin/gateway.go:200-244 | One poll with the store behind it: each session gets the event for its stored status if it is on the first page of 50, and none otherwise |
| `EventHistory.EveryListenerIsRight` | cmd/admin/gateway.go:183-244 | Over every history of writes and polls, for every session and without a condition: it never comes back to the page, replaying its events is right after every poll that sees it, and they strictly alternate |
| `EventHistory.ListenerHolds` | cmd/admin/gateway.go:217-237 | A listener holds the status the session had when a poll last had it on its page, whatever has happened since |
| `EventHistory.StaleExact` | cmd/admin/gateway.go:200-237 | After a poll a listener holds a session's stored status if and only if the session is on the page or has the status it had when a poll last had it there |
| `EventHistory.FrozenOffPage` | internal/server/store/terminal.go:103-178 | A session off the page stays off it, and what its listeners hold is frozen |
| `EventHistory.ReconnectIsNotTold` | internal/client/client.go:145-191 | After any history: a session on the page at a poll whose device has a more recent session before the next successful one, whatever else is written in between, keeps for its listeners the status of that poll forever; so no reconnect between two polls is ever told |
| `EventHistory.StaleAfterReconnect` | cmd/admin/gateway.go:217-237 | A concrete history that ends so: registered, online, polled, dropped, registered again, polled |
| `FormatBytes.Format` | cmd/admin/output.go:286-297 | For every uint64 from 1024 on the unit is the largest of K, M, G, T, P, E, as 2^10 to 2^60, that the count reaches; div never overflows and the unit index is in range |
| `FormatBytes.FitIsUnique` | cmd/admin/output.go:286-297 | No other unit fits the count |

## Left out

- SaveCommandLog: the params column is left out; the map codec of command parameters (internal/server/store/command.go:180-248) is not an inverse pair, and no log property mentions it.
- GetCommandLog: the params of the entries are left out with that column.
- Text outside ASCII: marshalJSONArray keeps the low byte of each rune; the codec and hardware theorems are about ASCII strings.
- SaveHardwareReport: timestamps are integers rather than formatted text, and report types other than hardware are one absent payload.
- ListHardwareReports, GetTerminal and GetTerminalHistory: further queries over the same tables, with the same loaders.
- UpsertTerminal: the descriptive columns are one text value.
- SendCommand: parameters and the requested timeout are not part of the command; a watcher may fire at any time after it is started.
- Server: how a session gets its Link when it registers, and the opening and closing of the consumer by the Channel handler, are steps of the protocol only.
- CommandConsumer: between its rounds other goroutines enqueue; their writes to the rows in the meantime are steps of the protocol only.
- ReceiveLoop: a sweep that takes the session offline while the loop runs is a step of the step system only.
- Channel: what reports and results do to the other tables is not part of this method; the message buffer between Recv and the loop is part of the stream.
- DispatchCommand: a panic is placed before the Executing result, at the start of the handler, or just before or after its final send; one between a report and its cache mark is not modelled. Start and finish times are left out, and error texts end where the code quotes a Go error or a panic value.
- Connect: the heartbeat and report goroutines of a session are not part of it.
- Run: the delay computed from the attempt number has floating-point jitter; the attempt number stands for it. The process exit inside handleShutdown is the end of the loop.
- Sequence numbers of messages: heartbeats, reports and results draw them concurrently, and nothing reads them.
- Poll: host names and time stamps of events, and the removal of broken WebSocket connections.
- Format: the rounded quotient that is printed; the text has its exact numerator and denominator.
- File transfer, the gRPC and Connect transports, the web interface, command-line printing other than formatBytes, operating-system collection, process execution, SQLite and SHA-256 themselves.
- A server restarted over an old database: rows then have no queue, no watcher and no registry entry.
