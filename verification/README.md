# WaterHose, verified

WaterHose reads Twitch chat with one master and many slaves. The master places every requested
channel on an *edge*, one edge per slave, and keeps the placement in a database. A slave holds one
session with the master, spreads its channels over IRC connections, and moves a channel to an
anonymous connection when the bot is banned there. Joins go through a priority queue in the master
and a shared counter in Redis. This project models those parts and proves what they keep.

To verify: `dafny verify dfyconfig.toml`.

## How the files fit together

| part | values and their theorems | objects updated in place |
|---|---|---|
| placement of channels | `Allocation`, `Batching`, `Publication`, `MasterRuns`, `Capacity` | `AutoScaler`, `Twitch` |
| master to slave delivery | `Delivery` | `MasterServer` |
| slave connections | `SlaveState`, `SlaveRuns`, `SlaveEntries`, `SlaveLaws`, `SlaveLengths`, `JoinRace`, `JoinRaceWitness`, `JoinRaceAlone` | `SlaveManager` |
| join queue | `JoinQueue` | `JoinQueue.RateLimiter` |
| Redis limiters | second half of `RedisLimiter` | `RedisLimiter.Server` |
| IRC lines | `IrcTags`, `IrcTagEnds`, `IrcMessage` | the parser loops are methods there |

The theorems are about runs of steps on values. The objects run the source's loops and branches, and
their contracts tie them to those steps:

- `AutoScaler.Memory` is the allocator's memory with the database, a `MasterRuns.Master`. A `Fetch`
  that completes is `Apply` of `Allocated`, a `Load` into fresh memory is `Apply` of `Restarted`, and
  a `Fetch` that dies while saving leaves the database of `Crashed` (`AutoScaler.CrashIsDeathThenLoad`
  says that the load that follows completes the event). A report is `Apply` of `Reported`, followed
  by `Allocated` for an unknown channel.
- Every method of `SlaveSession` computes `Delivery.SessionDo`, or `Delivery.Receive` for a delivered
  publication.
- The public operations of `SlaveManager.Manager` (join, message, goroutine, sweep, connect) compute
  `SlaveState.Do`, one step each.
- The methods of `RateLimiter` compute `JoinQueue.Do` of the event they are named after.
- `RedisLimiter.Server` and `RateLimit` are one undisturbed call; the interleaved calls are a state
  machine of their own.

What each step does is stated apart from the step functions, by lemmas whose names end in `Law` and
their neighbours in the tables below, so that a step function and the method that computes it cannot
both be wrong in the same way.

`Multiples` holds two facts of arithmetic.

The central results:

- The allocator's moving cursor is naive first-fit (`AutoScaler.StepIsPlace`,
  `AutoScaler.AutoScaler.PlaceUsers`, `Allocation.PlaceIsFirstFit`).
- Restarts and crashes in the middle of saving a batch are invisible to the placement, ids never
  move, grouping requests into batches does not matter, and the number of edges is optimal
  (`MasterRuns.RestartIsInvisible`, `MasterRuns.IdsNeverMove`, `Batching.BatchingDoesNotMatter`,
  `Capacity.EdgeCountIsOptimal`).
- Subscribing before the snapshot loses no channel in any interleaving, every schedule of what is on
  its way ends with each session sent exactly its edge, and no id is ever sent to two slaves
  (`Delivery.NoChannelIsLost`, `Delivery.DeliveryCompletes`, `Delivery.OneSlavePerId`).
- On a slave, entries, seats, limit and length counter are related by an exact chain, although the
  counter is not the number of entries; when the two agree is stated exactly
  (`SlaveRuns.AccountingChain`, `SlaveLengths.LengthIsEntriesExactly`, `SlaveLengths.LengthCanDiffer`).
  With `k` joins at a time a connection gets at most `limit + k - 1` channels, and that many for some
  run, for every `limit` and `k` (`JoinRace.OvershootIsBounded`,
  `JoinRaceWitness.OvershootIsReached`).
- Each way a walk over a tag block can end has an exact condition on the text
  (`IrcTags.TerminatedExactly`, `IrcTags.IndexPastTheEndExactly`, `IrcTagEnds.InvalidExactly`,
  `IrcTagEnds.CutShortExactly`), and the line parser goes out of range on exactly the lines that
  `IrcMessage.PanicsExactly` lists.

## Assumptions

- Both channel limits are at least 1. With a limit of 0 the placement loop never ends for a new
  channel, and a slave opens a connection per join.
- The database is a map from Twitch id to record; loaded documents have distinct ids and edge
  numbers that are not negative, and a load into a memory that already knows a channel finds it
  under the same edge. A failed bulk write has applied some prefix of its operations.
- The user lookup answers position by position: a known id with its login, anything else with an
  empty id.
- A channel id has one login and no two ids share one (`SlaveRuns.OneToOne`). It is needed only for
  theorems about a slave's runs.
- The event emitter delivers a publication to every listener that is present at that moment.
- Ticks of the join queue are at least some `gap` apart; the theorem holds for every `gap`.

## Where the code differs from what is said about it

- `docs/IRC.md:34` speaks of 20 seconds until an unanswered join counts as failed; the sweep waits
  20 minutes (`internal/modes/slave/manager/connection.go:101`). The model follows the code.
- The comment at `internal/modes/slave/manager/manager.go:17` calls connection 0 of a manager the
  anonymous one. The code keeps two separate pools, and so does the model.
- The sweep drops an entry without decrementing the length counter
  (`internal/modes/slave/manager/connection.go:117`), so the counter is the number of seated ids plus
  the joins that restored such an entry.
- A line that starts with PONG is typed PING (`internal/modes/slave/irc/irc.go:92-97`).
- A semicolon in a tag block advances the index twice (`internal/modes/slave/irc/irc.go:173-187`):
  the first character of the next key is not inspected, and a block that ends in a semicolon returns
  an index one past the end, on which the caller's slice fails.
- A known command without parameters makes the line parser index out of range
  (`internal/modes/slave/irc/irc.go:139`). RECONNECT comes without parameters, so the handling of it
  at `internal/modes/slave/irc/client.go:184` is not reached for it (`IrcMessage.ReconnectPanics`).

## Model

| member | source | states |
|---|---|---|
| `AutoScaler.AutoScaler.Fetch` | internal/svc/autoscaler/autoscaler.go:43-181 | one call of the batch function, wherever the cursor was, takes memory and database through the event `Allocated` when it completes, publishes exactly the records placed and leaves as many replicas as edges; when the process dies the database is what a crash in the middle of saving leaves, and nothing was published; it completes if one write and one rescale attempt succeed |
| `AutoScaler.AutoScaler.Deduplicate` | internal/svc/autoscaler/autoscaler.go:49-57 | the filtered ids are the first occurrences, the request kept for an id is its last |
| `AutoScaler.AutoScaler.PlaceUsers` | internal/svc/autoscaler/autoscaler.go:72-141 | the nested labelled loops end for every list of users and place it as first-fit does; what is handed on for saving and publishing is what was placed |
| `AutoScaler.AutoScaler.PlaceFromCursor` | internal/svc/autoscaler/autoscaler.go:79-132 | from any cursor below which all edges are full, the inner loop stores the user where first-fit would, or finds every edge full; a known user never moves the cursor to the end |
| `AutoScaler.StepIsPlace` | internal/svc/autoscaler/autoscaler.go:79-128 | storing at the cursor, or at the preset edge, is storing at the least-numbered edge with room; the edges below the cursor stay full |
| `AutoScaler.CursorIsFirstFit` | internal/svc/autoscaler/autoscaler.go:79-139 | with all edges below it full and room at it, the cursor is the first edge with room of the whole list |
| `AutoScaler.AutoScaler.Save` | internal/svc/autoscaler/autoscaler.go:147-166 | completes exactly when one of eleven attempts is answered; whatever the failed attempts applied, the database ends with a prefix of the batch, all of it on completion |
| `AutoScaler.ChannelCollection.BulkWrite` | internal/svc/autoscaler/autoscaler.go:156 | an ordered bulk upsert; a failed one has applied some prefix |
| `AutoScaler.RewritingIsIdempotent` | internal/svc/autoscaler/autoscaler.go:147-166 | writing a prefix of a batch again, or a longer one, leaves what the longer one leaves |
| `AutoScaler.AutoScaler.RescaleUnsafe` | internal/svc/autoscaler/autoscaler.go:275-314 | completion means the replica count is the requested size, one answered attempt of twenty-one suffices, and the count is never anything but the old or the requested one |
| `AutoScaler.AutoScaler.Load` | internal/svc/autoscaler/autoscaler.go:189-249 | a load into fresh memory is the event `Restarted`; any load stores every document under its edge, resets the states in the database, publishes each edge whole and rescales; a failed load leaves memory alone and changes at most states in the database |
| `MasterRuns.LoadResetsStates` | internal/svc/autoscaler/autoscaler.go:191-228 | after a load into fresh memory every document keeps its record with the state unknown, in the database, in the index and on its edge, and nothing else is known |
| `AutoScaler.ChannelCollection.ResetAll` | internal/svc/autoscaler/autoscaler.go:189-195 | every document has its state unknown and is unchanged otherwise; a reset that fails has left some documents as they were |
| `AutoScaler.CrashIsDeathThenLoad` | internal/svc/autoscaler/autoscaler.go:147-249 | what a dying batch saved, loaded into fresh memory, is the event `Crashed` |
| `AutoScaler.AutoScaler.Rebuild` | internal/svc/autoscaler/autoscaler.go:212-229 | edges and index agree again after every document, in any order, with the list of edges grown as needed |
| `AutoScaler.AutoScaler.StoreDocument` | internal/svc/autoscaler/autoscaler.go:213-228 | one document is stored under its edge and index and edges still agree |
| `AutoScaler.AutoScaler.ListAllEdges` | internal/svc/autoscaler/autoscaler.go:239-246 | every edge is published, each with all its records once |
| `AutoScaler.AutoScaler.GetChannelsForSlave` | internal/svc/autoscaler/autoscaler.go:256-273 | nothing for an edge that does not exist, otherwise every record of the edge exactly once |
| `AutoScaler.AppendPublication` | internal/svc/autoscaler/autoscaler.go:104 | appending a record to its edge's list keeps the lists equal to the records placed, per edge and in order |
| `Allocation.FirstFit` | internal/svc/autoscaler/autoscaler.go:79-139 | the least-numbered edge with room, or the number of edges when there is none |
| `Twitch.GetUsers` | internal/svc/twitch/twitch.go:107-134 | whatever order the API answers in, each user stands at the position of its id, and unknown ids, or all ids when the request failed, keep the empty user |
| `Twitch.DirectoryIsTheAnswer` | internal/svc/twitch/twitch.go:121-124 | the map built from an answer knows exactly the users answered, each by a login it was answered with |
| `Publication.PlacedIds` | internal/svc/autoscaler/autoscaler.go:59-76 | of the ids looked up, exactly those that resolve are placed, in their order |
| `Allocation.FirstIdsAreTheIds` | internal/svc/autoscaler/autoscaler.go:49-57 | deduplication keeps every requested id exactly once |
| `Allocation.LastRequestsAreLast` | internal/svc/autoscaler/autoscaler.go:56 | the request kept for an id is the last one that names it |
| `Allocation.BatchIsCovered` | internal/svc/autoscaler/autoscaler.go:95-98 | the request of a resolved user is never missing from the map |
| `Allocation.PlaceIsFirstFit` | internal/svc/autoscaler/autoscaler.go:79-140 | a known channel moves nowhere, grows no edge and adds none; a new one goes to the first edge with room or to one fresh edge, and every other edge is untouched |
| `Allocation.PlaceAllKeepsInvariants` | internal/svc/autoscaler/autoscaler.go:72-141 | an id is in the index exactly when it is on exactly one edge, with the same record, after every batch; the last edge is never empty |
| `Allocation.PlacedIsWhatWasStored` | internal/svc/autoscaler/autoscaler.go:102-128 | memory after a batch is the old memory with the saved records stored in order |
| `Batching.BatchIsStream` | internal/svc/autoscaler/autoscaler.go:49-141 | a batch, duplicates and unresolvable ids included, leaves exactly the book that serving its requests one at a time leaves |
| `Batching.LaterRequestRefreshes` | internal/svc/autoscaler/autoscaler.go:49-57 | a repeated request changes the record's data and nothing about the placement of the others |
| `Batching.BatchingDoesNotMatter` | internal/svc/autoscaler/autoscaler.go:46-181 | any two ways of cutting the same requests into batches leave the same book |
| `Publication.BatchPlacesEachResolvedIdOnce` | internal/svc/autoscaler/autoscaler.go:49-128 | the records of a batch are the distinct resolvable ids in order of first request, each with the data of its last request, and each is the record now in the index |
| `Publication.BatchIsSaved` | internal/svc/autoscaler/autoscaler.go:106-156 | after a batch the database holds each record placed as it is in memory, and every other document as it was |
| `Publication.BatchLeavesOthers` | internal/svc/autoscaler/autoscaler.go:102-103 | a batch changes no record but those it places, neither in the index nor on an edge |
| `Publication.OnEdgeIsASublist` | internal/svc/autoscaler/autoscaler.go:104-178 | the list published for an edge is the sublist, in order, of exactly the records placed on that edge |
| `Publication.PublicationSplitsTheBatch` | internal/svc/autoscaler/autoscaler.go:104-178 | an id that was requested and resolves is on the published list of the edge it now has and on no other; every other id is on none |
| `Publication.ReallocationRepublishes` | internal/modes/master/server/server.go:206-211 | allocating a known channel again on its own publishes it to the edge it has, to no other, and moves nothing |
| `MasterServer.KnownIsRepublished` | internal/modes/master/server/server.go:206-211 | the same however the loader groups the request with others |
| `MasterRuns.LoadEstablishesInv` | internal/svc/autoscaler/autoscaler.go:212-229 | loading any documents, in any order, makes index, edges and database agree with no empty edge at the end |
| `MasterRuns.ReloadRebuilds` | internal/svc/autoscaler/autoscaler.go:212-229 | loading what was saved rebuilds the same ids on the same edges and the same number of edges |
| `MasterRuns.IndexDeterminesPlacement` | internal/svc/autoscaler/autoscaler.go:213-228 | the records' edge numbers alone determine the placement, because the last edge is never empty |
| `MasterRuns.SavedPartIsSound` | internal/svc/autoscaler/autoscaler.go:147-166 | whatever prefix of a batch reached the database is itself a consistent placement |
| `MasterRuns.BatchSamePlacement` | internal/svc/autoscaler/autoscaler.go:73-141 | from two memories placed alike the same batch writes the same records and leaves them placed alike |
| `MasterRuns.RestartIsInvisible` | internal/svc/autoscaler/autoscaler.go:73-166 | after any run of batches, reports, restarts and crashes in mid-save the placement and edge count are those of an allocator that never lost its memory |
| `MasterRuns.IdsNeverMove` | internal/svc/autoscaler/autoscaler.go:84-104 | an id that has an edge keeps it for the rest of any run |
| `MasterRuns.ReportsTouchOnlyStatus` | internal/modes/master/server/server.go:138-205 | any run of reports changes nothing but states and ban flags, and only of the channels it names; what a later load reads about the placement is untouched |
| `MasterRuns.ReportLaw` | internal/modes/master/server/server.go:138-205 | which state and ban flag each kind of report writes, into the record it names and no other |
| `Capacity.TotalIsIndexSize` | internal/svc/autoscaler/autoscaler.go:102-103 | the sizes of the edges add up to the number of known channels |
| `Capacity.RunsGrowWithinLimits` | internal/svc/autoscaler/autoscaler.go:91-140 | no edge outgrows the limit unless it was loaded larger, and edges are added only when all others are full |
| `Capacity.EdgeCountIsBounded` | internal/svc/autoscaler/autoscaler.go:91-140 | a run ends with no more edges than it began with or than its channels need |
| `Capacity.EdgeCountIsOptimal` | internal/svc/autoscaler/autoscaler.go:91-140 | from an empty database every run has exactly the least number of edges that holds its channels |
| `Delivery.BatchAddsWhatItPublishes` | internal/svc/autoscaler/autoscaler.go:104-178 | a batch adds to each edge exactly the ids it publishes for that edge |
| `Delivery.StepKeepsGood` | internal/modes/master/server/server.go:60-134 | every step of allocator, emitter, sessions and restarts, in any order, keeps: nothing is lost after a snapshot, and nothing foreign is queued, in flight or sent |
| `Delivery.NoChannelIsLost` | internal/modes/master/server/server.go:60-134 | in every reachable state a session that took its snapshot has each id of its edge sent, queued, in the goroutine's hands or in an undelivered publication; with nothing left on its way it was sent exactly its edge |
| `Delivery.OneSlavePerId` | internal/modes/master/server/server.go:106-134 | no id is ever sent to two slaves, restarts and crashes included |
| `Delivery.EverySendIsLogged` | internal/modes/master/server/server.go:112-134 | the log that never names two slaves for an id misses no send of any session |
| `Delivery.SendLaw` | internal/modes/master/server/server.go:112-134 | a send takes the oldest list off the queue and sends all of it and nothing else; nothing queued is dropped or made up |
| `Delivery.SnapshotLaw` | internal/modes/master/server/server.go:106-111 | the snapshot is asked for once, holds the edge as it is when it is read, and queues behind what was received |
| `Delivery.SessionsLaw` | internal/modes/master/server/server.go:43-63 | a new session has nothing queued or sent; a delivery reaches exactly the sessions of its edge, behind what they have |
| `Delivery.InternalStepShrinksWork` | internal/modes/master/server/server.go:65-134 | every delivery, first login, snapshot, hand-over and send leaves less to do; a repeated login changes nothing |
| `Delivery.StuckMeansSettled` | internal/modes/master/server/server.go:65-134 | where no such step is left, every session has its snapshot handed over and nothing queued or in flight |
| `Delivery.DeliveryCompletes` | internal/modes/master/server/server.go:65-134 | from every reachable state, in whatever order what is on its way is served: the number of steps that do anything is bounded, and when none is left every open session was sent exactly its edge |
| `Delivery.SomeScheduleEnds` | internal/modes/master/server/server.go:65-134 | from every state some schedule leaves no such step |
| `MasterServer.Server.PublishSlaveChannelEvent` | internal/modes/master/server/server.go:138-216 | a report is the event `Reported`, or nothing when the database refused it; only an unknown channel is allocated again, in a batch with any other requests around it |
| `MasterServer.SlaveSession.constructor` | internal/modes/master/server/server.go:43-63 | a session starts subscribed, with nothing queued and no snapshot asked for |
| `MasterServer.SlaveSession.OnLoginEvent` | internal/modes/master/server/server.go:69-111 | a login event is the `Login` step of the delivery protocol: only the first one starts the snapshot goroutine |
| `MasterServer.SlaveSession.TakeSnapshot` | internal/modes/master/server/server.go:107-109 | reading the allocator is the `Snap` step of the delivery protocol: exactly the ids of the session's edge at that moment |
| `MasterServer.SlaveSession.EnqueueSnapshot` | internal/modes/master/server/server.go:108 | the hand-over of the snapshot is the `Enqueue` step of the delivery protocol, whatever the edge holds meanwhile |
| `MasterServer.SlaveSession.OnPublication` | internal/modes/master/server/server.go:60-63 | only publications of the session's own edge are queued |
| `MasterServer.SlaveSession.OnJoinEvent` | internal/modes/master/server/server.go:112-134 | sending is the `Send` step of the delivery protocol, whatever the edge holds meanwhile |
| `SlaveManager.Connection.JoinChannel` | internal/modes/slave/manager/connection.go:306-334 | the entry is stored or refreshed, the length counts only a new entry, a joined channel is not requested again, and a goroutine starts only when the client is connected |
| `SlaveLaws.JoinLaw` | internal/modes/slave/manager/connection.go:306-334 | the channel has an entry with what was asked for; only a new entry counts, only a channel that is not joined is attempted, once and only while connected; no other channel is touched |
| `SlaveLaws.JoinedChannelHasItsEntry` | internal/modes/slave/manager/manager.go:78-125 | after a join the channel has its entry on the connection of its seat, in the pool it asked for |
| `SlaveManager.Connection.Resume` | internal/modes/slave/manager/connection.go:334-350 | each stretch of the goroutine, up to the limiter, from there to the write, and after it; it changes the record it holds only while that is still the one stored |
| `SlaveLaws.AttemptEnds` | internal/modes/slave/manager/connection.go:334-350 | a goroutine left alone ends: still waiting when the limiter refuses, requested when the line was written, parted when it was not |
| `SlaveLaws.StartLaw` | internal/modes/slave/manager/connection.go:334-345 | an authenticated join goes to the limiter, an anonymous one straight to the write |
| `SlaveLaws.LimiterLaw` | internal/modes/slave/manager/connection.go:337-345 | only when the limiter allows it does a join go on to the write |
| `SlaveLaws.WriteLaw` | internal/modes/slave/manager/connection.go:346-349 | a join that could not be written is parted |
| `SlaveLaws.WritesWereAllowed` | internal/modes/slave/manager/connection.go:335-346 | over any run, an authenticated connection is about to write only what the limiter allowed to this very goroutine |
| `SlaveLaws.RecordsNeverReturn` | internal/modes/slave/manager/connection.go:307-350 | a record that left its connection never comes back in any run, so a goroutine that still holds it touches nothing, even when its channel has joined again |
| `SlaveState.GoroutinesOnlyTouch` | internal/modes/slave/manager/connection.go:334-350 | a goroutine never adds, drops or confirms an entry, and touches none but its own record |
| `SlaveManager.Connection.PartChannel` | internal/modes/slave/manager/connection.go:353-355 | the entry goes and the length drops by one, whether or not there was an entry |
| `SlaveManager.Connection.Sweep` | internal/modes/slave/manager/connection.go:86-121 | visiting the entries in any order, each at its own time and connected flag, drops the overdue requests without touching the length and starts one join for each stale channel |
| `SlaveLaws.SweepLaw` | internal/modes/slave/manager/connection.go:86-121 | a sweep drops exactly what went unanswered for 20 minutes, refreshes exactly what was silent for 24 hours, and leaves the rest |
| `SlaveLaws.RefreshesStartJoins` | internal/modes/slave/manager/connection.go:97-98 | each refresh starts one join while connected, and nothing else does |
| `SlaveManager.Connection.OnConnect` | internal/modes/slave/manager/connection.go:180-190 | visiting the entries in any order, each at its own time and connected flag, joins every one of them again from the unknown state |
| `SlaveLaws.ReconnectLaw` | internal/modes/slave/manager/connection.go:185-189 | a new connection refreshes every channel and drops none |
| `SlaveManager.Connection.OnMessage` | internal/modes/slave/manager/connection.go:216-292 | only a channel with an entry reacts; a ban yields the channel the manager must join anonymously, nothing else does |
| `SlaveLaws.HeardLaw` | internal/modes/slave/manager/connection.go:216-292 | which state, time and flags each message leaves of its channel's entry, and that only our own part starts a join |
| `SlaveLaws.BannedChannelIsAnonymous` | internal/modes/slave/manager/connection.go:277-290 | after a ban the channel has an entry in the anonymous pool, marked banned and anonymous |
| `SlaveManager.ConnPool.Open` | internal/modes/slave/manager/manager.go:139-160 | a new connection takes the next number, so the keys are exactly the numbers below the counter |
| `SlaveManager.ConnPool.LastWithRoom` | internal/modes/slave/manager/manager.go:106-118 | next-fit: the last connection if it has room, otherwise a new one |
| `SlaveManager.Manager.JoinChat` | internal/modes/slave/manager/manager.go:78-125 | the manager's pools, index and connections change as one join on values; all other connections stay as they were |
| `SlaveManager.Manager.OnMessage` | internal/modes/slave/manager/connection.go:216-292 | a message is one step of the slave, including the join a ban triggers |
| `SlaveManager.Manager.Sweep` | internal/modes/slave/manager/connection.go:86-121 | a sweep tick is one step of the slave and touches one connection |
| `SlaveManager.Manager.OnConnect` | internal/modes/slave/manager/connection.go:180-190 | a reconnect is one step of the slave and touches one connection |
| `SlaveManager.Manager.Resume` | internal/modes/slave/manager/connection.go:334-350 | a stretch of a goroutine is one step of the slave and touches one connection |
| `SlaveRuns.StepKeepsInv` | internal/modes/slave/manager/manager.go:78-125 | every join, ban, sweep, part, reconnect and message keeps entries, seats, limits and counters related |
| `SlaveRuns.BanIsAnonymousJoin` | internal/modes/slave/manager/connection.go:277-290 | a ban on an authenticated connection has the effect of the manager joining that channel anonymously |
| `SlaveRuns.AccountingChain` | internal/modes/slave/manager/connection.go:100-118 | on each connection of any run: entries <= ids seated <= limit, and the length counter is the ids seated plus the joins of a seated channel whose entry was gone |
| `SlaveLengths.LengthIsEntriesExactly` | internal/modes/slave/manager/connection.go:100-118 | after any run the counter is the entries plus those the sweeps dropped less the parts that found none; the two agree exactly when these are as many, and each rejoin and each such part needs a dropped entry of its own |
| `SlaveLengths.LengthCanDiffer` | internal/modes/slave/manager/connection.go:117 | a join, a sweep after the timeout and the same join again leave a connection that counts two channels and holds one |
| `SlaveRuns.OneConnectionPerLogin` | internal/modes/slave/manager/manager.go:78-125 | a login has an entry on at most one connection of either pool, the one its seat names, with matching anonymity |
| `SlaveRuns.PoolGrowthIsBounded` | internal/modes/slave/manager/manager.go:106-118 | a pool has at most one connection more than its length increments fill |
| `SlaveRuns.StepMovesOnlyToAnonymous` | internal/modes/slave/manager/connection.go:277-290 | no step but a command for the channel takes its seat away, and the only pool change is to the anonymous pool |
| `SlaveRuns.AtMostOneMigration` | internal/modes/slave/manager/manager.go:86-92 | between two commands for a channel, any run moves it between the pools at most once |
| `SlaveEntries.JoinedMeansConfirmed` | internal/modes/slave/manager/connection.go:216-257 | no step makes a channel joined except the server confirming it on that connection |
| `SlaveEntries.JoinedWasConfirmed` | internal/modes/slave/manager/connection.go:216-257 | over any run a channel is joined only if it was at the start or some step confirmed it on that connection |
| `SlaveLaws.ConfirmationJoins` | internal/modes/slave/manager/connection.go:224-257 | a confirmation makes the channel joined on the connection where it arrived |
| `SlaveLaws.JoinedExactlyByMessages` | internal/modes/slave/manager/connection.go:216-275 | after a message that is no ban a channel is joined exactly when it was just confirmed, or was joined and the message is not its suspension or our own part |
| `JoinRace.OvershootIsBounded` | internal/modes/slave/manager/manager.go:78-125 | however at most k calls interleave around the lock, the increment and the sweep's deletions, no connection gets more than limit + k - 1 channels |
| `JoinRace.StepKeepsInv` | internal/modes/slave/manager/connection.go:306-327 | every step keeps: ids seated on a connection exceed its length by no more than the calls that still owe an increment |
| `JoinRaceWitness.OvershootIsReached` | internal/modes/slave/manager/manager.go:98-124 | for every limit and k some run gives a connection exactly limit + k - 1 channels |
| `JoinRaceAlone.AloneIsJoinChat` | internal/modes/slave/manager/manager.go:78-125 | a call that runs alone through the interleaved steps leaves the seats, connections, lengths and entries of the sequential join |
| `JoinQueue.RateLimiter.Tick` | internal/svc/ratelimiter/ratelimiter.go:43-56 | the loop of pops is one `Ticked` step: it releases exactly min(1800, pending) requests, none of which is outranked by one left behind, and closes each signal once |
| `JoinQueue.RateLimiter.Release` | internal/svc/ratelimiter/ratelimiter.go:46-50 | the popped request is outranked by none, leaves the queue and has its signal closed once |
| `JoinQueue.RateLimiter.Push` | internal/svc/ratelimiter/ratelimiter.go:59-65 | pushing is the `Pushed` step of the queue and keeps every request in exactly one place |
| `JoinQueue.PushLaw` | internal/svc/ratelimiter/ratelimiter.go:59-65 | a pushed request waits with its signal open and disturbs nobody |
| `JoinQueue.OnlyTicksRelease` | internal/svc/ratelimiter/ratelimiter.go:43-56 | a tick moves what it releases out of the queue and closes those signals, and nothing else releases anything |
| `JoinQueue.ReturnLaw` | internal/svc/ratelimiter/ratelimiter.go:67-82 | a request that gives up while it waits is removed, a released one stays released, and its signal ends closed once |
| `JoinQueue.RateLimiter.Finish` | internal/svc/ratelimiter/ratelimiter.go:67-80 | whatever woke it, a request that returns is not queued and its signal was closed exactly once; no other request is touched |
| `JoinQueue.QueueConserves` | internal/svc/ratelimiter/ratelimiter.go:41-83 | in every interleaving from the empty queue a request is in exactly one of pending, released and removed, and its signal is closed at most once |
| `JoinQueue.TickServesThoseAhead` | internal/svc/ratelimiter/ratelimiter.go:43-56 | a tick that leaves a request waiting has served 1800 of those ahead of it |
| `JoinQueue.ReleasedInTime` | internal/svc/ratelimiter/ratelimiter.go:41-57 | in every reachable queue a request with r others of its rank or higher, and no later such arrivals, is released within r / 1800 + 1 ticks unless it gives up |
| `JoinQueue.ReleaseRateIsBounded` | internal/svc/ratelimiter/ratelimiter.go:19-57 | from any reachable queue, at most (w / gap + 1) * 1800 requests become released within any closed window of length w, whatever the steps of the run |
| `RedisLimiter.RateLimit` | internal/svc/redis/redis.go:25-76 | an undisturbed call that succeeds leaves a counter with an expiry, gets its share and is told the time left, ten seconds when it set the expiry; it is refused exactly when the pipeline fails or an expiry that had to be set failed |
| `RedisLimiter.GrantFillsTheCap` | internal/svc/redis/redis.go:66-75 | each increment is granted what is left of the period's allowance, never more than it asked for |
| `RedisLimiter.NeverStuckAfterSuccess` | internal/svc/redis/redis.go:26-64 | in every interleaving a counter without an expiry belongs only to calls that are still running or failed, so once all have returned one of them failed |
| `RedisLimiter.CompletionLeavesAnExpiry` | internal/svc/redis/redis.go:36-64 | the step that completes a call leaves the lifetime it counted in over or with an expiry |
| `RedisLimiter.GrantsPerLifetime` | internal/svc/redis/redis.go:44-75 | one lifetime of the key entitles its calls to exactly what they asked for, up to 149 connections or 1500 joins |
| `IrcTags.ParseTags` | internal/modes/slave/irc/irc.go:152-191 | the index-walking loop returns what the recursive walk over the block returns, for every line that is not empty |
| `IrcTags.LastWinsMeaning` | internal/modes/slave/irc/irc.go:161-184 | a key has the value of its last tag |
| `IrcTags.StrictIsReadable` | internal/modes/slave/irc/irc.go:152-191 | every list of the strict format, without separators inside keys and values, is readable |
| `IrcTags.TagsRoundTrip` | internal/modes/slave/irc/irc.go:152-191 | rendering a readable list and parsing it gives each key its last value and the index just past the block, whatever follows |
| `IrcTags.TerminatedExactly` | internal/modes/slave/irc/irc.go:164-185 | the walk ends at a space with a result exactly when the line starts with the rendering of a readable list that says this result |
| `IrcTags.IndexPastTheEndExactly` | internal/modes/slave/irc/irc.go:172-190 | the returned index is past the end of the line exactly when the block ends in a semicolon after a readable list |
| `IrcTagEnds.InvalidExactly` | internal/modes/slave/irc/irc.go:164-184 | a block is rejected exactly when some readable list of tags is followed by something without a key or with a second equals sign |
| `IrcTagEnds.CutShortExactly` | internal/modes/slave/irc/irc.go:164-190 | the walk ends with the line, dropping the tag it was in, exactly when a readable list is followed by a tag the line cuts short |
| `IrcMessage.ParseMessage` | internal/modes/slave/irc/irc.go:84-150 | the line parser's result for every line, out-of-range accesses included |
| `IrcMessage.ReadCommandsRoundTrip` | internal/modes/slave/irc/irc.go:84-150 | for each of the twelve commands whose parameters are read: rendering tags, source, command, channel and content and parsing the line gives all of them back |
| `IrcMessage.ShortCommandsRoundTrip` | internal/modes/slave/irc/irc.go:42-72 | for each of the eleven known commands that are read no further: tags, source, user and type come back, whatever follows |
| `IrcMessage.OtherCommandsAreUnknown` | internal/modes/slave/irc/irc.go:42-72 | every other command is UNKNOWN, with its tags, source and user |
| `IrcMessage.PingLine` | internal/modes/slave/irc/irc.go:85-98 | a line that starts with PING or PONG has type PING and everything from its seventh character on as source |
| `IrcMessage.UserBeforeBang` | internal/modes/slave/irc/irc.go:118-122 | the user is what stands before the first exclamation mark of the source |
| `IrcMessage.NoBangNoUser` | internal/modes/slave/irc/irc.go:118-122 | a source without an exclamation mark has no user |
| `IrcMessage.SplitLaw` | internal/modes/slave/irc/irc.go:113 | splitting loses nothing, cuts at the first spaces, and stops short of three pieces only when no space is left |
| `IrcMessage.TrimLaw` | internal/modes/slave/irc/irc.go:146 | the channel loses the white space at both ends and nothing else |
| `IrcMessage.BanNoticeRecognised` | internal/modes/slave/irc/irc.go:195-205 | a notice counts as a ban, or as a suspension, exactly when the last msg-id tag of its line says so |
| `IrcMessage.PanicsExactly` | internal/modes/slave/irc/irc.go:84-150 | the exact set of lines on which the parser goes out of range, read off the line |
| `IrcMessage.ReconnectPanics` | internal/modes/slave/irc/irc.go:139 | the server's request to reconnect is one of them |

## Left out

- PartChat: it looks in the pool opposite to the seat and keeps the index entry; the master never sends the part payload (`internal/modes/slave/manager/manager.go:127-137`).
- AllocateChannels with an empty list, which indexes the empty list of errors; the data loader that forms the batches; and negative slave numbers, for which the snapshot would go out of range.
- Integer widths: edge numbers, priorities, counters and connection numbers are unbounded; edge numbers are naturals.
- Freshness of `UseAnonymous`, `BotBanned` and `State` in what a session is sent: a snapshot may be queued behind a newer list, and reports reach the database but not the allocator's memory. Delivery speaks of ids only.
- Bounded Go channels: the capacity of 50 and blocked senders are an unbounded queue, and senders that outlive a closed session are not followed.
- JoinRace.OvershootIsBounded: interleaves joins of distinct channels with the sweep's deletions, not with the sweep's rejoins, bans or parts sent by the server; those run one at a time in `SlaveRuns`.
- SlaveManager.Connection.Sweep: one pass over the entries is one step; nothing else of the slave runs between two entries of the same pass. The same holds for a pass of OnConnect.
- SlaveManager.Manager.JoinChat: the manager's lock and its atomic counters are modelled in `JoinRace` only.
- Entries and channel records are values; a goroutine's hold on a stored record is a token, and a channel record shared by two holders is not followed.
- The reports a slave sends back while handling a message, the forwarding of messages to Redis, the credentials of a connection and `SetLoginCreds`.
- The `#` stripped from a channel name before the entry is looked up; messages name the login directly.
- The order of equal priorities in the queue and which end of the priorities is served first: every choice is allowed, and the theorems hold for both orders.
- RedisLimiter.GrantsPerLifetime: counts entitlements, also those of calls whose client saw an error after the increment.
- Bytes: IRC lines are sequences of characters and indices count characters, where Go counts bytes; the `TrimSpace` of the model knows the white space characters of Unicode.
- Tag escapes, valueless tags and the bodies of numeric replies, which the parser does not implement.
- The IRC client's sockets, gRPC, HTTP, OAuth, TLS, Kubernetes and database clients, configuration, logging and metrics; the deadline that a whole retry loop of a rescale shares.
