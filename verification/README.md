# Verified model of the agent-messenger server core

The server relays chat messages between users and agents over WebSocket connections.
This project models the parts of it that keep state and proves what they keep, over every
run and every interleaving:

| module | component |
|---|---|
| `HubModel`, `HubRuns` | the connection hub as a state machine over values, and its whole-run properties |
| `Heartbeats` | the heartbeat monitor beside the hub: selections, later evictions, beat schedules |
| `HubServer` | `Connection` and `Hub` as mutable objects; every method is one step of `HubModel` |
| `OfflineQueue`, `DurableQueue` | the bounded per-recipient queue, its table, crashes and reloads |
| `DurableRuns`, `Lateness` | what crashes lose and bring back in every run, how often and how late a message is handed over |
| `Frames`, `Pipeline`, `Conservation`, `PipelineRuns` | routing, queueing and replay interleaved with the hub |
| `Restarts` | the queue a reload leaves is one the next lifetime's promises start from |
| `Delivery` | the delivery and replay loops on the objects, each a step of `DurableQueue` |
| `FixedWindow` | the message limiter and the agent-connect limiter |
| `TwoStage` | the two message limiters in series, their questions interleaved |
| `Tiered`, `Decimal` | the tiered HTTP limiter with its tier table, and `itoa` |
| `History`, `MessageStore` | cursor paging; single and batch inserts with attachments |
| `Migrations` | the schema migrator |
| `Common` | `Option`, the second, minimum and maximum |

`dafny verify dfyconfig.toml` checks everything.

## How the code is read

- Time is an integer (nanoseconds where the unit matters) on one non-decreasing clock,
  passed to each step. Where the code reads the clock more than once, the step has as many
  readings: the agent limiter's test and stamp, its clean-up loop, the two limiters in
  series, `Enqueue` and its insert, a reload row by row, a heartbeat check that selects
  after it has read.
- One mutex section is one step. `MarkClosed` followed by `close(send)` is one step, and
  `SafeSend` is one step: a send between the two counts as before the close, and one that
  passed the `IsClosed` test before them and panics counts as after it.
- The register channel is unbuffered, so the connect handlers go on with pumps, replay and
  welcome as soon as the hub has received the connection. Receipt (`Open`) and registration
  (`Register`) are two steps; between them the connection may send, receive, route, beat
  and be replayed to.
- A send channel is a buffer of 256 frames, the frames the write pump has received from
  it, and a count of how often it was closed. A chat frame carries the number of the
  stored message, which is not part of the bytes; it tells equal texts apart.
- `Enqueue` with its insert, and `Drain` with its delete, are one step each: the code
  holds no lock across them. Inserts, deletes and cleanups may fail.
- The two questions of `checkRateLimit` are two steps. A connection asks about one message
  at a time, so the checks of one id in flight are at most its connections, counting a
  replaced one whose check is still on its way: an agent that reconnects can have two.
- The admin handler that sets a tier sets it in memory and writes the table later: two
  steps, with no lock between them, the second of which may fail.
- A server lifetime starts with no connections and whatever queue the reload left.
- JSON is a datatype. A database call is a parameter that says what it returned; a SQL
  query result is any sequence its ORDER BY and LIMIT admit. Generated ids are parameters.
- Go's range over a map is a loop that takes keys in any order.
- `int(d.Seconds())` for a duration between zero and one window is whole-second division.

Where comments and code differ, the code is followed:

- `newOfflineQueue` says a length of 0 means unlimited; the code uses 100.
- The messages handler calls the cursor a timestamp or a message id; the query compares
  timestamps only.
- `userRateLimiter` is described as a protection of its own; for an id with one connection
  it never refuses (`UserLimiterNeverRefuses`).

Promises that the code does not keep, each with the exact condition under which it does:

- The second message limiter is not always inert: two connections of one user can be
  refused by it within a few nanoseconds of each other (`TwoDevicesAreRefused`). It is, for
  up to k checks of an id in flight, if and only if its limit is at least 2 * limit + k - 1
  (`SecondStageInertIff`).
- The two limiters of one design can differ, because one of them stamps its window with a
  second clock reading (`GapHappens`); they can be told apart at a moment if and only if it
  lies between the two window ends (`ToldApartIff`).
- Waiting Retry-After is not always enough (`ImpatienceDefeatsRetryAfter`); the iff is
  `RetryAfterSuffices`.
- Walking cursors can lose messages (`TiesCanBeLost`). A walk shows everything if and only if
  `Lost`, a number computed from the table and the cursor, is 0, and otherwise shows that
  many fewer however ties are broken (`WalkShowsAllIff`). A batch stores all its rows with
  one time, and one longer than a page always costs some (`CrowdedTimeIsCut`).
- A message that expired in memory can come back after a restart (`ExpiredComeBack`); what
  comes back, and when nothing does, with or without a cleanup in between, is
  `ExpiredComeBackIff` and `DrainedIsGoneIff`.
- The TTL does not bound the age of a delivered message (`DeliveredHoweverLate`). A message
  in memory can still be handed over after its TTL if and only if its copy has not expired
  and a reload has stamped it anew (`LateIff`), so never by a server that has not been
  restarted (`DeliveredInTime`). With cleanups in time, downtime included, there is a bound
  (`DeliveredWithin`).
- A failed insert is only logged, and a crash then loses the message: a young message
  survives if and only if its own insert worked (`CrashKeepsTheSaved`).
- A message can be handed over twice (`HandedTwice`): again after a crash if and only if
  the delete of the drain failed and its row is among the newest (`HandedAgainIff`), and
  never more often than it was queued if the deletes work (`HandedAtMostOnce`).
- A tier in force can outrank the persisted one (`OvertakingOutranks`,
  `FailingWriteOutranks`): if and only if the last set outranks the last write and memory
  has not lost it (`TierInForce`).
- `itoa` is wrong for the smallest int64 and for nothing else (`Itoa`).

## Model

| member | source | states |
|---|---|---|
| `HubServer.Connection.SafeSend` | server/hub.go:479-494 | the frame enters the buffer exactly when the connection is not marked closed, the channel is open and there is room; otherwise nothing changes |
| `HubServer.Connection.CloseChannel` | server/hub.go:172-173 | may only be called on an open channel, so every call site is a proof that no close can panic |
| `HubServer.Hub.Open` | server/handlers.go:92-103 | a connection made with an empty channel becomes known to the hub: the open step of the state machine, and the invariant holds |
| `HubServer.Hub.Register` | server/hub.go:163-204 | is the register step of the state machine and keeps its invariant, for any connection not yet registered, whatever frames it has got by then |
| `HubServer.Hub.Unregister` | server/hub.go:206-249 | is the unregister step for any connection ever registered, however late or often, and keeps the invariant |
| `HubServer.Hub.RegisterAgent` | server/hub.go:165-181 | replaces and closes the earlier connection of the agent, then announces |
| `HubServer.Hub.RegisterClient` | server/hub.go:182-203 | replaces the connection of the same non-empty device in its slot, or appends |
| `HubServer.Hub.UnregisterAgent` | server/hub.go:208-220 | removes and announces only if the registry still holds this very connection |
| `HubServer.Hub.UnregisterClient` | server/hub.go:221-248 | swap-removes this very connection, drops an emptied list, closes the channel unless closed |
| `HubServer.Hub.BroadcastPresence` | server/hub.go:394-412 | one presence frame to every listed client connection and to no other, whatever order the map is walked in |
| `HubServer.Hub.BroadcastToAllClients` | server/hub.go:382-390 | every listed client connection with room gets the frame, every other connection is untouched |
| `HubServer.Hub.TouchHeartbeat` | server/hub.go:327-331 | is the touch step of the state machine |
| `HubServer.Hub.StaleAgents` | server/hub.go:306-318 | the snapshot holds exactly the registered agents silent for more than the timeout |
| `HubServer.Hub.GetClientConns` | server/hub.go:358-364 | returns the user's list as the registry has it, in order, empty for an unknown user |
| `HubServer.Hub.ClientConnCount` | server/hub.go:415-423 | the sum over the lists equals the number of registered client connections that are open |
| `HubModel.StepKeepsInv` | server/hub.go:155-264 | every hub step keeps: one live connection an agent id, lists non-empty, duplicate-free and one connection a device, open exactly when in the registry once registered, one close at most, buffer within 256 |
| `HubRuns.HubIsSafe` | server/hub.go:163-249 | in every run no channel is closed twice, a connection ever registered has an open channel exactly when it is in its registry, and one yet to be registered is open and in none |
| `HubRuns.StepSpares` | server/hub.go:206-246 | only its own unregister or a replacement by the same agent id or device removes a registered connection, whatever else is registered or unregistered |
| `Heartbeats.NewcomerSurvives` | server/hub.go:306-324 | in every run of hub, checks and evictions, whatever was selected before a connection is registered and whenever it is evicted, the newcomer stays registered with an open channel unless a later check selects it |
| `HubRuns.PresenceIsAccurate` | server/hub.go:163-220 | in every run the last presence event for an agent id says online exactly when the id is registered |
| `Heartbeats.BeatingAgentStays` | server/hub.go:306-331 | in every run an agent that beats at gaps of at most the timeout from its registration to the end is selected by no check and is registered and open at the end, whatever is evicted meanwhile |
| `Heartbeats.StaleIffSilent` | server/hub.go:306-331 | after any run an agent is selected exactly when still registered and its last beat is more than the timeout ago |
| `Heartbeats.MissedBeatsSurvive` | server/main.go:199-203 | whatever timeout is configured, an agent with a beat planned every interval that misses any of them but no two in a row is selected by no check of the run and stays registered |
| `Heartbeats.Clamp` | server/main.go:199-203 | the timeout in force is at least twice the interval and at least the configured one, and is the configured one if that suffices |
| `Heartbeats.SilentIsCaught` | server/hub.go:291-318 | in a run with checks at most one interval apart, an agent that has fallen silent is selected no later than last beat + timeout + interval, by the first check after last beat + timeout and by none before |
| `OfflineQueue.Queue.constructor` | server/queue.go:28-40 | non-positive length and TTL become 100 and seven days |
| `OfflineQueue.Queue.Enqueue` | server/queue.go:44-64 | appends and keeps the newest `maxLen`; other recipients untouched |
| `OfflineQueue.Queue.Drain` | server/queue.go:68-98 | returns the unexpired messages in order and leaves the recipient's buffer empty, others untouched |
| `OfflineQueue.Queue.Purge` | server/queue.go:101-105 | empties one recipient's buffer and no other |
| `OfflineQueue.DrainSplits` | server/queue.go:82-88 | what Drain returns and what it discards make up the buffer, nothing twice, nothing lost |
| `DurableQueue.QueueStore.PersistQueue` | server/queue_persist.go:15-26 | the recipient's rows end with one more, everybody else's are the same, and no row gets a second before its message's; on error nothing changes |
| `DurableQueue.QueueStore.DeleteQueueMessages` | server/queue_persist.go:29-37 | the recipient has no rows left and everybody else has the same ones in the same order; on error nothing changes |
| `DurableQueue.QueueStore.CleanStaleQueueMessages` | server/queue_persist.go:91-105 | exactly the rows of whole seconds before the cutoff go, and the newest rows of any recipient that are all within the age stay, in order |
| `DurableQueue.QueueStore.LoadQueueFromDB` | server/queue_persist.go:41-67 | enqueues every row in id order, each with a fresh stamp |
| `DurableQueue.Restart` | server/main.go:207-211 | a start-up is the crash step of the state machine, whatever queue was lost |
| `DurableRuns.ReloadIs` | server/queue_persist.go:45-63 | after a reload each recipient has exactly the newest rows, up to the queue length, in order |
| `DurableQueue.SinceKeepsYoung` | server/queue_persist.go:95-96 | the whole-second cleanup never removes the row of a message still within the TTL |
| `DurableRuns.CrashKeepsTheSaved` | server/queue_persist.go:15-105 | in every run of enqueues, drains, cleanups and crashes, whatever fails: of memory from the first message within the TTL of its first queueing on, the messages whose own insert worked are a suffix of the rows and of the queue after a crash at any moment, in order; rows hold no others, so a young message survives exactly when its own insert worked |
| `DurableRuns.CrashLosesNothingYoung` | server/queue_persist.go:15-105 | so if none of those inserts failed, a crash and reload at any moment keeps all of them in order |
| `DurableRuns.CrashKeepsInserted` | server/queue_persist.go:19-25 | right after a message was queued, a crash keeps it if and only if its insert worked |
| `DurableRuns.ExpiredComeBackIff` | server/queue.go:141-147 | from any state, a drain and a crash leave the recipient its newest rows if the drain returned nothing or its delete failed, and nothing otherwise; so a drained message is back exactly when its row is among those |
| `DurableRuns.DrainedIsGoneIff` | server/queue_persist.go:91-105 | nothing is back if and only if the drain deleted or there was no row; after a cleanup in between, if and only if the drain deleted or all the recipient's rows are of seconds before the cutoff |
| `DurableRuns.ExpiredComeBack` | server/queue.go:141-147 | a run from the empty state in which an expired message is back after a restart |
| `DurableRuns.HandedAtMostOnce` | server/queue.go:136-147 | through any crashes, if the recipient's deletes work, its drains hand over no message more often than it was queued |
| `DurableRuns.HandedAgainIff` | server/queue_persist.go:29-37 | a message handed over is back after a crash if and only if its delete failed and its row is among the newest |
| `DurableRuns.HandedTwice` | server/queue_persist.go:29-37 | a run in which it is handed over twice |
| `Lateness.LateIff` | server/queue.go:82-88 | in every run a message in memory can still be handed over after its TTL if and only if its copy has not expired and carries another stamp than its first queueing |
| `Lateness.DeliveredInTime` | server/queue.go:82-88 | a server that has not been restarted hands nothing over after the TTL |
| `Lateness.DeliveredWithin` | server/main.go:340-346 | in every run with a working cleanup at most `period` before the end of each reload, downtime included, a message is delivered less than twice the TTL, the period, the delay of its insert and a second after it was first queued |
| `Lateness.DeliveredHoweverLate` | server/queue_persist.go:45-63 | without cleanups a message can be delivered any time after it was queued |
| `PipelineRuns.StoredAreTheAdmissible` | server/routing.go:81-152 | under any interleaving the messages stored since the start are exactly those that are complete, from a participant of the conversation and storable, each once, in the order they came, addressed from the connection's own id to the other participant |
| `PipelineRuns.AcceptedOrToldWhy` | server/routing.go:86-152 | a message that is not accepted leaves its sender's channel one error notice, if there is room, and changes nothing else |
| `PipelineRuns.ClaimsDoNotMatter` | server/routing.go:105-107 | rewriting what any messages of a run claim about sender and recipient leaves it a run, with the same state after it |
| `Conservation.StepKeepsInv` | server/routing.go:77-248 | every step of every routing and replaying goroutine, and every hub step in between, keeps the delivery invariant |
| `PipelineRuns.MessagesAreConserved` | server/routing.go:144-236 | after any start, with an empty or a reloaded queue, and under any interleaving each stored message is in exactly one class (routing, delivered, queued, trimmed, expired, replaying, replayed, dropped, or settled before the start), occurs there once and nowhere else; queued and delivered exclude each other |
| `Restarts.ReloadCanStart` | server/queue_persist.go:41-67 | after any run of queue and table with any failures and crashes, in which each stored message was queued once at most for its recipient, the reloaded queue is one that conservation, authenticity and replay start from |
| `PipelineRuns.FatesAdvance` | server/queue.go:44-98 | the only class changes are routing to delivered or queued, queued to trimmed, expired or replaying, replaying to replayed or dropped; stored messages are never taken back |
| `PipelineRuns.StepsAreEnabled` | server/routing.go:163-236 | a routing or replaying goroutine can always take its next step: its connections and its message exist |
| `PipelineRuns.ChatsAreAuthentic` | server/routing.go:105-140 | every chat frame in a channel or queue names that holder as recipient, carries the type and id of the connection that really sent it, and joins the two participants of the conversation looked up |
| `PipelineRuns.ChatsCrossOver` | server/routing.go:163-236 | with disjoint agent and user ids a chat reaches only connections of the other type than its sender |
| `PipelineRuns.ReplayIsFaithful` | server/queue.go:136-170 | a replay fills the channel with a prefix of its batch in order, all of it unless the connection is closed or more than 156 other frames entered the 256-slot channel; the type filter skips nothing |
| `Delivery.DeliverToDevices` | server/routing.go:168-175 | exactly the devices with room get the message, and the count is their number |
| `Delivery.RouteToRecipient` | server/routing.go:163-248 | the message goes to the recipient's connections with room or, if there is none, to the queue and its table as one enqueue step: never both, never neither; the sender gets its acknowledgement if there is room |
| `Delivery.ReplayOfflineMessages` | server/queue.go:136-170 | uninterrupted, the queue and its table make one drain step, with the delete only if something was drained, and the replayed prefix is the batch or the free room, whichever is shorter, nothing on a closed connection |
| `FixedWindow.RateLimiter.Allow` | server/middleware.go:65-84 | opens a window when none is running, else counts on, and refuses past the limit |
| `FixedWindow.RateLimiter.Cleanup` | server/middleware.go:87-105 | removes exactly the counters whose window has ended |
| `FixedWindow.AttemptLimiter.Allow` | server/auth.go:100-116 | opens a window, stamped by a second reading, when none is running at the first; else counts up to the limit and refuses at it |
| `FixedWindow.AttemptLimiter.Clean` | server/auth.go:119-128 | removes exactly the entries whose window has ended when the loop reads the clock for them |
| `FixedWindow.SweepsAreInvisible` | server/middleware.go:86-105 | no answer of any run depends on when or whether cleanup ran |
| `FixedWindow.CleansAreInvisible` | server/auth.go:119-128 | no answer of the agent limiter in any run depends on when or whether it was cleaned |
| `FixedWindow.SaturatingAgrees` | server/auth.go:100-116 | the limiter that stops counting at the limit answers every run without a request in a gap like the one that goes on, and stays in step with it |
| `FixedWindow.LimitersAgree` | server/auth.go:100-128 | with equal limit (at least 1) and window both limiters answer every request of every run identically, each with cleanups of its own or none, if no request falls between the two window ends of its key |
| `FixedWindow.ToldApartIff` | server/auth.go:105-106 | after any run without such a request, a burst for a key at a moment tells the limiters apart if and only if the moment lies between the two window ends of that key |
| `FixedWindow.GapHappens` | server/auth.go:105-106 | a run, with one nanosecond between two readings, in which they differ |
| `FixedWindow.EqualReadingsLeaveNoGap` | server/auth.go:105-106 | with both readings of every request equal, no request of any run falls in a gap |
| `FixedWindow.TwoWindowsBound` | server/middleware.go:65-84 | in any run no closed interval one window long sees more than twice the limit pass for one key |
| `TwoStage.CheckRateLimit` | server/middleware.go:160-190 | an uninterrupted call is the two questions in turn, each at its own clock reading, the second asked only if the first is answered yes and under the same key |
| `TwoStage.UserLimiterNeverRefuses` | server/middleware.go:149-190 | in every run with one check of each id in flight at a time, however the ids interleave, the 120-a-minute limiter behind the 60-a-minute one refuses nothing |
| `TwoStage.SecondStageInertIff` | server/middleware.go:149-190 | for any limits and up to k checks of one id in flight, the second stage refuses nothing in all runs if and only if its limit is at least twice the first's and k - 1 |
| `TwoStage.TwoDevicesAreRefused` | server/middleware.go:162-176 | a run of two connections of one user at the limits 60 and 120, no check longer than two nanoseconds, in which the second stage refuses |
| `Tiered.TieredRateLimiter.Allow` | server/rate_limit_tiers.go:94-133 | charges the user's entry and answers allowed, remaining and retry-after from it |
| `Tiered.TieredRateLimiter.SetTier` | server/rate_limit_tiers.go:136-152 | gives the user the tier and a fresh empty window, known before or not |
| `Tiered.RemainingAhead` | server/rate_limit_tiers.go:166-182 | what GetRemaining returns, for any user, window and interleaving, is exactly how many of the user's next calls in the window succeed, and they come first; a sweep before them leaves the free tier's number |
| `Tiered.TieredRateLimiter.CleanupOnce` | server/rate_limit_tiers.go:186-195 | removes exactly the entries whose window ended more than ten minutes ago |
| `Tiered.TieredRateLimiter.LoadTiersFromDB` | server/rate_limit_tiers.go:254-283 | sets the tier of every row that is not free, in row order |
| `Tiered.RemainingIsExact` | server/rate_limit_tiers.go:114-132 | after a reply with remaining k, whatever others do, of the user's next calls in that window exactly the first k succeed |
| `Tiered.RetryAfterIsNeeded` | server/rate_limit_tiers.go:120-130 | after a refusal with Retry-After R every call up to R-1 seconds later is refused |
| `Tiered.RetryAfterSuffices` | server/rate_limit_tiers.go:108-133 | the first call R or more seconds later succeeds if and only if the user made fewer than a burst of calls after the window's end and before, or that next window is over too |
| `Tiered.ImpatienceDefeatsRetryAfter` | server/rate_limit_tiers.go:108-133 | a run from the start in which a call R seconds after the refusal is refused |
| `Tiered.HandleSetRateLimitTier` | server/rate_limit_tiers.go:305-358 | an uninterrupted call sets the tier in memory and then writes it, answers 200 even if the write fails, and changes nothing for a missing name or an unknown tier |
| `Tiered.TierInForce` | server/rate_limit_tiers.go:341-347 | in every run of overlapping sets and writes, failing or not, calls, sweeps and restarts the tier in force is the one last set, or free if memory has lost it, and the table holds the last one written; so memory outranks the table if and only if the last set outranks the last write and is not lost |
| `Tiered.TierFollowsTable` | server/rate_limit_tiers.go:254-303 | if the sets of a user do not overlap and their writes work, then whenever none is on its way the tier in force is the persisted one, or free if memory has lost the user, and it never outranks the table |
| `Tiered.OvertakingOutranks` | server/rate_limit_tiers.go:341-347 | a run of two overlapping sets that leaves memory at enterprise and the table at free |
| `Tiered.FailingWriteOutranks` | server/rate_limit_tiers.go:344-347 | a run with a failing write that leaves memory at pro and the table without the user |
| `Decimal.Itoa` | server/rate_limit_tiers.go:394-415 | the text parses back to the number and is canonical for every int64 but the smallest, whose text is a bare minus; no store leaves the 20 bytes |
| `Decimal.FillDigits` | server/rate_limit_tiers.go:403-409 | the digit loop leaves the canonical digits of the number at the end of the buffer and at least one byte free |
| `History.GetConversationMessages` | server/conversations.go:143-187 | a cursor page is the newest of the older messages in chronological order, a page without cursor the oldest ones; the call fails exactly when the query is refused, a row does not scan or the iteration ends in an error |
| `History.ReverseInPlace` | server/conversations.go:180-184 | the two-index loop reverses the array |
| `History.WalkTerminates` | server/conversations.go:150-153 | a walk of non-empty pages is no longer than the number of older messages |
| `History.WalkShowsOlder` | server/conversations.go:150-184 | a finished walk shows each older message once, in chronological order, except exactly those that share a page's oldest timestamp and did not fit on it |
| `History.WalkShowsAllIff` | server/conversations.go:150-184 | a finished walk shows all older messages if and only if the table has no more messages of a page end's time than fit, page by page; otherwise it shows exactly so many fewer, however ties are broken |
| `History.WalkExists` | server/conversations.go:150-153 | there is a finished walk from every cursor |
| `History.CrowdedTimeIsCut` | server/conversations.go:108 | more messages of one time than fit on a page always cost some; a batch gives all its rows one time |
| `History.DistinctTimesLoseNothing` | server/conversations.go:150-184 | with distinct timestamps the pages join to exactly the older history |
| `History.TiesCanBeLost` | server/conversations.go:150-153 | two messages of one timestamp and pages of one: the second is never shown |
| `MessageStore.Database.StoreMessage` | server/conversations.go:58-82 | stores the row and links its attachments by the updates that do not fail, or changes nothing if the insert is refused |
| `MessageStore.Database.StoreMessagesBatch` | server/conversations.go:88-139 | commits exactly when nothing breaks and the ids are fresh, with the effect of single inserts, and returns the ids of the new rows in order; otherwise changes nothing |
| `MessageStore.BatchRefinesSingles` | server/conversations.go:84-139 | a committed batch equals its messages stored one by one at any times with the same link updates failing, apart from the creation times; a failed one changes nothing |
| `MessageStore.FirstClaimWins` | server/conversations.go:76-79 | over any mix of single and batch stores, failed or not, and uploads, an attachment is linked to the first message stored since its upload that names it and whose update did not fail |
| `MessageStore.LinkStays` | server/conversations.go:128-131 | a link once made stays as it is along any later events |
| `Migrations.Migrator.GetCurrentVersion` | server/cmd/am-migrate/main.go:281-285 | the highest recorded version, 0 if none |
| `Migrations.Migrator.MigrateUp` | server/cmd/am-migrate/main.go:308-386 | whatever statement fails, the recorded versions stay a prefix of the sorted migrations and only grow towards the target; success reaches it; a target beyond the latest is refused unchanged |
| `Migrations.Migrator.MigrateDown` | server/cmd/am-migrate/main.go:389-458 | whatever fails, the recorded versions stay a prefix and only shrink towards the target; success reaches it |
| `Migrations.Migrator.RunCommands` | server/cmd/am-migrate/main.go:242-250 | any run of ups and downs with any targets and failures keeps the recorded set a prefix |
| `Migrations.LevelsByVersion` | server/cmd/am-migrate/main.go:341-347 | the levels reached are exactly the versions up to max(current, target) and min(current, target) |

## Left out

- WebSocket read and write pumps, ping deadlines, upgrade, CORS, CSRF and security headers: I/O over libraries.
- `Hub.Stop` and the shutdown of goroutines: a liveness question about blocking channel operations.
- `SetAgentStatus`, `AgentStatus`, `AgentCount`, `ClientCount`, `GetAgent`, `QueueDepth`, `TotalDepth`, `Count`, `GetTier`: one-line reads and writes that would only add easy members.
- Typing, status and heartbeat-ack frames: any frame that is not a chat message, sent at any time to any connection; their text is not modelled.
- Push notifications, tracing, logging, metrics, JWT, bcrypt and secrets: foreign libraries or thin wrappers.
- `RateLimiter.Reset` in runs, and the per-IP limiter configuration: test support and configuration.
- The crash of a whole server as one machine: `DurableQueue` covers the queue and its table through crashes, `Pipeline` one server lifetime from any start, and `Restarts` joins the two.
- Unreadable rows at reload, a failed load query and `Purge` in runs.
- Reactions loaded with a page.
- `Migrations.Migrator.MigrateUp`: does not say which statements of a failed script took effect, because `schema_migrations` does not record it; scripts are modelled by their number of statements, and sort.Slice by its result.
- `createMigrationStub`, `showStatus`, the admin command line, end-to-end keys, reactions, tags, notification preferences, edit and delete of messages: short handlers or console output.
- All clients and SDKs.
