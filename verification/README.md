# MeowChat: model and proofs

MeowChat is a chat server (Go) with an Angular client, and its servers ("homes") federate with each
other. This project models the parts of it that are algorithms or state machines and proves what they
promise, over every input, every interleaving and every run.

| file | what it models |
|---|---|
| `Common.dfy` | options, listings in arbitrary order, filtering, a stable sort |
| `Route.dfy` | the breadth-first search for the neighbour that leads to a remote server |
| `Gossip.dfy` | the hop-limited flood that announces a new server, in one home and in the whole federation |
| `GossipReach.dfy` | who learns of the new server, who does not, and a federation that attains the bound |
| `Queue.dfy` | the offline queue and the health pings: the tables as an object, and each operation as a step |
| `QueueRuns.dfy` | what the queue keeps over every run of sends, drains, pings and admin actions |
| `QueueRows.dfy` | one row over time: what an event does to it, and how it can leave the queue |
| `QueueFairness.dfy` | which rows a drain takes, how long a backlog lasts, and who can hold back whom |
| `Hub.dfy` | the WebSocket hub: one method per case of its select loop |
| `HubRuns.dfy` | presence, socket cap and counters over every run of the hub |
| `RateLimit.dfy` | the per-socket sliding window, compacted in place |
| `Gate.dfy` | the client's concurrency gate, as written and repaired |
| `Exif.dfy` | the byte-level scan for the orientation tag, and a writer that it inverts |
| `Orientation.dfy` | the pixel loops for the eight orientations |
| `Resize.dfy` | the dimensions of a downscaled picture |
| `Thread.dfy` | merging fetched messages into an open thread |
| `Display.dfy` | date separators and the unread divider |
| `Optimistic.dfy` | claimed ids, confirmed and rolled-back sends, and the thread over time |
| `Tokens.dfy` | refresh-token rotation with a grace period |
| `LruCache.dfy` | the per-server file cache and its eviction loop |

How the source is represented:

- An SQL table is a map or a sequence, and one statement is one step. Rows that a query returns without
  `ORDER BY`, and the keys of a Go map range, come in any order (`Common.AnyOrder`); equal sort keys fall
  in any order too.
- What the network, a socket write, a file write or the clock does is a parameter that may be anything.
- A handler, a hub event, a ping or a drain is one atomic step.
- Objects that the source updates in place are classes. Each method is proved to take the object from its
  old value to the one that a step function gives, and the lemmas are about those functions. The books
  that only the proofs need (accepted and answered letters, slots really held, sockets still to be
  unregistered, evictions) are ghost fields.

Where the code does less than it looks, the code is modelled as it is and the exact condition is proved:

- **The gate forgets slots.** `releaseSlot` tests the queue after taking the waiter out, so a release
  that hands over to the only waiter also decrements `active`. Per release it agrees with the repaired
  form exactly when not one single waiter is queued (`Gate.AgreesIffNotOneWaiter`), the slots really held
  are `active` plus the number of such releases (`Gate.SlotAccounting`), and so there is no ceiling at all
  (`Gate.NoCeiling`). The comment above `handOver` says that `active` is unchanged; the code differs.
- **Without a transport, `SendOrQueue` accepts and drops** (`QueueRuns.LostIffNoTransport`).
- **A queued request is always replayed as POST**: what it puts on the wire is what the request would put
  there exactly when that was a POST, whatever its headers (`QueueRuns.ReplayedAsSent`). The three callers
  (`handlers.go:896`, `handlers.go:1471`, `e2ee.go:66`) all pass POST, so today nothing goes wrong.
- **Active peers do not share fairly**: fifty rows of active peers that keep failing hold back every row
  behind them for ever, although its own peer would answer (`QueueFairness.BlockedWhileOthersFail`, with a
  run from an empty database in `QueueFairness.SecondPeerIsHeldBack`). Fewer than fifty do not, and how
  many drains it takes is bounded (`QueueFairness.PickedInTime`); together these are an if-and-only-if over
  runs of drains (`QueueFairness.StarvedIffFiftyFail`).
- **Gossip does not reach a large federation.** The hop count grows with every neighbour written to, not with
  every step, so among homes that all know each other and list each other in one order only five ever
  accept the announcement of a new one (`GossipReach.CliqueReach`). Whoever is written to in time is informed
  (`GossipReach.FloodInforms`).
- **A confirmed send can appear twice** when a frame or a fetch has already brought the message in, until the
  next fetch merges the two (`Optimistic.IndexMatchesThread`, with a run from an empty thread in
  `Optimistic.FetchBeforeAnswerDuplicates`).
- **Capping the size before or after turning a picture** gives the same dimensions
  (`Resize.FitCommutesWithTurning`); what matters is that it is turned at all.

## Model

| member | source | states |
|---|---|---|
| Route.FindRoute | backend/federation/route.go:11-77 | terminates; nil exactly when no walk along known_by edges leads from an active server to the target; otherwise the next hop is where every shortest such walk begins and is the first active server on the target's parent chain, with the base URL of the right table |
| Route.Sources | backend/federation/route.go:31-43 | the search starts from every active server at once, each its own next hop |
| Route.Expand | backend/federation/route.go:59-73 | the inner loop queues exactly the unseen children, with the parent's next hop |
| Route.FirstActiveIsShortest | backend/database/database.go:430-436 | because a server has one parent, the first active server on its chain begins every shortest route |
| Route.RouteIsClimb | backend/federation/route.go:59-62 | every route is a climb of the parent chain read backwards |
| Route.RouteIsStable | backend/federation/handler.go:594-597 | rows added to the network table never change the next hop of a target that had a route |
| Gossip.Home.HandleGossipNewPeer | backend/federation/handler.go:584-625 | from five hops on nothing happens; below, the server is learned unless known, and every active server but the announcer is told exactly once, the i-th of them h + i hops |
| Gossip.ChildrenSpread | backend/federation/handler.go:608-623 | however many neighbours, the announcements sent on leave room for d more sends in the sender's potential |
| Gossip.EventPays | backend/federation/handler.go:590-623 | a delivery, a loss or a change of neighbours pays for what it sends out of the potential of the packets in flight |
| Gossip.GossipDiesOut | backend/federation/handler.go:584-625 | under every interleaving, one announcement with h < 5 hops causes at most d·2^(4-h) sends, 16·d from h = 0 |
| Gossip.BoundIsReached | backend/federation/handler.go:590-623 | the number of sends of a full flood, and that it is the bound exactly when d is 0 or at least 4 - h |
| Gossip.FloodIsExact | backend/federation/handler.go:608-623 | with d neighbours everywhere and no loss, the number of sends does not depend on the order of deliveries |
| GossipReach.BoundIsAttained | backend/federation/handler.go:584-625 | for every d and h a federation, one announcement and a finished run that makes exactly that many sends; with d at least 4 - h that is d·2^(4-h), so the bound cannot be improved |
| GossipReach.FloodInforms | backend/federation/handler.go:584-625 | after any finished flood without losses every home to which a packet with fewer than five hops was ever sent has a row for the server, with the announced URL and announcer unless it had one; nobody gets any other row for it |
| GossipReach.CliqueReach | backend/federation/handler.go:613-617 | hops are counted per neighbour: every finished flood from h hops in a clique whose homes read their neighbours in one order informs exactly the homes 0 to 4 - h, however many there are |
| Gossip.TablesOnlyGrow | backend/federation/handler.go:594-597 | a flood only ever adds network rows, in every home |
| Gossip.GossipKeepsRoutes | backend/federation/handler.go:594-597 | no flood redirects a route that a home already had |
| Gossip.AnnouncedPeerIsRoutable | backend/federation/handler.go:594-597 | an accepted announcement makes the new server routable through the hop that leads to its announcer |
| Queue.Outbox.SendOrQueue | backend/federation/queue.go:66-99 | the whole new state and the returned error, for every answer of the network and every outcome of the insert |
| Queue.Outbox.Enqueue | backend/federation/queue.go:36-54 | one row with default priority and attempts is appended, or nothing when the body cannot be encoded or stored |
| Queue.Outbox.SelectBatch | backend/federation/queue.go:138-167 | the first fifty eligible rows by priority, then age, ties in any order |
| Queue.Outbox.ProcessPending | backend/federation/queue.go:132-172 | re-arm, select and process in order, as one step |
| QueueRuns.NothingAcceptedIsLost | backend/federation/queue.go:56-99 | with a transport, after any run the accepted letters are, copy for copy, the answered ones, the queued ones and those removed with a deleted peer; attempts stay in 0..max_attempts |
| QueueRuns.SendByAnswer | backend/federation/queue.go:71-99 | one send to an active peer by what came back: below 500 the letter is answered and nothing queued; at 500 or more, or without an answer, nothing is answered and one fresh row is appended, or the caller gets the error |
| QueueRuns.SendToInactive | backend/federation/transport.go:59-69 | a send to a peer that is not active is queued whatever the network would say |
| QueueRuns.RefusedIsKept | backend/federation/queue.go:72-99 | in a run where every answer is 500 or more, or none, nothing counts as answered and everything accepted is still queued or went with its peer |
| QueueRuns.ErrorIffBothPathsFailed | backend/federation/queue.go:60-62 | an error is returned exactly when the delivery and the queueing both failed, and then nothing changed |
| QueueRuns.LostIffNoTransport | backend/federation/queue.go:67-69 | a nil answer leaves the letter answered or queued exactly when a transport is configured, whatever the body |
| QueueRuns.UnparseableRowsNeverOccur | backend/federation/queue.go:195-202 | the branch that drops undecodable rows is never taken for rows that enqueue wrote |
| QueueRuns.ReplayedAsSent | backend/federation/queue.go:204-215 | whatever its headers, the replay puts on the wire what the request would put there at that moment exactly when it is a POST |
| QueueRuns.WireHeaders | backend/federation/transport.go:126-134 | on the wire are the peer's token, the content type and otherwise the request's own headers |
| QueueRuns.EventKeeps | backend/federation/queue.go:187-234 | every event keeps ids unique, bodies decodable, attempts in range and the books balanced |
| QueueRuns.EventGrows | backend/federation/transport.go:59-69 | no event answers a letter whose peer is not active; accepted and answered letters are never forgotten |
| QueueRuns.ItemRows | backend/federation/queue.go:217-233 | processing a collected row removes exactly it or leaves it, and leaves every other row as it was |
| QueueRuns.FailedItemIsKept | backend/federation/queue.go:223-233 | a failed send keeps the row and costs one attempt |
| QueueRuns.ItemByAnswer | backend/federation/queue.go:217-233 | one drained row by what came back: below 500 it alone goes and is answered; otherwise it alone has one attempt more |
| QueueRuns.UndecodableIsDropped | backend/federation/queue.go:195-202 | a row that does not decode is dropped without a send, and only that row |
| QueueRuns.PingKeeps | backend/federation/health.go:103-128 | a ping moves only its own peer, never a blocked or pending one; a recovery makes all its rows deliverable and starts a drain exactly when it has any; a failure marks an active peer unreachable |
| QueueRuns.RearmsExactly | backend/federation/queue.go:176-185 | exactly the exhausted rows of active peers start over |
| QueueRuns.PingByAnswer | backend/federation/health.go:103-128 | the whole effect of one ping by what came back, 500 being the line |
| QueueRuns.PingsFastIff | backend/federation/health.go:60-71 | pings come fast exactly while a peer is unreachable or a row has failed and not started over |
| QueueRuns.DrainFailedFacts | backend/federation/queue.go:236-244 | the re-arm of one peer touches no mail and no row of another peer |
| QueueRuns.DeleteRemovesExactly | backend/handlers/admin_federation.go:271-285 | deleting a peer removes exactly its rows, and exactly their letters are booked as removed with it |
| QueueRows.SparedStays | backend/federation/queue.go:187-234 | over any run, with its mail, priority and age unchanged, a row stays in the queue until it is delivered or its peer deleted |
| QueueRows.AcceptedSendIsAccountedFor | backend/federation/queue.go:56-99 | of every single send that returned nil: its letter was answered at once, or the very row it left still stands in every later state unless a drain had it answered below 500 or its peer was deleted |
| QueueRows.AnswerIsFinal | backend/federation/queue.go:217-221 | a row that a drain delivers is gone from the queue and its letter is one more answered one |
| QueueFairness.DeadPeersDoNotStarve | backend/federation/queue.go:121-144 | the possible batches are the same with every row of a peer that is not active erased |
| QueueFairness.DueAreTheActiveRows | backend/federation/queue.go:176-185 | after the re-arm every row of an active peer is eligible, unchanged or with its attempts back at zero, and no other row is |
| QueueFairness.BatchIsByPriorityThenAge | backend/federation/queue.go:138-144 | a batch runs from high to low priority and from old to new, leaves nothing better behind, and is full unless it takes everything |
| QueueFairness.PickedIffFewAhead | backend/federation/queue.go:138-144 | without ties a row is drained exactly when fewer than fifty due rows are ahead of it |
| QueueFairness.GoodDrain | backend/federation/queue.go:169-171 | a drain whose sends are all answered removes its whole batch and nothing else |
| QueueFairness.DrainsEmptyTheBacklog | backend/federation/queue.go:132-172 | if peers answer and nothing is enqueued, k drains with 50·k >= n empty the n rows of the active peers and touch no other |
| QueueFairness.IdleAfterDrains | backend/federation/health.go:57-71 | and then, with all peers up, the ping interval falls back to slow |
| QueueFairness.BlockedWhileOthersFail | backend/federation/queue.go:176-185 | fifty rows of active peers ahead of a row, whose own sends keep failing, keep that row out of every drain of any run, ties or not, whatever happens to all other sends, rows and peers; it stays queued |
| QueueFairness.PickedInTime | backend/federation/queue.go:138-172 | with f < 50 rows ahead that may fail and a rows ahead in all, n drains pick the row as soon as a < 50 + (n - 1)(50 - f) |
| QueueFairness.HeldBack | backend/federation/queue.go:121-185 | for any fifty rows ahead of a row there are runs of any number of drains that fail exactly these and never attempt the row |
| QueueFairness.StarvedIffFiftyFail | backend/federation/queue.go:121-185 | the exact condition: without ties, while the same rows fail, a row is never attempted in more drains than rows are ahead of it if and only if fifty of those ahead are among the failing |
| QueueFairness.SecondPeerIsHeldBack | backend/federation/queue.go:121-144 | a concrete run from an empty database: fifty rows for one active peer, then one for another that would answer; any number of drains leaves that one alone |
| Hub.RunHub.WriteTo | backend/handlers/handlers.go:532-543 | every socket of the audience is written once, in any map order, and the failing ones are closed during the range |
| Hub.RunHub.CloseConn | backend/handlers/handlers.go:256-266 | a live socket is closed and counted once, an absent one not at all |
| Hub.RunHub.DropStaleSockets | backend/handlers/handlers.go:223-250 | as many sockets as exceed the cap are closed, none younger than one that stays |
| Hub.RunHub.Register | backend/handlers/handlers.go:293-320 | the socket goes in, the user is trimmed to the cap, the recorded timer is stopped, and everybody connected is told once that a user has come online, or nobody if they were online |
| Hub.RunHub.Unregister | backend/handlers/handlers.go:322-343 | the socket goes, and the last one of an online user starts a grace timer |
| Hub.RunHub.GraceExpired | backend/handlers/handlers.go:345-373 | the user is turned offline exactly if online without a socket, and then everybody connected is told so once |
| Hub.RunHub.ForceOffline | backend/handlers/handlers.go:375-391 | all sockets of the user are closed and a timer is started |
| Hub.RunHub.Broadcast | backend/handlers/handlers.go:393-478 | each socket of the two users is written once; a push follows exactly when the message has an id and no write to a socket of the recipient succeeded |
| Hub.RunHub.BroadcastGroup | backend/handlers/handlers.go:480-558 | members in turn without the author: each has a socket that took the frame or exactly one push, never both; nobody else is written or pushed to and no socket twice |
| Hub.DeliverOrPush | backend/handlers/handlers.go:522-558 | why the member loop settles a group message: a push for exactly the members that no write reached |
| HubRuns.EventKeepsCounts | backend/handlers/handlers.go:217-266 | every event keeps the counters equal to the maps and every user within the cap |
| HubRuns.Bookkeeping | backend/handlers/handlers.go:217-266 | after any run: total = live sockets, equal keys, registrations = connects = live + closed + evicted, write errors at most closed, messages = direct messages, nobody above the cap |
| HubRuns.CapHolds | backend/handlers/handlers.go:217-249 | after any run no user is behind more than the cap of live sockets |
| HubRuns.EventKeepsPresence | backend/handlers/handlers.go:293-391 | every event keeps live users online and every online user awaited by a timer, an expiry or an unregister |
| HubRuns.PresenceAlways | backend/handlers/handlers.go:293-391 | after any run a user with a socket is online, and an online user without one has a timer whose callback is still to come, a queued expiry, a socket still to be unregistered, or has met a full expiry channel and neither connected nor left since |
| HubRuns.QuietPresence | backend/handlers/handlers.go:345-373 | once timers and channel have run dry, online means exactly: has a live socket |
| HubRuns.FireOffers | backend/handlers/handlers.go:337-342 | a timer that goes off with fewer than 1024 expiries queued puts exactly its user at the end of the channel |
| HubRuns.DroppedOnlyWhenFull | backend/handlers/handlers.go:337-342 | an expiry is dropped only by a timer that met 1024 queued ones |
| HubRuns.PresenceWithRoom | backend/handlers/handlers.go:293-391 | over every run in which no timer met 1024 queued expiries: a user with a socket is online, and an online user without one has a timer, a queued expiry or an unregister still to come |
| HubRuns.DisconnectStartsGrace | backend/handlers/handlers.go:324-343 | a grace period starts exactly when the last socket of an online user goes |
| HubRuns.ExpiryDecides | backend/handlers/handlers.go:345-373 | an expiry turns its user offline exactly when they are online without a socket, and nobody else |
| HubRuns.OfflineOnlyWithoutSocket | backend/handlers/handlers.go:345-356 | nobody is turned offline while holding a socket |
| HubRuns.NewcomerSurvives | backend/handlers/handlers.go:299-305 | with a cap of at least one and distinct times, the socket just registered is never evicted |
| HubRuns.FullUserLosesOldest | backend/handlers/handlers.go:242-249 | a user at the cap loses exactly one socket, the oldest |
| HubRuns.ReconnectStopsTheTimer | backend/handlers/handlers.go:307-311 | a reconnect stops the recorded timer of that user, unless it has gone off already, and no other timer |
| HubRuns.ForceOfflineClosesAll | backend/handlers/handlers.go:375-390 | going offline closes all sockets of that user, keeps the others and leaves a new timer running |
| HubRuns.OnlyFailedSocketsClose | backend/handlers/handlers.go:570-579 | a broadcast closes exactly the addressed sockets whose write fails |
| RateLimit.Limiter.Compact | backend/handlers/handlers.go:2677-2685 | the in-place compaction leaves exactly the stamps of the last second, in order |
| RateLimit.Limiter.OnFrame | backend/handlers/handlers.go:2676-2691 | the slice always equals the accepted history filtered to the last second; a frame is refused exactly when that holds ten |
| RateLimit.WindowFull | backend/handlers/handlers.go:2686-2690 | the window is full exactly when the tenth stamp from the end is less than a second old |
| RateLimit.Serve | backend/handlers/handlers.go:2668-2691 | any eleven consecutive accepted frames span a second; the connection survives exactly when all its frames do, and is closed by the first that does not |
| Gate.Limiter.Acquire | frontend/src/app/services/concurrency.interceptor.ts:96-126 | a slot is granted exactly below the limit, otherwise the request queues last |
| Gate.Limiter.ReleaseSlot | frontend/src/app/services/concurrency.interceptor.ts:74-83 | the release as written, with the waiter it hands over to |
| Gate.Limiter.Abandon | frontend/src/app/services/concurrency.interceptor.ts:114-125 | a held slot is released, a queued entry leaves the queue and disturbs nobody |
| Gate.SlotAccounting | frontend/src/app/services/concurrency.interceptor.ts:70-126 | over every run, slots held = active + releases that handed over to the last waiter; whoever waits, somebody holds a slot |
| Gate.AgreesIffNotOneWaiter | frontend/src/app/services/concurrency.interceptor.ts:79-83 | a release does what the repaired one does exactly when not one single waiter is queued, and otherwise counts one slot too few |
| Gate.NoCeiling | frontend/src/app/services/concurrency.interceptor.ts:79-98 | for every n some run of the code as written ends with more than n requests in flight under a limit of one |
| Gate.RepairedGateHolds | frontend/src/app/services/concurrency.interceptor.ts:31-32 | with the repaired release, slots held = active <= 6 after every run, and whoever waits, somebody holds |
| Gate.ServedInOrder | frontend/src/app/services/concurrency.interceptor.ts:70-77 | k releases by any holders serve exactly the first k waiters |
| Gate.SlowStart | frontend/src/app/services/concurrency.interceptor.ts:58-63 | every second answer in a row opens one more slot, up to the ceiling |
| Gate.FromOneToSix | frontend/src/app/services/concurrency.interceptor.ts:31-68 | from the start, one request at a time, one more after every second answer, six at most; a loss starts over |
| Gate.CountedOnce | frontend/src/app/services/concurrency.interceptor.ts:161-189 | one request counts as one delivery however many signals it gives, and a loss always puts the limit back to one |
| Exif.ExifSegment | backend/imageproc/orientation.go:74-101 | the loop equals the recursive scan, and what it returns is the payload of an EXIF APP1 segment that stands in the data |
| Exif.ExifOrientation | backend/imageproc/orientation.go:23-70 | every read is in bounds, the scans end and the answer is in 1..8 |
| Exif.ReadsWhatWasWritten | backend/imageproc/orientation.go:23-101 | for any other segments, either byte order, any gap, directory and tail, the reader answers what the written directory says |
| Exif.OrientationRoundTrip | backend/imageproc/orientation.go:55-68 | a SHORT v in 1..8 as first orientation entry is read back as v |
| Exif.PhotoIsRead | backend/imageproc/orientation.go:23-101 | every photo in literal bytes, FF D8, other pieces, FF E1, Exif 00 00, and an MM or II block with tag 0x0112, SHORT, v, is read as v |
| Exif.OnlyATagTurns | backend/imageproc/orientation.go:20-22 | an answer other than 1 rests on II or MM, 42, a directory inside the block, and a first entry with tag 0x0112 of type 3 or 4 that says it |
| Exif.ATagTurns | backend/imageproc/orientation.go:28-70 | and such a header with such an entry that says v in 1..8 is answered v |
| Exif.ScanSkips | backend/imageproc/orientation.go:75-99 | any list of other length-prefixed segments, markers without length and stray bytes is skipped |
| Exif.NothingPastTheScan | backend/imageproc/orientation.go:85-88 | nothing is read behind the start of the scan or the end of the image |
| Exif.NothingPastABrokenLength | backend/imageproc/orientation.go:90-93 | nothing is read behind a length that is too small or points past the end |
| Orientation.Oriented | backend/imageproc/orientation.go:107-130 | every stored pixel ends where its orientation puts it, and any other value copies the picture |
| Orientation.Rotate90CW | backend/imageproc/orientation.go:132-141 | pixel (x, y) goes to (h-1-y, x) and width and height are swapped |
| Orientation.MovesAsTheStandardSays | backend/imageproc/orientation.go:112-130 | each orientation, compositions included, puts a pixel at the one place where its row and column lie on the sides that Exif 2.3 section 4.6.4 names |
| Orientation.TheEightPlaces | backend/imageproc/orientation.go:112-174 | the eight places in numbers; any other value leaves every pixel where it is |
| Orientation.MoveIsBijective | backend/imageproc/orientation.go:107-174 | no two pixels collide and every place is filled |
| Orientation.InverseUndoes | backend/imageproc/orientation.go:107-174 | each orientation is undone by one of the eight |
| Orientation.ComposeMoves | backend/imageproc/orientation.go:112-130 | two orientations in a row are one of the eight |
| Orientation.EveryPixelComesFromOne | backend/imageproc/orientation.go:107-130 | each pixel of the upright picture comes from exactly one stored pixel |
| Resize.FitIsExact | backend/imageproc/imageproc.go:134-150 | the long side becomes the limit; the other is in 1..limit, at most the source, and within half a pixel of the exact ratio unless clamped to one |
| Resize.FitIsIdempotent | backend/imageproc/imageproc.go:131-139 | never above the limit, never enlarged, and a second time unchanged |
| Resize.FitAgainReachesTheLimit | backend/imageproc/imageproc.go:102-112 | fitting an already fitted copy to a smaller limit reaches the same long side |
| Resize.FitCommutesWithTurning | backend/imageproc/imageproc.go:114-129 | fitting and turning commute on dimensions, for every orientation |
| Thread.MergeMessages | frontend/src/app/services/chat-thread.service.ts:74-107 | on objects updated in place the result is the merge of the values, and no object of the thread is replaced by a fetched one |
| Thread.MergeOne | frontend/src/app/services/chat-thread.service.ts:79-99 | one fetched message refreshes the object with its id, even when it is that object, or joins the map |
| Thread.MergeKeepsEverything | frontend/src/app/services/chat-thread.service.ts:74-107 | the merged ids are exactly the union and each appears once |
| Thread.MergeIsSortedAndStable | frontend/src/app/services/chat-thread.service.ts:102-104 | sorted by time, and messages of one moment keep the order of the map |
| Thread.AddedIdsAreTheNewOnes | frontend/src/app/services/chat-thread.service.ts:78-100 | addedIds are exactly the new ids, each once, in order of first arrival |
| Thread.FateOfEachId | frontend/src/app/services/chat-thread.service.ts:80-97 | the last read flag wins, real text is never replaced, and a placeholder is replaced exactly when real text for that id arrives |
| Thread.WhatBecomesOfTheThread | frontend/src/app/services/chat-thread.service.ts:79-99 | every message of the thread stays: real text as it was, a placeholder with the first real text fetched for it, the read flag fetched last, everything else unchanged |
| Thread.WhatBecomesOfANewOne | frontend/src/app/services/chat-thread.service.ts:79-99 | the first fetched copy of a new message joins the thread and becomes what the rest of the batch makes of it |
| Thread.MergeIsIdempotent | frontend/src/app/services/chat-thread.service.ts:59-73 | merging the same batch again changes nothing and adds nothing |
| Display.BuildDisplayItems | frontend/src/app/services/chat-thread.service.ts:34-57 | for every message, right behind the one before it: a separator with its day's label if it is the first or its day key is another, the divider if its index is the given one, and the message |
| Display.ItemsReadBack | frontend/src/app/services/chat-thread.service.ts:34-57 | erasing separators gives the thread back, one label per maximal same-day run, the divider once exactly when its index is in range |
| Display.Placed | frontend/src/app/services/chat-thread.service.ts:42-53 | where each message stands: separator, then divider, then message |
| Display.OneSeparatorPerDay | frontend/src/app/services/chat-thread.service.ts:42-47 | in a thread sorted by time no day gets two separators |
| Display.OpensWithItsDate | frontend/src/app/services/chat-thread.service.ts:42-47 | every non-empty thread opens with the date of its first message |
| Display.AsManySeparatorsAsDays | frontend/src/app/services/chat-thread.service.ts:42-47 | a thread sorted by time shows exactly as many separators as it has distinct day keys |
| Optimistic.Claim | frontend/src/app/services/chat-thread.service.ts:114-119 | an id is accepted once, and a frame without an id always |
| Optimistic.FinalizeOptimistic | frontend/src/app/services/chat-thread.service.ts:131-156 | the first message with the temporary id changes in place and the index follows its id |
| Optimistic.RollbackOptimistic | frontend/src/app/services/chat-thread.service.ts:159-165 | the message and its claim are removed together |
| Optimistic.IndexMatchesThread | frontend/src/app/services/chat-thread.service.ts:109-165 | over any sequence of frames, sends, answers, rejections and fetches the index is exactly the shown ids that the server assigned, and no id is shown twice exactly when no answer since the last fetch carried an id that another message showed already |
| Optimistic.FrameShownOnce | frontend/src/app/services/chat-thread.service.ts:109-119 | a frame is shown exactly when its message is not on screen, and a repeated frame changes nothing |
| Optimistic.FinalizeKeepsIdsDistinct | frontend/src/app/services/chat-thread.service.ts:142-146 | confirming keeps ids distinct exactly when no other message shows the server's id |
| Optimistic.FetchBeforeAnswerDuplicates | frontend/src/app/services/chat-thread.service.ts:142-146 | a run from an empty thread, send, fetch, answer, that ends with the message on screen twice |
| Optimistic.FinalizeTouchesOne | frontend/src/app/services/chat-thread.service.ts:137-155 | only that message changes: no longer pending, the server's id, images and sticker, its own text |
| Optimistic.RollbackRemovesOne | frontend/src/app/services/chat-thread.service.ts:159-165 | the first message with the temporary id goes and no other |
| Tokens.TokenStore.ClaimRefreshToken | backend/database/tokens.go:34-68 | accepted, for the row's user, exactly when the row exists, is unexpired and is unused or was used within the grace period; then its first use is on record, otherwise the row is gone; every other row is as it was |
| Tokens.DeletionIsInvisible | backend/database/tokens.go:29-78 | over every run the answers equal those of a book that never deletes and accepts exactly what was issued, not logged out, unexpired, and never claimed or first claimed within the grace period |
| Tokens.AnswersFromTheStart | backend/database/tokens.go:29-105 | the same from the empty table on, with no condition but a clock that does not run backwards and ids that are issued once |
| Tokens.StepAgrees | backend/database/tokens.go:34-78 | each step answers as the book does, and a missing row is a token that is dead already |
| Tokens.RefusedForever | backend/database/tokens.go:31-33 | an issued token that was refused once is refused after every further run |
| Tokens.SecondClaimWithinGrace | backend/database/tokens.go:17-27 | of two contexts with one token the second is accepted, for the same user, exactly while grace and expiry last |
| Tokens.PurgeKeepsTheLive | backend/database/tokens.go:70-78 | a purge deletes exactly the tokens that a claim at that moment would refuse |
| Tokens.LogoutDeletesTheUsers | backend/database/tokens.go:102-105 | exactly that user's tokens go |
| LruCache.Cache.EnforceLimit | backend/cache/lru_cache.go:70-105 | what is evicted is a shortest oldest-access prefix that makes the rest fit; without a positive limit nothing is |
| LruCache.Cache.EvictOldest | backend/cache/lru_cache.go:87-104 | the running total equals the real sum, so the query never comes up empty |
| LruCache.Cache.StoreFile | backend/cache/lru_cache.go:28-47 | the file and its row are replaced together, then the limit is enforced; a failed write changes nothing |
| LruCache.Cache.ReadFile | backend/cache/lru_cache.go:49-62 | the stored bytes come back and only the access time changes |
| LruCache.Cache.ClearServerCache | backend/cache/lru_cache.go:115-122 | exactly the files and rows of that server go |
| LruCache.StoredBytesWithinLimit | backend/cache/lru_cache.go:70-105 | after an eviction the bytes of that server are within the limit and other servers are untouched |
| LruCache.TheOldestGo | backend/cache/lru_cache.go:87-94 | what is evicted was last accessed no later than anything of that server that stays, and goes in that order |
| LruCache.EvictionIsUnique | backend/cache/lru_cache.go:91-94 | with distinct access times there is only one possible eviction |
| LruCache.NewestSurvives | backend/cache/lru_cache.go:39-45 | a file that fits on its own and was used last survives its own store |

## Left out

- SQL errors: a failing query leaves a search or a broadcast empty in the source; statements always succeed here, except the insert of a queued row.
- Interleavings inside one handler, ping or drain: each is one atomic step. A finer grain would let a ping overwrite an admin block.
- QueueRuns.UnparseableRowsNeverOccur: that an encoded body decodes again is part of the data model, because the encoder is a library; the lemma shows that no run brings in any other row. Numbers that lose precision on the way are not modelled.
- The request timeouts, the retrying send and file downloads of the transport.
- The times of the drain tick, the ping interval and the grace timers: a timer may fire at any moment.
- The `last_seen` stamp, log lines, write deadlines and the contents of message frames and pushes in the hub; which presence frame goes to whom is modelled.
- A member query that fails in the group broadcast: nothing is sent then.
- WebSocket reading, the friendship check and message storage behind the rate limit.
- Uploads and sign-in requests that bypass the gate, and the promise plumbing around a granted slot.
- JPEG fill bytes and a LONG orientation in big-endian order: the reader takes FF FF for a segment and reads half of the number; the round trips do not cover such files.
- JPEG decoding and encoding, resampled pixel values, and pictures whose bounds do not start at the origin.
- Floating-point rounding in `fit`: dimensions are over exact rationals.
- Day keys and day labels: the calendar is a parameter of the display items.
- Messages with a missing or invalid date.
- Thread.MergeMessages: does not cover a fetched batch that repeats an object or shares one with the thread. Every batch is a freshly parsed response; on shared objects the loop would read values that it has itself changed, so the result is not a merge of the values.
- Sub-second times and datetime text in the token table, and `GetRefreshToken`, which nothing calls.
- Token ids that are issued twice: ids are random, and a run issues each once.
- Cache keys that are paths, and files left half written by a failed write.
- Cryptography, sign-in, posts, polls, stickers, invites, backups and push delivery: calls into libraries or plain storage.
