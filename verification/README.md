# Traffic monitor core, modelled in Dafny

A model of the capture-and-aggregation pipeline of a Go network traffic
monitor (module `traffic-sniff`):

- **The packet capture session** (`Capture`, capture.dfy). It classifies
  each decoded packet as incoming or outgoing with a string-prefix
  heuristic, counts it into per-interface counters, and counts TCP/UDP
  packets into a per-session connection table. Once a second it flushes
  both into the store and zeroes the per-second interface counters. When
  no interface is named, it picks the first device that has an address and
  is not named `lo` or `lo0`.
- **The in-memory aggregate store** (`MemoryStore`, memory.dfy). It holds
  a connection table and an interface table. Connections are upserted with
  a merge rule: the average of the rates, overwrite of the totals. There
  are two read paths over the last five seconds with different boundaries,
  a bounded list of the newest 3600 snapshots, a range query over that
  list, and a wholesale clear.
- **The capture manager** (`CaptureManager`, manager.dfy). This is the
  state machine that starts, switches and stops the single capture
  session. The exit of a session's goroutine is a separate event.
- **The hour-bucketed history store** (`FileStore`, file.dfy). It keeps
  one file per local hour. A save appends to its hour's file. A range
  query reads the files from the hour of `start` to the hour after that of
  `end`.
- **The records** (`Models`, models.dfy) and string facts (`Strings`,
  strings.dfy). The records are the connection, interface counters,
  snapshot, historical point and filter. The string facts are decimal
  rendering and splitting at a separator.

Times are integer nanoseconds since the epoch. The clock is a parameter
(`now`). Go pointers that may be nil become `Option`.

Two facts of the code need care. The first is modelled as written; the
second is replaced by value semantics, and the model marks where the two
differ:

- **Two connection-key schemes.** The session keys connections with
  decimal ports (`Capture.SessionKey`). The store re-keys them with Go's
  `string(uint16)` conversion, which makes one code point of the port
  (`MemoryStore.ConnectionKey`). All ports from 0xD800 to 0xDFFF become
  U+FFFD, the same character as port 0xFFFD. Two session entries can
  therefore land on one store entry, and the result then depends on the
  flush order.
- **The store keeps the session's live objects.** The store holds value
  copies here. In the source, the store keeps the session's pointers, so
  the averaging merge combines an object with itself (when no other
  session entry shares its store key), and the tick's zeroing of the
  per-second fields also reaches the stored interface entry. Three more
  consequences follow in the source and not in the model. When two session
  entries share a store key, the flush writes the second one's bytes,
  packets, last-seen time and averaged rate into the first one's object,
  which is still a live session entry: a session entry's bytes and packets
  can then drop (for example from 1000 bytes and 10 packets to 100 and 1),
  and the session's table changes during a flush. And after the first
  tick, the stored connection entries are the live ones, so a snapshot
  taken between ticks sees their bytes and last-seen time as they grow,
  where the model shows the values of the last tick. The model flags this
  divergence in memory.dfy and in `MemoryStore.MergeSelf`, and
  `Capture.ReplayGrows` and `Capture.PacketCapture.Flush` hold for the
  value-semantics model only.

Behaviours a reader might not expect, modelled as the code has them:

- The file query adds one hour of slack after `end` only, not on both
  sides.
- The store's merge overwrites cumulative counters rather than keeping
  the larger value.
- The heuristic tests the prefix "10", not "10.".
- The in-memory range query ignores its `interval` argument, as the code
  does.

## Model

| member | source | states |
|---|---|---|
| Models.Points | backend/internal/storage/memory.go:139-153 | a range query yields no more points than there are snapshots, and every point's timestamp lies in [start, end] |
| Models.PointsMember | backend/internal/storage/file.go:103-116 | a point is produced iff some snapshot is neither before start nor after end, carries interface stats, and the point holds that snapshot's four per-second counters |
| Models.PointsAppend | backend/internal/storage/memory.go:139 | points keep the stored order: the points of a concatenation are the concatenation of the points |
| Models.PointsSingle | backend/internal/storage/memory.go:140-151 | one snapshot yields its point iff it is in range and has interface stats, else nothing |
| Strings.Decimal | backend/internal/capture/capture.go:149 | `%d` rendering is all digits, non-empty, and has two or more digits exactly from 10 up |
| Strings.DecimalInjective | backend/internal/capture/capture.go:149 | distinct ports render as distinct decimal strings |
| MemoryStore.KeyOfTuple | backend/internal/storage/memory.go:158-161 | the store key depends only on the 5-tuple, not on counters or times |
| MemoryStore.PortRune | backend/internal/storage/memory.go:159-160 | a port becomes U+FFFD exactly when it is a surrogate (0xD800-0xDFFF) or 0xFFFD itself; `ConnectionKey` uses it for both ports |
| MemoryStore.ConnectionKey | backend/internal/storage/memory.go:158-161 | the store key is the two addresses, the protocol, two `:` and two `-` separators, and one character for each port |
| MemoryStore.SurrogatePortsCollide | backend/internal/storage/memory.go:158-161 | the store key is not injective: any two ports in 0xD800-0xDFFF or equal to 0xFFFD give the same key, as source or as destination port |
| MemoryStore.WindowsDifferAtBoundary | backend/internal/storage/memory.go:77-96 | the snapshot window is contained in the filter window, and the two differ exactly for a connection last seen at now minus 5 s |
| MemoryStore.Merge | backend/internal/storage/memory.go:34 | the merged rate is the floor of the average of the old and new rates |
| MemoryStore.UpsertAbsent | backend/internal/storage/memory.go:38-40 | on a new key the incoming connection is inserted as is and every other entry is kept |
| MemoryStore.UpsertPresent | backend/internal/storage/memory.go:32-37 | on a present key bytes, packets and last-seen are overwritten, the rate averaged down, and the tuple and start time kept; other entries unchanged |
| MemoryStore.Upsert | backend/internal/storage/memory.go:31-40 | the table gains the connection's store key, and the entry under it has the connection's bytes, packets and last-seen time, whether the key was present or not |
| MemoryStore.MergeSelf | backend/internal/storage/memory.go:39 | merging a connection with itself, which is what the shared pointer makes happen when no other session entry shares the store key, changes nothing |
| MemoryStore.MergeOrderMatters | backend/internal/storage/memory.go:34 | the averaging merge is not commutative: two arrival orders give different rates |
| MemoryStore.UpsertAllKeys | backend/internal/capture/capture.go:75-77 | after a flush the store's keys are the old keys plus the store keys of every flushed connection |
| MemoryStore.UpsertAllWellKeyed | backend/internal/storage/memory.go:31-40 | every entry stays stored under its own connection key |
| MemoryStore.UpsertAllUntouched | backend/internal/capture/capture.go:75-77 | an entry whose key no flushed connection has is neither added nor changed |
| MemoryStore.UpsertAllDistinct | backend/internal/capture/capture.go:75-77 | when flushed connections have distinct store keys, each entry is the single upsert of its own connection, so the flush order does not matter |
| MemoryStore.UpsertAllOrderMatters | backend/internal/capture/capture.go:75-77 | any two connections with one store key but different 5-tuples, flushed into a table that lacks the key, give different store contents in the two orders |
| MemoryStore.Newest | backend/internal/storage/memory.go:122-127 | the trimmed list has at most the limit's length, is no longer than the full list, and is a suffix of it |
| MemoryStore.NewestIsSuffix | backend/internal/storage/memory.go:125-127 | the kept list has min(n, max) elements and they are the last ones of the full list, in order |
| MemoryStore.NewestAppend | backend/internal/storage/memory.go:122-127 | trimming after every append gives the same list as trimming the whole history once |
| MemoryStore.Matches | backend/internal/storage/memory.go:100-109 | an all-empty filter matches every connection, and a protocol filter admits only that protocol |
| MemoryStore.MemoryStorage.Select | backend/internal/storage/memory.go:95-113 | the scan over the connection table returns exactly the stored connections the test keeps, each once |
| MemoryStore.MemoryStorage.constructor | backend/internal/storage/memory.go:18-25 | an empty store with a limit of 3600 snapshots |
| MemoryStore.MemoryStorage.UpdateConnection | backend/internal/storage/memory.go:27-41 | the connection table becomes the upsert of the connection; interfaces and snapshots are unchanged |
| MemoryStore.MemoryStorage.UpdateInterface | backend/internal/storage/memory.go:43-48 | only the entry under the stats' interface name is replaced; connections and snapshots are unchanged |
| MemoryStore.MemoryStorage.GetSnapshot | backend/internal/storage/memory.go:50-86 | the snapshot is stamped now, has an interface iff the table is non-empty and then one of its entries, and holds each stored connection last seen strictly after now minus 5 s, once |
| MemoryStore.MemoryStorage.GetFilteredConnections | backend/internal/storage/memory.go:88-116 | a stored connection is returned, once, iff it is not older than now minus 5 s and matches the IP, port and protocol filter, each empty or zero filter matching anything |
| MemoryStore.MemoryStorage.AddSnapshot | backend/internal/storage/memory.go:118-128 | the list becomes the newest min(n+1, 3600) elements of the old list plus the snapshot, in order; the tables are unchanged |
| MemoryStore.MemoryStorage.GetHistoricalData | backend/internal/storage/memory.go:130-156 | the result is the points of the stored snapshots in range that carry interface stats, in stored order |
| MemoryStore.MemoryStorage.ClearConnections | backend/internal/storage/memory.go:164-171 | both tables become empty and the snapshot list is kept |
| MemoryStore.ClearThenSnapshot | backend/internal/storage/memory.go:164-171 | a snapshot taken after a clear has no connection and no interface, and the snapshot list survives |
| Capture.IsLocalIP | backend/internal/capture/capture.go:178-181 | only addresses of at least three characters count as local; a one- or two-character address is outside the precondition, as the source's slice panics on it |
| Capture.LocalIPHeuristic | backend/internal/capture/capture.go:178-181 | the heuristic accepts 192.x, 10.x, 127.0.0.1 and ::1, also 100.64.0.1, public 172.x and 1920::1, and rejects 8.8.8.8, 127.0.0.2, fe80::1 and "" |
| Capture.LocalByPrefix | backend/internal/capture/capture.go:180 | every address starting with "10", "172" or "192" counts as local |
| Capture.SessionKey | backend/internal/capture/capture.go:149 | the session key is the source address, `:`, the decimal source port, `-`, the destination address, `:`, the decimal destination port, `-` and the protocol; that it determines the 5-tuple is `Capture.SessionKeyInjective` |
| Capture.SessionKeyInjective | backend/internal/capture/capture.go:149 | for addresses without '-', equal session keys mean equal 5-tuples |
| Capture.KeySchemesDisagree | backend/internal/capture/capture.go:149 | two connections differing only in a source port from 0xD800-0xDFFF or 0xFFFD have different session keys but the same store key |
| Capture.CountPacket | backend/internal/capture/capture.go:87-169 | one packet never renames the interface; its effect on the counters and table is stated by the four lemmas below |
| Capture.NonIPIgnored | backend/internal/capture/capture.go:89-111 | a packet without an IPv4/IPv6 layer changes neither the counters nor the connection table |
| Capture.OneDirection | backend/internal/capture/capture.go:113-124 | an IP packet adds its length and one packet to exactly one direction's totals and per-second counters, chosen by the destination heuristic; the other direction stays |
| Capture.NoTransportNoConnection | backend/internal/capture/capture.go:126-146 | without a TCP or UDP layer the connection table is unchanged |
| Capture.ConnectionCounted | backend/internal/capture/capture.go:148-168 | a TCP/UDP packet touches only its key's entry, created with the packet's 5-tuple, protocol "TCP" or "UDP", zero counters and start time now if absent, and otherwise keeping its tuple, protocol and start time; bytes grow by the length, packets by one, the rate becomes the length, and last-seen becomes now |
| Capture.CountKeepsKeyed | backend/internal/capture/capture.go:149-168 | a packet keeps every session entry under the session key of its own 5-tuple |
| Capture.Step | backend/internal/capture/capture.go:66-83 | one event of the loop (a packet, a tick or a cancellation) never renames the interface |
| Capture.Replay | backend/internal/capture/capture.go:66-84 | a run without packets leaves the connection table as it was |
| Capture.FirstCancel | backend/internal/capture/capture.go:66-69 | the session stops at the first cancellation: no earlier event is one |
| Capture.TickResets | backend/internal/capture/capture.go:78-82 | a tick zeroes the four per-second counters and keeps the totals, the name and the connection table |
| Capture.ReplayGrows | backend/internal/capture/capture.go:66-83 | over any run of packets and ticks the cumulative interface counters and each connection's bytes and packets never decrease, and no connection is lost (in the value-semantics model; see the aliasing paragraph) |
| Capture.ReplayKeepsKeyed | backend/internal/capture/capture.go:66-83 | over any run, a table whose entries sit under their own session keys stays so, so what a tick hands to the store carries the tuple of its key |
| Capture.Tally.constructor | backend/internal/capture/capture.go:57-64 | a session starts with zero counters for its interface and no connections |
| Capture.AutoSelect | backend/internal/capture/capture.go:34-40 | the chosen name is "" or the name of a listed device that has an address and is not named lo or lo0 |
| Capture.AutoSelectFirst | backend/internal/capture/capture.go:34-40 | auto-selection names the first device with an address that is not "lo" or "lo0", and "" when there is none |
| Capture.SelectDevice | backend/internal/capture/capture.go:26-41 | the early-exit search over the device list returns the auto-selected name |
| Capture.PacketCapture.constructor | backend/internal/capture/capture.go:48-51 | a new capture holds an open handle on its interface |
| Capture.PacketCapture.Close | backend/internal/capture/capture.go:171-175 | the handle is closed afterwards, also when it already was |
| Capture.PacketCapture.ProcessPacket | backend/internal/capture/capture.go:87-169 | the step-by-step in-place updates leave the session's counters and table equal to the packet's effect |
| Capture.PacketCapture.Flush | backend/internal/capture/capture.go:72-83 | the store gets the interface counters once and every tracked connection once, in some order that lists each key once; the per-second counters are then zero and the session's table (in the value-semantics model; see the aliasing paragraph) and the snapshot list are unchanged |
| Capture.PacketCapture.Start | backend/internal/capture/capture.go:54-85 | the loop returns nil at the first cancellation with the accumulators of the events before it, and leaves the snapshot list unchanged; without a tick it writes nothing to the store |
| Capture.NewPacketCapture | backend/internal/capture/capture.go:24-52 | listing failure, an empty listing and an unopenable device are the three errors; otherwise a fresh open capture on the named or auto-selected interface |
| Capture.TwoPacketsCounted | backend/internal/capture/capture.go:113-168 | two outgoing TCP packets of 100 and 200 bytes give one connection with 300 bytes, 2 packets, rate 200, started at the first and last seen at the second, and 300 outgoing bytes in 2 packets on the interface |
| Capture.FlushSingle | backend/internal/capture/capture.go:75-77 | a flush of a one-entry session table into an empty store stores exactly that connection under its store key |
| Capture.TwoPacketsThenTick | backend/internal/capture/capture.go:70-83 | after those two packets and a tick an empty store holds exactly that connection and the interface counters as they were at the tick |
| CaptureManager.CancelContext.constructor | backend/internal/capture/manager.go:56 | a new session context is not cancelled |
| CaptureManager.CancelContext.Cancel | backend/internal/capture/manager.go:108-110 | cancelling marks the context done |
| CaptureManager.Manager.constructor | backend/internal/capture/manager.go:23-28 | a new manager runs nothing, has no capture or context, names no interface, and uses the given store |
| CaptureManager.Manager.StopCapture | backend/internal/capture/manager.go:101-123 | it always returns nil; when idle it changes nothing; when running it cancels the context, closes and drops the capture, clears the flag, and keeps the interface name |
| CaptureManager.Manager.Start | backend/internal/capture/manager.go:30-79 | a running session is stopped first (the stop error path cannot happen) and the store tables are cleared even if the open then fails; a failure keeps the flag off and the old name, a success records a fresh uncancelled context and an open capture, and the argument as the name |
| CaptureManager.Manager.SwitchInterface | backend/internal/capture/manager.go:81-84 | the same effect as Start on the new name |
| CaptureManager.Manager.GetCurrentInterface | backend/internal/capture/manager.go:86-91 | the recorded name |
| CaptureManager.Manager.Stop | backend/internal/capture/manager.go:93-99 | stops the session as StopCapture does; a second Stop changes nothing |
| CaptureManager.Manager.CaptureExited | backend/internal/capture/manager.go:72-75 | a session's exit clears the running flag whichever session it was, and touches nothing else |
| CaptureManager.StaleExitAfterSwitch | backend/internal/capture/manager.go:65-76 | after a switch and the replaced session's exit, a Stop leaves the new session's context uncancelled and its handle open while the manager reports nothing running |
| CaptureManager.StaleExitThenRestart | backend/internal/capture/manager.go:36-76 | after a switch and the replaced session's exit, the next Start runs a new session while the previous one stays uncancelled with its handle open, and the manager holds neither |
| FileStore.LocalHour | backend/internal/storage/file.go:43-45 | a snapshot's file is that of the local hour containing its time |
| FileStore.Stored | backend/internal/storage/file.go:88-98 | a read yields something only from a file that exists and decodes, and then yields its snapshots |
| FileStore.AfterSave | backend/internal/storage/file.go:48-63 | a save adds the snapshot's local hour to the directory's files and removes none |
| FileStore.SaveAppends | backend/internal/storage/file.go:48-63 | a save changes only its hour's file, which becomes the old decoded content plus the snapshot; a missing or undecodable file counts as empty |
| FileStore.SaveKeepsStored | backend/internal/storage/file.go:49-55 | a save never removes what a read of any hour returned before |
| FileStore.Gather | backend/internal/storage/file.go:82-117 | the collected points all lie in [start, end] |
| FileStore.FirstQueryHour | backend/internal/storage/file.go:78 | the query's first hour is the UTC hour of start (`UtcHour`) |
| FileStore.UtcHour | backend/internal/storage/file.go:77-79 | the UTC hour containing an instant, as `Truncate(time.Hour)` gives it |
| FileStore.LastQueryHour | backend/internal/storage/file.go:78-79 | the query's last hour is the one after the hour of end |
| FileStore.GatherMember | backend/internal/storage/file.go:82-117 | a point is collected iff the file of some visited hour yields it |
| FileStore.GatherSplit | backend/internal/storage/file.go:82 | results come by ascending hour: the points of a span of hours are those of its first part followed by those of the rest |
| FileStore.VisitedFilesDistinct | backend/internal/storage/file.go:82-84 | distinct visited hours read distinct files, so no file is read twice |
| FileStore.BucketVisited | backend/internal/storage/file.go:77-84 | the file of any time in [start, end] is among the files the query visits |
| FileStore.SavedThenFound | backend/internal/storage/file.go:44-116 | after saving a snapshot with interface stats, a query whose range contains its time returns its point |
| FileStore.SaveKeepsPoints | backend/internal/storage/file.go:49-55 | a later save keeps every point a query already returned |
| FileStore.FileStorage.constructor | backend/internal/storage/file.go:20-37 | a store over the given directory and local offset |
| FileStore.FileStorage.SaveSnapshot | backend/internal/storage/file.go:39-68 | success iff the file can be written, and then the directory is the one after the save; otherwise it is unchanged |
| FileStore.FileStorage.ReadHour | backend/internal/storage/file.go:88-117 | one hour's file contributes the points of its snapshots, or nothing when it is missing or undecodable |
| FileStore.FileStorage.GetHistoricalData | backend/internal/storage/file.go:70-122 | the hour-stepping loop returns the points of all visited files, in hour order and then file order, and never an error |

## Left out

- Locks, goroutines, tickers and `time.Sleep`: each public method is one atomic step. A session's goroutine exit is the explicit event `CaptureExited`. A session's run is a finite list of events.
- Packet decoding and device handles of the capture library: a packet is an abstract datatype. Opening a device is a set of openable names. Device listing is a parameter.
- The wall clock: every operation that reads it takes `now` instead. A new connection's start time and its last-seen time are the same `now`, where the source reads the clock twice.
- Unsigned 64-bit wrap-around of byte and packet counters and of the rate sum in the merge: counters are unbounded naturals.
- Pointer aliasing between the session and the store: the store has value semantics (see above and `MemoryStore.MergeSelf`). Not captured: a colliding flush writing into a live session entry (so session counters can drop and the session table changes during a flush), and snapshots between ticks seeing live connection values.
- Go map iteration order: it is an arbitrary enumeration of the keys (`Capture.PacketCapture.Flush`'s ghost `order`), or an arbitrary entry (`GetSnapshot`'s interface).
- The type check of the store inside the manager's Start: it always succeeds in this program, so the clear is unconditional.
- Calendar rendering of file names (`traffic_YYYY-MM-DD_HH.json`), JSON encoding and the file system: files are a map from local hour index to content, with the local clock a fixed offset from UTC. Daylight-saving changes, which can make two UTC hours share one file, are not modelled.
- Capture.IsLocalIP: requires an empty address or one of at least three characters. The source's slice panics on a one- or two-character address such as "::", so such packets (`Capture.Addressable`) are excluded from `ProcessPacket`, `CountPacket` and the session loop.
- Capture.PacketCapture.Start: states the store's new content only for runs without a tick; with ticks, each tick's effect is the contract of `Flush`.
- FileStore.FileStorage.SaveSnapshot: a failed write leaves the file unchanged. A partial write that leaves a truncated file is not modelled. JSON encoding errors (times outside years 0-9999) are not modelled either.
- FileStore.Bucket: a file that does not decode is read as empty. Partial decoding of a well-formed array with mistyped elements is not modelled.
- HTTP handlers, middleware and process start-up are not part of this model.
