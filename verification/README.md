# noa: a verified model of the edge client

`noa` is an OpenZiti edge client. It talks to a controller over HTTP, keeps sessions and services in shared caches, and
carries many connections over one multiplexed router channel with a binary frame protocol. This project models that
logic in Dafny and proves what its code and documentation promise. Everything outside the logic (controller, router,
transport, clock, random draws, other tasks) is a parameter or an environment step, and nothing is assumed of it that is
not written in a `requires`, an `Enabled` predicate or a named law.

| file | modules | component |
|---|---|---|
| `Base.dfy` | `Base` | fixed-width integers, results, sequence algebra |
| `Codec.dfy`, `Frames.dfy` | `Codec`, `Frames` | V2 frames: header section, whole frames, frames on a byte stream |
| `Conn.dfy`, `Write.dfy` | `SecretStream`, `DialWire`, `ReadHalf`, `WriteHalf`, `WriteRuns` | the two halves of a connection and the splice that feeds them |
| `EndToEnd.dfy` | `EndToEnd` | socket bytes in, socket bytes out, over a shared channel |
| `ConnIds.dfy`, `Mux.dfy`, `Inspect.dfy` | `ConnIds`, `Mux`, `Teardown`, `MuxRuns`, `Inspect` | id allocation, registration and close, inspection |
| `Accept.dfy` | `Accept` | accepting a dial on a hosted service |
| `Sessions.dfy`, `Retry.dfy` | `Sessions`, `SessionRuns`, `Retry` | the dial-session cache under concurrency, and one dial over it |
| `Services.dfy`, `Polling.dfy` | `Services`, `ServiceFetch`, `GatedPolling` | service diffs and listeners, paging, gated polling |
| `Pool.dfy` | `ChannelPool`, `PoolRuns` | the router-channel pool and its racing openers |
| `Timing.dfy` | `RefreshTiming` | the delays of the service-refresh timer |

Objects whose methods update fields are classes whose methods are proved against functions of the old state. Concurrent
protocols are step systems: a state, an `Enabled` predicate, an `Apply` function built from the same functions as the
classes, an invariant, and theorems over every run. A lock-protected section is one step; an `await`, or the gap between
two locks, is a boundary between steps.

Check everything with `dafny verify dfyconfig.toml`.

## Where a promise does not hold as stated

Each of these keeps the code as it is, shows the failing input, and proves the exact condition under which the promise
holds.

* **FIN before StateClosed.** `close_write` and `close` both take `&self`; overlapped, a FIN can follow a StateClosed
  (`WriteRuns.OverlappingClosersBreakOrder`). It does exactly when a whole `close` falls inside the `close_write` that
  raised the flag (`WriteRuns.OrderBreaksIff`); so callers that never start one during the other, such as `splice`, are
  safe (`WriteRuns.SequentialClosersKeepOrder`), and no others are (`WriteRuns.OverlapCanBreak`).
* **The allocator returns.** It loops for ever when nothing it can reach is free; a free id strictly inside the range is
  enough, and the exact condition is `ConnIds.Target` (`ConnIds.FreeIdSuffices`, `ConnIds.OtherwiseLoopsForever`).
* **A close drops everything.** It does for connections and binds, not for reply waiters
  (`Teardown.WaiterMayOutliveClose`): those inserted after the clearing step and not taken remain, and no others
  (`Teardown.WaiterSurvivesIff`).
* **A refused dial leaves other connections alone.** The child is filed before its crypto is set up and taken out again
  when that is refused; under an id the router has provided before, that drops the live connection
  (`Accept.RefusedDialForgets`). It happens to exactly those ids (`Accept.ForgottenIff`), and to no connection otherwise
  (`Accept.AcceptPending`).
* **A second failure other than `invalid session` keeps the fresh session.** The comment in `retry.rs` says so without
  qualification; a router-less opaque session whose own recovery answers 404 is evicted all the same
  (`Retry.FreshSessionForgotten`). `Retry.RetryOnce` states the exact condition. For the same reason "one probe" counts
  the retry's probe; a dial of a router-less session makes its own.
* **The evicted session never returns.** For opaque sessions this rests on the controller echoing the id it was asked
  about; without that a foreign answer brings one back (`SessionRuns.ForeignBodyResurrects`), and nothing else does
  (`SessionRuns.ReturnsIff`, `SessionRuns.ImportsAreOpaque`).
* **A listener's mirror equals the cache, and an identical poll is silent.** Both fail when a fetched list gives one name
  two versions (`Services.MirrorDrifts`, `Services.MirrorFollowsIff`, `Services.RepollSilentIff`).
* **A gated poll misses nothing.** `prime_service_cache` reconciles without touching the stored instant; an outdated list
  primed after a gated poll leaves the gate shut on a wrong cache (`GatedPolling.StalePrimeIsMissed`). Priming while no
  instant is stored is always safe (`GatedPolling.PrimingFirstMissesNothing`), with the current one stored it is not
  (`GatedPolling.PrimeSafeIff`), and `GatedPolling.PrimeKeepsSyncIff` says which lists are.
* **A retry waits at most half the interval.** Exactly when the interval is 10 s or more (`RefreshTiming.BackoffBounds`).

## Model

| member | source | states |
|---|---|---|
| Codec.ParseHeaders | src/channel/message.rs:171-187 | the loop succeeds exactly on the buffers some entry sequence encodes to, and yields that sequence with the last entry of each key |
| Codec.HeadersOfGrammar | src/channel/message.rs:171-187 | the same, both directions, for the specification function, so a buffer has at most one reading |
| Codec.DecodeEncode | src/channel/message.rs:171-187 | decoding inverts encoding, entry by entry |
| Codec.EncodeDecode | src/channel/message.rs:171-187 | encoding inverts decoding: no two entry sequences share bytes and nothing is skipped |
| Codec.HeadersRoundTrip | src/channel/message.rs:87-99 | a header map written in key order reads back as the same map |
| Codec.HeaderOrderIrrelevant | src/channel/message.rs:171-187 | any permutation of entries with distinct keys reads as the same map |
| Codec.EntryBytes | src/channel/message.rs:87-96 | an entry by byte position: key and length little-endian, the key in two's complement, then the value |
| Codec.EntriesAt | src/channel/message.rs:87-96 | the entries stand one behind the other, each where the lengths before it say, with nothing in between |
| Codec.LastEntryWins | src/channel/message.rs:171-187 | the map read has exactly the keys that occur, each with the value of its last entry |
| Codec.HeaderRefusals | src/channel/message.rs:171-187 | behind any whole entries, which truncated tails give which of the two errors |
| Codec.CollapseNeverGrows | src/channel/message.rs:171-187 | collapsing duplicates and re-encoding never needs more bytes than were read |
| Frames.MarshalHeaders | src/channel/message.rs:87-96 | the loop over the map emits the canonical header section |
| Frames.MarshalV2 | src/channel/message.rs:87-108 | the written bytes are the frame of the message |
| Frames.FrameBytes | src/channel/message.rs:87-108 | a frame by byte position: the magic 03 06 09 0c, then content type, sequence and both lengths as little-endian words, the header section and the body |
| Frames.FrameHeaders | src/channel/message.rs:87-99 | the header section holds every header of the map once, in ascending key order, each at its own offset |
| Frames.ParseMarshal | src/channel/message.rs:87-187 | for every message and any trailing bytes, parsing its frame gives the message back if and only if it is within the cap, and otherwise says too large |
| Frames.CapIs | src/channel/message.rs:115-142 | that cap is 1 MiB of headers and body together |
| Frames.FrameRefusals | src/channel/message.rs:115-158 | which buffers are refused before their headers are looked at, and with which error, by byte value |
| Frames.MarshalPrefixFree | src/channel/message.rs:87-187 | frames are prefix free: equal byte strings start with the same message and leave the same rest |
| Frames.ReparseStable | src/channel/message.rs:115-187 | every buffer that parses gives a message within the cap whose re-marshalled form is no longer and parses back to it |
| Frames.ByteStream.ReadExact | src/channel/connect.rs:14-28 | all the bytes asked for, or an error with the stream drained |
| Frames.ByteStream.WriteMessage | src/channel/connect.rs:34-46 | appends the whole frame, or a proper prefix when the write fails part way, or the whole of it when only the flush fails |
| Frames.ByteStream.ReadMessage | src/channel/connect.rs:14-28 | takes the fixed section and then exactly the bytes it announces, every error included |
| Frames.ByteStream.ReadAll | src/edge/data/rxloop.rs:29-60 | repeated reads take frames until the first error |
| Frames.ReadOneFrame | src/channel/connect.rs:14-28 | reading a frame followed by anything returns the message and leaves the rest |
| Frames.ReadFramesMarshalAll | src/channel/connect.rs:14-46 | a stream of concatenated frames is read back as exactly the sequence of messages |
| Frames.FramesThenRest | src/channel/connect.rs:14-46 | whole frames are read off the front of whatever follows them |
| Frames.BadMagicEnds | src/channel/connect.rs:14-28 | a stream that goes on with other bytes than the magic gives no further frame, however much follows |
| Frames.CutFrameEnds | src/channel/connect.rs:14-28 | a frame cut at any byte is an error, with the stream drained |
| DialWire.BuiltFrames | src/edge/dial.rs:139-160 | what a reader finds in Data, FIN and StateClosed frames: connection id, flags, body, no reply marker |
| DialWire.BuiltFrameBytes | src/edge/dial.rs:139-160 | the same frames by content type, header keys and header bytes |
| DialWire.HeaderWords | src/edge/data/wire.rs:54-79 | a header word is read, signed or not, from exactly four little-endian bytes and from nothing else |
| DialWire.FlagBits | src/edge/dial.rs:53-55 | FIN is bit 0 and MULTIPART bit 2 of the flags word, and without four bytes of flags there is neither |
| DialWire.BuiltFramesWithinCap | src/edge/dial.rs:139-160 | no such frame with a body below the margin can be refused for its size |
| ReadHalf.EdgeReadHalf.constructor | src/edge/data/conn.rs:37-84 | a fresh half has consumed nothing and waits for a stream header if it has a key |
| ReadHalf.EdgeReadHalf.Read | src/edge/data/conn.rs:187-268 | the loop over received frames equals the specified read, and raises the shared flag exactly when the last frame it took is a StateClosed |
| ReadHalf.PeerCloseIff | src/edge/data/conn.rs:187-268 | of every inbound list a read takes a prefix, and the flag goes up exactly when that prefix ends in a StateClosed |
| ReadHalf.PlainFrame | src/edge/data/conn.rs:187-268 | a Data frame in the clear, empty or not, with a FIN or without: what is delivered and what is left |
| ReadHalf.HeaderFrame | src/edge/data/conn.rs:187-268 | the first frame of an encrypted stream: 24 bytes start the decryptor and deliver nothing, any other length is an error |
| ReadHalf.SealedFrame | src/edge/data/conn.rs:187-268 | a sealed frame in every case: opened, empty, too short, refused by the cipher, with a FIN or without; the position moves only when it is opened |
| ReadHalf.OthersIgnored | src/edge/data/conn.rs:187-268 | frames of another type do not change what a read gives |
| ReadHalf.ClosedEnds | src/edge/data/conn.rs:187-268 | a StateClosed is the end, whatever it carries |
| ReadHalf.EofIsForever | src/edge/data/conn.rs:187-268 | for every inbound list, once a read answers end of stream all later reads do |
| ReadHalf.NothingAfterTerminator | src/edge/data/conn.rs:187-268 | whatever follows the first FIN or StateClosed changes no result of any sequence of reads, failing ones included |
| ReadHalf.PumpZitiToSock | src/tunnel/proxy.rs:106-117 | the socket receives the drained bytes, cut where it failed if it did, and the copy ends as the drain does unless it failed |
| ReadHalf.DrainStopsAtError | src/tunnel/proxy.rs:106-117 | the drain ends with the first error, and writes nothing of that frame |
| ReadHalf.TakenIsPrefix | src/tunnel/proxy.rs:106-117 | a failing socket has received the bytes up to where it failed, another one all |
| ReadHalf.DrainPlain | src/edge/data/conn.rs:187-268 | on a plaintext connection those bytes are the Data bodies up to the first terminator, in order |
| WriteHalf.EdgeWriteHalf.constructor | src/edge/data/conn.rs:37-84 | a fresh half has sent nothing |
| WriteHalf.EdgeWriteHalf.Write | src/edge/data/conn.rs:289-305 | refused with nothing sealed or sent once the flag is up; nothing sent when sealing fails; otherwise one frame, MULTIPART only on the first |
| WriteHalf.EdgeWriteHalf.CloseWrite | src/edge/data/conn.rs:314-337 | raises the flag; sends one FIN the first time and nothing after |
| WriteHalf.EdgeWriteHalf.Close | src/edge/data/conn.rs:345-358 | sends StateClosed whatever the flag was, and deregisters unless the send failed |
| WriteHalf.PumpSockToZiti | src/tunnel/proxy.rs:90-102 | exactly the frames of the writes before the first that does not go through, for a peer close, a failed sealing or a refused send, with that error; a failing socket after all of them |
| WriteHalf.SocketToZiti | src/tunnel/proxy.rs:60-80 | the same, followed by one FIN unless the flag was already up, whether the copy ended or failed |
| WriteRuns.LogStaysWellOrdered | src/edge/data/conn.rs:289-358 | over every interleaving of writers, half-closers and closers: no Data or second FIN after a FIN or StateClosed, and MULTIPART leads or is absent |
| WriteRuns.QuietCalls | src/edge/data/conn.rs:289-358 | undisturbed, the steps of `write`, `close_write` and `close` are the whole calls: what each appends, and the flag |
| WriteRuns.OrderBreaksIff | src/edge/data/conn.rs:314-358 | a FIN follows a StateClosed exactly when a whole successful `close` falls inside the successful `close_write` that first raised the flag: a condition on the calls alone |
| WriteRuns.SequentialClosersKeepOrder | src/tunnel/proxy.rs:54-88 | callers that do not start `close` during a `close_write` keep the order |
| WriteRuns.OverlapCanBreak | src/edge/data/conn.rs:314-358 | conversely, from every reachable point where a `close` starts during that `close_write`, two accepted sends break the order |
| WriteRuns.OverlappingClosersBreakOrder | src/edge/data/conn.rs:314-358 | a run in which they overlap and the order breaks |
| EndToEnd.RxInboxIsMine | src/edge/data/rxloop.rs:29-91 | whatever else is on the channel, and whoever waits for replies as each frame arrives, the receive loop delivers to a connection exactly its own frames in order |
| EndToEnd.RepliesGoToWaiters | src/edge/data/rxloop.rs:29-60 | a reply somebody waits for reaches no connection, whatever else it says |
| EndToEnd.ItsFramesArrive | src/edge/data/rxloop.rs:60-91 | any other Data or StateClosed frame that names the connection is next on its queue |
| EndToEnd.OnlyItsFrames | src/edge/data/rxloop.rs:29-91 | and nothing else ever is |
| EndToEnd.DrainConversation | src/edge/data/conn.rs:187-305 | a fresh reader with the matching key, or none, drains exactly the bytes written, for every chunking, with a FIN at the end or without |
| EndToEnd.ConversationShape | src/tunnel/proxy.rs:90-117 | no frame produced this way exceeds the size cap or can be taken for a reply |
| EndToEnd.SocketToSocket | src/tunnel/proxy.rs:90-117 | end to end: chunk, encrypt, frame, marshal, interleave with other traffic, parse, demultiplex and decrypt delivers exactly the same bytes |
| EndToEnd.SpliceAcross | src/tunnel/proxy.rs:54-117 | the same over the methods of both ends: open, copy and half-close on a channel with other traffic, frames on a byte stream, receive loop and copy out; whatever the writes and sockets do, the far socket has received the chunks that were copied, cut where it failed |
| EndToEnd.LawfulCipherExists | src/edge/data/conn.rs:289-305 | the laws asked of the cipher can be met |
| ConnIds.AllocConnId | src/edge/data/channel_state.rs:54-75 | terminates from any counter value, through 32-bit wrap and used ids above the range, with the id a loop-free definition names, free, in range and left in the counter |
| ConnIds.NextFreeAbove | src/edge/data/channel_state.rs:54-75 | inside the range that id is the next free one above the counter, whenever there is one |
| ConnIds.RewindsToLowest | src/edge/data/channel_state.rs:54-75 | with none above, and some id beyond the range free, it is the lowest free one above the minimum |
| ConnIds.NextKeepsTarget | src/edge/data/channel_state.rs:54-75 | every turn of the loop keeps the destination and comes closer to it |
| ConnIds.FreeIdSuffices | src/edge/data/channel_state.rs:54-75 | one free id strictly inside the range is enough, whatever the counter |
| ConnIds.OtherwiseLoopsForever | src/edge/data/channel_state.rs:54-75 | without a destination no turn ever accepts, so the precondition is exact |
| ConnIds.NoneInside | src/edge/data/channel_state.rs:54-75 | a full inside with a free id outside is such a case |
| Mux.ChannelState.constructor | src/edge/data/channel_state.rs:78-98 | an open channel with empty tables |
| Mux.ChannelState.NextSeq | src/edge/data/channel_state.rs:263-265 | the next sequence number |
| Mux.ChannelState.Send | src/channel/connect.rs:34-46 | one whole frame on the wire, or nothing |
| Mux.ChannelState.RegisterConn | src/edge/data/channel_state.rs:239-247 | files the sender, or drops it when the channel is closed |
| Mux.ChannelState.RegisterBind | src/edge/data/channel_state.rs:249-257 | the same for a bind |
| Mux.ChannelState.DeregisterConn | src/edge/data/conn.rs:345-358 | removes that connection and nothing else |
| Mux.ChannelState.MarkClosed | src/edge/data/channel_state.rs:157-168 | the first call closes and empties all three tables, later ones do nothing |
| Mux.ChannelState.NextConnId | src/edge/data/channel_state.rs:276-288 | an id in range that neither table holds |
| Teardown.TornDownForGood | src/edge/data/channel_state.rs:157-168 | with the close split at its lock boundaries and racing any registrations and removals, a cleared table stays empty for ever, and every sender ever registered ends up dropped |
| Teardown.QuietClose | src/edge/data/channel_state.rs:157-168 | undisturbed, the split close is the atomic one |
| Teardown.QuietRegistration | src/edge/data/channel_state.rs:239-257 | undisturbed, the split registration is the atomic one: filed on an open channel, dropped on a closed one |
| Teardown.RemovalRemoves | src/edge/data/conn.rs:345-358 | a removal takes out and drops that one sender |
| Teardown.WaiterMayOutliveClose | src/edge/data/channel_state.rs:157-168 | a run in which a reply waiter outlives the close |
| Teardown.WaiterSurvivesIff | src/edge/data/channel_state.rs:157-168 | after the clearing step, at every later point of every run, a waiter is in the table exactly when it was inserted since and not taken |
| Teardown.NoInsertNoWaiter | src/edge/data/channel_state.rs:157-168 | with no insert after the clearing step the table stays empty |
| MuxRuns.IdsStayDisjoint | src/edge/data/channel.rs:463-504 | over every run of dials, binds, accepts, deregistrations and closes, no id is in both tables |
| MuxRuns.OpsFile | src/edge/data/channel.rs:463-504 | which table each operation files a sender in, and under which id |
| MuxRuns.ClosedFilesNothing | src/edge/data/channel_state.rs:157-168 | over every run, after a close both tables are empty at every later point |
| MuxRuns.ArbitraryIdDisjointIff | src/edge/data/channel.rs:463-504 | an arbitrary provided id keeps them disjoint exactly when no bind holds it, or the channel is closed |
| Inspect.ClassificationUnambiguous | src/edge/data/inspect.rs:149-160 | in every run the class of an id is decided by the tables alone, whichever is asked first |
| Inspect.ReflectsExactly | src/edge/data/inspect.rs:182-201 | over all 32-bit keys, which request headers are reflected, negatives included |
| Inspect.Reflect | src/edge/data/inspect.rs:195-199 | the loop adds exactly the reflected headers of the request and leaves every other header as it was |
| Inspect.BuildConnInspectResponse | src/edge/data/inspect.rs:182-201 | for every request the response carries its own id, type and reply marker, plus exactly the reflected headers |
| Accept.AwaitStartReply | src/edge/data/accept.rs:45-95 | a wrong answer closes the child, silence fails the dial: of this accept the wire gains exactly that one frame, if the transport takes it, with other tasks writing meanwhile; child and waiter are gone |
| Accept.CompleteSuccess | src/edge/data/accept.rs:170-300 | for every environment and interference: when it succeeds and with which error it fails; on every path exactly the frames of this accept the wire gains, in order, DialSuccess before the stream header, which for a generated id waits for the start reply; of a failed start exactly one of StateClosed and DialFailed; and the whole tables: what the others did, without the child on failure and without the reply waiter always |
| Accept.CompleteFailed | src/edge/data/accept.rs:306-322 | of this accept the wire gains DialFailed for the bind, then StateClosed for the child, each if the transport takes it; the tables are what the others did, without the child |
| Accept.Consider | src/edge/data/channel.rs:445-541 | one queued frame: its verdict, its answer and what it does to the tables |
| Accept.PlainDial | src/edge/data/conn.rs:371-390 | a dial with the right token is served in the clear when the service is plaintext or the dialer sent no key |
| Accept.EncryptedDial | src/edge/data/conn.rs:371-416 | with a key on both sides it is served encrypted, under the stream header of the exchange, exactly when the method is libsodium or unsaid, the key 32 bytes long and the exchange succeeds; otherwise it is refused |
| Accept.OtherFrames | src/edge/data/channel.rs:443-462 | what ends the listener, what is skipped, and what is refused for its token |
| Accept.DialReplies | src/edge/bind/wire.rs:111-138 | what the dialer finds in DialSuccess, DialFailed and the stream-header frame: type, connection, dial, body |
| Accept.AcceptPending | src/edge/data/channel.rs:436-542 | bad dials are answered, in order, by exactly one frame each, and passed over; only the end of the queue or a StateClosed ends the listener; the accepted child is filed under the router's id or a free one; every other connection stays, but for an id the router provided again with a dial whose crypto was refused |
| Accept.RejectionsAppend | src/edge/data/channel.rs:443-530 | the answers to a queue are the answers to its frames one by one, in order |
| Accept.ForgottenIff | src/edge/data/channel.rs:463-530 | a queue costs exactly the connections whose id the router provides again with a dial whose crypto is refused |
| Accept.RefusedDialForgets | src/edge/data/channel.rs:463-530 | such a queue |
| Sessions.DialSessions.Insert | src/edge/client/sessions.rs:250-257 | the blind insert of a created session |
| Sessions.DialSessions.Evict | src/edge/client/sessions.rs:265-271 | removes the key and nothing else |
| Sessions.DialSessions.Recache | src/edge/client/sessions_probe.rs:370-417 | writes the refreshed session exactly when the key still holds the snapshot's id; adds no key and touches no entry of another id |
| Sessions.DialSessions.EvictDead | src/edge/client/sessions_probe.rs:232-272 | the key is gone exactly when it still held the snapshot's id, and says so; everything else stays |
| Sessions.JwtRefresh | src/edge/client/sessions_probe.rs:33-51 | a JWT session's refresh takes the routers the controller lists now and keeps every other field |
| Sessions.OpaqueRefresh | src/edge/client/sessions_probe.rs:52-70 | an opaque session's refresh is the body the controller answers |
| Sessions.TickRefresh | src/edge/client/sessions_probe.rs:115-147 | a tick takes the routers and nothing else, from the endpoint its api-session calls for |
| Sessions.Refusals | src/edge/error.rs:308-325 | a refused probe is its error; exactly a legacy 404 proves a session dead, and exactly one reason makes a dial's session invalid |
| SessionRuns.NeverReturns | src/edge/client/sessions_probe.rs:370-417 | in every interleaving of any number of refreshers, ticks, creates, evictions, poll removals and clears, a session id that has left the cache never comes back |
| SessionRuns.OnlyCreatesAddKeys | src/edge/client/sessions.rs:348-368 | a missing key can reappear only through the insert of a create for that key |
| SessionRuns.WritesSpareNewerSessions | src/edge/client/sessions_probe.rs:370-417 | a refresh write never disturbs an entry replaced since its snapshot, and never changes any entry's id |
| SessionRuns.WriteBringsAnswer | src/edge/session_refresh/tick.rs:25-111 | in every run, whatever happens between the answer and the write, the write leaves exactly what the controller answered in the entry, if it still holds the session |
| SessionRuns.PurgesOnlyTheDead | src/edge/session_refresh/tick.rs:25-111 | whatever was replaced mid-probe, a tick purges only a session the controller has deleted |
| SessionRuns.CondemnedIsPurged | src/edge/session_refresh/tick.rs:25-111 | in every run a session the controller answered 404 for is gone after the purge, if it is still in place |
| SessionRuns.OidcNeverPurges | src/edge/client/sessions_probe.rs:192-200 | under an OIDC api-session no run reaches a purge |
| SessionRuns.JwtSessionsKeepIdentity | src/edge/client/sessions_probe.rs:33-147 | a session minted with a JWT differs from what was minted only in its edge routers, for as long as it is cached |
| SessionRuns.ReturnsIff | src/edge/client/sessions_probe.rs:33-70 | without the echo, over every run: an id that left returns exactly when a write that lands carries it although it was gated on another id |
| SessionRuns.ImportsAreOpaque | src/edge/client/sessions_probe.rs:33-70 | every such write goes back to a detail body for an opaque session carrying an id it was not asked for |
| SessionRuns.ForeignBodyResurrects | src/edge/client/sessions_probe.rs:33-70 | a run without the echo in which an evicted session comes back |
| Retry.GetOrCreate | src/edge/client/sessions.rs:348-368 | a hit changes nothing; a miss caches and returns what was created, or the creation's error |
| Retry.RefreshSession | src/edge/client/sessions.rs:393-448 | the verdict never depends on the gate, and the write goes through it |
| Retry.DialSession | src/edge/channel/open.rs:288-313 | a router-less session is refreshed first and must come back with routers; only an opaque 404 evicts; the whole cache afterwards, with interference |
| Retry.DialWithRouters | src/edge/channel/open.rs:288-313 | a session with routers is dialled as it is, and the cache stays |
| Retry.DialRecovers | src/edge/channel/open.rs:288-313 | one without is dialled with the routers the refresh brought, or fails for want of any; the cache holds the refreshed session either way |
| Retry.DialFailsToRecover | src/edge/channel/open.rs:288-313 | a failed refresh is the dial's error, and evicts exactly an opaque session on a 404 |
| Retry.RetryOnce | src/edge/conn/retry.rs:138-197 | one more dial at most; a second `invalid session` leaves the key absent whatever other tasks did; any other outcome keeps the fresh session (as its own recovery refreshed it), except exactly when that recovery learnt it is unknown |
| Retry.DialWithRefreshRetry | src/edge/conn/retry.rs:95-203 | at most two dials and one probe, the probe exactly when the first error is not `invalid session`; the result in every case, with other tasks interfering at every await; a session the probe finds alive is dialled once, kept, and its error returned; and without interference the whole cache in every case |
| Retry.OtherKeysStay | src/edge/conn/retry.rs:95-203 | undisturbed, a connect leaves the entries of other services alone, whatever it goes through |
| Retry.FreshSessionForgotten | src/edge/channel/open.rs:288-313 | a second failure other than `invalid session` that does lose the fresh session |
| Services.DiffServices | src/edge/services.rs:104-138 | each vanished entry removed once, in any order, then Added or Changed in the order fetched |
| Services.DiffByKind | src/edge/services.rs:104-138 | in every diff exactly the fetched services without a surviving entry of that name are Added, exactly those that differ from it Changed, and exactly the vanished entries Removed |
| Services.RemovedOnceAndFirst | src/edge/services.rs:104-138 | no entry is removed twice, and all removals come first |
| Services.UpsertsInOrder | src/edge/services.rs:104-138 | the other events come in the order of the fetched list, each from a place of its own |
| Services.MirrorFollowsIff | src/edge/services.rs:104-157 | replaying a poll's events on a copy of the cache gives the new cache exactly when no cached name is fetched first in another version and last in the cached one |
| Services.MirrorFollows | src/edge/services.rs:104-157 | over any sequence of polls, replaying all events turns the first cache into the last |
| Services.EveryListenerHears | src/edge/services.rs:217-241 | every registered listener hears every event once, in order, and nobody else hears anything |
| Services.FanOutAt | src/edge/services.rs:225-238 | which call is which: event by event, and for each event listener by listener |
| Services.ListenerMirrorsCache | src/edge/services.rs:217-241 | a listener registered throughout, while others come and go, rebuilds the cache from its own calls, through renames, name reuse and name swaps |
| Services.MirrorDrifts | src/edge/services.rs:104-157 | a list with one name in two versions on which a listener drifts |
| Services.OnlyRenamesLinger | src/edge/services.rs:144-157 | after a poll every cached id was fetched, and a cached name that was not is the old name of a service fetched under another |
| Services.RepollSilentIff | src/edge/services.rs:104-157 | fetching the same list again is silent exactly when it gives no name two versions |
| Services.ServiceWatcher.constructor | src/edge/services.rs:182-188 | an empty watcher |
| Services.ServiceWatcher.Add | src/edge/services.rs:191-198 | a handle no registered listener has |
| Services.ServiceWatcher.Remove | src/edge/services.rs:202-210 | removes exactly that listener, keeps the others in order, and says whether there was one |
| Services.WithoutJoins | src/edge/services.rs:202-210 | taking out a listener joins those before it and those after it |
| Services.ServiceWatcher.Apply | src/edge/services.rs:144-157 | removed names go first, then every fetched service is put, so a reused name keeps the fetched one |
| Services.ServiceWatcher.Notify | src/edge/services.rs:225-238 | each event in turn to every listener |
| Services.ServiceWatcher.Process | src/edge/services.rs:217-241 | one poll: events are a diff of the old cache, the new cache is the update, listeners get exactly those events |
| ServiceFetch.ListServices | src/edge/client/services.rs:20-66 | succeeds exactly when some page says the list is complete with all pages before it answered, and returns all their data in order; otherwise fails with the error of the first request that did |
| ServiceFetch.StableListIsFetched | src/edge/client/services.rs:20-66 | against a list that does not change, paging returns exactly that list, of any length |
| ServiceFetch.PagesAsked | src/edge/client/services.rs:20-66 | with one request per 500 services begun, and one for an empty list |
| ServiceFetch.ErrorsAre | src/edge/client/services.rs:20-66 | which error a failed request gives |
| ServiceFetch.DiffRemovesIds | src/edge/client/services.rs:163-185 | a diff removes exactly the cached ids that were not fetched |
| ServiceFetch.EvictRemoved | src/edge/client/services.rs:174-183 | drops the sessions of exactly the removed services |
| ServiceFetch.ServiceClient.StoreAndProcess | src/edge/client/services.rs:163-185 | stores the instant, reconciles the cache, leaves sessions of fetched services alone and none of a removed one |
| ServiceFetch.ServiceClient.PollServices | src/edge/client/services.rs:308-315 | succeeds exactly when the fetch does; then it forgets the instant, listeners hear exactly its events, and exactly the sessions of the services it removed are gone; a failed fetch gives its error and changes nothing |
| ServiceFetch.ServiceClient.PollServicesIfChanged | src/edge/client/services.rs:410-440 | 503 and an unchanged instant change nothing; otherwise it succeeds exactly when the fetch does, stores the checked instant, or none after a failed check, tells the listeners exactly its events and drops exactly the sessions of removed services; a failed fetch gives its error and changes nothing |
| ServiceFetch.FetchNeededIff | src/edge/client/services.rs:140-155 | a check answered with an instant asks for a fetch exactly when that is not the stored one, a failed check always, an unavailable controller never |
| GatedPolling.FetchSyncs | src/edge/client/services.rs:163-185 | reconciling the current list synchronises any cache |
| GatedPolling.NoChangeMissed | src/edge/client/services.rs:410-440 | in every run, with the controller changing between any two requests, failed checks and fetches, forced polls and safe primes, a stored instant equal to the current one means the cache holds every current service under its name and no vanished id |
| GatedPolling.PrimingFirstMissesNothing | src/edge/client/services.rs:328-330 | priming only while no instant is stored, with any lists, keeps that promise in every run |
| GatedPolling.SkippedPollsAreUpToDate | src/edge/client/services.rs:140-155 | a check that decides not to fetch finds the cache synchronised |
| GatedPolling.UndisturbedPollSyncs | src/edge/client/services.rs:410-440 | a gated poll that fetches, completes and meets no change ends synchronised and remembers the instant, whatever was primed before or meanwhile |
| GatedPolling.BlindPollIsRepeated | src/edge/client/services.rs:308-315 | in every run a forced poll, or one whose check failed, fetches, leaves no instant behind, and so the next answered check fetches again |
| GatedPolling.FailuresKeep | src/edge/client/services.rs:410-440 | an unavailable controller and a failed fetch leave cache and instant as they were |
| GatedPolling.PagesBringList | src/edge/client/services.rs:20-66 | the pages of a fetch that meets no change add up to the list |
| GatedPolling.PrimeKeepsSyncIff | src/edge/client/services.rs:328-330 | priming a synchronised cache keeps it so exactly when the list names no unknown id, has the current version of every current service it names, and the id of every other |
| GatedPolling.PrimeSafeIff | src/edge/client/services.rs:328-330 | at every reachable idle point, every list is safe to prime exactly when the stored instant is not the current one; with the current one stored, some list leaves the next check with nothing to fetch and the cache out of step |
| GatedPolling.StalePrimeIsMissed | src/edge/client/services.rs:328-330 | a whole run: a gated poll synchronises, an outdated list is primed, and the next check fetches nothing |
| ChannelPool.Pool.GetAliveOne | src/edge/client/pool.rs:10-23 | the alive channel, or the dead entry cleared |
| ChannelPool.Pool.Register | src/edge/client/pool.rs:51-58 | the registry without what nobody holds, plus the new channel |
| ChannelPool.PrunedAppend | src/edge/client/pool.rs:51-58 | pruning keeps the order of what it keeps |
| ChannelPool.Pool.StoreOrReuse | src/edge/client/pool.rs:30-47 | an alive entry wins and nothing changes; otherwise the channel is pooled and registered |
| ChannelPool.Pool.GetAlive | src/edge/client/pool.rs:139-169 | the first lowest-mean alive candidate whenever there is one, with exactly the dead entries met dropped |
| ChannelPool.BestIsFirstLowest | src/edge/client/pool.rs:139-169 | what that candidate is: alive, of no higher mean than any alive channel of the scan, and of a lower mean than any before it |
| ChannelPool.CandidateIff | src/edge/client/pool.rs:139-169 | there is one exactly when some address has an alive pooled channel |
| ChannelPool.FirstLowest | src/edge/client/pool.rs:165-168 | the first position with the least key |
| ChannelPool.Pool.Unconnected | src/edge/client/pool.rs:182-192 | the addresses to open, in order |
| ChannelPool.UnconnectedAt | src/edge/client/pool.rs:182-192 | they are exactly those without an alive pooled channel |
| ChannelPool.UnconnectedAppend | src/edge/client/pool.rs:182-192 | in the order given |
| ChannelPool.FanOutFirstOk | src/edge/channel/fanout.rs:100-145 | the first success reported, else the last error, else no router |
| PoolRuns.AlivePooledStays | src/edge/channel/fanout.rs:47-76 | with any number of openers, scans and deaths, a pooled channel keeps its place for as long as it is alive |
| PoolRuns.RegisteredExactlyOnce | src/edge/client/pool.rs:30-58 | over a whole run no channel is registered twice, only pooled ones are, never a loser, and every pooled one is unless its opener is just about to |
| PoolRuns.RegistryComplete | src/edge/client/pool.rs:51-58 | pruning never loses a channel that is pooled or in use |
| PoolRuns.LosersReuse | src/edge/client/pool.rs:30-47 | a losing opener ends up with the pooled channel, and its own is in neither the pool nor the registry |
| PoolRuns.LoneOpenerPools | src/edge/channel/fanout.rs:47-76 | an opener nobody gets in the way of ends up with its channel pooled, registered once, alive and in use |
| PoolRuns.OpenerReuses | src/edge/channel/fanout.rs:47-76 | one that finds an alive channel takes it and changes nothing else |
| PoolRuns.HandsOutAlive | src/edge/client/pool.rs:10-47 | in every run, whatever channel is handed out is alive just then, or the opener's own |
| PoolRuns.DeadIsNotHandedOut | src/edge/client/pool.rs:10-47 | in every run, once dead a channel reaches nobody but the opener just registering it |
| PoolRuns.ScanEvictsDead | src/edge/client/pool.rs:139-169 | a scan leaves no dead channel at the addresses it went through |
| PoolRuns.DroppedIsForgotten | src/edge/client/pool.rs:51-58 | the registry forgets a channel nobody holds at the next registration |
| PoolRuns.UsedIsKept | src/edge/client/pool.rs:51-58 | and keeps one in use, dead and evicted from the pool or not |
| RefreshTiming.BackoffBounds | src/edge/service_refresh.rs:134-141 | a retry waits 5 s to 2 min, and at most half the interval exactly when that is 10 s or more |
| RefreshTiming.BackoffSpans | src/edge/service_refresh.rs:134-141 | a draw of 0 gives 5 s, a draw of 1 half the interval or 2 min, whichever is less |
| RefreshTiming.BackoffGrows | src/edge/service_refresh.rs:134-141 | a higher draw never gives a shorter delay |
| RefreshTiming.BackoffIsLinear | src/edge/service_refresh.rs:134-141 | in between it is linear in the draw, to the nearest nanosecond |
| RefreshTiming.JitteredBounds | src/edge/service_refresh.rs:99-112 | an ordinary delay is at least half the interval and at most the interval plus its jitter |
| RefreshTiming.JitteredIsLinear | src/edge/service_refresh.rs:99-112 | linear in the draw from the one end of the jitter to the other, cut to whole nanoseconds |
| RefreshTiming.RunServiceRefreshes | src/edge/service_refresh.rs:232-272 | over any number of passes: a jittered delay first and after every tick but one that found the controller unavailable, which is followed by a back-off; no retry delay exceeds any ordinary delay of the run |

## Left out

- TLS, certificates, enrolment, OIDC and JWT verification: foreign library calls with thin glue.
- The cryptography: the secret stream is any cipher with the two laws of `SecretStream.Lawful`.
- HTTP requests, JSON, error texts, logging and the command line: plumbing.
- Routers between two clients: the far end reads the same frames, under the same connection id, that the near end wrote.
- The timers of the receive loop, the latency probe and the session tick: frames, replies and channel deaths are environment steps.
- The back-off of session creation: a create is one step with an outcome.
- Overlapping service polls: store and reconcile are separate steps, but one poll runs at a time.
- The re-authentication inside a connect and the session-certificate renewal: small members around the modelled calls.
- The two directions of `splice` run one after the other in the model: they share only the flag, and its races are in `WriteRuns`.
- Mux.ChannelState.NextSeq: the sequence counter is required not to have run out of 32 bits.
- Mux.ChannelState.NextConnId: allocating and registering an id is one step; two allocators racing before registration are not modelled.
- MuxRuns.IdsStayDisjoint: router-provided ids are taken to lie above 2^31, as routers hand them out.
- Frames.MarshalV2: messages whose sections do not fit 32-bit lengths are excluded; the source panics on them.
- Accept.CompleteSuccess: at the awaits other tasks may write frames, register, bind, wait, take ids and numbers and close the channel, but not register this child's id, wait on this reply's sequence number or write this accept's frames.
- Accept.AcceptPending: other tasks do not run between the frames of the queue, and a free id of our own range is there.
- Mux.ChannelState.Send: a failed write leaves nothing on the wire; the prefix of a frame it may leave is modelled only on the byte stream, by `Frames.ByteStream.WriteMessage`.
- WriteHalf.EdgeWriteHalf.Write: a failed sealing leaves the sender's position where it was.
- EndToEnd.RxInboxIsMine: the connection stays registered, and its queue takes every frame, until its frames have arrived.
- Retry.DialWithRefreshRetry: with other tasks interfering, the cache is stated only where the source promises it: after a second `invalid session` the key is absent.
- SessionRuns.NeverReturns: the controller mints fresh ids and, on the dial path, echoes the id it was asked about.
- ServiceFetch.ListServices: the 64-bit offset does not overflow, and a request without an answer is a failed one.
- GatedPolling.NoChangeMissed: the controller lists distinct names and never reuses an instant; between storing and reconciling the claim waits for the reconcile.
- ChannelPool.Pool.GetAlive: liveness and means do not change during one scan.
- RefreshTiming.JitteredBounds: real arithmetic in place of floating point; truncation, rounding and saturation are kept.
