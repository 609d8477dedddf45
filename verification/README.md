# Richat, verified

Richat carries the stream of a Solana validator's updates to many clients. A
plugin inside the validator broadcasts encoded updates through a ring; the
richat server re-broadcasts them at three commitment levels, rebuilds blocks,
and serves clients over gRPC and QUIC. This project models that core in Dafny
and proves what it promises, for every input, every run and every interleaving.
Run `dafny verify dfyconfig.toml` to check it.

## Parts

- **Rings.** `RingIndex` (mask arithmetic) and `Ring` (cells against an
  append-only log) are shared by all rings.
- **Plugin channel** (`plugin-agave/src/channel.rs`). `PluginSpec` says what one
  push does to head, log and slot index and when it panics; `PluginChannel` is
  the in-place sender refining it; `PluginBackfill` is about missed slot
  statuses; `PluginReceiver` is the receiver; `PluginProtocol` is the step
  relation of all threads, with the state mutex, the per-cell locks and the wakers;
  `PluginUpdates` puts the channel and the encoder together; `PluginLaws` says what
  a push, a back-fill and a stream do in terms of messages, payloads and flags alone.
- **Re-broadcast** (`richat/src/channel.rs`). `RichatRing` is one ring,
  `BlockBuilder` the state of one slot, `RichatHub` what every run puts into the
  three logs, `RichatSender` the in-place sender refining it, `BinaryChannel`
  the bounded queue; `RichatRingLaws` and `RichatLaws` say what is evicted, released
  and forgotten in terms of the messages alone.
- **Fast forms over the log.** `MessagesCache` (`richat/src/grpc/server.rs`),
  `QuicFrames` and `QuicSend` (`shared/src/transports/quic.rs`, `client/src/quic.rs`).
- **Encoder** (`plugin-agave/src/protobuf`). `Wire` is the wire format of the
  Protocol Buffers Encoding guide (sections "Base 128 Varints", "Message
  Structure" and "Length-Delimited Records") with a reader; `Encoding`,
  `EncodingTransaction` and `EncodingUpdate` hold every message with the fields
  written, the length predicted and a decoder; `EncodingLayout` is the table of
  field numbers, wire types and codes; `EncodingBuffer` is the encoding in place,
  with the error buffer that a thread shares.
- **Filters** (`filter/src`). `FilterConfig` is what clients may ask for,
  `FilterAccounts` the compiled matchers and data slices.

## Where the code does not do what one would expect

- A push to the plugin channel panics on its own asserts for some inputs that
  are legal: `PluginSpec.PushPanicsIff` is the exact condition for one message and
  `PluginBackfill.PushesPanicIff` for a whole push with the ancestors it announces.
  Counting only the slots already indexed does not describe it
  (`PluginSpec.UncountedIncomingSlotPanics`).
- The ancestor walk of a slot update runs for ever exactly when it can reach a
  cycle of recorded parents lacking the status (`PluginBackfill.DivergesIff`); a
  single update that names its own slot as parent makes one
  (`PluginBackfill.SelfParentLoops`).
- A client that asks for a QUIC backlog of zero never receives a message, at most
  the close frame (`QuicSend.SendLoop.ZeroWindowSendsNothing`).
- The binary queue masks positions with its capacity minus one even when the
  capacity is not a power of two; it stays a queue, but then never fills and
  refuses early (`BinaryChannel.RefusesExactlyFullIff`, `BinaryChannel.RefusedEarly`).
- Clearing a re-broadcast ring can drain it into its own assert
  (`RichatRing.ClearCanDrain`): `RichatRing.ClearPanicsIff` is the exact condition,
  and `RichatSender.Sender.Push` carries it to a whole push.
- A memory comparison whose offset is so large that its end wraps around is
  accepted and can panic (`FilterAccounts.SingleMemcmpPanicsIff`,
  `FilterAccounts.PanicsMeans`); a data slice whose end wraps around, or slices
  longer in total than the largest allocation, are accepted and can panic
  (`FilterAccounts.WrappedSliceAccepted`, `FilterAccounts.SliceData` with the exact
  condition). Arithmetic is that of a release build, which wraps.

## Model

| member | source | states |
|---|---|---|
| `RingIndex.IdxIsMod` | plugin-agave/src/channel.rs:410-412 | for a power-of-two capacity, masking a position is its remainder by the capacity, for every position |
| `RingIndex.IdxInjective` | plugin-agave/src/channel.rs:410-412 | positions less than one lap apart share a cell only when equal, so no live message overwrites another |
| `RingIndex.IdxWraps` | plugin-agave/src/channel.rs:410-412 | one lap further on is the same cell |
| `RingIndex.NextPow2` | plugin-agave/src/channel.rs:33 | the ring capacity is the least power of two not below the configured number of messages |
| `RingIndex.UnusedCell` | richat/src/channel.rs:753-765 | a capacity that is not a power of two leaves a cell that no position ever uses |
| `Ring.ReadExact` | plugin-agave/src/channel.rs:305-348 | under the ring invariant, reading the cell of a position finds the log entry exactly for live positions, a newer position or an emptied cell exactly below head, an older one exactly from the tail on |
| `Ring.StoreTail` | plugin-agave/src/channel.rs:208-222 | writing the tail cell, and losing the oldest message when that cell is still full, keeps cells and log in correspondence |
| `Ring.TakeHead` | plugin-agave/src/channel.rs:157-165 | emptying the head cell keeps the correspondence, and the cell is never already empty |
| `PluginSpec.PushKeepsChannel` | plugin-agave/src/channel.rs:120-222 | every push that does not panic keeps the ring invariant (at most capacity messages, byte sum and slot count within limits, every indexed slot at a live message of that slot), appends exactly the new message and never moves head back |
| `PluginSpec.PushPanicsIff` | plugin-agave/src/channel.rs:143-206 | a push panics if and only if the payload exceeds the byte limit, or the slot is new, the index full, and either every indexed slot is newer or every message from the least slot's first one on is of that slot |
| `PluginSpec.PushIsSafe` | plugin-agave/src/channel.rs:143-206 | no assert or panic fires when the payload fits and fewer than slots_max slots, the incoming one included, exceed the incoming slot and the newest stored message's slot |
| `PluginSpec.UncountedIncomingSlotPanics` | plugin-agave/src/channel.rs:143-187 | a concrete channel (two slots allowed, messages of slots 10 and 5, then slot 12) shows that the same condition without counting the incoming slot does not suffice |
| `PluginBackfill.DivergesIff` | plugin-agave/src/channel.rs:84-106 | the ancestor walk runs for ever if and only if a closed chain of recorded parents that all lack the flag can be reached, and otherwise stops within as many steps as there are indexed slots |
| `PluginBackfill.SelfParentLoops` | plugin-agave/src/channel.rs:84-106 | such an index can be reached: from an empty channel, a slot update naming its own slot as parent |
| `PluginBackfill.OlderParentsStop` | plugin-agave/src/channel.rs:84-106 | it stops whenever recorded parents are smaller than their slots |
| `PluginBackfill.MissedIsMaximalChain` | plugin-agave/src/channel.rs:84-112 | the updates synthesised are exactly the one maximal chain of recorded parents lacking the flag |
| `PluginBackfill.RepeatAnnouncesNothing` | plugin-agave/src/channel.rs:71-112 | pushing the same Confirmed or Rooted update again, unless it names another parent than the one recorded, synthesises nothing |
| `PluginBackfill.PushesPanicIff` | plugin-agave/src/channel.rs:61-112 | a whole push, ancestors included, panics if and only if one of the payloads it announces exceeds the byte limit or the slot of the message itself drains the ring: announced ancestors never do |
| `PluginChannel.Sender.constructor` | plugin-agave/src/channel.rs:32-59 | a new channel is valid, empty, with head and tail at the capacity |
| `PluginChannel.Sender.RemoveSlots` | plugin-agave/src/channel.rs:450-465 | terminates and leaves exactly the indexed slots above the bound |
| `PluginChannel.Sender.EnterSlot` | plugin-agave/src/channel.rs:125-141 | the new index entry keeps the old head, updates the parent only when given, and only ever sets flags |
| `PluginChannel.Sender.DropBySlots` | plugin-agave/src/channel.rs:143-187 | evicts up to the specified head or reports the panic, with the survivors of the index computed message by message |
| `PluginChannel.Sender.DropByBytes` | plugin-agave/src/channel.rs:189-206 | evicts from the oldest message just until the byte sum fits, or reports the panic |
| `PluginChannel.Sender.Displace` | plugin-agave/src/channel.rs:214-218 | the message still in the cell to be written is the oldest one; head, index and byte sum lose it |
| `PluginChannel.Sender.Store` | plugin-agave/src/channel.rs:208-222 | appends to the log, displacing the oldest message exactly when the ring is full |
| `PluginChannel.Sender.PushMsg` | plugin-agave/src/channel.rs:120-222 | the in-place code computes the specified channel, or panics exactly when the specification has no result; afterwards the byte sum is that of the live payloads and within the limit |
| `PluginChannel.Sender.FindMissed` | plugin-agave/src/channel.rs:71-107 | the loop collects the message and its missed ancestors, nearest first, or never ends, exactly when the bounded walk does not stop |
| `PluginChannel.Sender.Push` | plugin-agave/src/channel.rs:61-118 | never returns exactly when the recorded parents run into a cycle; otherwise panics exactly when an announced payload exceeds the byte limit or the slot of the message drains the ring; otherwise has pushed the announced ancestors, oldest first, then the message, and taken every waker |
| `PluginChannel.Sender.Close` | plugin-agave/src/channel.rs:242-251 | flags every cell, takes every waker, and changes nothing else |
| `PluginChannel.Sender.StartAt` | plugin-agave/src/channel.rs:262-274 | a subscription starts where the requested slot is indexed, which is a live message of it, or at the tail; otherwise the error names the least indexed slot |
| `PluginReceiver.Receiver.RecvRef` | plugin-agave/src/channel.rs:305-348 | every log entry skipped is an account, transaction or entry whose flag is off, the one returned is none of these; Lagged exactly when it runs into a position below head, nothing exactly at the tail with the waker registered |
| `PluginReceiver.Receiver.PollNext` | plugin-agave/src/channel.rs:379-393 | after the first error the stream only ends |
| `PluginProtocol.StepKeeps` | plugin-agave/src/channel.rs:61-348 | every single step of every thread (lock, evict, append, turn to the wakers, wake one, unlock, the steps of a close cell by cell, subscribe, look, re-check, poll again, drop a receiver) keeps the invariant |
| `PluginProtocol.StreamIsLog` | plugin-agave/src/channel.rs:305-393 | in every interleaving a stream has delivered exactly the wanted entries from its start on: no gap, no duplicate, no reordering |
| `PluginProtocol.RecheckExact` | plugin-agave/src/channel.rs:318-337 | in every interleaving, under the state lock: lagged exactly below head, parked exactly at the tail, an entry consumed exactly in between |
| `PluginProtocol.LookExact` | plugin-agave/src/channel.rs:307-316 | in every interleaving the read without the state lock is never wrong, at whatever moment of a push it happens |
| `PluginProtocol.NoLostWakeup` | plugin-agave/src/channel.rs:114-117 | in every interleaving a parked receiver is registered, and once no push and no close runs it waits at the very tail before an open cell |
| `PluginProtocol.UnlockKeeps` | plugin-agave/src/channel.rs:114-117 | whoever releases the lock after draining leaves nobody parked |
| `PluginProtocol.PushIsEvents` | plugin-agave/src/channel.rs:120-222 | what a push does to head and log is a run of evictions and one append of the step model |
| `PluginUpdates.PushedUpdatesDecode` | plugin-agave/src/channel.rs:61-112 | with the plugin's own encoder, what a push adds to the log decodes to the synthesised slot updates, ancestors first, and then to the update that was pushed |
| `PluginUpdates.StreamDecodes` | plugin-agave/src/channel.rs:305-348 | in every interleaving, over a log that carries given updates, the output of a stream decodes one by one and in order to exactly the wanted updates of those it has passed |
| `PluginUpdates.StreamDecodesAll` | plugin-agave/src/channel.rs:305-348 | told from updates and flags alone: the output decodes in order to exactly those updates passed that are not an account, transaction or entry whose flag is off |
| `PluginSpec.BytesArePayload` | plugin-agave/src/channel.rs:189-220 | the byte sum is the total length of the payloads |
| `PluginLaws.EntryShows` | plugin-agave/src/channel.rs:208-222 | a stored entry has the slot and kind of its message and counts the bytes of its payload |
| `PluginLaws.PushIndexes` | plugin-agave/src/channel.rs:143-222 | after a push exactly those slots are indexed that were, or that of the message, and that are newer than every slot of which a message was evicted |
| `PluginLaws.PushEnters` | plugin-agave/src/channel.rs:125-141 | a push leaves the index entries of other slots alone; its own keeps its first position, takes a parent only when given, and gains exactly the flag of a Confirmed or Rooted update |
| `PluginLaws.PushEvicts` | plugin-agave/src/channel.rs:143-218 | an entry is evicted only with the least slot of an overfull index, or when the payloads from it on and the new one exceed the byte limit, or as the oldest of a full ring |
| `PluginLaws.PushEvictsNothing` | plugin-agave/src/channel.rs:143-218 | nothing is evicted when slot and payload fit beside the live ones and the ring is not full |
| `PluginLaws.AnnounceShows` | plugin-agave/src/channel.rs:84-112 | each update synthesised is that of an indexed slot lacking the flag, with its recorded parent, and the recorded parent of the next one |
| `PluginLaws.AnnounceComplete` | plugin-agave/src/channel.rs:84-112 | none is missing: the parent of the first one announced is not indexed or carries the flag; the pushed update comes last |
| `PluginLaws.StreamShows` | plugin-agave/src/channel.rs:305-393 | in every interleaving a stream has delivered, in order, exactly the payloads of the entries from its start on that are not an account, transaction or entry whose flag is off |
| `RichatRing.SenderShared.constructor` | richat/src/channel.rs:286-295 | a new ring is valid and empty |
| `RichatRing.SenderShared.Push` | richat/src/channel.rs:297-331 | keeps the ring invariant for any message size, computes the specified ring (the oldest message and its slot are lost exactly when full), publishes the slot's position, and leaves published what only readers still know |
| `RichatRing.SenderShared.ClearBytes` | richat/src/channel.rs:334-352 | never panics, whatever the sizes, and stops at the first head that fits |
| `RichatRing.SenderShared.ClearSlot` | richat/src/channel.rs:356-405 | removes everything before the slot's first message and then its run; the slot leaves the local index only |
| `RichatRing.SenderShared.TryClear` | richat/src/channel.rs:333-407 | ends within both limits; panics exactly when, with everything older than the newest message's slot cleared, too many slots are left and that slot fills the rest of the ring; publishes nothing and keeps what only readers still know |
| `RichatRing.SenderShared.TryRecv` | richat/src/channel.rs:418-441 | nothing exactly from the published tail on, Lagged exactly below head, otherwise the log's own entry |
| `RichatRing.SenderShared.CurrentTail` | richat/src/channel.rs:164-183 | a replay position is one where the log holds that slot; without one, the newest message |
| `RichatRing.ClearPanicsIff` | richat/src/channel.rs:354-406 | meeting the slot limit panics if and only if, once every slot older than the newest message's is cleared, more than slots_max are left, that slot is the least of them, and from its first message on the ring holds nothing else |
| `RichatRing.ClearIsSafe` | richat/src/channel.rs:354-406 | hence never while fewer than slots_max indexed slots exceed the newest message's slot |
| `RichatRing.FewAboveClears` | richat/src/channel.rs:297-407 | taking any messages of one slot and then clearing never panics when fewer than slots_max slots above it are indexed beforehand |
| `RichatRing.ClearCanDrain` | richat/src/channel.rs:387-392 | without that condition it can: a concrete ring that drains |
| `RichatRing.ReplayIsSound` | richat/src/channel.rs:175-181 | a position taken from the published index, at any time and however stale, is later answered with a message of that slot, with Lagged, or, for a reader that sees the current tail, with nothing only while it is the newest position |
| `RichatRingLaws.AppendedShows` | richat/src/channel.rs:297-331 | a push evicts the oldest message of a full ring and nothing else; exactly its slot loses the index entry, and the pushed slot is entered unless it is there |
| `RichatRingLaws.ClearEvicts` | richat/src/channel.rs:333-406 | clearing evicts a message only if the sizes from it on exceed the byte limit, or with the least of too many slots |
| `RichatRingLaws.ClearedShows` | richat/src/channel.rs:333-406 | exactly the slots that lost a message are indexed no more, the others unchanged |
| `RichatRingLaws.ClearedFits` | richat/src/channel.rs:333-406 | afterwards the sum of the sizes and the number of slots are within the limits |
| `RichatRingLaws.ClearEvictsNothing` | richat/src/channel.rs:333-406 | nothing is evicted that fits |
| `BlockBuilder.SlotInfo.Keep` | richat/src/channel.rs:600-616 | the stored messages are the arrived ones with the superseded accounts erased, and the table holds every key's champion |
| `BlockBuilder.SlotInfo.Store` | richat/src/channel.rs:598-634 | counters, block meta, table and stored messages keep describing the whole history |
| `BlockBuilder.SlotInfo.TryCreate` | richat/src/channel.rs:636-669 | a block is made, out of what is stored, exactly when as many transactions and entries came as the last meta announces |
| `BlockBuilder.SlotInfo.GetBlockMessage` | richat/src/channel.rs:561-672 | for every history: emits a block exactly when the numbers of transactions and entries seen equal for the first time what the last meta announces, and never while they differ; the block holds that meta, all transactions, all entries and the accounts not superseded, in order |
| `BlockBuilder.CompleteMeans` | richat/src/channel.rs:637-641 | a history is complete exactly when, counting its messages, the last meta's two numbers are met |
| `BlockBuilder.BlockMeans` | richat/src/channel.rs:643-668 | the block of a complete history: its last meta, its transactions, its entries and its accounts not superseded, each in arrival order |
| `BlockBuilder.PrefixComplete` | richat/src/channel.rs:637-641 | with one meta announcing the counts, a prefix is complete exactly when no transaction, entry or meta follows |
| `BlockBuilder.ArrivalOrderIsFree` | richat/src/channel.rs:636-672 | for every interleaving exactly one block is emitted, at the last announced message, with all transactions and entries in arrival order |
| `BlockBuilder.RetainedGrows` | richat/src/channel.rs:607-611 | the code's single erasure gives the declarative retained list: an item is erased exactly when it was its key's record and was strictly exceeded later |
| `BlockBuilder.ChampionsGrow` | richat/src/channel.rs:607-615 | the table always holds the highest version seen and where it is stored |
| `BlockBuilder.DedupIsSafe` | richat/src/channel.rs:600-616 | whatever the order of versions, only strictly superseded accounts are erased and every key keeps its highest version |
| `BlockBuilder.NewestAccountsKept` | richat/src/channel.rs:600-616 | with versions rising per key, an account is kept exactly when no later update of its key arrived |
| `BlockBuilder.OneAccountPerKey` | richat/src/channel.rs:643-647 | with versions rising per key, a block holds at most one account per key |
| `BlockBuilder.NewestAccountHeld` | richat/src/channel.rs:643-647 | and it is the newest one, for every key seen |
| `RichatHub.StepKeepsHub` | richat/src/channel.rs:222-274 | every push keeps the invariant relating the three logs and the slots being assembled |
| `RichatHub.CommitmentSafety` | richat/src/channel.rs:234-266 | in every run each non-slot message of the confirmed or finalized log lies in a contiguous arrival-order stretch behind an update of its slot to that commitment, had been processed before, and enters the finalized log at most once |
| `RichatHub.SlotNeverCompletes` | richat/src/channel.rs:637-641 | a slot update never completes a block |
| `RichatLaws.HistoryShows` | richat/src/channel.rs:222-264 | in every run what a slot has absorbed is, in order, exactly what came for it since a Finalized update of it or a later slot |
| `RichatLaws.ReleasesExactly` | richat/src/channel.rs:234-266 | in every run: a slot update goes to the confirmed and the finalized log, in that of its commitment followed by every stored, unsuperseded message of its slot since that was last forgotten, up to the one completing the block and then the block; nothing else enters |
| `RichatLaws.StoredShows` | richat/src/channel.rs:588-668 | what a slot stores is, in order, what it has absorbed without slot updates and superseded accounts, frozen with the block at the end once the counts are met |
| `RichatLaws.ProcessesExactly` | richat/src/channel.rs:268-272 | in every run the processed log takes every message, followed by the block exactly when the counts of its slot are met for the first time |
| `RichatSender.AbsorbInfo` | richat/src/channel.rs:226-231 | a known or fresh slot info absorbs the message and yields the block it completes |
| `RichatSender.Sender.constructor` | richat/src/channel.rs:210-219 | the three rings start valid, empty and separate |
| `RichatSender.Sender.Release` | richat/src/channel.rs:247-249 | the ring gains exactly the stored messages still present, in order |
| `RichatSender.Sender.Gate` | richat/src/channel.rs:236-252 | a slot update goes to both rings; the ring of its commitment also gains the slot's messages and is cleared; succeeds exactly when that clearing, told from the state before, does not panic |
| `RichatSender.Sender.DropUpto` | richat/src/channel.rs:254-264 | a slot is known afterwards exactly if it was before and is above the finalized one, with its info unchanged |
| `RichatSender.Sender.Push` | richat/src/channel.rs:222-274 | the in-place push refines the step of the commitment model and succeeds exactly when no ring it clears drains, in particular whenever in each of them fewer than slots_max slots are newer than the message's; with gRPC a Finalized update makes exactly the slots up to its own forgotten, any other message none, and the infos of other slots never change; every ring it clears ends within its limits, counted over the messages it holds |
| `RichatSender.FewNewerFits` | richat/src/channel.rs:234-271 | that condition on the state before the push rules out every panic |
| `BinaryChannel.Channel.Send` | richat/src/channel.rs:711-722 | for every capacity of at least one: enqueues, or returns the item unchanged, exactly when its cell is occupied |
| `BinaryChannel.Channel.Recv` | richat/src/channel.rs:730-738 | dequeues the oldest item; nothing exactly when the queue is empty |
| `BinaryChannel.RefusedIffFull` | richat/src/channel.rs:751-765 | for a power of two a send is refused exactly with max_messages in flight |
| `BinaryChannel.NeverFull` | richat/src/channel.rs:751-765 | with any other capacity the queue never holds max_messages items |
| `BinaryChannel.RefusesExactlyFullIff` | richat/src/channel.rs:751-765 | sends are refused exactly with max_messages in flight, in every state, if and only if max_messages is a power of two |
| `BinaryChannel.RefusedEarly` | richat/src/channel.rs:752-765 | with three cells the second send is refused |
| `MessagesCache.Cache.constructor` | richat/src/grpc/server.rs:708-721 | an empty cache agrees with any log |
| `MessagesCache.Cache.TryRecv` | richat/src/grpc/server.rs:728-758 | whatever is returned for a position is the log's entry there; inside the window below the high-water mark what the ring gives is kept and what is kept is given out even when evicted, nothing of the window is displaced, and outside of it the cache stays as it is; the ring's own answers are passed on |
| `MessagesCache.LookupRefines` | richat/src/grpc/server.rs:728-758 | the cache as a function of the ring's answer: returns the log's entry or the ring's own answer, and keeps the window |
| `MessagesCache.LookupRemembers` | richat/src/grpc/server.rs:728-758 | the window is the last size positions once the mark is that far; inside it messages are kept and found again, outside of it nothing changes |
| `MessagesCache.PollShows` | richat/src/grpc/server.rs:322-348 | a poll changes its own client only: the next message for sure if live and seen, or cached in the window; nothing if there is none yet; the news of lagging otherwise |
| `MessagesCache.StoreInWindow` | richat/src/grpc/server.rs:750-756 | caching a position inside the window displaces no other position of the window |
| `MessagesCache.AgreeGrows` | richat/src/grpc/server.rs:728-743 | the cache stays right while the log grows |
| `MessagesCache.Cache.Turn` | richat/src/grpc/server.rs:327-348 | one turn of a client, with the ring moving on between any two requests, yields exactly the log from its position on, and ends early only where there was nothing yet or with the next message evicted |
| `MessagesCache.ClientsSeeLog` | richat/src/grpc/server.rs:322-348 | in every run of a worker, with the ring growing and evicting and other clients asking in between, each client has received exactly the log from where it began, and is told that it lags only with its next message evicted |
| `QuicFrames.FramesRoundTrip` | client/src/quic.rs:470-490 | a reader recovers exactly the frames written on a stream |
| `QuicFrames.ParseFrame` | shared/src/transports/quic.rs:323-328 | one frame followed by anything is read back with the rest untouched |
| `QuicFrames.FrameLayout` | shared/src/transports/quic.rs:323-328 | a frame is sixteen bytes of header, id and length with the most significant byte first, and then the payload |
| `QuicFrames.CloseLayout` | shared/src/transports/quic.rs:362-368 | the close message for Lagged is empty, that for Closed is field one with value one |
| `QuicFrames.RecvStream.Recv` | client/src/quic.rs:470-490 | the step-by-step reader returns the parsed frame, the decoded close error for the reserved id, or end of stream |
| `QuicFrames.CloseRoundTrip` | shared/src/transports/quic.rs:362-368 | the client learns exactly the reason for which the server closed |
| `QuicSend.SendLoop.constructor` | shared/src/transports/quic.rs:307-317 | all streams open and idle, nothing in flight |
| `QuicSend.SendLoop.Dispatch` | shared/src/transports/quic.rs:318-334 | sends exactly when a message is held, a stream idle and the oldest write in flight fewer than max_backlog ids behind; the frame is appended on the very stream taken from the queue; with a window of at least one a message still held has a write in flight |
| `QuicSend.SendLoop.ZeroWindowSendsNothing` | shared/src/transports/quic.rs:319 | with a window of zero, in every state of the loop, nothing stands on the streams but possibly the close frame |
| `QuicSend.SendLoop.SendNext` | shared/src/transports/quic.rs:320-329 | the held message goes to the first idle stream under the next id |
| `QuicSend.SendLoop.OnMessage` | shared/src/transports/quic.rs:348-350 | a received message is held, keeping the invariant |
| `QuicSend.SendLoop.OnJoin` | shared/src/transports/quic.rs:380-384 | a finished write returns its stream and leaves the window; idle streams plus writes stay recv_streams |
| `QuicSend.SendLoop.OnError` | shared/src/transports/quic.rs:351-376 | a stream for the close frame is always to be had, so neither the expect nor the missing-stream error is reached; one frame is written, on the stream taken from the queue, under the reserved id with the reason as payload |
| `QuicSend.DeliverNext` | shared/src/transports/quic.rs:320-329 | message i is written exactly once, under id i, with ids rising on every stream |
| `QuicSend.MergeIsSource` | shared/src/transports/quic.rs:323-329 | every parsed frame carries the message of its id and is the only one with it, or is the close frame at the end of its stream |
| `QuicSend.EveryMessageArrives` | shared/src/transports/quic.rs:323-329 | every message sent is found among the parsed frames |
| `Wire.VarintRoundTrip` | plugin-agave/src/protobuf/encoding/mod.rs:139-149 | every number is read back from its varint, whose length is as predicted |
| `Wire.KeyLenIgnoresType` | plugin-agave/src/protobuf/encoding/mod.rs:147-149 | the wire type never changes the length of a key |
| `Wire.FieldsRoundTrip` | plugin-agave/src/protobuf/encoding/mod.rs:139-145 | whatever fields are written are read back |
| `Wire.GroupsRoundTrip` | plugin-agave/src/protobuf/message.rs:178-240 | a message written in tag order is read back field group by field group |
| `Wire.RepeatFixedLen` | plugin-agave/src/protobuf/encoding/transaction.rs:189-200 | the count-times-constant length equals what the loop writes |
| `Wire.PackedRoundTrip` | plugin-agave/src/protobuf/encoding/transaction.rs:487-488 | packed numbers read back, with the predicted length |
| `Encoding.DecimalRoundTrip` | plugin-agave/src/protobuf/encoding/mod.rs:19-43 | the number strings are the decimal digits, readable back |
| `Encoding.RewardOk` | plugin-agave/src/protobuf/encoding/mod.rs:67-137 | predicted length is the written length, and the bytes read back as the reward |
| `Encoding.RewardsOk` | plugin-agave/src/protobuf/encoding/block_meta.rs:128-149 | the same for rewards with the number of partitions |
| `Encoding.AccountInfoOk` | plugin-agave/src/protobuf/encoding/account.rs:20-79 | the same for an account, an absent and an empty signature kept apart |
| `Encoding.AccountOk` | plugin-agave/src/protobuf/encoding/account.rs:111-128 | the same for an account update |
| `Encoding.SlotOk` | plugin-agave/src/protobuf/encoding/slot.rs:6-86 | the same for a slot update, its seven statuses and dead error |
| `Encoding.EntryOk` | plugin-agave/src/protobuf/encoding/entry.rs:18-68 | the same for an entry |
| `Encoding.BlockMetaOk` | plugin-agave/src/protobuf/encoding/block_meta.rs:24-97 | the same for a block meta, absent and zero time and height kept apart |
| `EncodingTransaction.SignaturesOk` | plugin-agave/src/protobuf/encoding/transaction.rs:189-200 | the multiplied length of signatures is what the loop writes, and they read back |
| `EncodingTransaction.KeysOk` | plugin-agave/src/protobuf/encoding/transaction.rs:372-381 | the same for public keys |
| `EncodingTransaction.HeaderOk` | plugin-agave/src/protobuf/encoding/transaction.rs:316-352 | length and round trip of a message header |
| `EncodingTransaction.InstructionOk` | plugin-agave/src/protobuf/encoding/transaction.rs:852-884 | length and round trip of a compiled instruction |
| `EncodingTransaction.LookupOk` | plugin-agave/src/protobuf/encoding/transaction.rs:419-445 | length and round trip of an address table lookup |
| `EncodingTransaction.TxMessageOk` | plugin-agave/src/protobuf/encoding/transaction.rs:213-285 | length and round trip of a transaction message, legacy and versioned kept apart |
| `EncodingTransaction.SanitizedOk` | plugin-agave/src/protobuf/encoding/transaction.rs:157-169 | length and round trip of a transaction |
| `EncodingTransaction.InnerInstructionOk` | plugin-agave/src/protobuf/encoding/transaction.rs:770-810 | length and round trip of an inner instruction |
| `EncodingTransaction.InnerOk` | plugin-agave/src/protobuf/encoding/transaction.rs:700-728 | length and round trip of a list of inner instructions |
| `EncodingTransaction.UiOk` | plugin-agave/src/protobuf/encoding/transaction.rs:1001-1044 | length and round trip of a token amount, absent and zero merging |
| `EncodingTransaction.BalanceOk` | plugin-agave/src/protobuf/encoding/transaction.rs:926-970 | length and round trip of a token balance |
| `EncodingTransaction.ReturnOk` | plugin-agave/src/protobuf/encoding/transaction.rs:1075-1093 | length and round trip of return data |
| `EncodingTransaction.ErrorOk` | plugin-agave/src/protobuf/encoding/transaction.rs:631-658 | length and round trip of a transaction error |
| `EncodingUpdate.MetaOk` | plugin-agave/src/protobuf/encoding/transaction.rs:476-602 | length and round trip of a status meta: absent and empty token balances and rewards merge, absent inner instructions, logs and return data are kept by their flags |
| `EncodingUpdate.TxInfoOk` | plugin-agave/src/protobuf/encoding/transaction.rs:85-126 | length and round trip of a transaction with its meta |
| `EncodingUpdate.TxUpdateOk` | plugin-agave/src/protobuf/encoding/transaction.rs:37-54 | length and round trip of a transaction update |
| `EncodingUpdate.UpdateOk` | plugin-agave/src/protobuf/message.rs:178-240 | for every message the allocated size is exactly the number of bytes written, and the bytes read back as message and timestamp |
| `EncodingUpdate.UpdateInjective` | plugin-agave/src/protobuf/message.rs:53-61 | equal bytes come from messages equal up to that normalisation, and from the same slot |
| `EncodingLayout.VarintLayout` | plugin-agave/src/protobuf/encoding/mod.rs:139-149 | the bytes of a varint spell its number in groups of seven bits, lowest first, with the high bit on all but the last |
| `EncodingLayout.GroupsLayout` | plugin-agave/src/protobuf/message.rs:178-240 | the fields of a message follow one another in the order of their numbers |
| `EncodingLayout.AccountInfoLayout` | plugin-agave/src/protobuf/encoding/account.rs:20-79 | field numbers one to eight of an account: key and owner always, zeros and empty data left out |
| `EncodingLayout.SlotLayout` | plugin-agave/src/protobuf/encoding/slot.rs:6-86 | field numbers of a slot update; the status codes are those of the protocol, Processed 0 to Dead 6 |
| `EncodingLayout.EntryLayout` | plugin-agave/src/protobuf/encoding/entry.rs:18-68 | field numbers of an entry |
| `EncodingLayout.DecimalLayout` | plugin-agave/src/protobuf/encoding/mod.rs:19-43 | the number strings are decimal digits, most significant first, without leading zeros |
| `EncodingLayout.RewardLayout` | plugin-agave/src/protobuf/encoding/mod.rs:67-137 | field numbers of a reward; types Fee 1 to Voting 4, lamports in 64-bit two's complement |
| `EncodingLayout.RewardsLayout` | plugin-agave/src/protobuf/encoding/block_meta.rs:128-149 | field numbers of rewards and partitions |
| `EncodingLayout.BlockMetaLayout` | plugin-agave/src/protobuf/encoding/block_meta.rs:24-97 | field numbers one to nine of a block meta |
| `EncodingLayout.TxMessageLayout` | plugin-agave/src/protobuf/encoding/transaction.rs:213-285 | field numbers one to six of a transaction message |
| `EncodingLayout.SanitizedLayout` | plugin-agave/src/protobuf/encoding/transaction.rs:157-169 | field numbers of a transaction |
| `EncodingLayout.UiLayout` | plugin-agave/src/protobuf/encoding/transaction.rs:1001-1044 | field numbers of a token amount; a floating-point zero of either sign is left out |
| `EncodingLayout.BalanceLayout` | plugin-agave/src/protobuf/encoding/transaction.rs:926-970 | field numbers of a token balance |
| `EncodingLayout.MetaLayout` | plugin-agave/src/protobuf/encoding/transaction.rs:476-602 | field numbers one to sixteen of a status meta, with the three absence flags |
| `EncodingLayout.TxInfoLayout` | plugin-agave/src/protobuf/encoding/transaction.rs:85-126 | field numbers of a transaction with its meta |
| `EncodingLayout.UpdateLayout` | plugin-agave/src/protobuf/message.rs:178-240 | the envelope: field 2, 3, 4, 7 or 8 by the kind of update, and field 11 with the timestamp |
| `EncodingLayout.NormalShows` | plugin-agave/src/protobuf/encoding/transaction.rs:476-602 | what the wire cannot tell apart is only an absent list of token balances or rewards and an empty one, and an absent amount and zero |
| `EncodingBuffer.Encoder.ErrorLength` | plugin-agave/src/protobuf/encoding/transaction.rs:645-658 | predicting the length of an error leaves exactly that error in the shared buffer |
| `EncodingBuffer.Encoder.EncodeError` | plugin-agave/src/protobuf/encoding/transaction.rs:481-483 | the buffer copied is the one just filled: the bytes are those of this very error, whatever was left there |
| `EncodingBuffer.Encoder.MetaLength` | plugin-agave/src/protobuf/encoding/transaction.rs:535-602 | recomputing the length of a meta gives the same length and refills the buffer with its own error |
| `EncodingBuffer.Encoder.MetaRaw` | plugin-agave/src/protobuf/encoding/transaction.rs:477-533 | the sixteen field groups are appended in order, for any earlier buffer contents |
| `EncodingBuffer.Encoder.InfoRaw` | plugin-agave/src/protobuf/encoding/transaction.rs:86-105 | appends exactly the bytes of the transaction info |
| `EncodingBuffer.Encoder.TransactionRaw` | plugin-agave/src/protobuf/encoding/transaction.rs:38-44 | appends exactly the bytes of the transaction update |
| `EncodingBuffer.Encoder.PutLeaves` | plugin-agave/src/protobuf/encoding/transaction.rs:489-495 | a repeated message field, each element with its predicted length in front, is the field list of the specification |
| `EncodingBuffer.Encoder.AccountRaw` | plugin-agave/src/protobuf/encoding/account.rs:112-118 | appends exactly the bytes of the account update |
| `EncodingBuffer.Encoder.RewardsRaw` | plugin-agave/src/protobuf/encoding/block_meta.rs:129-137 | appends exactly the bytes of the rewards |
| `EncodingBuffer.Encoder.BlockMetaRaw` | plugin-agave/src/protobuf/encoding/block_meta.rs:25-53 | appends exactly the bytes of the block meta, nested lengths predicted |
| `EncodingBuffer.Encoder.TxMessageRaw` | plugin-agave/src/protobuf/encoding/transaction.rs:214-252 | appends exactly the bytes of the transaction message |
| `EncodingBuffer.Encoder.SanitizedRaw` | plugin-agave/src/protobuf/encoding/transaction.rs:158-164 | appends exactly the bytes of the transaction |
| `EncodingBuffer.Encoder.InnerRaw` | plugin-agave/src/protobuf/encoding/transaction.rs:701-715 | appends exactly the bytes of the inner instructions |
| `EncodingBuffer.Encoder.BalanceRaw` | plugin-agave/src/protobuf/encoding/transaction.rs:927-946 | appends exactly the bytes of the token balance |
| `EncodingBuffer.Encoder.Encode` | plugin-agave/src/protobuf/message.rs:178-240 | field by field and with every nested length predicted separately, whatever errors were encoded before and however often lengths were recomputed, the bytes are those of the message and as many as allocated |
| `FilterConfig.CheckParts` | filter/src/config.rs:240-260 | accepts exactly when all data fits and at most one data size is given |
| `FilterConfig.CheckOne` | filter/src/config.rs:223-260 | accepts a filter exactly when it is allowed, and blames a rule it breaks |
| `FilterConfig.CheckSlices` | filter/src/config.rs:264-278 | accepts exactly slices in order and, as far as the wrapping end shows, apart |
| `FilterConfig.CheckFilter` | filter/src/config.rs:213-280 | accepts exactly what the rules, written out with their numbers 4 and 128, allow, and any refusal names a limit that is really broken |
| `FilterAccounts.Compile` | filter/src/filter.rs:289-309 | panics exactly when a fixed capacity is exceeded, otherwise yields the matcher of all listed filters |
| `FilterAccounts.AcceptedFits` | filter/src/config.rs:237-249 | no accepted configuration overflows a fixed capacity |
| `FilterAccounts.IsMatch` | filter/src/filter.rs:310-330 | panics exactly when a comparison is reached whose end wraps around and whose wrapped end lies in the data; otherwise matches exactly when every part holds: lamports equal to each Eq, different from each Ne, below each Lt, above each Gt value, and with only such filters exactly then |
| `FilterAccounts.CompiledMeans` | filter/src/filter.rs:289-330 | the matcher holds exactly when every listed filter holds |
| `FilterAccounts.DuplicateSizeForgotten` | filter/src/filter.rs:296-298 | with two data sizes the matcher forgets the first: a concrete case where the duplicate check is needed |
| `FilterAccounts.NoWrapNoPanic` | filter/src/filter.rs:320-328 | without offsets that wrap around no account makes a matcher panic |
| `FilterAccounts.PanicsMeans` | filter/src/filter.rs:310-330 | a matcher panics exactly when the other filters hold and the first comparison that does not stand is one whose end wraps around into the data |
| `FilterAccounts.SingleMemcmpPanicsIff` | filter/src/filter.rs:320-328 | some account makes a single comparison panic if and only if its end wraps around |
| `FilterAccounts.CompileAll` | filter/src/filter.rs:347-365 | every named filter is compiled, or one overflows |
| `FilterAccounts.Passes` | filter/src/filter.rs:381-403 | a compiled filter panics exactly as its configuration tells, and otherwise passes exactly the accounts its configuration wants |
| `FilterAccounts.AccountUpdate` | filter/src/filter.rs:367-413 | for accepted filters an account is sent under the names of exactly those filters that ask for it, every condition written out, in table order, or not at all when there is none; panics exactly when one filter does |
| `FilterAccounts.AsksMeans` | filter/src/filter.rs:367-413 | an account is wanted exactly if key, owner, signature flag, lamports, data size, token state and every compared byte are as asked |
| `FilterAccounts.SelectedShows` | filter/src/filter.rs:367-413 | the names collected are those of the filters asking for the account, in table order |
| `FilterAccounts.WrapsShow` | filter/src/filter.rs:320-328 | a comparison slices backwards exactly if its end is past 2^64 by at most the length of the data and every earlier comparison stands |
| `FilterAccounts.GetSlice` | filter/src/filter.rs:436-448 | slices that start where earlier ones end give the covered bytes of the source, each once and in order; panics exactly on an oversized allocation or a slice that runs backwards within the source |
| `FilterAccounts.NextSlice` | filter/src/filter.rs:441-445 | one more slice adds exactly the covered bytes up to its end |
| `FilterAccounts.CoveredMeans` | filter/src/filter.rs:425-434 | compiled slices cover exactly the bytes of the requested slices that end within the source |
| `FilterAccounts.AcceptedCapacity` | filter/src/config.rs:264-278 | for accepted slices that do not wrap around the lengths sum up below 2^64 |
| `FilterAccounts.CapacityWraps` | filter/src/filter.rs:440 | the capacity asked for is the sum of the lengths modulo 2^64, for any slices |
| `FilterAccounts.SliceData` | filter/src/filter.rs:425-448 | compiled and applied, accepted slices keep exactly the covered bytes, never more than the source, and panic exactly when the wrapped total length exceeds the largest allocation or a slice wraps around to an end within the source |
| `FilterAccounts.WrappedSliceAccepted` | filter/src/config.rs:264-278 | one slice whose end wraps around is accepted and then asks for too large an allocation |

## Left out

- Positions, message ids and byte counts never wrap around 64 bits in the rings and the send loop.
- What a panic leaves behind: after a failed push the model promises nothing, although the code goes on with poisoned locks.
- Relaxed atomics: a reader's view of a re-broadcast ring's tail may be outdated, and that is all; cells are read and written atomically, as their locks make them.
- PluginChannel.Sender.Push: a call that never returns is modelled as an outcome of its own, reported once the walk has visited more ancestors than there are slots.
- RichatSender.Sender.Push: the source is assumed never to send a Block, on which the code is `unreachable!`; parsing is left out, messages arrive parsed.
- RichatSender.AbsorbInfo: a slot's info lives in the sender's map as a value and is unpacked into an object for each message, where the code mutates it inside the map.
- BlockBuilder.SlotInfo.GetBlockMessage: the `failed` and `landed` fields only feed metrics and are not modelled.
- QuicSend.SendLoop.Dispatch: a write is one step that appends the whole frame when it is started; connection errors end the loop and are not modelled.
- QuicFrames.RecvStream.Recv: the decoder of the close message knows numbers, eight-byte fields and records only, which is all the server writes; the generated decoder, which is library code, also skips other wire types, and those count as undecodable here.
- EncodingTransaction.UiOk: a floating-point amount is its eight bytes; only the comparison with zero looks inside.
- EncodingTransaction.ErrorOk: the serialisation of an error is an arbitrary byte string, not the output of bincode; base58 strings are byte strings too.
- Encoding.BlockMetaOk: numbers are unbounded naturals on the wire; 64-bit signed ones are modelled as two's complement.
- The prost encoder (`encode_prost`) and byte equality with it.
- FilterAccounts.IsMatch: whether data is a token account is an arbitrary predicate.
- FilterAccounts.AccountUpdate: a client's table of filters is a sequence in the order it is walked; names are not interned.
- FilterConfig.CheckFilter: the limits and filters for slots, transactions, entries and blocks, which are plain comparisons.
- Running out of memory for allocations that are not too large to ask for.
- The block meta storage, the live QUIC client stream, Kafka, Shutdown, TLS, sockets, configuration loading, metrics, logging and the command line: I/O, thin wrappers or easier cousins of what is modelled.
- With gRPC off the confirmed and finalized rings have no cells and are never used; the model gives them at least one.
