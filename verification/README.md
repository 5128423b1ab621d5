# Transactions, queues and JSON-RPC requests, verified

A Dafny model of four parts of this Bitcoin node and of its RPC client, with proofs of
what each of them is for.

- **The transaction codec** (`wire/msgtx.go` over `wire/common.go`), the serialization of
  BIP 144. `Bytes`, `VarInts` and `TxGrammar` give the format as a pair of a writer and a
  parser and prove the round trips; `TxSizes` proves that the size computations count the
  bytes written and contains the encoder; `ScriptPools`, `TxDecoder` and
  `CompactedScripts` are the decoder on the heap, with pooled script buffers, the cleanup
  closure and the move of all scripts into one allocation, shown to do what the parser
  does. `Streams` is the reader and the writer. Independently of writer and parser,
  `WireLayout` says byte by byte where everything in an encoding stands, and proves that
  this is what is written and exactly what is accepted; `WireRefusals` and `WirePrefixes`
  give the bytes that each error is about.
- **The websocket RPC client** (`rpcclient/infrastructure.go`). `LinkedLists` and
  `RequestTracker` are the map and the linked list of pending requests as objects;
  `Requests` says on sequences what their methods do; `ClientProtocol` is the state
  machine in which callers, readers, disconnects, shutdowns and reconnects interleave, one
  step per section under a lock and per send on a channel, using the same functions;
  `ClientSections` shows that a method call on the object is a run of the machine;
  `ClientRuns` and `ClientConnections` count what a run must do, such as one resend for
  each reconnect, and construct the runs that carry a request through;
  `NtfnState` is the replay of notification registrations.
- **The websocket server** (`rpcwebsocket.go`). `QueueHandler` is the unbounded queue with
  its in-place slice, `NtfnProtocol` the protocol between notification handler and
  sender with `NtfnRuns` for the accounts of its runs, `WatchIndex` the two-way index of
  watched outpoints, `Session` the authentication state over single and batched messages,
  and `SessionEvents` what exactly a session runs.
- **Positional commands** (`acbcjson/register.go`, `acbcjson/cmdparse.go`) in `Registry`
  and `Commands`, with `RegistryRules` and `CommandRules` for what is accepted and what is
  not, and hashes as text (`chaincfg/chainhash/hash.go`) in `ChainHash`.

`dafny verify dfyconfig.toml` checks everything.

## How to read it

Code that changes things in place is a class or a method with loops, and its contract
ties the result to a function on values; what the code promises is proved about that
function. Each state machine has a list of steps, a condition for when a step can be
taken, and an invariant that every step keeps; its theorems are about every run from the
start. JSON text and reflection do not appear: a codec for values is a parameter, and the
theorems ask of it only that each value of the command at hand survives being encoded and
decoded.

Where code and documentation differ, the model follows the code, and says exactly when
the two agree:

- A transaction without inputs cannot be decoded again under the witness encoding, because
  its zero count reads as the marker (`TxGrammar.WitnessRoundTrip`; an instance is
  `TxGrammar.NoInputsAreMisread`).
- `handleMessage` says that it remembers a notification command because the command was
  successful, but it does so for error replies too (`Requests.RememberedAsDocumented`,
  `Requests.RefusedCommandIsRemembered`).
- Re-registering is meant to restore the notification state, but when new transactions
  were asked for both tersely and verbosely it restores only the verbose registration
  (`NtfnState.ReplayRebuilds`, `NtfnState.BothKindsAreReachable`).
- An unauthenticated client is said to be disconnected unless its first request is a
  matching login, but malformed requests are passed over first
  (`Session.UnauthenticatedGoesOn`, `Session.FirstRequestNeedNotBeALogin`).
- A batch does what its requests would do one by one, with two exceptions. A batched
  command that cannot be answered, for want of a valid version or id, ends the input
  handler without disconnecting, while the same command sent alone does not; and an empty
  batch disconnects a client that has not logged in (`Session.BatchIsSingles`,
  `Session.CommandWithoutVersion`, `Session.EmptyBatch`).
- Shutdown is said to disconnect and to prevent reconnects, but a dial in flight can still
  open a connection behind it. Exactly then the connection does not stay closed
  (`ClientProtocol.ShutdownCloses`, `ClientProtocol.OpenedBehindShutdown`); it is closed
  again by its own input handler, which finds the shutdown channel closed
  (`ClientProtocol.ShutdownStopsAll`).
- A pointer to a nil slice or map does not survive as an optional parameter, since it
  travels as null (`Commands.RoundTripIsExact`, `Commands.PointerToNilSliceIsLost`).
- Draining the channels after a disconnect is meant to leave nobody waiting. That holds
  exactly while fewer goroutines than sendChan has room for can be sending replies, which
  are as many as rpcmaxconcurrentreqs says and the input handler
  (`NtfnProtocol.StrandsExactly`).

The repository itself registers only `getblockhash` and notification types as commands
(`acbcjson/chainsvrcmd.go`). Every login, `Requests.RefusedCommandIsRemembered` and
`NtfnState.BothKindsAreReachable` are about commands whose types exist but which a user of
the package registers through `RegisterCmd`: `authenticate`, `notifyblocks` and
`notifynewtransactions`. Until that is done `parseCmd` and `SendCmd` refuse them.

## Model

| member | source | states |
|---|---|---|
| Bytes.FromLEInvertsLE | wire/common.go:102-125 | Little-endian bytes give back any integer that fits into them. |
| Bytes.LEInvertsFromLE | wire/common.go:102-125 | Every string of n bytes is the little-endian form of the integer it stands for, which is below 256^n. |
| Bytes.ManyInverts | wire/msgtx.go:280-309 | If one element can be read back, so can a counted run of them, whatever follows. |
| Bytes.ManySound | wire/msgtx.go:530-545 | If every element read writes back to the bytes it came from, so does a counted run. |
| Streams.Reader.ReadFull | wire/common.go:74-125 | Exactly n bytes are consumed and returned, or the stream is used up with the error EOF if it was empty and UnexpectedEOF if not. |
| Streams.Reader.ReadInto | wire/msgtx.go:411-416 | The same into the front of a buffer; the cells behind it stay as they were. |
| Streams.Reader.ReadLE | wire/common.go:102-125 | A fixed-width integer is what the grammar reads from the same bytes. |
| Streams.Writer.Write | wire/common.go:129-168 | The bytes are appended to what was written before. |
| VarInts.VarIntRoundTrip | wire/common.go:476-564 | For every uint64 and every continuation of the stream, reading what was written gives the value and leaves the continuation. |
| VarInts.VarIntSound | wire/common.go:476-534 | Whatever is accepted is the one canonical form of the value returned, followed by what is left unread. |
| VarInts.VarIntAccepts | wire/common.go:476-534 | The accepted strings are exactly the written forms of uint64 values followed by anything. |
| VarInts.VarIntSize | wire/common.go:568-587 | The announced size is the number of bytes written. |
| VarInts.ReadVarInt | wire/common.go:476-534 | The reader, with its four branches and minimum checks, does what the grammar says, errors included. |
| VarInts.WriteVarInt | wire/common.go:538-564 | Appends the canonical form, in the announced number of bytes. |
| TxGrammar.ScriptInverts | wire/common.go:637-673 | A length-prefixed string within its limit is read back, and the rest of the stream is left. |
| TxGrammar.ScriptSound | wire/common.go:637-660 | A length-prefixed string that is accepted respects its limit and writes back to the bytes consumed. |
| TxGrammar.TxInInverts | wire/msgtx.go:220-232 | An input without its witness is read back from what was written, for every rest of the stream. |
| TxGrammar.TxInSound | wire/msgtx.go:422-435 | Every input that is read respects the script limit, has no witness yet, and writes back to the bytes consumed. |
| TxGrammar.TxOutInverts | wire/msgtx.go:239-246 | The same round trip for outputs; the signed value survives the unsigned form it travels in. |
| TxGrammar.TxOutSound | wire/msgtx.go:439-448 | Every output that is read writes back to the bytes consumed. |
| TxGrammar.WitnessInverts | wire/msgtx.go:734-746 | A witness stack within its limits is read back item by item. |
| TxGrammar.WitnessSound | wire/msgtx.go:582-617 | A witness stack that is read respects both limits and writes back to the bytes consumed. |
| TxGrammar.InCountInverts | wire/msgtx.go:461-489 | A count written with or without marker and flag is told apart: zero inputs without a flag only under the base encoding. |
| TxGrammar.InCountSound | wire/msgtx.go:461-489 | What is read for the input count is what was written for it, and under the witness encoding it is zero only behind a flag. |
| TxGrammar.BaseRoundTrip | wire/msgtx.go:252-312 | Under the base encoding, decoding the encoding gives the transaction without its witnesses and leaves the rest, exactly when it respects the limits on inputs, outputs and scripts; zero inputs are fine. |
| TxGrammar.WitnessRoundTrip | wire/msgtx.go:252-312 | Under the witness encoding, decoding the encoding gives the transaction back, witnesses included, and leaves the rest, exactly when it has an input and respects all limits. |
| TxGrammar.NoInputsAreMisread | wire/msgtx.go:461-489 | The encoding of a transaction without inputs and outputs is refused for its flag. |
| TxGrammar.DecodeSound | wire/msgtx.go:454-694 | What a successful decode consumed is the layout of its result, with the flag exactly if there was one; the result respects all limits and has a witness only behind a flag. |
| TxGrammar.ReadThenWrite | wire/msgtx.go:454-694 | Encoding what was decoded gives the bytes consumed, except when the flag stood over nothing but empty stacks; then the encoding lacks just the two flag bytes and one zero per input. |
| TxGrammar.EmptyStacks | wire/msgtx.go:302-309 | The stacks of inputs without witnesses are one zero byte each. |
| TxSizes.SizeAgreement | wire/msgtx.go:178-193 | The size computations announce exactly the bytes that each encoding takes. |
| TxSizes.SizeImpliesCaps | wire/msgtx.go:56-85 | Whatever fits into a message respects the limits on inputs, outputs and scripts. |
| TxSizes.MessageRoundTrip | wire/msgtx.go:56-85 | For a transaction with an input that fits into a message, the round trip succeeds exactly when the two witness limits are respected. |
| WireLayout.LEAt | wire/common.go:129-168 | Byte k of a little-endian integer is v / 256^k % 256. |
| WireLayout.CountIsVarInt | wire/common.go:538-564 | A count is written as one byte below 0xfd, and otherwise as 0xfd, 0xfe or 0xff and the 2, 4 or 8 bytes of its value, byte by byte. |
| WireLayout.InputIsTxIn | wire/msgtx.go:209-232 | In an input the hash stands at 0, the index at 32, the script with its count at 36 and the sequence behind it; no other bytes are the input. |
| WireLayout.OutputIsTxOut | wire/msgtx.go:239-246 | In an output the value stands at 0 in two's complement, and the script with its count at 8. |
| WireLayout.StackIsWitness | wire/msgtx.go:734-746 | A stack is the number of its items and the items with their counts, each at the sum of the widths in front of it. |
| WireLayout.LayoutIsPositional | wire/msgtx.go:252-312 | What is written is exactly the layout by position: version at 0, bytes 4 and 5 being 0 and 1 if there are witnesses, inputs, outputs, stacks and lock time at their offsets. |
| WireLayout.EncodedByPosition | wire/msgtx.go:252-312 | The encoding has marker, flag and stacks exactly under the witness encoding with some input that has a witness, and everything at its place. |
| WireLayout.LimitsAreCaps | wire/msgtx.go:56-85 | The limits in numbers: 818401 inputs, 3728271 outputs, scripts of 33554432 bytes, 500000 items of 11000 bytes. |
| WireLayout.MarkerIsZero | wire/msgtx.go:461-489 | Among the streams accepted, those with a marker are exactly the ones with a zero behind the version under the witness encoding. |
| WireLayout.DecodesExactly | wire/msgtx.go:454-694 | The decoder takes the first n bytes for a transaction if and only if they are laid out as it by position and it respects the limits. |
| WireRefusals.CountIsRead | wire/common.go:476-534 | A count is read exactly where it stands, and what follows it is left. |
| WireRefusals.NonCanonicalExactly | wire/common.go:476-534 | A count is refused for its form exactly when a shorter form could carry the value, in terms of its bytes. |
| WireRefusals.BadFlagExactly | wire/msgtx.go:468-484 | The flag is refused exactly when under the witness encoding byte 4 is 0 and byte 5 is not 1. |
| WireRefusals.TooManyInputsExactly | wire/msgtx.go:491-498 | The inputs are refused as too many exactly when a count above 818401 stands in their place. |
| WireRefusals.TooManyOutputsExactly | wire/msgtx.go:547-562 | The outputs are refused as too many exactly when complete inputs are followed by a count above 3728271. |
| WireRefusals.ScriptTooLargeExactly | wire/msgtx.go:396-408 | A script is refused as too large exactly when a length above its limit stands there. |
| WireRefusals.ElementsTooLargeExactly | wire/msgtx.go:422-448 | Scripts of inputs and outputs may have 32 MiB, witness items 11000 bytes and stacks 500000 items, and nothing else is refused as too large. |
| WirePrefixes.DecodeGoesOn | wire/msgtx.go:454-694 | What was decoded stays decoded when more bytes follow, and every error that is not the end of the stream stays the same error. |
| WirePrefixes.CutShortExactly | wire/msgtx.go:454-694 | Of the bytes of a transaction every proper prefix is refused because the stream ends, and nothing beyond them is needed. |
| TxSizes.TxWitnessSerializeSize | wire/msgtx.go:137-150 | The counting loop gives the number of bytes the stack is written in. |
| TxSizes.BaseSizeLoop | wire/msgtx.go:178-193 | The counting loop gives the length of the base encoding. |
| TxSizes.HasWitnessLoop | wire/msgtx.go:197-205 | The loop finds out whether any input has a witness item. |
| TxSizes.SerializeSizeLoop | wire/msgtx.go:715-730 | The counting loops give the length of the witness encoding. |
| TxSizes.WriteVarBytes | wire/common.go:664-673 | Appends the length-prefixed form. |
| TxSizes.WriteTxIn | wire/msgtx.go:220-232 | Appends outpoint, script and sequence in that order, without the witness. |
| TxSizes.WriteTxOut | wire/msgtx.go:239-246 | Appends the value in two's complement and the script. |
| TxSizes.WriteTxWitness | wire/msgtx.go:734-746 | Appends the number of items and the items. |
| TxSizes.BtcEncode | wire/msgtx.go:252-312 | The writing loops append the encoding of the transaction, flag and stacks only under the witness encoding and only if there is a witness; the number of bytes is the computed size. |
| ScriptPools.ScriptPool.Borrow | wire/msgtx.go:375-387 | A buffer of 512 bytes, or of the size asked for if that is more; the oldest pooled one if there is one of that size, otherwise a new one; lent to nobody else. |
| ScriptPools.ScriptPool.Return | wire/msgtx.go:341-355 | A buffer that is lent goes back at most once: into the pool if it has 512 bytes and fewer than 12500 are there, otherwise nowhere. |
| ScriptPools.ReadScript | wire/msgtx.go:396-418 | The script the grammar reads, in a borrowed buffer; on any error nothing stays borrowed. |
| ScriptPools.ReadVarBytes | wire/common.go:637-660 | The same bytes, limit and errors, without the pool. |
| ScriptPools.OnlyOwnBuffers | wire/msgtx.go:506-528 | If everything borrowed has been handed back, nothing but former pool buffers and newly made ones is pooled. |
| TxDecoder.ReadTxIn | wire/msgtx.go:422-435 | One input as the grammar reads it; on an error after the script, the record still names the one buffer it borrowed. |
| TxDecoder.ReadTxOut | wire/msgtx.go:439-448 | One output as the grammar reads it, with its script in a borrowed buffer. |
| TxDecoder.ReadTxIns | wire/msgtx.go:530-545 | The input loop reads what the grammar reads; all borrowed buffers are in the records, those of earlier inputs keep their bytes, and the script lengths are added up. |
| TxDecoder.ReadTxOuts | wire/msgtx.go:564-578 | The same for outputs. |
| TxDecoder.ReadWitness | wire/msgtx.go:583-616 | One witness stack as the grammar reads it, its limits included; a stack broken off halfway still names every buffer it borrowed. |
| TxDecoder.ReadStacks | wire/msgtx.go:582-617 | The loops over all inputs attach exactly the stacks the grammar reads. |
| TxDecoder.ReadInCount | wire/msgtx.go:461-489 | A zero count under the witness encoding is taken for a marker, and the flag behind it must be right. |
| TxDecoder.ReturnScriptBuffers | wire/msgtx.go:506-528 | The cleanup closure hands back every buffer that any record holds, each exactly once, on every way out that calls it. |
| TxDecoder.Gather | wire/msgtx.go:642-655 | One script is copied behind those already gathered, its window has the script's length for capacity, and its buffer goes back. |
| TxDecoder.GatherAll | wire/msgtx.go:639-691 | After the copying loops every record shows its own script in the common buffer, in order, and nothing is borrowed any more. |
| TxDecoder.Compact | wire/msgtx.go:625-691 | The total added up while reading is exactly the size that the gathered scripts fill, in an allocation that the pool never knew. |
| TxDecoder.HeldLengths | wire/msgtx.go:544-640 | The total summed as inputs, outputs, witnesses equals the sum in gathering order. |
| TxDecoder.TxMessage.ReadFoot | wire/msgtx.go:580-693 | From the stacks on: errors hand everything back, success leaves the scripts in one new buffer. |
| TxDecoder.TxMessage.ReadOuts | wire/msgtx.go:547-693 | From the output count on, with the inputs already read. |
| TxDecoder.TxMessage.ReadBody | wire/msgtx.go:491-693 | From the input loop on, with the count already known. |
| TxDecoder.TxMessage.BtcDecode | wire/msgtx.go:454-694 | On a fresh receiver the decoder returns exactly the result, the rest or the error of the grammar; on every way out all borrowed buffers have been handed back exactly once; on success the scripts live in a buffer that the pool does not know. |
| CompactedScripts.DecodedScripts | wire/msgtx.go:625-691 | After a decode every script keeps its bytes, the slices are in bounds with no spare capacity, pairwise disjoint, each starts where the one before ends, and together they fill the buffer. |
| CompactedScripts.RunTiles | wire/msgtx.go:639-691 | Slices gathered one behind the other tile the buffer from its first to its last byte. |
| ChainHash.DecodeInvertsEncode | chaincfg/chainhash/hash.go:39-81 | Hexadecimal text gives back the bytes. |
| ChainHash.EncodeInvertsDecode | chaincfg/chainhash/hash.go:39-81 | Decoding and encoding a hexadecimal string puts it into lower case and does nothing else. |
| ChainHash.HashRoundTrip | chaincfg/chainhash/hash.go:39-81 | The text of any 32-byte hash decodes to the hash. |
| ChainHash.TextRoundTrip | chaincfg/chainhash/hash.go:39-81 | A string is accepted exactly when it has at most 64 characters, all hexadecimal; the text of its hash is the string in lower case with zeros in front up to 64. |
| ChainHash.TextByPosition | chaincfg/chainhash/hash.go:76-81 | Byte k of the hash is shown by the digits 62 - 2k and 63 - 2k of the text, the high half first. |
| ChainHash.ByteByPosition | chaincfg/chainhash/hash.go:39-72 | With zeros in front of a short string, byte k of the hash is what the digits 62 - 2k and 63 - 2k stand for, in either case. |
| ChainHash.RefusedExactly | chaincfg/chainhash/hash.go:39-72 | More than 64 characters are refused for the length, and otherwise exactly the strings with a character that stands for no digit. |
| ChainHash.Decode | chaincfg/chainhash/hash.go:39-72 | The buffer and reverse-copy code computes that hash, and leaves the destination alone on an error. |
| ChainHash.DecodeInto | chaincfg/chainhash/hash.go:58-62 | The digits land behind the leading zeros, and a bad digit is noticed. |
| ChainHash.ReverseCopy | chaincfg/chainhash/hash.go:64-69 | The swapping loop copies the bytes in reverse. |
| ChainHash.String | chaincfg/chainhash/hash.go:76-81 | Swapping the bytes of the copy in place and encoding gives the text. |
| QueueHandler.NothingLostOrReordered | rpcwebsocket.go:1016-1058 | Over every run, what arrived is what was delivered followed by what waits; nothing is delivered unless the reader was ready for it. |
| QueueHandler.ServedNext | rpcwebsocket.go:1016-1058 | After any run, a ready reader gets the oldest item not delivered yet, if any; an arriving item is handed on at once exactly when the reader is ready and has had all others. |
| QueueHandler.Drained | rpcwebsocket.go:1042-1051 | A reader that is ready as often as items wait gets them all, oldest first. |
| QueueHandler.Handler.Append | rpcwebsocket.go:1035-1040 | Appending keeps the queue and adds the item, in place or in a larger array. |
| QueueHandler.Handler.Shift | rpcwebsocket.go:1043-1045 | The in-place copy keeps the order and clears the last cell. |
| QueueHandler.Handler.OnArrive | rpcwebsocket.go:1024-1040 | An item skips the queue exactly when nothing waits and the reader is ready; the channel variables stay consistent with the queue. |
| QueueHandler.Handler.OnReaderReady | rpcwebsocket.go:1042-1051 | The reader gets the oldest waiting item, if any, and the skip path opens when none is left. |
| QueueHandler.Handler.Run | rpcwebsocket.go:1016-1058 | The whole loop does what a plain first-in-first-out queue does, and closes its output exactly when the input or the quit channel is closed. |
| NtfnProtocol.StepKeepsInv | rpcwebsocket.go:805-939 | Every step of the two goroutines, of other senders and of a disconnect keeps the protocol's invariant. |
| NtfnProtocol.OneInFlight | rpcwebsocket.go:805-870 | Over every interleaving, at most one notification is between handler and report, none when the handler does not wait, something is pending only while it waits, and what was received is what was handed on followed by what is pending. |
| NtfnProtocol.WrittenInOrder | rpcwebsocket.go:876-912 | What reaches the connection is a prefix of what was received, in order; while connected, everything else is in flight or pending. |
| NtfnProtocol.ReportingNeverBlocks | rpcwebsocket.go:882-909 | No report of a sent or dropped notification ever finds the report channel full. |
| NtfnProtocol.WaitingIsServed | rpcwebsocket.go:805-939 | While connected, a waiting handler is never forgotten: one of the two goroutines can move. |
| NtfnProtocol.EverythingIsWritten | rpcwebsocket.go:805-939 | From every reachable connected state, if nobody new comes and no write fails, the moves run out, and when none is left exactly the notifications that were let in have been written, in order. |
| NtfnProtocol.RestIsReached | rpcwebsocket.go:805-939 | Such moves always lead to a state where none is left. |
| NtfnProtocol.WindsDown | rpcwebsocket.go:851-909 | After a disconnect only a bounded number of moves is left, however the goroutines take turns. |
| NtfnProtocol.NobodyStrands | rpcwebsocket.go:856-939 | With fewer other senders past their test than sendChan holds messages, no goroutine is ever left waiting after a disconnect: not the handler, outHandler, the one that queues notifications, or a sender of replies. |
| NtfnProtocol.StrandsExactly | rpcwebsocket.go:856-939 | A disconnect can leave a goroutine waiting for ever exactly when 50 or more other senders can be past their test. |
| NtfnProtocol.Overtaken | rpcwebsocket.go:856-939 | The run in which the notification handler is left waiting: the others past their test fill sendChan after outHandler has emptied it. |
| NtfnProtocol.StrandedForEver | rpcwebsocket.go:856-939 | A goroutine that is left waiting stays so over any run. |
| NtfnRuns.DisconnectedExactly | rpcwebsocket.go:876-912 | A client counts as disconnected exactly from the first Disconnect or failed write on. |
| NtfnRuns.AllAreAccountedFor | rpcwebsocket.go:805-939 | While connected, the notifications QueueNotification was called with are those written, in flight, pending, in the channel or about to be put there, in this order; what is written is always a prefix of what was asked for. |
| NtfnRuns.AllAreAnswered | rpcwebsocket.go:920-939 | While connected, no response is lost or written twice. |
| NtfnRuns.EveryoneHearsTheTruth | rpcwebsocket.go:876-912 | Every notification handed on is in flight or was reported back, but for one whose write failed; a report is true exactly when it was written. |
| NtfnRuns.NoLatecomers | rpcwebsocket.go:920-939 | Once disconnected, only those past their test still get to send, each exactly once. |
| NtfnRuns.CapacitiesHold | rpcwebsocket.go:306-307 | No channel ever holds more than 1, 1 and 50 elements. |
| NtfnRuns.AnythingCanBeWritten | rpcwebsocket.go:805-939 | For every list of notifications there is a run that asks for and writes exactly these and leaves everybody where they started. |
| WatchIndex.WithoutWatching | rpcwebsocket.go:1115-1135 | Dropping one client from one outpoint changes nothing else and leaves no empty inner map. |
| WatchIndex.Manager.RemoveSpentRequest | rpcwebsocket.go:1115-1135 | Client side and index side lose the outpoint together and keep agreeing. |
| WatchIndex.Manager.NotifyWatchers | rpcwebsocket.go:1176-1195 | Every watcher of an outpoint that has not heard yet is queued the notification once; with a block, the outpoint leaves the index. Each turn takes any watcher the inner map still has that had no turn yet, while entries are deleted. |
| WatchIndex.Manager.NotifyForTxIns | rpcwebsocket.go:1164-1197 | Given a notification that marshals, each connected client watching any input is queued it exactly once and nobody else is; with a block exactly the spent outpoints vanish from both sides, otherwise nothing does. |
| Session.SessionGuarded | rpcwebsocket.go:341-797 | Over every sequence of single and batched messages: nothing runs before a login, at most one login is accepted, what it granted never changes, and a session that is not the administrator's runs only limited methods. |
| Session.AuthenticatedGoesOn | rpcwebsocket.go:433-470 | An authenticated session goes on exactly as long as no message carries a further login or a batched command that may run but cannot be answered, and reading goes on; its rights stay. |
| Session.UnauthenticatedGoesOn | rpcwebsocket.go:341-797 | An unauthenticated session is still open and unauthenticated exactly when every message is a malformed single request or a non-empty batch of malformed requests; it is open and logged in with certain rights exactly when the first message that is not of this kind makes a matching login with them and nothing after that login ends the session. |
| Session.FirstRequestNeedNotBeALogin | rpcwebsocket.go:392-404 | A first request without a method leaves an unauthenticated session open. |
| Session.LoginNeedsCredentials | rpcwebsocket.go:438-470 | A session that ends up authenticated, even one that ended since, got matching credentials behind nothing but malformed requests, and has exactly the rights they grant. |
| Session.EntryIsSingle | rpcwebsocket.go:369-757 | The checks on a single request and those on an entry of a batch agree in state and events, and in the fate of the loop exactly unless the request is a command that may run but has a version or id that cannot be answered. |
| Session.BatchIsSingles | rpcwebsocket.go:519-757 | A batch does what its requests would do one by one, exactly unless it is empty and the client has not logged in, or it comes to a command that may run but cannot be answered: after requests that end nothing, and for an unauthenticated session after malformed ones and a matching login. In any case it leaves the same rights and runs no other commands. |
| Session.EmptyBatch | rpcwebsocket.go:549-553 | An empty batch breaks off a session that has not logged in, although it holds no request that would. |
| Session.CommandWithoutVersion | rpcwebsocket.go:746-751 | An administrator's getblockhash without a version runs and the session goes on when sent alone; in a batch it runs and the input handler returns. |
| SessionEvents.RequestEvents | rpcwebsocket.go:369-517 | A request shows exactly its method if it is a well-formed command that the session may run, a login if an unauthenticated session makes one that is granted, and nothing otherwise; in a batch the handler returns exactly for a command run without version 1.0 or 2.0 or with a composite id. |
| SessionEvents.BatchEvents | rpcwebsocket.go:519-757 | An authenticated batch runs exactly the allowed commands, in order, up to the first entry that ends the session. |
| SessionEvents.AuthenticatedEvents | rpcwebsocket.go:341-797 | An authenticated session runs exactly the allowed commands, alone or in batches, in order, up to what ends it. |
| SessionEvents.LoginEvents | rpcwebsocket.go:392-470 | A session that logs in behind silent messages shows this login and then exactly the commands that the granted rights allow. |
| SessionEvents.NoLoginNoEvents | rpcwebsocket.go:392-470 | A session that does not log in runs nothing. |
| Session.Client.CheckSingle | rpcwebsocket.go:369-517 | The checks on a single request, in their order, decide as the specification does and set the two flags. |
| Session.Client.CheckEntry | rpcwebsocket.go:598-757 | The checks on an entry of a batch, in their order, do the same for the batch. |
| Session.Client.ServeBatch | rpcwebsocket.go:519-757 | The loop over a batch stops at the first request that ends it. |
| Session.Client.InHandler | rpcwebsocket.go:341-797 | The message loop runs the specification and disconnects on every way out, a closed quit channel and a failed read included, except the one return. |
| LinkedLists.List.PushBack | rpcclient/infrastructure.go:1264-1266 | The new element is linked in last, and the ring stays a ring. |
| LinkedLists.List.Remove | rpcclient/infrastructure.go:483-486 | Exactly this element leaves the ring; the others keep order and values, and the element has no list any more. |
| LinkedLists.List.Next | rpcclient/infrastructure.go:1027-1029 | The successor of an element in the ring, and nothing for a removed one. |
| LinkedLists.List.Init | rpcclient/infrastructure.go:853-856 | The list is empty. |
| Requests.WithoutAt | rpcclient/infrastructure.go:477-489 | Removing the request at a place is removing the one with its id. |
| Requests.ResentElements | rpcclient/infrastructure.go:1026-1043 | What is resent are exactly the requests whose method is not ignored. |
| Requests.RescansAreNotResent | rpcclient/infrastructure.go:1026-1043 | What is resent are the requests whose method is not rescan, in their order. |
| RequestTracker.Client.AddRequest | rpcclient/infrastructure.go:1244-1272 | Refused once shutdown is closed; otherwise last in the list and in the map, which keep matching. |
| RequestTracker.Client.RemoveRequest | rpcclient/infrastructure.go:477-489 | Map and list lose exactly the request with this id, if there is one, and it is returned. |
| RequestTracker.Client.FailPending | rpcclient/infrastructure.go:889-895 | Every pending request gets the error once; no send finds a channel full. |
| RequestTracker.Client.DoDisconnect | rpcclient/infrastructure.go:450-470 | Closes the disconnect channel unless it is closed; closing twice would panic. |
| RequestTracker.Client.DoShutdown | rpcclient/infrastructure.go:862-874 | Closes the shutdown channel unless it is closed. |
| RequestTracker.Client.Disconnect | rpcclient/infrastructure.go:881-903 | Without automatic reconnects, the first disconnect fails every pending request once, empties map and list and shuts down; any other leaves them alone. |
| RequestTracker.Client.Shutdown | rpcclient/infrastructure.go:908-932 | Every pending request is failed once, map and list are empty, and the connection is closed. |
| RequestTracker.Client.TakeResendable | rpcclient/infrastructure.go:1026-1043 | The loop with the saved successor terminates, takes exactly the ignored requests out of map and list, and returns the others in order. |
| RequestTracker.Client.Resend | rpcclient/infrastructure.go:1026-1043 | The same with all channels untouched, so dropped requests are never answered; what is returned and stays pending are exactly the requests whose method is not rescan, in order. |
| RequestTracker.Client.SendRequest | rpcclient/infrastructure.go:1323-1358 | A request is tracked exactly when the client was connected and is not shut down; otherwise its channel gets the one matching error. |
| RequestTracker.Client.HandleResponse | rpcclient/infrastructure.go:562-592 | A reply reaches exactly the channel of the pending request with its id; ids that are negative, fractional or unknown change nothing; the state of the notifications is the one after a reply to its command. |
| RequestTracker.Client.Reconnected | rpcclient/infrastructure.go:1119-1123 | A new open disconnect channel, and the requests are still there. |
| ClientProtocol.StepKeepsInv | rpcclient/infrastructure.go:881-932 | Every step of callers, readers, disconnects, shutdowns and the reconnect handler keeps the invariant. |
| ClientProtocol.RequestsAreConserved | rpcclient/infrastructure.go:477-593 | Over every run: map and list hold the same requests under the same ids; a request is pending exactly when it is in them; the values its channel ever carried are its one answer or nothing; only methods that are not resent are dropped. |
| ClientProtocol.RunContinues | rpcclient/infrastructure.go:528-593 | Over any stretch of a run no request is forgotten, an answer never changes, and a response once picked for a request is the one it gets. |
| ClientProtocol.SendsNeverBlock | rpcclient/infrastructure.go:889-895 | No send on a response channel ever waits, so whoever holds the request lock can always go on. |
| ClientProtocol.ShutdownLeavesNothing | rpcclient/infrastructure.go:908-932 | Once shutdown is closed and no failing loop runs, map and list are empty. |
| ClientProtocol.ShutdownStays | rpcclient/infrastructure.go:862-874 | Shutdown is never undone. |
| ClientProtocol.ShutdownAnswersAll | rpcclient/infrastructure.go:908-932 | Whatever happens in between, when Shutdown gives the lock back and ever after, each request it found pending has been answered with ErrClientShutdown. |
| ClientProtocol.DisconnectAnswersAll | rpcclient/infrastructure.go:881-903 | The same for a Disconnect without automatic reconnects, with ErrClientDisconnect; the client is then shut down. |
| ClientProtocol.ClosedAtMostOnce | rpcclient/infrastructure.go:450-470 | Neither the shutdown channel nor any disconnect channel is closed twice, across all reconnects, and only the current one can be open. |
| ClientProtocol.ClosedForGood | rpcclient/infrastructure.go:1066-1140 | After a shutdown the connection is closed over every continuation, exactly if it is closed now and the reconnect handler is not dialing. |
| ClientProtocol.ShutdownCloses | rpcclient/infrastructure.go:905-932 | When Shutdown returns the connection is closed, and it stays so exactly unless the reconnect handler was dialing. |
| ClientProtocol.OpenedBehindShutdown | rpcclient/infrastructure.go:1069-1127 | A run in which Shutdown has returned and the connection is open; a second Shutdown does nothing. |
| ClientProtocol.ShutdownWindsDown | rpcclient/infrastructure.go:905-932 | After a shutdown the goroutines of the client can only make a bounded number of steps, whatever callers and servers do. |
| ClientProtocol.ShutdownStopsAll | rpcclient/infrastructure.go:905-932 | When after a shutdown none of them can go on, the connection is closed for good, the request lock is free, and the input handlers, the reconnect handler and the goroutines that resend or disconnect have ended. |
| ClientRuns.EveryReconnectIsFollowedUp | rpcclient/infrastructure.go:1119-1131 | Over every run each reconnect launches one resendRequests and one input handler, every test for shutdown is accounted for, and each Disconnect that closes a channel goes on to its second half. |
| ClientRuns.EveryIssueIsEntered | rpcclient/infrastructure.go:1323-1358 | The command that takes the k-th id is entered under k for ever, with its method and channel. |
| ClientRuns.OnlyIssuesAreEntered | rpcclient/infrastructure.go:1323-1358 | Over every stretch of a run exactly as many requests are entered as commands are issued. |
| ClientRuns.DialedAndResent | rpcclient/infrastructure.go:1119-1131 | From every state that keeps the invariant with the handler dialing and the lock free, dialing and resending is a run, after which exactly the pending requests other than rescans are pending, in order, and every pending rescan is dropped. |
| ClientRuns.LostConnectionComesBack | rpcclient/infrastructure.go:1044-1140 | A client that lost its connection and is not shut down can be reconnected with its requests resent. |
| ClientRuns.CallIsServed | rpcclient/infrastructure.go:528-593 | From every state that keeps the invariant, with a connection, the lock free and an input handler reading, a new request can be sent, answered and received, and nothing else changes. |
| ClientRuns.CallIsRefused | rpcclient/infrastructure.go:1244-1272 | Without a connection or after a shutdown the caller receives the matching error, and nothing else changes. |
| ClientConnections.DownExactly | rpcclient/infrastructure.go:450-470 | After a reconnect the connection is down exactly when somebody has hung up since. |
| ClientConnections.EveryTestIsFollowedByARead | rpcclient/infrastructure.go:619-646 | Without a shutdown every test of an input handler is followed by one read, and each failed read by leaving. |
| ClientConnections.NoReadsAfterShutdown | rpcclient/infrastructure.go:619-646 | After a shutdown no new read begins, and every test is followed by leaving. |
| ClientConnections.OverExactly | rpcclient/infrastructure.go:1066-1140 | The reconnect handler ends exactly when it notices a shutdown. |
| ClientConnections.EveryLossIsDialed | rpcclient/infrastructure.go:1066-1140 | Until then every lost connection noticed and every failed dial leads to a check, and every check passed to a dial that fails or succeeds. |
| ClientSections.Shutdown | rpcclient/infrastructure.go:908-932 | A call of Shutdown on the object is a run of the state machine, after which object, state, ledger and channels still match. |
| ClientSections.Disconnect | rpcclient/infrastructure.go:881-903 | The same for Disconnect. |
| ClientSections.HandleResponse | rpcclient/infrastructure.go:562-592 | The same for a reply: taking the request and sending on its channel. |
| ClientSections.Resend | rpcclient/infrastructure.go:1026-1043 | The same for the locked section of resendRequests, which returns what stays pending. |
| ClientSections.SendRequest | rpcclient/infrastructure.go:1323-1358 | The same for a request that has its id: it is tracked, or refused and its channel told why. |
| ClientSections.Reconnected | rpcclient/infrastructure.go:1119-1123 | What the reconnect handler does after dialing is a step, after which object and state still match: the old disconnect channel was closed exactly once and the new one is open. |
| ClientSections.FailingLoop | rpcclient/infrastructure.go:889-895 | From any round on, the loop over the list runs to its end, answers exactly the requests ahead of it and changes no other entry of the ledger. |
| NtfnState.NotificationState.Track | rpcclient/infrastructure.go:494-525 | One answered command adds exactly its registrations; without handlers nothing is tracked. |
| NtfnState.NotificationState.Reregister | rpcclient/infrastructure.go:943-1008 | The commands sent re-establish the state: at most one of each kind, in order, each list naming every element once in some order. |
| NtfnState.ReplayKeepsState | rpcclient/infrastructure.go:943-1008 | Tracking any number of these commands changes nothing in the client that sent them. |
| NtfnState.ReplayRebuilds | rpcclient/infrastructure.go:943-1008 | Tracked from nothing they rebuild the state, for any order of the lists, except that notifyNewTx is lost; the state is rebuilt exactly when notifyNewTx and notifyNewTxVerbose are not both set. |
| NtfnState.BothKindsAreReachable | rpcclient/infrastructure.go:507-514 | Two registrations lead to a state that re-registering does not rebuild. |
| NtfnState.CoveredIsNoChange | rpcclient/infrastructure.go:494-525 | Tracking a command changes nothing exactly when all it registers for is registered already. |
| NtfnState.RegistrationsAccumulate | rpcclient/infrastructure.go:494-525 | For every state and all commands: an outpoint or address is registered afterwards exactly if it was before or some command names it, and the same for blocks and for new transactions, terse and verbose. |
| Requests.RememberedAsDocumented | rpcclient/infrastructure.go:585-592 | A reply leaves the state that remembering only successful commands would leave exactly when it is no error, there are no handlers, or the command registers for nothing new. |
| Requests.RefusedCommandIsRemembered | rpcclient/infrastructure.go:585-592 | A refused notifyblocks is remembered. |
| Registry.FaultlessIsPositional | acbcjson/register.go:150-215 | A struct passes the field loop exactly when its fields are exported, not embedded and of supported kinds, optional ones come last, and only those have defaults, of the right type. |
| Registry.Registry.CheckFields | acbcjson/register.go:150-215 | The loop reports the first fault, and otherwise the number of optional fields and the defaults. |
| Registry.Registry.RegisterCmd | acbcjson/register.go:119-229 | Every error in its order and without a change; otherwise exactly the method, the type and their description are added, with the usage flags as given, and the three maps keep agreeing. |
| Registry.InfoDescribes | acbcjson/register.go:218-227 | The recorded counts say which fields are required and which optional, and exactly the tagged fields have defaults. |
| RegistryRules.FieldsExactly | acbcjson/register.go:150-215 | The fields pass exactly when each is exported, not embedded, of an allowed kind listed one by one, behind no optional field if required, and with a default only if optional and of the right type; otherwise the first broken rule is the error. |
| RegistryRules.AcceptedExactly | acbcjson/register.go:119-229 | A registration is accepted exactly when the method is new, the flags are among the three lowest bits, the type is a pointer to a struct and its fields pass. |
| RegistryRules.OneFieldExactly | acbcjson/register.go:70-87 | Over every kind: a struct with one exported, untagged field registers exactly when the kind can be carried by value or by one pointer, and otherwise the kind is the error. |
| RegistryRules.GetBlockHashRegisters | acbcjson/chainsvrcmd.go:6-22 | The command that the repository registers is accepted, with one required parameter and none optional. |
| Registry.EveryRegistryIsConsistent | acbcjson/register.go:119-229 | After any calls of RegisterCmd, accepted or not, required parameters come first and the map from types to methods is inverted by the map from methods to types, also when a type was registered twice. |
| Commands.MakeParams | acbcjson/cmdparse.go:11-29 | The parameters sent end with the last field that is not a nil pointer. |
| Commands.MarshalCmd | acbcjson/cmdparse.go:35-65 | Every error in its order; otherwise the method of the type and the encoded parameters. |
| Commands.DecodeParams | acbcjson/cmdparse.go:125-149 | Each parameter sets its field, null leaves a plain field at zero and makes a pointer nil; anything that does not decode is an error. |
| Commands.PopulateDefaults | acbcjson/cmdparse.go:93-103 | Exactly the fields without a parameter get their defaults. |
| Commands.UnmarshalCmd | acbcjson/cmdparse.go:108-159 | Every error in its order; otherwise a command of the method's type with these fields. |
| Commands.CountAlwaysFits | acbcjson/cmdparse.go:69-85 | Whatever MarshalCmd produces from a command passes the parameter count check of its method. |
| Commands.CommandRoundTrip | acbcjson/cmdparse.go:108-159 | For every reachable registry and every command whose values survive JSON one by one, UnmarshalCmd after MarshalCmd gives the command with the trailing nil pointers replaced by defaults; nil pointers before the last parameter stay nil, and a pointer to something that encodes as null comes back nil. |
| Commands.RoundTripIsExact | acbcjson/cmdparse.go:11-29 | Only defaults change exactly when no pointer leads to something that encodes as null; nothing changes exactly when, besides, no trailing nil pointer has a default. |
| Commands.PointerToNilSliceIsLost | acbcjson/cmdparse.go:125-149 | A command whose optional parameter points to a nil slice comes back with a nil pointer. |
| CommandRules.MarshalledExactly | acbcjson/cmdparse.go:35-65 | A command marshals to a request exactly when its type is registered, it is not nil, version and id are valid, and the request has the version asked for, the method of the type, and the encodings of the fields up to the last that is no nil pointer. |
| CommandRules.MarshalErrors | acbcjson/cmdparse.go:35-65 | The exact condition for each error of MarshalCmd. |
| CommandRules.UnmarshalledExactly | acbcjson/cmdparse.go:108-159 | In every reachable registry a request unmarshals to a command exactly when the type is the one of its method, every plain field has a parameter, there are not too many, and each field holds what its parameter decodes to, or its default, or nil. |
| CommandRules.UnmarshalErrors | acbcjson/cmdparse.go:69-159 | The exact condition for each error of UnmarshalCmd. |

## Left out

- TxDecoder.TxMessage.BtcDecode: assumes a receiver that has just been made, because the cleanup walks over whatever outputs the receiver already held.
- TxDecoder.ReadStacks: a witness is a sequence that is replaced in its record, not an array of its own; inputs and outputs are arrays of records instead of arrays of pointers.
- TxSizes.BtcEncode: writing never fails, so the errors of the underlying writer are not modelled.
- Streams.Reader.ReadFull: the stream holds all its bytes from the start; a reader that fails for other reasons than ending is not modelled.
- ScriptPools.ScriptPool.Borrow: the pool is used by one decoder at a time; calls of concurrent decoders are not interleaved.
- LinkedLists.List.Init: the stale links of the elements that were in the list are not described, as no code follows them.
- RequestTracker.Client.AddRequest: requires an id and a channel that no pending request has, as SendCmd always provides them.
- RequestTracker.Client.HandleResponse: ids are exact numbers, so replies to ids from 2^53 on, which a float64 rounds, are not modelled.
- ClientProtocol.RequestsAreConserved: ids never wrap around, and the send of the marshalled request itself is left out.
- NtfnState.NotificationState.Reregister: the case that each command is accepted; ReplayKeepsState covers breaking off after any number of them.
- WatchIndex.Manager.NotifyForTxIns: no client disconnects during the call, and queueing a notification does not wait for room in a channel.
- Session.Client.CheckSingle: replies are not modelled, only logins and the methods that run; a command counts as run when its goroutine starts.
- Session.Client.CheckEntry: the result of a handler can always be marshalled, so a reply fails only for its version or id.
- NtfnProtocol.StepKeepsInv: what responses say is not modelled, only that they take up room.
- ClientProtocol.ShutdownStopsAll: output handlers, and resending behind its section under the lock, are not part of the state; both end with the disconnect channel.
- ClientSections.Shutdown: one call at a time; calls that interleave are the runs of ClientProtocol.
- Commands.CommandRoundTrip: assumes for each value of the command that its own encoding decodes to it, and describes default values, not the pointer that all commands without the parameter share.
- Registry.Registry.RegisterCmd: types are finite descriptions, so a struct that contains itself appears with its inner occurrence named only.
- QueueHandler.Handler.Append: how much an append grows its array is the runtime's choice; the model doubles it.
- Lengths are unbounded, so int overflow at 2^63 is not modelled; nil and empty slices are the same inside a transaction.
- HTTP POST mode and batch mode of the RPC client.
- Sockets, TLS, dialing, cookies, retry delays, logging, signals, certificate generation.
- JSON text, reflection and SHA-256: parsed values, type descriptions and opaque hashes stand for them.
- The 8-byte scratch pool under the fixed-width integers, which only saves allocations.
- The semaphore of the input handler, which a batch that breaks off leaves held.
- Notifications for outputs and for whole blocks, whose registration commands are commented out.
- Amounts and ban scores, which are about floating point rounding; configuration, block headers and block memoization, whose checks are independent of each other; packages that are stubs.
