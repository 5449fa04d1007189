# Verified models of the wire stack, option maps, refresh loops and release state

This project models, in Dafny, the parts of the repository whose correctness spans many steps, and proves
what they promise over every input, run or interleaving. `dafny verify dfyconfig.toml` checks all of it.

**The RPC wire stack** (`packages/rpc`). `Bytes` and `Framing` give the encoding of a frame and what reading a
run of bytes means; `ChunkStream` and `SocketProtocol` do the reading over chunks, and refine it.
`Endpoint` states one end of the persistent protocol as functions on its fields, `PersistentProtocol` carries them out,
`Backpressure` proves its accounting, `Signals` what its listeners are told and when. `ReliableDelivery` joins two ends by byte streams that a step may cut
anywhere and that a reconnection replaces; `DeliveryProof` and `DeliveryGuarantees` prove what is delivered,
`Redelivery` when it is delivered again.
`Channels` is a machine of one client and one server over message queues, with late registration, timeouts, cancels, dispose and earlier messages delivered again;
`ChannelEnds` carries its two ends out on fields; `Settlement`, `Answers`, `InvokedOnce`, `Outcomes` and `Subscriptions` are proved over its runs.
`Serialization` gives the encoding of values, `Serializer` the reader, the writer and the loops. `WireLayout` says in plain numbers what is on the wire.

**Model option maps** (`packages/model-option-map`). `MergePatch` has the merge, the ownership check and their laws.
`CelTokenizer`, `CelSyntax`, `CelParser` and `CelEvaluator` are the expression language; `CelRoundTrip` and `CelTightness` prove that
parsing inverts printing, exactly on the expressions the parser can tell apart; `CelSource` carries that over to source text. What the shared tables
of the language contain is said apart from them: `CelCharacters` of characters, `CelPrecedence` of operators, `CelMeaning` of what expressions mean;
`CelProblems` of the parser's errors.

**Refresh loops and provider configuration** (`packages/provider`). `RefreshWaiters` has the waiters of both services and the loops over them. `RegistryRefresh` and `AccountRefresh` make each
stretch of code between two awaits one step and let requests, source changes, failures and dispose come in
between; `RegistryAnswers` and `AccountAnswers` say which step answers whom;
`RegistryService` and `AccountService` carry the steps out on the services' fields. `OwnedOrder`, `PersonalModels`, `EditingOrder`, `Renaming`,
`ProviderResolution` and `ProviderRegistry` are the algebra of orders and memberships.

**Shared release state** (`packages/provider-node`). `ReleaseStore` and `LeaseControl` make each locked section one
step of many processes; `ReleaseSource` and `RemoteSynchronizer` carry the sections out on the shared file.

Where the source changes fields step by step, a class has the same fields and its methods are proved equal to
specification functions; the theorems are about those functions, over runs. Some records also keep a
history (what was sent, written, fired, answered); nothing the code does depends on it.

## Where the code does less than one might expect

The theorems below allow for each of these; where there is a condition they state it exactly, and the
examples beside them are concrete runs.

- The two facts about watermarks hold if and only if the low mark is at most the high one, or the replay bound is; the options are not checked for that.
- Delivery is at least once: a reconnection offers a fired message again if and only if the oldest unacknowledged one was fired,
  and then the acknowledgement an endpoint sends may step back meanwhile. No message is lost by that.
- The channel server does not recognise a request it has had: a call is invoked once, if and only if its request is not delivered again.
  A repeated subscription takes the entry of the first, which nothing disposes of any more.
- After the server is disposed a pending call is still answered if and only if the server holds it or has answered; otherwise only a cancel or a dispose of the client settles it.
- The disposal of a subscription that is still parked is lost; once the channel is there, the server fires for nobody.
- The parser recognises `]` and `}` by their text alone, so a string literal of that text right after the opening bracket is taken for the closing one.
- In the account service an error listener that throws while nothing newer is pending leaves waiters that nothing will answer until
  another request is made; in the registry service it only delays their rejection to the finish handler. Both are exact.
- The registry service leaves requests waiting if and only if the two sources disagree before there is any snapshot and nothing newer is asked for.
- Renaming a model moves it if and only if the saved order names the new id before the old one, or without it, and something shown lies between.
- Of zero and negative zero neither is less, and they are not equal; on every other pair of numbers the comparisons agree.
- The lease excludes two refreshes of one endpoint only as long as no other endpoint takes the control file over in between.
- `ProviderRegistry.replace` shows a view with duplicates before it throws. The resolver never gives it one.

## Model

| member | source | states |
|---|---|---|
| Bytes.WordRoundTrip | packages/rpc/src/buffer.ts:70-87 | four big-endian bytes read back as the number modulo 2^32 |
| Bytes.BytesRoundTrip | packages/rpc/src/buffer.ts:70-87 | and any four bytes are what writing their number stores |
| Bytes.WriteUInt32BE | packages/rpc/src/buffer.ts:82-87 | writes those four bytes in place at the offset and changes no other byte |
| Bytes.CopyInto | packages/rpc/src/buffer.ts:59-62 | copies a source over the bytes at an offset, in place, and changes no other byte |
| Bytes.Concat | packages/rpc/src/buffer.ts:35-44 | the parts one after the other, whatever their number and sizes |
| Framing.HeadOfEncoded | packages/rpc/src/protocol.ts:222-234 | reading undoes writing: a written frame followed by anything is read back and leaves exactly what followed |
| Framing.HeadIsEncoded | packages/rpc/src/protocol.ts:260-297 | writing undoes reading: the bytes a frame was read from are that frame written |
| Framing.HeadStable | packages/rpc/src/protocol.ts:260-297 | a complete frame is read the same when more bytes follow |
| Framing.ReadingConserves | packages/rpc/src/protocol.ts:260-297 | any bytes are the frames read from them, written again, and a rest that holds no complete frame |
| Framing.ReadingSplits | packages/rpc/src/protocol.ts:260-297 | reading some bytes and later more is reading them at once |
| Framing.ReadingEncoded | packages/rpc/src/protocol.ts:222-297 | a run of written frames is read as those frames, and reading goes on behind them |
| WireLayout.FrameLayout | packages/rpc/src/protocol.ts:195-234 | in plain numbers: type, id, acknowledgement and length, big-endian, 13 bytes, then the payload; so a frame is written, and read exactly from bytes that begin so |
| Framing.WriteProtocolMessage | packages/rpc/src/protocol.ts:222-234 | builds the header and payload in a fresh buffer by in-place writes |
| ChunkStreams.ChunkStream.AcceptChunk | packages/rpc/src/protocol.ts:93-104 | appends to the queue of bytes the chunks stand for; an empty chunk adds nothing |
| ChunkStreams.ChunkStream.Peek | packages/rpc/src/protocol.ts:106-130 | the first bytes of that queue across chunk boundaries, nothing if there are too few, and no change |
| ChunkStreams.ChunkStream.Skip | packages/rpc/src/protocol.ts:132-138 | takes bytes off the front, or reports that there are too few |
| ChunkStreams.ChunkStream.Read | packages/rpc/src/protocol.ts:140-177 | gives and removes exactly the first bytes, or nothing if there are too few: the chunk list refines a flat byte queue |
| ChunkStreams.ChunkStream.ReadAcross | packages/rpc/src/protocol.ts:140-177 | its loop, when the bytes lie in more than one chunk |
| SocketProtocols.SocketProtocol.Send | packages/rpc/src/protocol.ts:252-258 | writes one Regular frame with both ids zero |
| SocketProtocols.SocketProtocol.OnData | packages/rpc/src/protocol.ts:243-297 | a chunk fires the Regular payloads it completes, in order, and keeps the rest |
| SocketProtocols.SocketProtocol.ReadMessages | packages/rpc/src/protocol.ts:260-297 | the read loop stops, with every complete frame taken out |
| SocketProtocols.FragmentsAreOneRead | packages/rpc/src/protocol.ts:85-177 | any chunks are received as their concatenation would be in one read |
| SocketProtocols.FragmentationIndependence | packages/rpc/src/protocol.ts:260-297 | however written frames are cut into chunks, exactly their Regular payloads are fired in order and nothing is left; after every chunk no complete frame waits |
| PersistentProtocols.PersistentProtocol.Send | packages/rpc/src/persistent-protocol.ts:123-147 | the new state of all fields, the bytes written, and the Disconnect of a send that exceeds the replay bound |
| PersistentProtocols.PersistentProtocol.ReplaceSocket | packages/rpc/src/persistent-protocol.ts:149-160 | drops the partial input and writes every unacknowledged frame again, unchanged and in order |
| PersistentProtocols.PersistentProtocol.OnData | packages/rpc/src/persistent-protocol.ts:108-121 | reads every frame the chunk completes, acknowledging before acting on each |
| PersistentProtocols.PersistentProtocol.ReadAll | packages/rpc/src/persistent-protocol.ts:166-222 | the read loop over the chunk stream refines reading from flat bytes |
| PersistentProtocols.PersistentProtocol.ProcessAck | packages/rpc/src/persistent-protocol.ts:224-238 | the loop drops the covered front of the queue and its bytes, and announces the drain once |
| PersistentProtocols.PersistentProtocol.AbandonSession | packages/rpc/src/persistent-protocol.ts:240-249 | closes and writes a Disconnect, the first time only |
| PersistentProtocols.PersistentProtocol.OnAckCheckTimer | packages/rpc/src/persistent-protocol.ts:264-275 | silence, then a message unacknowledged past its grace time: the new fields, and the bytes of the Disconnect on the same socket |
| Endpoints.ProcessAckOne | packages/rpc/src/persistent-protocol.ts:224-238 | dropping one covered message and going on is the whole acknowledgement |
| Backpressure.ReadMessagesIsRun | packages/rpc/src/persistent-protocol.ts:166-222 | reading is a run of the single actions the invariants are proved over |
| Backpressure.AccountingHolds | packages/rpc/src/persistent-protocol.ts:123-147 | in every reachable state: the queue holds exactly the last messages sent, with consecutive ids up to the last; the counter is the sum of their payloads; saturated and drained alternate; a Disconnect was written at most once, exactly when the session was given up |
| Backpressure.SaturationFloor | packages/rpc/src/persistent-protocol.ts:123-238 | saturated always means above the low mark, if and only if the low mark is at most the high one or the high one is never reached, the replay bound being at most it |
| Backpressure.RunningCeiling | packages/rpc/src/persistent-protocol.ts:123-238 | neither saturated nor given up always means at most the high mark, under exactly the same condition |
| WireLayout.RegularsAreFired | packages/rpc/src/protocol.ts:260-297 | of a run of frames, listeners see the payloads of type 1, in order, and of no other |
| Signals.SignalsOverRuns | packages/rpc/src/persistent-protocol.ts:123-275 | over every run, exactly when listeners are told what: to stop, when a message takes those not told so above the high mark; to go on, when an acknowledgement brings those told to stop down to the low mark; that the session or the socket is over |
| Signals.ToldExactly | packages/rpc/src/persistent-protocol.ts:123-275 | and which messages: the Regular frame acted on, with its id and payload, and none else |
| Signals.KeptExactly | packages/rpc/src/persistent-protocol.ts:224-238 | an acknowledgement lets go of all it covers and nothing else; nothing else lets go of anything |
| Signals.WrittenExactly | packages/rpc/src/persistent-protocol.ts:123-275 | which frames an action writes: the next number, everything kept, or a sign of life, each with the id fired last |
| Signals.BooksHold | packages/rpc/src/persistent-protocol.ts:123-222 | over every run: what was sent, when what is kept was sent, the id acknowledged, and when the other end was last heard |
| ReliableDelivery.WrittenIsWritten | packages/rpc/src/persistent-protocol.ts:123-275 | the frames the machine puts on the wire are the ones the endpoint wrote |
| DeliveryProof.WrittenGoesOn | packages/rpc/src/persistent-protocol.ts:123-147 | what an endpoint writes continues the numbering of its stream and acknowledges only what it has fired |
| DeliveryProof.ReceiverDispatches | packages/rpc/src/persistent-protocol.ts:166-222 | acting on the frame at the front, whether next or repeated, keeps the invariant of both directions |
| DeliveryGuarantees.DeliveredOrKept | packages/rpc/src/persistent-protocol.ts:123-234 | two endpoints, any reconnects and any cut streams: the ids fired are exactly 1..m with the payloads sent under them; every other id sent is still queued; within one socket ids arrive consecutively |
| DeliveryGuarantees.AckDropsOnlyFired | packages/rpc/src/persistent-protocol.ts:224-238 | no acknowledgement ever lets go of a message the peer has not fired |
| DeliveryGuarantees.QuietMeansDelivered | packages/rpc/src/persistent-protocol.ts:166-222 | with one unbroken connection and nothing on the way, everything sent has been fired |
| DeliveryGuarantees.Recoverable | packages/rpc/src/persistent-protocol.ts:149-160 | from every reachable state some reconnection delivers everything sent, so nothing is ever lost for good |
| Redelivery.ReconnectOffersFiredIff | packages/rpc/src/persistent-protocol.ts:149-160 | a reconnection puts the unacknowledged messages on the new stream; among them is one the peer has fired, if and only if it has fired the oldest of them |
| Redelivery.FiredTwice | packages/rpc/src/persistent-protocol.ts:149-222 | such a message is fired once more, and the acknowledgement to be sent steps back with it |
| ChannelEnds.ChannelClient.Dispose | packages/rpc/src/channelClient.ts:249-274 | every pending call is rejected and the tables are emptied |
| ChannelEnds.ChannelServer.DisposeActiveRequest | packages/rpc/src/channelServer.ts:220-227 | the entry under the id, a running call or the last subscription, is gone; an earlier subscription under the same id is not |
| ChannelEnds.ChannelServer.FlushPendingRequests | packages/rpc/src/channelServer.ts:255-273 | every parked request of the channel is handed over, in order, also those whose timeout was already answered |
| ChannelEnds.ChannelServer.Dispose | packages/rpc/src/channelServer.ts:275-282 | every entry is cancelled and the table emptied |
| Settlement.StepKeeps | packages/rpc/src/channelClient.ts:54-147 | every step of client, wire and server, an earlier message being delivered again among them, keeps the invariant that locates each pending call |
| Settlement.SettledOnceForGoodReason | packages/rpc/src/channelClient.ts:232-240 | over every run, whatever is delivered again: no id settles twice; only a response to its own request, a cancel or a dispose settles it; every call is pending or settled |
| Settlement.DisposedIsFinal | packages/rpc/src/channelClient.ts:249-274 | after dispose nothing is pending and no later step settles anything |
| Settlement.PendingIsLocated | packages/rpc/src/channelServer.ts:100-273 | a pending call always has a request held, on the wire, parked with a live timer or running, or a response on its way |
| Answers.AnswerableExactly | packages/rpc/src/channelClient.ts:54-274 | over every run: a pending call can still be answered by a response, if and only if the server is not disposed, or has the request running or parked, or has answered it; so always while neither end is disposed |
| Answers.CanBeAnswered | packages/rpc/src/channelServer.ts:100-273 | the steps that bring the answer from wherever the call is |
| Outcomes.OutcomesAreGiven | packages/rpc/src/channelServer.ts:121-253 | over every run: the server sends the completions, timeouts and events of the run, in order; a call settled by a response got what a completion of its own request was given, or the error of its own timeout, and of several the first delivered |
| Outcomes.CompletedOncePerInvocation | packages/rpc/src/channelServer.ts:100-191 | over every run: a call is running as often as it was handed to its channel and not completed |
| Outcomes.HeardIsFired | packages/rpc/src/channelClient.ts:149-240 | over every run: listeners hear what is delivered for their subscription while they listen, in order, and all of it was fired for that subscription |
| Outcomes.EverySubscriptionIsSent | packages/rpc/src/channelClient.ts:149-178 | over every run no subscription is dropped on its way to the server |
| Outcomes.RequestsWaitForReady | packages/rpc/src/channelClient.ts:88-178 | over every run: no request is opened before the client is told that the server is ready, and once told it holds no new one back |
| Outcomes.FlagsAreWhatHappened | packages/rpc/src/channelServer.ts:33-58 | over every run: an end is disposed exactly if it was told to be, a channel there exactly if registered, the client ready exactly if told so |
| Subscriptions.SubscribedExactly | packages/rpc/src/channelServer.ts:193-282 | with no request delivered again: the server fires for exactly the subscriptions handed over and not ended since; a disposal taken before that ends nothing |
| Subscriptions.ListensAsOften | packages/rpc/src/channelServer.ts:193-282 | whatever is delivered again: a subscription is listened to as often as it was handed over, less the times it was ended while it was on; handed over twice, it was on once |
| Subscriptions.ParkedDisposalIsLost | packages/rpc/src/channelServer.ts:220-273 | such a subscription fires for nobody once its channel is there |
| InvokedOnce.HandedOverAsArrived | packages/rpc/src/channelServer.ts:100-273 | over every run the server holds a request, parked or handed over, as often as it arrived; with nothing parked for its channel it was handed over that often |
| InvokedOnce.HandedOverOnce | packages/rpc/src/channelServer.ts:100-273 | over every run: no request is held twice, if and only if no opening request is delivered again; then ids are handed over at most once, and always only as the client made them |
| InvokedOnce.ReplayedCallIsInvokedTwice | packages/rpc/src/channelServer.ts:100-148 | a call delivered again invokes its channel twice |
| Serialization.IntReadsBack | packages/rpc/src/serialization.ts:67-103 | the variable-length integer is exact on all of int32, negatives included, whatever follows |
| Serialization.VqlIsShort | packages/rpc/src/serialization.ts:84-103 | and takes at most five bytes |
| Serialization.RoundTrip | packages/rpc/src/serialization.ts:152-218 | a value of any nesting reads back as itself and leaves exactly what followed it |
| Serialization.MessageRoundTrip | packages/rpc/src/serialization.ts:152-218 | header and body written one after the other are read one after the other |
| WireLayout.ValueLayout | packages/rpc/src/serialization.ts:109-191 | in plain numbers: the type of each value, its length or number, and its bytes |
| WireLayout.ReadIsSlice | packages/rpc/src/serialization.ts:36-45 | reading any count at a cursor is the `slice` from there, clipped, a negative end from the back |
| WireLayout.UnknownIsUndefined | packages/rpc/src/serialization.ts:193-218 | nothing to read, an unknown type and a negative count |
| WireLayout.OrIsBitwise | packages/rpc/src/serialization.ts:67-82 | the or of the reading loop is bit by bit |
| WireLayout.VqlLayout | packages/rpc/src/serialization.ts:84-103 | seven bits a byte, the least significant first, all but the last marked, and no more bytes than it takes |
| Serializer.BufferReader.Read | packages/rpc/src/serialization.ts:36-45 | the slice from the cursor on, clipped as `slice` clips, also for a negative count |
| Serializer.ReadIntVQL | packages/rpc/src/serialization.ts:67-82 | the loop of shifts and masks reads what the decoding function says, on malformed bytes too |
| Serializer.FillVql | packages/rpc/src/serialization.ts:84-103 | the in-place loop that stores the bytes of a number |
| Serializer.WriteInt32VQL | packages/rpc/src/serialization.ts:84-103 | appends the encoding of the number as an unsigned 32-bit word |
| Serializer.Serialize | packages/rpc/src/serialization.ts:152-191 | appends the encoding of the value |
| Serializer.Deserialize | packages/rpc/src/serialization.ts:193-218 | reads what the decoding function reads, and moves the cursor past it |
| MergePatch.ApplyOrderedJsonMergePatches | packages/model-option-map/src/merge-patch.ts:13-33 | accepts a list exactly when no two patches write overlapping paths; then the result is all of them merged; otherwise it names two patches and paths that really conflict |
| MergePatch.OrderIndependence | packages/model-option-map/src/merge-patch.ts:13-33 | if a list is accepted, every permutation is accepted and gives the same value |
| MergePatch.DisjointIffApart | packages/model-option-map/src/merge-patch.ts:51-57 | no overlapping paths, if and only if the patches stay apart member by member |
| MergePatch.MergedIsRfc7396 | packages/model-option-map/src/merge-patch.ts:63-78 | merging is the MergePatch algorithm of section 2 of RFC 7396 on object patches |
| MergePatch.MergingTwiceIsOnce | packages/model-option-map/src/merge-patch.ts:63-78 | merging the same patch again changes nothing |
| MergePatch.WrittenPathsAreAntichain | packages/model-option-map/src/merge-patch.ts:35-49 | no written path of a patch begins another |
| MergePatch.UntouchedReadsSame | packages/model-option-map/src/merge-patch.ts:63-78 | a path overlapping no written path reads the same before and after |
| MergePatch.AllEffectsVisible | packages/model-option-map/src/merge-patch.ts:13-33 | after an accepted list, what each patch writes can be read at each of its paths at once |
| MergePatch.CollectWrittenPaths | packages/model-option-map/src/merge-patch.ts:35-49 | lists every written path once and nothing else |
| MergePatch.MergeObject | packages/model-option-map/src/merge-patch.ts:63-78 | the loop that sets, deletes and recurses on a copy computes the merge |
| MergePatch.CloneJson | packages/model-option-map/src/merge-patch.ts:80-93 | copies a value of any depth |
| CelTokenizer.TokenizeRestrictedCel | packages/model-option-map/src/tokenizer.ts:22-73 | the loop gives the specified tokens or the specified error |
| CelTokenizer.TokensCoverTheSource | packages/model-option-map/src/tokenizer.ts:22-81 | tokens are in order and apart, end with eof at the source length, have only white space between them, and say what they stand on; words and numbers do not stop early |
| CelTokenizer.ReadString | packages/model-option-map/src/tokenizer.ts:83-124 | the cursor loop reads a literal or fails as specified |
| CelTokenizer.SpellingsAreRead | packages/model-option-map/src/tokenizer.ts:83-135 | every way of writing a text, plain, escaped or in hexadecimal, is read as that text |
| CelTokenizer.StringsAreSpelled | packages/model-option-map/src/tokenizer.ts:83-135 | and nothing else is accepted as a string literal |
| CelTokenizer.QuotedReadsBack | packages/model-option-map/src/tokenizer.ts:83-135 | any text of 16-bit units, quoted, is one string token of that text |
| CelCharacters.Classes | packages/model-option-map/src/tokenizer.ts:18-71 | which characters begin what |
| CelCharacters.DoubleOperators | packages/model-option-map/src/tokenizer.ts:18 | which pairs of characters are one operator |
| CelCharacters.EscapesMean | packages/model-option-map/src/tokenizer.ts:126-135 | what escapes stand for |
| CelCharacters.HexMeans | packages/model-option-map/src/tokenizer.ts:112-118 | four hexadecimal digits in either case are a number to the base 16 |
| CelCharacters.NumbersAreLongest | packages/model-option-map/src/tokenizer.ts:75-81 | a number token is a numeral, and the longest there is |
| CelCharacters.FaultsAreReal | packages/model-option-map/src/tokenizer.ts:22-124 | every error of the tokenizer points at what is wrong |
| CelParser.Parser.ParseBinary | packages/model-option-map/src/parser.ts:112-128 | the loop over operators of one level builds the left-associated chain |
| CelParser.Parser.ParsePrimary | packages/model-option-map/src/parser.ts:147-180 | literals, the input, parentheses, arrays and objects, and each error |
| CelParser.Parser.ParseObject | packages/model-option-map/src/parser.ts:192-214 | the loop over entries, with its duplicate test |
| CelRoundTrip.RoundTripAt | packages/model-option-map/src/parser.ts:79-240 | an expression printed with the fewest parentheses is parsed back at any level, wherever it stands |
| CelTightness.ParseIsTight | packages/model-option-map/src/parser.ts:79-240 | a successful parse reads at least as many tokens as its result takes to print |
| CelTightness.RoundTripExactly | packages/model-option-map/src/parser.ts:61-77 | parsing inverts printing and consumes all input, if and only if numbers are JSON-safe, keys unique, and no array begins with a token "]" and no object with a key "}" |
| CelTightness.ClosingStringIsMisread | packages/model-option-map/src/parser.ts:216-220 | the exclusion is real: the printed array of the string "]" is rejected |
| CelPrecedence.FlatParsesIffWellNested | packages/model-option-map/src/parser.ts:79-180 | of the expressions that read as some tokens without parentheses, the one the parser gives is the one nested as six groups of symbols have it, conditionals below and signs above |
| CelPrecedence.ChainParses | packages/model-option-map/src/parser.ts:88-128 | a chain of any length is split at the last operator of its loosest group, and so on |
| CelPrecedence.TwoOperators | packages/model-option-map/src/parser.ts:88-128 | of two operators the second is applied first exactly if its group is tighter |
| CelProblems.ProblemsAreReal | packages/model-option-map/src/parser.ts:61-240 | every error of the parser points at a token that shows it |
| CelSource.SourceRoundTrip | packages/model-option-map/src/compiler.ts:67-74 | from source text: a printed expression whose tokens are written out is tokenized without error, and parsing what was read gives it back, under exactly the same condition |
| CelSource.TokensEndWell | packages/model-option-map/src/tokenizer.ts:22-81 | whatever the source, the tokens given to the parser end with eof and have it nowhere else |
| CelEvaluator.JsonEqualsIsEquality | packages/model-option-map/src/evaluator.ts:180-199 | equal key counts and one inclusion are exactly structural equality |
| CelEvaluator.EvaluationIsSafe | packages/model-option-map/src/evaluator.ts:17-120 | every number anywhere in a result is finite and safe if whole |
| CelEvaluator.ParsedLiteralsAreSafe | packages/model-option-map/src/parser.ts:147-154 | what the parser gives has only safe literals |
| CelEvaluator.ObjectOrFailure | packages/model-option-map/src/compiler.ts:80-88 | an expression accepted as an option map gives an object or fails |
| CelEvaluator.OptionMapsAreSafeObjects | packages/model-option-map/src/compiler.ts:35-57 | from tokens to result: a failure, or an object of safe numbers, so the check at run time never fires |
| CelEvaluator.ComparisonsAgree | packages/model-option-map/src/evaluator.ts:122-145 | of `<`, `==` and `>` at most one holds; one does, and `<=` and `>=` mean what they say, if and only if the operands are not two different numbers of which neither is less |
| CelMeaning.LawfulIffEvaluation | packages/model-option-map/src/evaluator.ts:17-199 | laws of what expressions mean, one per construct, errors and their order included; evaluation meets them, and nothing else does |
| CelMeaning.InputsAreTested | packages/model-option-map/src/evaluator.ts:10-16 | texts and JSON-safe numbers are evaluated on, everything else is refused |
| CelEvaluator.ZeroAgainstItsNegation | packages/model-option-map/src/evaluator.ts:122-199 | zero and negative zero are two such: neither less, nor equal, nor greater |
| CelEvaluator.BuildObject | packages/model-option-map/src/evaluator.ts:25-36 | the loop over the entries of an object |
| RegistryRefresh.RefreshGuarantees | packages/provider/src/registry-service.ts:150-273 | over every interleaving: no wake-up is lost; once there is a snapshot nobody waits for a completed generation unless the loop has just thrown; every request is answered exactly once or still waits; an answer comes from reads begun after the request, and is the snapshot published last by then; every published snapshot is on one Built-in revision |
| RegistryAnswers.AnsweredExactly | packages/provider/src/registry-service.ts:150-273 | which step rejects everybody, which gives everybody the snapshot then shown, what is shown, and that no other step answers anybody |
| RegistryAnswers.AnswersHaveCauses | packages/provider/src/registry-service.ts:150-273 | so over every run: every rejection stems from a disposal, a failed round or the finish after a throw, every resolution from a current round |
| RegistryAnswers.LoopGoesOn | packages/provider/src/registry-service.ts:161-255 | which steps begin a round, complete a generation, or throw |
| RegistryAnswers.RoundEndsSo | packages/provider/src/registry-service.ts:180-255 | where the loop is after a round |
| RegistryRefresh.IdleMeansAnswered | packages/provider/src/registry-service.ts:161-178 | with nothing in flight nobody waits, except before the first snapshot |
| RegistryRefresh.LeftExactly | packages/provider/src/registry-service.ts:180-255 | a step leaves a waiter of a completed generation behind, other than by throwing, if and only if its reads disagree while there is no snapshot and nothing newer is asked for |
| RegistryRefresh.RunsLeaveNobodyIff | packages/provider/src/registry-service.ts:161-255 | so over runs: nobody is left behind, if and only if no step is such a one |
| RegistryRefresh.DelayedExactly | packages/provider/src/registry-service.ts:161-255 | with a snapshot, a step makes such a waiter wait for the finish handler, if and only if its reads or its resolver fail, an error listener throws, and nothing newer is asked for |
| RegistryRefresh.RunsDelayNobodyIff | packages/provider/src/registry-service.ts:161-255 | so over runs: nobody is made to wait, if and only if no step is such a one |
| RegistryRefresh.FirstReadsDisagree | packages/provider/src/registry-service.ts:205-212 | that exception is real |
| RegistryRefresh.ThrowingListenerDelays | packages/provider/src/registry-service.ts:166-172 | so is the other: a throwing error listener leaves a completed generation waiting until the finish handler rejects it |
| RegistryRefresh.RunKeeps | packages/provider/src/registry-service.ts:180-255 | the invariant over any run |
| RefreshWaiters.DueAndLater | packages/provider/src/registry-service.ts:257-273 | the due waiters and the others are all the waiters, each once |
| RefreshWaiters.ResolveEach | packages/provider/src/registry-service.ts:257-264 | the loop of both services that resolves the due waiters, in order, and keeps the others in order |
| RefreshWaiters.RejectEach | packages/provider/src/registry-service.ts:266-273 | and the one that rejects them |
| AccountRefresh.RefreshGuarantees | packages/provider/src/account-provider-service.ts:112-235 | over every interleaving: every request is answered exactly once or still waits; answers come from a round begun after the request; what is published normally was overtaken neither by a request nor by a Built-in revision |
| AccountAnswers.AnsweredExactly | packages/provider/src/account-provider-service.ts:112-235 | which step rejects those who asked before its round, which gives them the snapshot then shown, what is shown, and that no other step answers anybody |
| AccountAnswers.AnswersHaveCauses | packages/provider/src/account-provider-service.ts:112-235 | so over every run: every rejection stems from a disposal or a failed round, every resolution from a confirmed round or the denial of everything |
| AccountAnswers.LoopGoesOn | packages/provider/src/account-provider-service.ts:112-160 | which steps begin a round, and which make another one follow |
| AccountAnswers.RoundGoesOn | packages/provider/src/account-provider-service.ts:148-217 | where a round is after each of its awaits |
| AccountRefresh.PublicationAnswersAll | packages/provider/src/account-provider-service.ts:148-217 | a normal publication answers everybody who waits |
| AccountRefresh.OrphanedExactly | packages/provider/src/account-provider-service.ts:148-217 | a step leaves waiters with nobody to answer them if and only if an error listener throws while nothing newer is pending |
| AccountRefresh.RunsOrphanNobodyIff | packages/provider/src/account-provider-service.ts:112-235 | so over runs: nobody is ever left so, if and only if no step is such a one |
| AccountRefresh.IdleMeansAnswered | packages/provider/src/account-provider-service.ts:126-146 | without such a step nobody waits once nothing is in flight |
| AccountRefresh.ThrowingListenerOrphans | packages/provider/src/account-provider-service.ts:148-217 | that step is real |
| OwnedOrder.UniqueInOrder | packages/provider/src/owned-order.ts:25-34 | the loop keeps the first occurrences, in order |
| OwnedOrder.EveryMemberOnce | packages/provider/src/owned-order.ts:7-23 | the resolved order lists every member exactly once |
| OwnedOrder.RequestedOrderIsKept | packages/provider/src/owned-order.ts:7-23 | what was requested keeps its relative order |
| OwnedOrder.RestGoesAround | packages/provider/src/owned-order.ts:7-23 | unordered inherited ids come first and unordered Personal ids last |
| OwnedOrder.ComesFirst | packages/provider/src/owned-order.ts:7-23 | of two members the one that comes first: by inherited, requested, Personal, and within each by the list that decides there |
| OwnedOrder.UniqueKeepsOrder | packages/provider/src/owned-order.ts:25-34 | first occurrences, in their order |
| OwnedOrder.SettledOrders | packages/provider/src/owned-order.ts:7-23 | an order is left as it is, if and only if it is a permutation of the members |
| OwnedOrder.Idempotent | packages/provider/src/owned-order.ts:7-23 | resolving again changes nothing |
| PersonalModels.PersonalIdsAfter | packages/provider/src/config-service.ts:296-559 | an edit that succeeds adds, renames or removes exactly its id, and keeps Personal ids unique and apart from inherited ones |
| PersonalModels.EditsKeepTheLists | packages/provider/src/config-service.ts:296-559 | so over any run of edits; and the saved order is a permutation of the members once any edit has changed anything |
| EditingOrder.SucceedsExactly | packages/provider/src/config-service.ts:296-559 | which edits succeed |
| EditingOrder.ReorderIsFollowed | packages/provider/src/config-service.ts:299-323 | what was asked for is saved in the order asked, other inherited models in front and other Personal ones behind |
| EditingOrder.OthersStayInOrder | packages/provider/src/config-service.ts:334-559 | adding or deleting a model leaves the order of the others |
| EditingOrder.AddedComesLast | packages/provider/src/config-service.ts:334-366 | a model added is shown last, unless the saved order names it |
| Renaming.RenameKeepsThePosition | packages/provider/src/config-service.ts:368-414 | a renamed model keeps its place in the Personal list; among the models shown, if and only if the saved order does not name the new id first, or nothing shown lies between the two places |
| Renaming.OrderedRenames | packages/provider/src/config-service.ts:368-414 | so once an edit has saved an order, which then names members only, the saved order is the old one with the id exchanged |
| Renaming.StaleIdMovesTheModel | packages/provider/src/config-service.ts:398-400 | an order from elsewhere that names the new id does move the model |
| PersonalModels.AddThenDelete | packages/provider/src/config-service.ts:334-559 | adding and deleting a model normalises the order of the record, or of the one made on demand; what was there is restored, if and only if there was a record and its order was a permutation of the members |
| ProviderResolution.ProviderOrderIsAPermutation | packages/provider/src/resolver.ts:355-376 | the provider order is a permutation of the effective ids |
| ProviderResolution.FamilyComesFirst | packages/provider/src/resolver.ts:355-376 | family providers first, as the keys have them; the others by the owned order |
| ProviderResolution.ListedExactly | packages/provider/src/resolver.ts:217-335 | listed are exactly the providers that are complete, may execute and have an enabled model, in the order of providers, each with exactly its enabled models, in their order |
| ProviderResolution.ResolverOutputIsIndexable | packages/provider/src/resolver.ts:217-343 | whatever is configured, the resolver lists no provider and no model twice |
| ProviderResolution.CollectProviders | packages/provider/src/resolver.ts:217-335 | the loop that collects the providers with executable models |
| ProviderRegistries.ProviderRegistry.RebuildIndexes | packages/provider/src/registry.ts:106-125 | succeeds exactly without duplicates, and then both indexes answer as reading the view does |
| ProviderRegistries.ProviderRegistry.Replace | packages/provider/src/registry.ts:94-99 | the revision rises; with duplicates the view is shown all the same while indexes and listeners keep the old state |
| ProviderRegistries.ProviderRegistry.GetModel | packages/provider/src/registry.ts:70-72 | what reading the view finds |
| ProviderRegistries.ProviderRegistry.ReplaceResolved | packages/provider/src/registry.ts:94-125 | from the resolver's output the replacement always succeeds |
| ReleaseStore.StoreNeverGoesBack | packages/provider-node/src/zcode-builtin-provider-config-source.ts:64-113 | under any interleaving the stored revision never decreases, and once materialized equal revisions mean equal content |
| ReleaseStore.HighestIsHeld | packages/provider-node/src/zcode-builtin-provider-config-source.ts:64-113 | after any accesses the file holds the highest release of those begun with and offered, the earliest of equals; with no valid one to begin with it is never written |
| ReleaseStore.OrderMattersIffRivals | packages/provider-node/src/zcode-builtin-provider-config-source.ts:180-206 | the final file depends on the order, if and only if two different contents were offered at the highest revision above the one begun with |
| ReleaseStore.TurnedDownForGood | packages/provider-node/src/zcode-builtin-provider-config-source.ts:64-84 | an accepted offer is what the file holds; a stale or conflicting one is never held later |
| ReleaseSource.ProviderConfigSource.ReadAndMaterializeLocked | packages/provider-node/src/zcode-builtin-provider-config-source.ts:100-113 | gives the selected release and leaves the file holding it |
| ReleaseSource.ProviderConfigSource.ApplyRemoteRelease | packages/provider-node/src/zcode-builtin-provider-config-source.ts:64-84 | the outcome, the file, the signature and the event of an offer |
| ReleaseSource.ProviderConfigSource.OnFileEvent | packages/provider-node/src/zcode-builtin-provider-config-source.ts:133-148 | a change event is emitted exactly when the stored release is not the one last observed |
| ReleaseSource.ProviderConfigSource.OwnUpdateIsAnnouncedOnce | packages/provider-node/src/zcode-builtin-provider-config-source.ts:64-148 | the watcher does not announce one's own update again |
| LeaseControl.ExclusiveIffNoTakeover | packages/provider-node/src/zcode-builtin-remote-synchronizer.ts:81-105 | over every run: never two refreshes under way on unexpired leases, if and only if no acquisition finds another endpoint's lease still running |
| LeaseControl.ExclusionFromTheBeginning | packages/provider-node/src/zcode-builtin-remote-synchronizer.ts:81-105 | so from an empty control file, and always when there is one endpoint |
| LeaseControl.ThereAndBackIsNotExclusive | packages/provider-node/src/zcode-builtin-remote-synchronizer.ts:88-103 | going to another endpoint and back lets two refreshes of one endpoint run at once |
| LeaseControl.ReplacedHolderChangesNothing | packages/provider-node/src/zcode-builtin-remote-synchronizer.ts:141-168 | a holder whose lease was replaced changes nothing when it finishes, however late |
| LeaseControl.FailureHoldsBack | packages/provider-node/src/zcode-builtin-remote-synchronizer.ts:141-168 | after a failure no unforced attempt of the endpoint gets a lease until the delay of one more failure has passed |
| LeaseControl.DueExactly | packages/provider-node/src/zcode-builtin-remote-synchronizer.ts:86-168 | after success, failure or cancellation: no unforced attempt gets a lease before its delay has passed, the first one after does; success forgets the failures, a failure adds one, a cancellation leaves them |
| LeaseControl.GrantsExactly | packages/provider-node/src/zcode-builtin-remote-synchronizer.ts:86-91 | when an attempt gets a lease |
| LeaseControl.GrantedLease | packages/provider-node/src/zcode-builtin-remote-synchronizer.ts:92-99 | and what it writes |
| LeaseControl.DelayGrowsToTheCap | packages/provider-node/src/zcode-builtin-remote-synchronizer.ts:149-159 | more failures never wait shorter, and never longer than the cap |
| LeaseControl.DelayDoubles | packages/provider-node/src/zcode-builtin-remote-synchronizer.ts:149-159 | the first failure waits for the base delay and each further one twice as long, up to the cap |
| RemoteSynchronizers.RemoteSynchronizer.SlowHolderIsFenced | packages/provider-node/src/zcode-builtin-remote-synchronizer.ts:81-168 | a slow holder's finish leaves the lease of the one that replaced it alone |

## Left out

- Real sockets, timers, clocks, files, locks and fetch: they are nondeterministic steps, or parameters such as the current time.
- Buffers are values once they are filled; that a `VSBuffer` may alias another's bytes is not modelled.
- Listeners that replace the socket or send from inside a callback: the classes fire to listeners that return first; the two-endpoint machine does let sends come between any two frames.
- Ids and payload lengths of 2^32 and more: the two-endpoint machine stops sending before them. `ChunkStream` sizes are unbounded integers.
- `PersistentProtocol.dispose` and `drain`, and the message-port and in-memory queue transports of `protocol.ts`.
- A transport whose `write` or `send` throws.
- UTF-8, `JSON.stringify`, `JSON.parse` and base64 in serialization: strings and JSON values are their bytes.
- Serialization.RoundTrip: values go up to the lengths an int32 can hold, as the encoding itself does.
- Event re-subscription after the last listener has left; that a channel may look at its cancellation token.
- CelCharacters.FaultsAreReal: of an unterminated string it says that the line ends, not that no quote closed it before.
- The log and telemetry decorators, proxy objects and channel name tables of `packages/rpc`.
- JavaScript's order of object keys, and prototypes: objects are finite maps. Numbers in the evaluator are abstract: zero and negative zero may be two of them, rounding and infinities are in the parameters.
- `Number(text)`: which literal is JSON-safe is a parameter, the same one for parser and evaluator. The offsets of expressions, which only appear in errors of the evaluator, are not kept.
- CelSource.SourceRoundTrip: the parser's texts are Dafny strings, so texts with surrogates are not covered, and tokens are set apart by one space each; the tokenizer's own results are for any units and any white space.
- The caches of `compiler.ts` and the freezing of results.
- The reasons carried by refresh events, and the resolver inside the registry service, which there only succeeds or throws.
- Reads that join an account round already in flight share its promise; they are not counted as waiters of their own.
- `ProviderConfigMap` and `ModelConfigRules`: a map is its keys in order; overlays keep the union of the keys. Completeness checks and schemas are facts given to the model.
- Trimming of ids, membership revision checks, exact model rules and the whole-draft edit of `config-service.ts`.
- The constructor of `ProviderRegistry` with an initial list: the model begins empty and replaces.
- The case that the Active and bundled release are one file, the fallback to bundled when the cache cannot be used, and Active files changed by anything but these accesses.
- Control files that were corrupted from outside; `2 ** n` beyond the range of a double.
- The network phase between acquiring and finishing a lease: which of the three results it ends with is a parameter, as are disposal and the coalescing of refreshes within one process.
- `packages/formal-proof`, `packages/zcode-cua`, the services' wiring, servers, user interface and build configuration.
