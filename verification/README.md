# DIY-Redis, modelled in Dafny

This project states and proves what the small Redis server does when its parts work together: RESP
framing, replication over byte streams that arrive late and in arbitrary pieces, WAIT, blocking list reads,
RDB files, streams and transactions.

## Main results

All of them hold for every input, or for every list of steps of the system.

- **Chunking.** A master stream cut into data events anywhere gives the same commands, replies and ACK offsets
  (`Messages.MasterStreamInAnyChunks`); a pass depends on later bytes exactly behind a bad RDB header
  (`Chunking.StableExactlyUnlessBadRdbHeader`), and repeats itself for ever exactly when `ReplicaStream.StuckExactly` says.
- **RESP.** Printing and parsing is a round trip exactly for plain payloads (`Resp.RoundTripExactlyWhenPlain`), hence for
  everything the parser produces (`Resp.ParsePrintParse`).
- **Convergence.** With servers that start from any dump files, clients blocked by BLPOP, interrupted transactions, propagation that
  lags behind execution, and any chunking: a replica whose store equalled the master's when it registered, and that has seen only
  lossless commands, becomes the master's store, insertion order and expiries included (`LosslessRuns.LosslessRunConverges`,
  `Convergence.ReplicasConverge`); every replica can get there, and one that registers does exactly when its own dump file made it equal
  (`CatchingUp.EveryReplicaCatchesUp`, `Convergence.UnregisteredHoldsItsFile`, `SaneSystems.SeededReplicaConvergesExactly`).
- **Handoffs.** A push that serves a waiting client, or whose propagation a BLPOP overtakes, is reproduced by replicas exactly under
  the conditions of `Handoffs.RPushHandoffReplaysExactly`, `Handoffs.LPushHandoffReplaysExactly` and
  `Handoffs.OvertakenPushReplaysExactly`; overtaking any writes on other keys is harmless (`Overtaking.OvertakingIsFaithful`), and a run
  that diverges is `OvertakingRuns.OvertakingDiverges`. Writes depend on clocks exactly as `Clocks.ClockMattersExactly` says.
- **Offsets and handshake.** `Convergence.OffsetsAccountForEveryByte`, `Convergence.HandshakeIsAligned`.
- **WAIT.** Every WAIT is answered once (`WaitAnswers.EveryWaitIsAnsweredOnce`). The reply of an undisturbed WAIT never
  exceeds the caught-up replicas (`UndisturbedWaits.UndisturbedWaitIsSound`, `WaitSoundness.WaitRepliesAreSound`); a
  replica is counted at most once exactly when `WaitExactness.CountedAtMostOnceExactly` says; runs on which a WAIT
  answers too much are `WaitRuns.OverlapExceeds` and `WaitRuns.ForgedAcksExceed`.
- **Blocking lists.** They refine a queue (`BlockingQueue.BlockingListIsAQueue`), lose no wake-up (`Waiters.NoLostWakeUp`), and keep
  their waiters in the right queues exactly when `WaiterExactness.QueuesStayRightExactly` says.
- **RDB.** `RdbRoundTrip.SaveThenLoad` and `RdbRoundTrip.BuildSucceedsExactly`, for every reachable master and replica in
  `SaneSystems.ReachableStoreSavesAndLoads`. The parser loads exactly the living pairs of every file of the format, metadata and all
  (`RdbFiles.FileLoads`, `RdbFiles.MetadataIsSkipped`), and stops where `RdbFiles.OtherTypesStop` says.
- **Streams.** IDs are compared as strings; over a run of XADDs they strictly increase as numbers exactly when no request crosses widths
  harmfully (`StreamOrder.IdsStrictlyIncreaseExactly`), in particular while widths agree (`StreamOrder.AgreeingWidthsIncrease`,
  `StreamOrder.ServerIdsIncrease`). Also `StreamOrder.DecidesNumericallyExactly`, `StreamRanges.RangeIsContiguous`,
  `StreamReads.FollowerReceivesExactlyOnce`, `StreamReads.BlockedReadersMissNothing`, `StreamReads.DollarGetsTheNextEntry`.
- **Transactions.** From what a connection has sent it follows when it is in a transaction (`Sessions.RunIsInStep`) and when EXEC aborts
  (`Transactions.ExecAbortsExactlyOnUnknown`); EXEC does what the plain sequence would (`Transactions.TransactionIsSequential`), and
  answers what it would, byte for byte (`ExecAnswers.ExecAnswersPlainReplies`, `ExecAnswers.ContentShownExactly`).
- **Commands.** What each command stores, answers and propagates, without naming how it computes it: `CommandLaws`, `ReplyLaws`, `WireLaws`.

## How the model is built

- **Text and time.** A string is a sequence of bytes, one `char` each. Clocks are parameters (`Env.now`, `now`). Numbers are
  mathematical integers; `parseInt` and `toString` are modelled on decimals (`Text.dfy`).
- **Framing.** `Resp.dfy` holds what a frame is and how one is printed; `DataParser.dfy` and `ReplicaStream.dfy` hold the two
  framing loops of the program, proved to compute the same thing.
- **The replica's connection.** `ReplicaStream.MasterConnectionHandler` is the handler object with its buffer, handshake step, RDB
  flag and byte offset. Its `OnData` returns whether the loop of the source would run for ever.
- **Commands and dispatch.** `Store.dfy` and `Commands.dfy` give the store and the commands as functions. `Blocking.Desk` is what all
  connections share: the store, the queues of clients blocked by BLPOP, the log of propagated commands, and a history of what was
  pushed and delivered. `Dispatcher.dfy` runs commands, transactions and BLPOP on a desk. `CommandMethods.dfy`,
  `BlockingManager.dfy`, `ReplicationManager.dfy` and `SOLIDDispatcher.dfy` give the same as methods on shared objects that call each
  other as the source does, each proved against its function. `CommandLaws.dfy`, `ReplyLaws.dfy`, `WireLaws.dfy`, `Sessions.dfy` and
  `ExecAnswers.dfy` say what the commands mean for a client, and `TextLaws.dfy` what `parseInt` and the framing make of any text.
- **The replicated system.** `Replication.System` is a master with its desk and clients, its replicas (each with its own process
  state and the bytes still under way), the running EXECs and WAITs, and the queue of commands that have run and are not propagated
  yet. `Replication.Next` takes one step: a client command, the next command of an EXEC, the oldest pending propagation, a blocked
  BLPOP that times out, a replica joining, the master reading a message, any number of bytes arriving, a WAIT timing out. Between two
  steps anything else may happen, as at every await of the source; a pop by BLPOP is propagated at once and overtakes what is pending
  (app/services/BlockingManager.ts:83). WAIT, PSYNC and ACKs that clients send take their part in it.
- **RDB.** `Rdb.dfy` is the format as functions on a byte string and a position; `RdbObjects.dfy` is the parser with its cursor
  and the writer with its chunks. `RdbFiles.dfy` is a grammar of files, against which both are read.
- **Streams.** `StreamIds.dfy`, `StreamOrder.dfy`, `StreamRanges.dfy`, `StreamReads.dfy`, and `XreadCommand.dfy` for the listeners on
  the event emitter.

History fields (`intact`, `cmds`, `clean`, `marks`, `voters`, `pushed`, `delivered`, `resolved`, ...) do not influence any step;
they record what the theorems speak of.

## Where the promise and the code differ

The code is followed throughout. Each of these has a lemma with an exact condition or a witness.

- The drain loop of the replica never ends on some frames with a negative bulk length (`ReplicaStream.StuckExactly`,
  `NegativeLengthNeverEnds`); without a minus sign in the buffer it always ends (`NonNegativeLengthsTerminate`).
- After a line that is not an RDB header the whole buffer is thrown away, so the outcome depends on chunking
  (`Chunking.StableExactlyUnlessBadRdbHeader`, `ChunkingMattersAfterBadHeader`).
- PSYNC always sends an empty RDB, which is skipped: a replica starts equal to the master exactly when what it loaded from its own
  dump file equals the master's store (`CatchingUp.EveryReplicaCatchesUp`).
- GET deletes an expired key without propagating it, EXEC does not propagate LPOP, and relative expiries and `*` IDs depend on each
  server's own clock (`Convergence`, `Clocks`).
- The LPOP of a client woken by a push is propagated before that push, although the README of the program promises replication support
  for BLPOP: replicas end up different unless the conditions in `Handoffs` hold. The same happens when a client that another command
  has just woken pops what a third has pushed and not propagated yet (`OvertakingRuns`).
- Overlapping WAITs count one replica twice, and any client can send ACKs that WAITs count (`WaitRuns`). A replica that registered at
  a later offset counts its bytes from zero, so it is counted only once enough GETACKs have gone by
  (`Convergence.AckCountsExactly`).
- The pre-checks of SET, GET and INCR at app/SOLIDDispatcher.ts:57-59 compare a lower-case name with upper-case text and never hold:
  only an unknown command makes a transaction fail. A counted LPOP inside EXEC gets no element in the answer
  (`Transactions.CountedPopIsNotAnswered`), nor does a BLPOP that pops (`ExecAnswers.QueuedBlpopIsNotAnswered`). A text of several
  lines, or with blanks at its end, is answered cut (`ExecAnswers.ContentShownExactly`). WATCH is let through as a transaction command
  but not known (`Sessions.OthersAreQueued`).
- `removeWaiter` searches by connection: two waits of one connection lose a waiter (`WaiterExactness.SharedConnectionLosesAWaiter`). A
  push of several elements wakes one client only (`Waiters.LongPushLeavesAWaiterIdle`).
- Stream IDs are compared as strings (`StreamOrder.StringOrderIsNumericExactly`, `DecidesNumericallyExactly`): a stream whose top ID comes
  after 999999999999999 as a string refuses `*` under every clock (`ClockIds.NoClockIsAccepted`). "+" is a fixed ID
  (`StreamRanges.FullRangeExactly`), and a bound without a sequence number leaves out its own millisecond
  (`StreamRanges.HalfIdsExclude`).
- SAVE fails for more than 63 keys and for longer strings (`RdbRoundTrip.BuildSucceedsExactly`).

## Model

| member | source | states |
|---|---|---|
| Resp.PayloadOf | app/DataParser.ts:18-31 | whatever bytes it is given, a payload holds only non-empty, CRLF-free items that do not look like a header |
| Resp.CompleteFrameIsStable | app/DataParser.ts:39-71 | appending bytes to a complete command changes neither its end nor, for a non-negative end, its payload |
| Resp.ProperPrefixIsIncomplete | app/DataParser.ts:39-71 | every proper prefix of a complete frame is reported incomplete |
| Resp.PrintThenParse | app/utilities.ts:104-110 | a printed plain payload followed by any bytes parses back to itself and takes exactly the printed bytes |
| Resp.ParsePrintParse | app/DataParser.ts:18-71 | a payload that the parser produced from any bytes at all survives being printed and parsed again |
| Resp.RoundTripExactlyWhenPlain | app/utilities.ts:104-110 | printing and parsing gives a payload back if and only if all its items are plain |
| DataParser.ParseNextCommand | app/DataParser.ts:39-71 | the loop over the declared bulk strings returns the payload and size of the first complete command, or nothing |
| DataParser.ToRESPArray | app/utilities.ts:104-110 | the appending loop prints the array header and the bulk strings in order |
| TextLaws.ParseIntReads | app/commands/simpleCommands/IncrCommand.ts:25 | parseInt reads a number behind any blanks, with or without a sign and leading zeros, up to the first character that is no digit |
| TextLaws.ParseIntReadsNothingElse | app/commands/simpleCommands/IncrCommand.ts:25-28 | every text either spells a number in that way or is NaN, having no digit behind blanks and a sign |
| TextLaws.ParseAnyIntReadsHex | app/SOLIDDispatcher.ts:47 | parseInt without a radix reads 0x and hexadecimal digits of either case as that number |
| TextLaws.ParseAnyIntReadsDecimals | app/SOLIDDispatcher.ts:47 | without 0x it reads what parseInt with radix 10 reads |
| TextLaws.LettersChangeCase | app/SOLIDDispatcher.ts:44 | lower and upper case exchange exactly the 26 letters |
| TextLaws.TextsGetThrough | app/DataParser.ts:18-31 | one-line texts that are not empty and do not start like a header come out of a frame as they went in, whatever follows |
| TextLaws.HeadersGetLost | app/DataParser.ts:18-31 | the empty text, and a star or dollar sign with any number behind it, get lost from the payload |
| ReplicaStream.StuckExactly | app/replication/MasterConnectionHandler.ts:35-56 | a pass that did not wait makes no progress if and only if the command it cut ends at or before minus the buffer length |
| ReplicaStream.NoProgressRepeats | app/replication/MasterConnectionHandler.ts:35-56 | a pass that consumed nothing and did not wait meets the same buffer again and again takes nothing, so the loop never ends |
| ReplicaStream.NonNegativeLengthsTerminate | app/replication/MasterConnectionHandler.ts:35-56 | the drain loop ends on every buffer without a minus sign, in every handler state |
| ReplicaStream.NegativeLengthNeverEnds | app/replication/MasterConnectionHandler.ts:137-143 | a concrete frame with a negative bulk length on which the drain loop never ends |
| ReplicaStream.MasterConnectionHandler.constructor | app/replication/MasterConnectionHandler.ts:30-33 | a new handler stands at handshake step 0 with offset 0 and has sent PING |
| ReplicaStream.MasterConnectionHandler.ProcessHandshakeMessage | app/replication/MasterConnectionHandler.ts:58-81 | each of the four greeting lines moves the handshake by one step only in its own state; other lines are skipped |
| ReplicaStream.MasterConnectionHandler.ProcessRdbFile | app/replication/MasterConnectionHandler.ts:83-106 | the RDB is skipped by its declared length; an incomplete one waits; a bad header discards the buffer |
| ReplicaStream.MasterConnectionHandler.ProcessPropagatedCommand | app/replication/MasterConnectionHandler.ts:108-170 | the second framer agrees with parseNextCommand, answers GETACK with the bytes before it, emits other commands and counts their bytes |
| ReplicaStream.MasterConnectionHandler.OnData | app/replication/MasterConnectionHandler.ts:35-56 | on every buffer: the result tells whether the source loop runs for ever, and otherwise events, state and leftover are those of the recursive drain |
| ReplicaStream.OtherLinesAreSkipped | app/replication/MasterConnectionHandler.ts:58-81 | in the handshake every line but the one its step awaits is skipped without effect |
| Chunking.StableExactlyUnlessBadRdbHeader | app/replication/MasterConnectionHandler.ts:89-94 | a pass that consumed bytes is independent of all later bytes if and only if it did not meet a bad RDB header |
| Chunking.RunSplits | app/replication/MasterConnectionHandler.ts:35-56 | draining a prefix and later the rest equals draining everything at once |
| Chunking.ChunkingDoesNotMatter | app/replication/MasterConnectionHandler.ts:35-56 | any way of cutting an orderly stream gives the same events in the same order, final state and leftover bytes |
| Chunking.ChunkingMattersAfterBadHeader | app/replication/MasterConnectionHandler.ts:89-94 | the same seven bytes in two cuts end in different states |
| Messages.MessageTurn | app/replication/MasterConnectionHandler.ts:58-170 | faced with the message it waits for, the replica consumes exactly that message, even an RDB full of CRLF |
| Messages.PartialMessageWaits | app/replication/MasterConnectionHandler.ts:58-170 | with any proper part of that message the replica waits and touches nothing |
| Messages.RunStopsAtBoundary | app/replication/MasterConnectionHandler.ts:35-170 | after any prefix of a message sequence the replica has consumed a whole number of messages and keeps exactly the rest |
| Messages.MasterStreamInAnyChunks | app/replication/MasterConnectionHandler.ts:35-170 | a well-formed master stream cut anywhere yields the same emitted commands, replies and ACK offsets in order |
| Store.RedisStore.Set | app/store/RedisStore.ts:10-18 | the object holds the updated store |
| Store.RedisStore.Delete | app/store/RedisStore.ts:36-38 | the object loses the key and tells whether it was there |
| Commands.ErrorsChangeNothing | app/SOLIDDispatcher.ts:125-135 | a command of any kind that is answered with an error has left the store unchanged |
| CommandMethods.SetCommand | app/commands/simpleCommands/SetCommand.ts:11-83 | the loop that shifts the options away ends in the store and reply of the SET function on the original arguments |
| CommandMethods.DelCommand | app/commands/simpleCommands/DelCommand.ts:8-19 | the deleting and counting loop computes the DEL function |
| CommandMethods.IncrCommand | app/commands/simpleCommands/IncrCommand.ts:10-40 | the read-modify-write computes the INCR function, errors included |
| CommandMethods.LPopCommand | app/commands/simpleCommands/LPopCommand.ts:10-68 | single and counted pops compute the LPOP function; an emptied list is deleted |
| CommandMethods.XAddCommand | app/commands/streamCommands/XaddCommand.ts:12-55 | up to the notification, appending with a generated ID computes the XADD function |
| CommandMethods.GetCommand | app/commands/simpleCommands/GetCommand.ts:11-27 | GET on the shared store, with the deletion of an expired key |
| CommandMethods.ExpireCommand | app/commands/simpleCommands/ExpireCommand.ts:8-29 | EXPIRE on the shared store |
| CommandLaws.OptionsCompose | app/commands/simpleCommands/SetCommand.ts:23-65 | the option loop composes: complete options in front only change the starting point of the rest, so later options override earlier ones |
| CommandLaws.SetThenGet | app/commands/simpleCommands/SetCommand.ts:66-83 | GET answers the text of the last SET exactly until the expiry set or kept has passed; other keys are unchanged |
| CommandLaws.LifetimeIsKept | app/commands/simpleCommands/SetCommand.ts:29-40 | EX n equals PX 1000n, and GET answers the text exactly until that time has passed |
| CommandLaws.AbsoluteFormsAgree | app/commands/simpleCommands/SetCommand.ts:41-52 | EXAT n equals PXAT 1000n under any two clocks |
| CommandLaws.SetWritesExactlyWhenAllowed | app/commands/simpleCommands/SetCommand.ts:66-74 | SET answers nil, and then changes nothing, if and only if NX or XX forbids the write |
| CommandLaws.IncrementsAdd | app/commands/simpleCommands/IncrCommand.ts:10-40 | n INCRs add n to the stored number, or to zero for a missing key, keep its expiry and insertion order and touch no other key |
| CommandLaws.DelRemovesExactly | app/commands/simpleCommands/DelCommand.ts:8-19 | DEL removes exactly the named keys and its count is the number of distinct named keys that existed |
| CommandLaws.PushThenPop | app/commands/simpleCommands/LPushCommand.ts:11-51 | LPUSH of n elements followed by LPOP n answers them last first and restores the very same store |
| CommandLaws.PushedFirstPopsFirst | app/commands/simpleCommands/RPushCommand.ts:11-43 | after RPUSH on an empty key a pop gives the first element and leaves the others in order |
| CommandLaws.PlainSetWrites | app/commands/simpleCommands/SetCommand.ts:19-82 | SET without options stores the text without expiry over whatever was there and answers OK |
| CommandLaws.SetModesMean | app/commands/simpleCommands/SetCommand.ts:53-79 | on the arguments as written, in upper or lower case: NX writes if and only if the key is absent, XX if and only if it is present, else nil and no change; KEEPTTL keeps the old expiry |
| CommandLaws.LastModeDecides | app/commands/simpleCommands/SetCommand.ts:53-74 | behind any accepted options a final NX or XX decides whether SET writes |
| CommandLaws.DeadlineIsKept | app/commands/simpleCommands/SetCommand.ts:47-52 | a key set with PXAT n is answered exactly until the clock of the reader has passed n |
| CommandLaws.NoNumberMeans | app/commands/simpleCommands/SetCommand.ts:28-52 | an EX or PX that is no number ends now, an EXAT or PXAT that is none never comes |
| CommandLaws.OtherOptionsAreErrors | app/commands/simpleCommands/SetCommand.ts:28-64 | an unknown option, or a time option without its number, is a syntax error and changes nothing |
| CommandLaws.ExpireMeans | app/commands/simpleCommands/ExpireCommand.ts:8-29 | EXPIRE keeps value and order, answers 1 or 0, and the text is then answered exactly until n seconds have passed |
| ReplyLaws.PushesMean | app/commands/simpleCommands/RPushCommand.ts:11-43 | RPUSH appends in order, LPUSH prepends the last one first; both answer the new length, keep place and expiry of the key and touch no other |
| ReplyLaws.PopMeans | app/commands/simpleCommands/LPopCommand.ts:10-68 | LPOP answers and takes the head, or as many as are asked for and there; an emptied list is deleted; a missing key answers nil or an empty array |
| ReplyLaws.DelMeans | app/commands/simpleCommands/DelCommand.ts:8-20 | DEL answers how many different named keys were there, and exactly those are gone |
| ReplyLaws.RequestsAreWritten | app/utilities.ts:30-38 | the IDs accepted by XADD are the star and number-dash-number or number-dash-star |
| ReplyLaws.XAddChooses | app/utilities.ts:8-28 | for ms-* XADD answers sequence 1 for millisecond 0 and else 0 on a new stream, the next one within the top millisecond, 0 in a later one of as many digits; * is the millisecond of now |
| ReplyLaws.NamedIdIsKept | app/utilities.ts:11-14 | the first ID of a stream, named by the client, is answered as it is |
| ReplyLaws.XAddMeans | app/commands/streamCommands/XaddCommand.ts:12-55 | XADD answers exactly the ID under which it has stored the fields, last in the stream; key order, expiry and other keys stay; an error changes nothing |
| ReplyLaws.XAddRefuses | app/commands/streamCommands/XaddCommand.ts:13-38 | the errors of XADD by cause, and an error if and only if the request is not accepted |
| ReplyLaws.OtherTypesAreRefused | app/commands/simpleCommands/RPushCommand.ts:19-25 | list commands and INCR on a key of another type answer their own error and change nothing |
| ReplyLaws.CallsAreCounted | app/commands/simpleCommands/LPopCommand.ts:11-13 | each command refuses every other number of arguments than its own with its error text and changes nothing |
| ReplyLaws.NumbersAreAsked | app/commands/simpleCommands/LPopCommand.ts:19-24 | EXPIRE of a present key and LPOP with a count refuse what is no number, LPOP negative ones as well |
| SaneStores.ExecuteKeepsSane | app/SOLIDDispatcher.ts:100-103 | every command keeps the insertion order in step with the contents and leaves no list empty or with an empty item |
| SaneStores.LoadedIsSane | app/Server.ts:131-152 | a server that starts from any dump file, however far the parser gets in it, has a store with order and contents in step |
| SaneStores.DispatchKeepsSane | app/SOLIDDispatcher.ts:37-138 | every dispatch, with EXEC queues and waiting clients, keeps the store sane in the same sense |
| Transactions.RunTracks | app/SOLIDDispatcher.ts:51-65 | after any run of one connection, the queue of an open transaction is exactly the queueable commands sent since the latest MULTI, and its failure flag says whether one of them is unknown |
| Transactions.ExecAbortsExactlyOnUnknown | app/commands/statefulCommands.ts/ExecCommand.ts:15-29 | after any run, EXEC aborts if and only if an unknown command was queued since the latest MULTI, and otherwise runs exactly the commands since then |
| Transactions.QueueingIsInvisible | app/SOLIDDispatcher.ts:51-65 | queued commands leave the store, the waiting clients and the propagated commands alone |
| Transactions.ExecIsSequential | app/commands/statefulCommands.ts/ExecCommand.ts:34-55 | EXEC of simple commands that answer at once leaves the store and the waiting clients as sending them one by one would |
| Transactions.TransactionIsSequential | app/commands/statefulCommands.ts/ExecCommand.ts:15-91 | MULTI, simple commands that answer at once, and EXEC leave the desk as the plain sequence does, up to the log, and nothing changes before EXEC |
| Transactions.ExecAnswersCount | app/commands/statefulCommands.ts/ExecCommand.ts:69-84 | the answer has one element for each reply that starts with -, :, + or $, or is empty, and none for others |
| Transactions.CountedPopIsNotAnswered | app/commands/statefulCommands.ts/ExecCommand.ts:69-84 | a counted LPOP is a reply without an element |
| Sessions.RunIsInStep | app/commands/statefulCommands.ts/MultiCommand.ts:9-19 | over every run of one connection, from the payloads alone: it is in a transaction if and only if a MULTI was sent and no argument-free EXEC or DISCARD since; its channels are those it subscribed to; nothing is queued outside |
| Sessions.DiscardDropsTheQueue | app/commands/statefulCommands.ts/DiscardCommand.ts:11-26 | after any run DISCARD closes the transaction and empties the queue, and an EXEC after it answers an error and changes nothing |
| Sessions.FailedExecAborts | app/commands/statefulCommands.ts/ExecCommand.ts:16-29 | EXEC of a failed transaction answers its error, runs nothing and resets the connection |
| Sessions.OthersAreQueued | app/SOLIDDispatcher.ts:51-65 | in a transaction everything but EXEC, DISCARD, MULTI and WATCH is queued without effect, and WATCH is unknown and leaves the transaction open |
| Sessions.NothingIsAnError | app/Server.ts:108-116 | an empty command is answered with an error and has no effect |
| Sessions.SubscribedIsRefused | app/SOLIDDispatcher.ts:67-75 | a subscribed connection is refused everything but six commands, without effect |
| Sessions.SubscribedIsServed | app/SOLIDDispatcher.ts:67-95 | those six get through: three are unknown, SUBSCRIBE and UNSUBSCRIBE change the channels |
| ExecAnswers.ExecAnswersPlainReplies | app/commands/statefulCommands.ts/ExecCommand.ts:69-90 | byte for byte: EXEC answers one element for each queued command, which is its plain reply, with a status as a bulk string, no reply as nil and an error as its line |
| ExecAnswers.ContentShownExactly | app/commands/statefulCommands.ts/ExecCommand.ts:79-81 | a bulk text is answered unchanged if and only if it is one line, does not end with a blank and does not start with a minus sign |
| ExecAnswers.QueuedBlpopIsNotAnswered | app/commands/statefulCommands.ts/ExecCommand.ts:69-82 | a queued BLPOP that pops gets no element although the pop happens and is propagated; one that finds nothing gets nil |
| ExecAnswers.UnsupportedAreLines | app/commands/statefulCommands.ts/ExecCommand.ts:60-62 | SUBSCRIBE, UNSUBSCRIBE, PSYNC and WAIT in a transaction are answered with a line of their own and do nothing |
| DeskSteps.PushesAreDeskSteps | app/commands/simpleCommands/RPushCommand.ts:11-43 | a dispatched RPUSH or LPUSH does to the desk what the step of the blocking model does |
| DeskSteps.PopIsDeskStep | app/commands/simpleCommands/LPopCommand.ts:10-68 | a dispatched LPOP, plain or counted, does what its step of the blocking model does |
| DeskSteps.WritesAreDeskSteps | app/store/RedisStore.ts:10-38 | a dispatched SET or DEL does what its step of the blocking model does |
| DeskSteps.BlpopIsDeskStep | app/commands/statefulCommands.ts/BLPopCommand.ts:12-34 | a dispatched BLPOP, whether it pops at once or blocks, does what its step of the blocking model does |
| SOLIDDispatchers.FormatArray | app/utilities.ts:155-170 | the formatting loop prints the header and all items in order |
| SOLIDDispatchers.SOLIDDispatcher.ExecuteSimple | app/SOLIDDispatcher.ts:100-103 | calling the command objects has the effect on store, waiting clients and log, and the reply, of the simple command |
| SOLIDDispatchers.SOLIDDispatcher.ExecCommand | app/commands/statefulCommands.ts/ExecCommand.ts:15-91 | EXEC on the shared objects resets the state and has the effects, reply and propagation of the EXEC function |
| SOLIDDispatchers.SOLIDDispatcher.RunQueued | app/commands/statefulCommands.ts/ExecCommand.ts:34-88 | executing one queued command through the command objects, then propagating it if it is a write, gives the desk and answer items of one EXEC step |
| SOLIDDispatchers.SOLIDDispatcher.Dispatch | app/SOLIDDispatcher.ts:37-98 | a dispatch has the state, desk and reply of the dispatch function; an ACK from anybody reaches the listeners, PSYNC registers the connection, WAIT asks or answers |
| SOLIDDispatchers.SOLIDDispatcher.ServeCommand | app/SOLIDDispatcher.ts:92-138 | the command is served by its type, with the same effects |
| SOLIDDispatchers.SOLIDDispatcher.ServeSimple | app/SOLIDDispatcher.ts:125-135 | a simple command is propagated exactly outside a transaction, for a write with a non-error reply |
| SOLIDDispatchers.SOLIDDispatcher.ServeWait | app/commands/orchestrationCommands/WaitCommand.ts:10-24 | WAIT answers the number of replicas at once exactly when there are none or nothing was written, else asks and listens |
| WireLaws.CommandsAreServed | app/SOLIDDispatcher.ts:92-135 | a dispatched SET, DEL, INCR, EXPIRE, XADD or GET, in any case, is that command on the clock of the server; the writes are propagated as they came unless they fail, GET is not |
| WireLaws.PushesAreServed | app/SOLIDDispatcher.ts:92-135 | so are RPUSH and LPUSH while nobody waits; whoever waits, the answer is the length before anybody is served |
| WireLaws.PopIsServed | app/SOLIDDispatcher.ts:92-135 | so is LPOP |
| WireLaws.ReadersAreServed | app/SOLIDDispatcher.ts:92-135 | the commands that only read are answered from the store and not propagated, PUBLISH is propagated, REPLCONF is answered OK |
| WireLaws.BlpopAnswers | app/services/BlockingManager.ts:17-28 | BLPOP answers the first listed key whose list is not empty and then its head, takes that head and is propagated as LPOP |
| WireLaws.BlpopWaits | app/services/BlockingManager.ts:30-38 | with all listed lists empty BLPOP answers nothing and stands last in the queues of exactly its keys |
| WireLaws.BlpopRefuses | app/commands/statefulCommands.ts/BLPopCommand.ts:13-23 | BLPOP with too few arguments or a timeout that is no number or negative is an error and does nothing |
| WireLaws.PingMeans | app/commands/statefulCommands.ts/PingCommand.ts:11-22 | PING answers PONG or its text, and an array on a subscribed connection |
| WireLaws.WaitMeans | app/commands/orchestrationCommands/WaitCommand.ts:11-15 | WAIT hands on the number of replicas it wants; with another number of arguments it is an error |
| WireLaws.AcksAreHeard | app/SOLIDDispatcher.ts:46-49 | REPLCONF ACK in any case is never answered, whatever the state of the connection, and its number reaches the WAITs |
| WireLaws.UnknownIsRefused | app/SOLIDDispatcher.ts:92-95 | every name but the 32 known ones is answered with an error that repeats it, and does nothing |
| Handoffs.RPushHandoffReplaysExactly | app/commands/simpleCommands/RPushCommand.ts:33-40 | with a waiting client, LPOP then RPUSH gives a replica the store of the master if and only if the list had two elements or more, or one without expiry under the last key |
| Handoffs.LPushHandoffReplaysExactly | app/commands/simpleCommands/LPushCommand.ts:41-47 | with a waiting client, LPOP then LPUSH gives a replica the store of the master if and only if the list could be rebuilt as for RPUSH and every pushed element equals the old head |
| Handoffs.OvertakenPushReplaysExactly | app/services/BlockingManager.ts:22-28 | when BLPOP pops a key while a push is still to be propagated, the pop first and then the push gives a replica the store of the master if and only if the keys differ or the conditions of a handoff hold |
| OvertakingRuns.OvertakingDiverges | app/SOLIDDispatcher.ts:102-134 | a run of two lossless commands after which everything has arrived and the replica holds an element that the master has given away |
| Propagation.SameUnderEveryClock | app/SOLIDDispatcher.ts:125-135 | a write that needs no clock gives the same store on every server |
| Propagation.UnseenExactly | app/commands/statefulCommands.ts/ExecCommand.ts:8 | an unpropagated simple command changes the store if and only if it is a GET of an expired key or an effective LPOP |
| Propagation.BlpopIsFaithful | app/services/BlockingManager.ts:17-60 | a BLPOP, answered or blocked, is reproduced by the LPOPs it propagates |
| Propagation.DispatchReplays | app/SOLIDDispatcher.ts:37-138 | every lossless dispatch is reproduced by replaying what it propagated, whatever the clocks |
| Propagation.DispatchPropagates | app/SOLIDDispatcher.ts:125-135 | whatever is propagated is a write command whose items survive the wire |
| Scripts.OwnComesLast | app/SOLIDDispatcher.ts:125-135 | what the dispatcher propagates behind the await is the command itself, after everything that went out while it ran |
| Scripts.UninterruptedScriptIsExec | app/commands/statefulCommands.ts/ExecCommand.ts:34-88 | an EXEC run command by command, that nobody interrupts and no BLPOP suspends, leaves the desk of EXEC run in one go |
| Clocks.ClockMattersExactly | app/SOLIDDispatcher.ts:125-135 | on every store a write has the same effect under all clocks that Date can show if and only if it is no effective SET with a relative expiry, no EXPIRE of an existing key, both with a date that exists under some clock, and no XADD with * that a stream takes under some clock |
| ClockIds.NoClockIsAccepted | app/utilities.ts:8-28 | a stream whose top milliseconds come after 999999999999999 as a string refuses * under every clock |
| Overtaking.WriteCommutes | app/SOLIDDispatcher.ts:125-135 | a write, whatever it is, and a pop of a key it does not write have the same result in either order, under any clock |
| Overtaking.OvertakingIsFaithful | app/services/BlockingManager.ts:77-87 | a pop that is propagated before any pending writes on other keys leads a replica to the same store, whatever the clocks |
| ReplicaLink.DeliverKeepsAligned | app/replication/MasterConnectionHandler.ts:35-56 | delivering any number of bytes keeps the alignment and hands exactly the consumed commands to the dispatcher |
| ReplicaLink.DrainingAllEmits | app/Server.ts:166-168 | once all bytes arrive nothing is left over and exactly the unconsumed commands are emitted |
| Offsets.BytesSplit | app/replication/MasterConnectionHandler.ts:152-169 | bytes a replica counts = propagated bytes + 37 for each GETACK |
| Replication.ServedKeeps | app/SOLIDDispatcher.ts:97-135 | running a client command, whose own propagation then waits its turn, keeps every replica equal to the master minus what is under way or pending |
| Replication.ExecKeeps | app/commands/statefulCommands.ts/ExecCommand.ts:34-67 | running one queued command of an EXEC, whatever has happened since the one before, keeps the replicas so too, also a queued BLPOP that suspends the rest |
| Replication.FlushKeeps | app/SOLIDDispatcher.ts:134 | a pending propagation that goes out in turn keeps the replicas so and leaves the store of the master alone |
| Replication.ReachableOk | app/Server.ts:51-152 | in every reachable state, from any dump files, every replica is aligned with and linked to the master, whose store is sane |
| WaitSoundness.AckAnswersThisWait | app/commands/orchestrationCommands/WaitCommand.ts:29-39 | an ACK that an undisturbed WAIT counts answers its own GETACK and comes from a caught-up replica not counted before |
| WaitSoundness.StrangerKeeps | app/SOLIDDispatcher.ts:46-49 | an ACK from a connection that is no replica is not counted or ends the guarantee for this WAIT |
| WaitSoundness.WaitRepliesAreSound | app/commands/orchestrationCommands/WaitCommand.ts:16-47 | in every reachable state the reply of an undisturbed WAIT is at most the number of replicas that consumed every write sent before its GETACK; each counted one is such a replica, counted once |
| WaitExactness.CountsTwiceExactly | app/commands/orchestrationCommands/WaitCommand.ts:29-39 | hearing stale ACKs and then its own, a listener counts more than one if and only if a stale one reaches its offset and it wants more than one |
| WaitExactness.CountedAtMostOnceExactly | app/commands/orchestrationCommands/WaitCommand.ts:16-47 | from any reachable state: when a WAIT starts and then this replica alone is served until all its ACKs are read, the WAIT has counted it at most once if and only if no ACK unread at its start reaches the captured offset, or it wants at most one |
| UndisturbedWaits.UndisturbedWaitIsSound | app/commands/orchestrationCommands/WaitCommand.ts:10-48 | over whole runs: if a WAIT starts while no ACK under way reaches the offset, and no client starts another or sends an ACK until it is answered, its answer is at most the number of replicas that have consumed everything sent to them before it |
| BlockedScripts.QueuedBlpopSuspends | app/commands/statefulCommands.ts/ExecCommand.ts:44-62 | an EXEC that reaches a BLPOP with nothing to pop stands still, its client in the queues of the keys, as long as it waits |
| BlockedScripts.ServedScriptGoesOn | app/commands/statefulCommands.ts/ExecCommand.ts:44-62 | once the client is served or has timed out the EXEC runs its next command, or ends |
| BlockedScripts.WaitingEnds | app/services/BlockingManager.ts:63-87 | the timeout, and a push to a key at the head of whose queue the client is, end the waiting |
| WaitAnswers.EveryWaitIsAnsweredOnce | app/commands/orchestrationCommands/WaitCommand.ts:24-48 | in every reachable state each WAIT started so far is either running or answered, and once |
| WaitAnswers.AnswersStay | app/commands/orchestrationCommands/WaitCommand.ts:24-48 | no later step takes back or changes the answer of a WAIT |
| WaitAnswers.WaitAnswersAtOnceExactly | app/commands/orchestrationCommands/WaitCommand.ts:16-22 | WAIT is answered at once if and only if nothing was written or nobody counts as a replica, with the number of registered replicas and clients that sent PSYNC; else it runs with the offset of now |
| WaitAnswers.PsyncCounts | app/commands/replicationCommands/PsyncCommand.ts:22-26 | a client that sends PSYNC counts as a replica from then on |
| WaitAnswers.BlpopTimesOut | app/services/BlockingManager.ts:42-48 | a BLPOP that times out is resolved with nothing, and store, propagation and the queues of other keys stay |
| WaitRuns.OverlapExceeds | app/commands/orchestrationCommands/WaitCommand.ts:24-41 | a run from the start on which two WAITs overlap and one answers more than the caught-up replicas |
| WaitRuns.ForgedAcksExceed | app/SOLIDDispatcher.ts:46-49 | a run from the start on which two ACKs sent by an ordinary client make a WAIT answer 2 with one replica |
| Convergence.ReplicasConverge | app/replication/MasterConnectionHandler.ts:145-169 | in every reachable state, under any chunking, draining the undelivered bytes and running what is pending takes an intact replica to the store of the master, insertion order included |
| LosslessRuns.LosslessRunConverges | app/replication/ReplicationManager.ts:20-28 | over whole runs: a replica that registers when the pending writes lead from its store to that of the master, and sees only lossless steps from then on, drains to the store of the master |
| LosslessRuns.IntactExactly | app/replication/ReplicationManager.ts:20-28 | a registered replica stays intact over any number of steps if and only if every one of them is lossless and in turn |
| LosslessRuns.EverydayCommandsAreLossless | app/SOLIDDispatcher.ts:125-135 | 23 commands on any arguments, SET without options or with a deadline, XADD with an ID, GET of what has not expired and pushes nobody waits for are lossless |
| Convergence.CaughtUpReplicaIsEqual | app/replication/MasterConnectionHandler.ts:145-169 | an intact replica that consumed everything equals the master now, if no propagation is pending |
| Convergence.UnregisteredHoldsItsFile | app/Server.ts:63-71 | in every reachable state a replica that has not registered holds what its own dump file gave it |
| Convergence.OffsetsAccountForEveryByte | app/replication/ReplicationManager.ts:20-35 | in every reachable state the master offset is the propagated bytes since registration plus the base, and the replica offset is the write bytes consumed plus 37 per GETACK consumed |
| Convergence.AckCountsExactly | app/commands/orchestrationCommands/WaitCommand.ts:18-39 | the answer of a registered replica to the GETACK of a WAIT reaches the captured offset if and only if 37 bytes for each earlier GETACK cover the offset at which it registered; at offset 0 it always does |
| Convergence.HandshakeIsAligned | app/replication/MasterConnectionHandler.ts:58-106 | in every reachable state the unconsumed bytes are exactly whole remaining messages of the script, and the handshake step is the number of greetings consumed |
| Convergence.HandshakeNeverGoesBack | app/replication/MasterConnectionHandler.ts:58-81 | no step of any run lowers a replica handshake step |
| Convergence.AckSurvivesTheWire | app/replication/MasterConnectionHandler.ts:155-158 | an ACK printed by a replica is read by the master as the ACK of the same offset |
| Convergence.GetReplaysExactlyWhenNotExpired | app/commands/simpleCommands/GetCommand.ts:22-25 | replaying what a GET propagates matches its effect if and only if the key has not expired |
| Convergence.ExecPopReplaysExactlyWhenNothingPopped | app/commands/statefulCommands.ts/ExecCommand.ts:8 | an LPOP inside EXEC is reproduced on a replica if and only if it pops nothing |
| CatchingUp.EveryReplicaCatchesUp | app/Server.ts:166-168 | from every reachable state, letting pending propagations go out and then serving one replica for four rounds registers it with every command consumed; if it was intact it equals the master, if it was unregistered it does exactly when its store did before |
| SaneSystems.ReachableStoresAreSane | app/store/RedisStore.ts:10-38 | in every reachable state, from any dump files, the stores of the master and of all replicas are sane |
| SaneSystems.ReachableStoreSavesAndLoads | app/persistence/RDBWriter.ts:11-81 | what a reachable master or replica saves at t1, a server that starts at t2, not before t1, holds: exactly the strings alive at t2, with value, expiry and order |
| SaneSystems.SeededReplicaConvergesExactly | app/Server.ts:63-71 | a replica started from the file the master has just saved catches up to equality if and only if every key of the master is a string alive at its start |
| ReplicationManagers.DistinctOccursOnce | app/replication/ReplicationManager.ts:20-28 | a connection is written to if and only if it is listed, and once only if no connection is listed twice |
| ReplicationManagers.ReplicationManager.Propagate | app/replication/ReplicationManager.ts:20-28 | each writable replica gets the command once for each time it is listed, and the offset grows once by its size, unless there are no replicas |
| ReplicationManagers.ReplicationManager.RequestAcks | app/replication/ReplicationManager.ts:31-35 | each replica gets GETACK and the offset stays |
| ReplicationManagers.ReplicationManager.Psync | app/commands/replicationCommands/PsyncCommand.ts:9-29 | PSYNC writes the resync line and the length-prefixed RDB and appends the connection |
| ReplicationManagers.ReplicationManager.ReceiveAck | app/replication/ReplicationManager.ts:38-41 | the emitter loop: every listener hears the offset, those that have enough answer and leave |
| ReplicationManagers.ReplicationManager.WaitForAcks | app/commands/orchestrationCommands/WaitCommand.ts:16-40 | WAIT answers at once or sends GETACKs and registers a listener with the offset of now |
| ReplicationManagers.ReplicationManager.WaitTimeout | app/commands/orchestrationCommands/WaitCommand.ts:42-47 | the timer of a running WAIT takes its listener away and answers what it has counted |
| ReplicationManagers.SystemAnswers | app/commands/orchestrationCommands/WaitCommand.ts:29-40 | the listeners that an ACK lets answer are those of the system, in the same order |
| ReplicationManagers.SystemListens | app/commands/orchestrationCommands/WaitCommand.ts:29-40 | the listeners of the object are those of the system, whoever sends the ACK |
| BlockingQueue.BlockingListIsAQueue | app/services/BlockingManager.ts:17-110 | over every interleaving of RPUSH, LPOP, BLPOP and timeouts, delivered elements followed by the current list are exactly the pushed elements, in order |
| BlockingQueue.BlockingListIsABag | app/services/BlockingManager.ts:17-110 | with LPUSH added nothing is lost or duplicated |
| BlockingQueue.ServingKeepsTheLawExactly | app/services/BlockingManager.ts:77-87 | serving a waiter keeps the law if and only if the head of the list is not the empty string |
| Waiters.RemoveWaiterIsOthers | app/services/BlockingManager.ts:113-123 | removeWaiter leaves exactly the other connections of each queue, in order |
| Waiters.WaitersAreInRightQueues | app/services/BlockingManager.ts:30-60 | in every run without double waits, an unresolved waiter is in a queue exactly as often as it listed the key, nobody else is queued, and no waiter is resolved twice |
| Waiters.PushServesHead | app/services/BlockingManager.ts:63-75 | the head of the queue gets the head of the list, other waiters keep their order, the list loses one element |
| Waiters.PushLengthensByOneLess | app/commands/simpleCommands/RPushCommand.ts:33-40 | an RPUSH of n elements on a key with a waiter lengthens the list by n-1 |
| Waiters.NoLostWakeUp | app/services/BlockingManager.ts:17-75 | if all pushes have one element, no reachable state has a waiter on a non-empty list |
| Waiters.LongPushLeavesAWaiterIdle | app/services/BlockingManager.ts:63-75 | with a second waiter, a push leaves it beside a non-empty list if and only if it has more than one element |
| WaiterExactness.RemoveWaiterDrops | app/services/BlockingManager.ts:113-123 | removeWaiter takes out of each queue the first entries of the connection, one for each listing |
| WaiterExactness.SettlingKeepsRightExactly | app/services/BlockingManager.ts:51-55 | settling a waiter leaves the queues right if and only if the entries taken out are its own |
| WaiterExactness.QueuesStayRightExactly | app/services/BlockingManager.ts:17-123 | over whole runs: the queues are right in all states if and only if every service and timeout takes out only own entries |
| WaiterExactness.SharedConnectionLosesAWaiter | app/services/BlockingManager.ts:117 | a run with two waits of one connection after which one of them is unresolved and in no queue |
| BlockingManagers.BlockingManager.TryLPop | app/services/BlockingManager.ts:90-110 | the shared store loses the head of the list |
| BlockingManagers.BlockingManager.PopAndPropagate | app/services/BlockingManager.ts:77-87 | a truthy element is propagated as LPOP |
| BlockingManagers.BlockingManager.RemoveWaiter | app/services/BlockingManager.ts:113-123 | the loop over the keys computes the removal |
| BlockingManagers.BlockingManager.Resolve | app/services/BlockingManager.ts:51-55 | resolving cleans the queues and answers once |
| BlockingManagers.BlockingManager.PopFirstOf | app/services/BlockingManager.ts:22-28 | the loop of immediate attempts |
| BlockingManagers.BlockingManager.BlockOnLists | app/services/BlockingManager.ts:17-60 | BLPOP pops at once or joins every queue it listed |
| BlockingManagers.BlockingManager.NotifyListPush | app/services/BlockingManager.ts:63-75 | the shift, pop and resolve-or-unshift has exactly the effect of the desk step |
| BlockingManagers.BlockingManager.OnTimeout | app/services/BlockingManager.ts:44-47 | a timeout removes the waiter and answers nil |
| BlockingManagers.BlockingManager.RPushCommand | app/commands/simpleCommands/RPushCommand.ts:11-43 | append, store, notify, and reply with the length before the notification |
| BlockingManagers.BlockingManager.LPushCommand | app/commands/simpleCommands/LPushCommand.ts:11-51 | reversed prepend, store, notify, and reply with the length before the notification |
| Rdb.LengthAt | app/persistence/RDBParser.ts:114-152 | a length read stays inside the buffer and advances unless it announces a special format |
| Rdb.StringAt | app/persistence/RDBParser.ts:154-189 | a string read fails or strictly advances inside the buffer |
| Rdb.PairAt | app/persistence/RDBParser.ts:73-112 | a key-value read fails or strictly advances inside the buffer |
| Rdb.Parse | app/persistence/RDBParser.ts:11-71 | on any buffer parsing fails or ends with the cursor between 9 and the end, once the header is there |
| RdbRoundTrip.LengthDecoderInverts | app/persistence/RDBParser.ts:114-152 | the decoder inverts the 6-, 14- and 32-bit length encodings and advances by exactly 1, 2 and 5 bytes |
| RdbRoundTrip.IntegersInvert | app/persistence/RDBParser.ts:156-175 | the special formats read back every 8-, 16- and 32-bit integer as its decimal text |
| RdbRoundTrip.SecondsExpiryReads | app/persistence/RDBParser.ts:78-85 | a 4-byte expiry in seconds is read as milliseconds times 1000 |
| RdbRoundTrip.SaveThenLoad | app/persistence/RDBWriter.ts:11-81 | built at t1 and parsed into an empty store at t2, not before t1, gives exactly the strings still alive at t2 with value, expiry and order |
| RdbRoundTrip.BuildSucceedsExactly | app/persistence/RDBWriter.ts:68-74 | building succeeds if and only if there are fewer than 64 keys and every entry to write has a key and value under 64 bytes and a real date |
| RdbFiles.FileLoads | app/persistence/RDBParser.ts:11-112 | from any file of metadata fields and databases, however its strings and expiries are written, exactly the living pairs are loaded, in order, and the parser ends at the end marker |
| RdbFiles.MetadataIsSkipped | app/persistence/RDBParser.ts:42-47 | metadata fields, wherever they stand, change nothing of what is loaded |
| RdbFiles.OtherTypesStop | app/persistence/RDBParser.ts:96-98 | an entry of another type stops the parser, and what was loaded before stays |
| RdbFiles.OtherSectionsStop | app/persistence/RDBParser.ts:28-30 | so does an unknown section |
| RdbFiles.OtherFilesLoadNothing | app/persistence/RDBParser.ts:34-40 | a file without the magic word loads nothing |
| RdbFiles.SavedFile | app/persistence/RDBWriter.ts:11-81 | byte for byte: SAVE writes version 11, one database with number 0 and a hint of all keys, the strings alive, and eight zero bytes |
| RdbFiles.LowestByteFirst | app/persistence/RDBWriter.ts:47-48 | expiries are written with the lowest byte first |
| RdbObjects.RDBParser.ParseLengthEncoded | app/persistence/RDBParser.ts:114-152 | the cursor method reads what the length function reads |
| RdbObjects.RDBParser.ParseStringEncoded | app/persistence/RDBParser.ts:154-189 | the cursor method reads what the string function reads |
| RdbObjects.RDBParser.ParseKeyValuePair | app/persistence/RDBParser.ts:73-112 | one entry is loaded into the shared store unless it has expired |
| RdbObjects.RDBParser.ParseDatabaseSelector | app/persistence/RDBParser.ts:49-71 | the loop over the entries; entries loaded before an exception stay |
| RdbObjects.RDBParser.ParseAuxiliaryField | app/persistence/RDBParser.ts:42-47 | two strings are skipped |
| RdbObjects.RDBParser.Parse | app/persistence/RDBParser.ts:11-32 | the section loop has the outcome, store and cursor of the parse function |
| RdbObjects.RDBWriter.WriteString | app/persistence/RDBWriter.ts:62-66 | a length byte and the text are appended, or an exception |
| RdbObjects.RDBWriter.WritePair | app/persistence/RDBWriter.ts:43-57 | expiry, type, key and value are appended, or an exception |
| RdbObjects.RDBWriter.WritePairs | app/persistence/RDBWriter.ts:36-59 | the loop writes every live string entry in insertion order |
| RdbObjects.RDBWriter.BuildRDB | app/persistence/RDBWriter.ts:11-81 | the concatenated chunks are the RDB file of the store |
| StreamOrder.StringOrderIsNumericExactly | app/utilities.ts:20-25 | comparing two canonical numbers as strings is right if and only if the widths agree or the shorter one compares that way with the leading digits of the longer one |
| StreamOrder.DecidesNumericallyExactly | app/utilities.ts:8-28 | XADD accepts exactly what lies numerically above the top ID if and only if the widths it compares agree |
| StreamOrder.AcceptsOnlyAbove | app/utilities.ts:8-28 | what XADD stores for a comparable request is a canonical ID above the top one, with the milliseconds asked for |
| StreamOrder.WidthsMatter | app/utilities.ts:20-25 | IDs of different widths that are wrongly refused and wrongly accepted |
| StreamOrder.AddKeepsIncreasingExactly | app/utilities.ts:8-28 | one canonical XADD to a stream keeps the IDs increasing if and only if the digits it compares agree in width, or do not cross, or the request lies numerically above the top; an ID with leading zeros only if the string comparison refuses it; a malformed request always |
| StreamOrder.IdsStrictlyIncreaseExactly | app/commands/streamCommands/XaddCommand.ts:12-55 | over every run of XADDs the IDs strictly increase as pairs of numbers if and only if every request meets that condition on the stream of its moment |
| StreamOrder.AgreeingWidthsIncrease | app/commands/streamCommands/XaddCommand.ts:12-55 | over every run of canonical requests whose widths agree with the top ID of their moment, accepted or not, the IDs strictly increase |
| StreamOrder.ServerIdsIncrease | app/utilities.ts:8-28 | over every run of XADDs with * the IDs strictly increase while the clock keeps its number of digits, even if it goes back |
| StreamRanges.InRangeIsNumeric | app/utilities.ts:79-102 | on canonical IDs the filter is: not below the start and not above the end, or strictly above the start when there is no end |
| StreamRanges.RangeIsContiguous | app/utilities.ts:79-102 | a range is one contiguous slice that holds all the entries within the bounds and no other |
| StreamRanges.FullRangeExactly | app/utilities.ts:85-86 | "- +" is the whole stream if and only if its top ID is not above the sentinel |
| StreamRanges.XRevRangeMirrorsXRange | app/commands/streamCommands/XrevrangeCommand.ts:16-48 | XREVRANGE with COUNT n is the reverse of the last n entries that XRANGE gives |
| StreamRanges.EndsOfStreams | app/utilities.ts:83-94 | a start of - takes everything up to the bound, an end of + everything from the bound to a fixed ID; the other way round nothing |
| StreamRanges.HalfIdsExclude | app/utilities.ts:81-94 | a bound without a sequence number excludes every entry of its own millisecond |
| StreamRanges.RangesAreRefusedExactly | app/commands/streamCommands/XrevrangeCommand.ts:13-32 | XREVRANGE is refused if and only if arguments are missing or what follows is not COUNT, in any case, with a number not negative |
| StreamReads.PollCompletes | app/commands/streamCommands/XreadCommand.ts:44-62 | one read makes a client complete, wherever its ID lies |
| StreamReads.FollowerReceivesExactlyOnce | app/commands/streamCommands/XreadCommand.ts:44-62 | a client that reads from its last ID, interleaved with XADDs to other streams and harmless ones to this, receives every entry beyond its first ID once and in order, even if that ID is ahead of the stream |
| StreamReads.BlockedReadersMissNothing | app/commands/streamCommands/XreadCommand.ts:77-119 | in every reachable state a registered listener has no entry after any of its IDs |
| StreamReads.FirstNewEntryResolves | app/commands/streamCommands/XaddCommand.ts:42-53 | an XADD resolves exactly the listeners its entry concerns, each with exactly that entry for each listing, and leaves the others registered |
| StreamReads.DollarWaits | app/commands/streamCommands/XreadCommand.ts:77-95 | XREAD BLOCK with $ on increasing streams never answers from what is stored: it registers |
| StreamReads.DollarGetsTheNextEntry | app/commands/streamCommands/XreadCommand.ts:77-110 | the first XADD that then puts an entry above the last ID of a listed stream answers it with exactly that entry, once for each listing |
| StreamReads.BlockListens | app/commands/streamCommands/XreadCommand.ts:77-110 | what a blocking read waits from, without the resolution of the code: explicit IDs as they are, $ from the last ID or 0-0 |
| StreamReads.ReadsInOrder | app/commands/streamCommands/XreadCommand.ts:44-62 | a read answers, in the order of the listing, each listed stream that has news with its entries beyond the ID |
| StreamReads.TimedOutIsGone | app/commands/streamCommands/XreadCommand.ts:112-117 | a reader that has timed out is never answered, and the others wait on |
| XreadCommands.StreamReaders.ProcessXRead | app/commands/streamCommands/XreadCommand.ts:44-62 | the loop collects each stream with news, in order |
| XreadCommands.StreamReaders.Block | app/commands/streamCommands/XreadCommand.ts:77-119 | XREAD BLOCK answers at once or registers with the IDs resolved now |
| XreadCommands.StreamReaders.NotifyNewEntry | app/commands/streamCommands/XreadCommand.ts:98-108 | every registered listener looks again; those with news answer and leave |
| XreadCommands.StreamReaders.XAddCommand | app/commands/streamCommands/XaddCommand.ts:12-55 | XADD stores first and notifies only when it added an entry |

## Left out

- Sockets, files, process arguments, configuration and logging: a connection is a byte sequence or an output log, SAVE
  is the bytes it would write.
- UTF-8 decoding and JavaScript number rounding: bytes are characters, integers are unbounded, `Number` is modelled on
  digits.
- JSON text of lists and streams: the store has one constructor per type; GET of a list or stream, and the replies of
  ECHO, INFO, CONFIG, TYPE, KEYS, EXISTS, LLEN, LRANGE, SAVE, XRANGE, XREVRANGE, XREAD and PUBLISH inside the dispatcher, are
  the parameter `Env.answer`.
- Delivery of published messages: only the subscribed set of a connection is modelled.
- The client loop at app/Server.ts:97-120: it awaits before it slices its buffer and can dispatch a command twice; a client
  step of the system takes one buffer and dispatches its first command, and any client may send any bytes again.
- XREAD argument parsing and the RESP text of entries; XRANGE and XREAD on a key of another type are taken as no stream,
  while the source would read the JSON of a list as entries.
- Order of microtasks: the system lets anything happen between running a command and propagating it, which is more than the event
  loop does; only the order of propagations behind an await is kept. Whether the connection is in a transaction is read when the command
  runs, while app/SOLIDDispatcher.ts:128 reads it after the await.
- Clients of replicas: a GET of an expired key, a write or a BLPOP sent to a replica would change its store; replicas only follow
  their master here. Replicas of replicas are left out as well.
- SOLIDDispatchers.SOLIDDispatcher.ExecCommand: runs the whole queue in one call; a queued BLPOP that finds nothing is taken to time
  out, where the source waits. The system models the waiting (`Scripts`, `Replication.ExecStep`).
- SOLIDDispatchers.SOLIDDispatcher.RunQueued: the same holds for one queued command.
- SOLIDDispatchers.SOLIDDispatcher.ExecuteSimple: XADD wakes no blocked reader, and XREAD with BLOCK answers at once; blocked readers
  are `StreamReads` and `XreadCommands`.
- Transactions.ExecIsSequential: leaves out queued XREADs with BLOCK, which can suspend EXEC.
- Transactions.TransactionIsSequential: leaves them out too.
- A client that sends PSYNC counts as a replica (`Replication.System.guests`), but the bytes it receives are not followed.
- Replica sockets that stop being writable are modelled in `ReplicationManagers` but not in the system.
- CommandMethods.XAddCommand: does not include the new-entry event, which `XreadCommands.StreamReaders.XAddCommand` adds to it;
  the dispatcher object has no stream readers.
- Convergence.ReplicasConverge: asks that every command was lossless (`Propagation.Lossless`, `Scripts.QueuedLossless`) and that no
  pop overtook a pending write on its own key. This is exact for handoffs, overtaken pushes, clocks, GET and LPOP taken
  one by one (`Handoffs`, `Clocks`, `Propagation.UnseenExactly`) but only sufficient together, where two losses may cancel out.
- LosslessRuns.LosslessRunConverges: asks the same of every step, and exactly then the replica counts as intact
  (`LosslessRuns.IntactExactly`).
- UndisturbedWaits.UndisturbedWaitIsSound: leaves out runs on which another WAIT or a client's own ACK comes in between, and starts
  while an ACK that reaches the offset is under way, because the source then counts too much (`WaitRuns`).
- ReplyLaws.XAddChooses: speaks of keys without a stream and of streams with entries; on a stored stream without entries, which no
  command leaves behind, the source would throw.
- WaitSoundness.WaitRepliesAreSound: says nothing about a WAIT after another one has asked or a client's own ACK was counted,
  because the source then counts too much, as the runs in `WaitRuns` show.
- Chunking.ChunkingDoesNotMatter: for orderly streams only; negative lengths and bad RDB headers are excluded, with the
  exact conditions above.
- StreamReads.FollowerReceivesExactlyOnce: asks that no XADD to the stream is harmful (`StreamOrder.Harmless`), because out of order
  entries can lie before an ID the client has seen.
- Waiters.WaitersAreInRightQueues: asks that no connection waits twice at once; without that the exact condition is
  `WaiterExactness.QueuesStayRightExactly`.
