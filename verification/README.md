# Tycho client and indexer: a verified model

This project models five parts of the Tycho indexer and its client and proves what they promise, or
exactly where a promise fails.

- **The websocket subscription protocol.** Everything the client does under its lock is one atomic step
  of a state machine (`Subscriptions`). One-shot replies are tokens, message channels carry their whole
  history, and a run is any sequence of user calls, server messages, consumer reads, lost connections
  and reconnects. `SubscriptionInvariant` proves an invariant of every step, `SubscriptionTheorems`
  draws the conclusions, and `SubscriptionEffects` says what the actions bring about. `DeltasClient` is the
  client as an object whose tables change in place, proved against the state machine. `Connection` is the
  connect task, as program counters and as the two nested loops; `Wakeup` interleaves it with callers of
  `ensure_connection`, `connect` and `close`.
- **Rounding a 256-bit integer to binary64** (`U256ToF64`, over `Powers` and `ByteCodec`), against an
  independent definition of roundTiesToEven (section 4.3.1 of IEEE 754-2019) and of the encoding
  (section 3.4).
- **The delta algebra.** What merging, filtering and applying block messages mean (`DeltaAlgebra`), place by
  place (`MessageMeaning`), the messages as objects that change in place (`BlockMessages`), decoding of
  entity changes (`EntityDecoding`), the indexer's own deltas beside those of the wire (`ModelDeltas`), and the client's
  feed, which applies and merges what came off the wire in its own model (`Feed`), and whose messages also
  carry snapshots and removals (`FeedMessages`).
- **Pagination.** The server that joins stored and buffered records page by page (`Paging`) and the
  client that puts pages and chunks of ids together (`PaginatedFetch`).
- **Codecs and an index.** Byte strings as numbers (`ByteCodec`) and as text (`HexText`), the metadata
  header (`ClientMetadata`), and the integration runner's cache and its choice of what to simulate
  (`ComponentIndex`).

Where the code does less than one would expect of it, the model follows the code, and a lemma says exactly
when it does less:

- The sticky mask of `bytes_to_f64` is one bit short, so it is not nearest-even as its documentation says,
  and not even monotone. `U256ToF64.CodeRoundsTiesToEvenIff` and `U256ToF64.CodeKeepsOrderIff` name the
  inputs; `U256ToF64.FullMaskRoundsTiesToEven` and `U256ToF64.FullMaskKeepsOrder` show that one more bit in
  the mask repairs both.
- `ensure_connection` can sleep beside a dead client (`Wakeup.DeadWakeupLostIff`), and after a task that
  ended with retries left it sleeps until somebody closes the client or connects again
  (`Wakeup.CallersAfterTheEndIff`). `connect` can sleep beside its own connection
  (`Wakeup.ConnectCallerSleepsIff`) and through a request that could not be built
  (`Wakeup.ConnectCallerLeftAsleepIff`). A client that was dead once turns callers of `ensure_connection`
  away for ever, even when it is connected again (`Wakeup.DeadClientRefuses`).
- A forced unsubscribe waits for an answer that needs the lock it keeps, so it always waits out its
  timeout (`SubscriptionTheorems.WaitStartsIff`, `SubscriptionTheorems.ForcedEndWaitsOutItsTimeout`).
- The account merges of the wire and of the model differ in the kind of change
  (`ModelDeltas.WireAccountCommutesIff`).
- Id-chunked requests that send the number of the chunk as the page lose every chunk but the first
  (`PaginatedFetch.IndexedChunksBringFirstOnly`). With a concurrency of 0 neither the page loop ends, if
  there is more than one page, nor the wait for a permit, if there is any chunk
  (`PaginatedFetch.LoopEndsIff`).
- A message merged from several of the feed applies older deltas to newer snapshots
  (`FeedMessages.MergeFusesIff`).
- A decoded entity delta forgets the order of its changes (`EntityDecoding.DecodingKeepsOrderIff`).

`dafny verify dfyconfig.toml` checks the whole project.

## Model

| member | source | states |
|---|---|---|
| SubscriptionInvariant.StepKeeps | crates/tycho-client/src/deltas.rs:258-396 | every atomic step, whoever takes it, keeps the tables, the one-shots and the history of every channel consistent |
| SubscriptionInvariant.ReachedOk | crates/tycho-client/src/deltas.rs:226-396 | the invariant holds after every sequence of actions of a fresh client |
| SubscriptionInvariant.HandleKeeps | crates/tycho-client/src/deltas.rs:564-739 | handling any server message keeps the invariant |
| SubscriptionTheorems.ReceivedIsAddressed | crates/tycho-client/src/deltas.rs:741-762 | in every run the history of a channel is exactly the messages that the run's actions addressed to it |
| SubscriptionTheorems.ActiveIsGapFree | crates/tycho-client/src/deltas.rs:274-320 | in every run, while a subscription is active, consumed plus buffered messages are exactly those the run addressed to it since its activation |
| SubscriptionTheorems.DeliveryIsSubsequence | crates/tycho-client/src/deltas.rs:308-338 | in every run what a consumer gets of an activation is an in-order, duplicate-free part of what the run addressed to it, and the buffer stays within its size |
| SubscriptionTheorems.GapFreeIff | crates/tycho-client/src/deltas.rs:741-762 | an activation misses one of the messages addressed to it if and only if, at some step of the run, one came while its receiver was gone or its buffer full |
| SubscriptionTheorems.GapAfterRefusal | crates/tycho-client/src/deltas.rs:741-791 | a run of eight steps in which 10 and 12 reach the consumer and 11 does not |
| SubscriptionTheorems.NoInternalFatal | crates/tycho-client/src/deltas.rs:274-396 | in every reachable state subscriptions and senders have the same keys, pending holds only requested subscriptions and subscriptions never does; the internal-inconsistency error comes from an unknown socket failure alone |
| SubscriptionTheorems.MessageEndsTaskIff | crates/tycho-client/src/deltas.rs:996-1018 | in every reached, connected state a message ends the connect task if and only if it is the server's parse or compression error or an unknown socket failure, makes it reconnect if and only if the connection is gone, and otherwise leaves it where it is |
| SubscriptionTheorems.AtMostOneForcedEnd | crates/tycho-client/src/deltas.rs:768-791 | the client itself asks for the end of an activation at most once |
| SubscriptionTheorems.WaitStartsIff | crates/tycho-client/src/deltas.rs:741-791 | in every run the handler starts to wait if and only if it handles a message for an active subscription whose receiver is gone or whose buffer is full, and the command to end it leaves |
| SubscriptionTheorems.ForcedEndWaitsOutItsTimeout | crates/tycho-client/src/deltas.rs:768-816 | once a forced unsubscribe waits, nothing but its timeout ends the wait: the answer never comes and the tables stand still |
| SubscriptionTheorems.TokensAreLinear | crates/tycho-client/src/deltas.rs:213-240 | in every run a one-shot is either answered or held in one place of the current connection, never both and never neither |
| SubscriptionTheorems.AnswersStay | crates/tycho-client/src/deltas.rs:258-396 | an answer that was given is never given again, changed or taken back |
| SubscriptionTheorems.AnswersHaveCauses | crates/tycho-client/src/deltas.rs:585-635 | a subscriber learns of success only from the confirmation of its own extractor while pending on the same connection, an unsubscriber only from the end of its own subscription, a refused one only from an error for its extractor |
| SubscriptionTheorems.OneUnsubscriberPerActivation | crates/tycho-client/src/deltas.rs:346-377 | at most one unsubscriber is told that a given activation ended |
| SubscriptionEffects.CausesBringAnswers | crates/tycho-client/src/deltas.rs:585-635 | in every run whoever is to be told something by a message is told exactly that |
| SubscriptionEffects.EndedIsGone | crates/tycho-client/src/deltas.rs:346-377 | the end of a subscription takes it, and nothing else, out of both tables |
| SubscriptionEffects.SubscriberIsTold | crates/tycho-client/src/deltas.rs:822-866 | a subscriber that keeps listening is told of the confirmation whenever it comes, whatever happens in between short of another answer or a lost connection, and then has an active subscription with an open, empty channel of its own |
| SubscriptionEffects.SubscriberIsRefused | crates/tycho-client/src/deltas.rs:379-396 | the same subscriber is told of a refusal, and its place is free again |
| SubscriptionEffects.UnsubscriberIsTold | crates/tycho-client/src/deltas.rs:869-893 | the unsubscriber of an active subscription that keeps listening is told of its end whenever it comes |
| SubscriptionEffects.UnheardIsNeverTold | crates/tycho-client/src/deltas.rs:258-396 | whoever gave up, waited too long or whose command did not leave is told nothing in any continuation |
| SubscriptionEffects.LatecomersAreDropped | crates/tycho-client/src/deltas.rs:258-269 | a second subscriber for one extractor, and an unsubscriber of what is not active, are dropped at once and change no table |
| SubscriptionEffects.RequestsTakeTheirPlace | crates/tycho-client/src/deltas.rs:326-338 | a subscriber becomes pending and an active subscription starts to end, whether or not the command leaves |
| SubscriptionEffects.ConnectionLossDropsAll | crates/tycho-client/src/deltas.rs:955-960 | losing or replacing the connection empties the tables and drops exactly the requests that were not answered |
| SubscriptionEffects.ConsumerGetsItsBuffer | crates/tycho-client/src/deltas.rs:308-320 | a consumer that reads on gets what is buffered for it, in order and to the last message |
| SubscriptionEffects.DroppedReceiverGetsNothing | crates/tycho-client/src/deltas.rs:308-320 | a receiver that was dropped gets nothing more in any continuation |
| SubscriptionEffects.OpenMeansTold | crates/tycho-client/src/deltas.rs:274-305 | in every run a channel with a receiver is one whose subscriber was told of it |
| SubscriptionEffects.RefusedWithoutConnectionIff | crates/tycho-client/src/deltas.rs:564-739 | in every reached state, which message leads to which error |
| DeltasClient.WsDeltasClient.Subscribe | crates/tycho-client/src/deltas.rs:822-866 | the object changes exactly as the protocol's subscribe step says, and the invariant survives |
| DeltasClient.WsDeltasClient.Unsubscribe | crates/tycho-client/src/deltas.rs:869-893 | the object changes exactly as the protocol's unsubscribe step says, and the invariant survives |
| DeltasClient.WsDeltasClient.MarkActive | crates/tycho-client/src/deltas.rs:274-305 | moving a pending entry to the active ones in place is the protocol's activation, including what an overwritten entry drops |
| DeltasClient.WsDeltasClient.Send | crates/tycho-client/src/deltas.rs:308-320 | one non-blocking send: sent, buffer full or receiver gone, and nothing but that channel changes |
| DeltasClient.WsDeltasClient.EndSubscription | crates/tycho-client/src/deltas.rs:326-338 | only an active subscription starts to end; any other request's one-shot is dropped |
| DeltasClient.WsDeltasClient.RemoveSubscription | crates/tycho-client/src/deltas.rs:346-377 | removes both halves and answers the unsubscriber; reports tables that drifted apart |
| DeltasClient.WsDeltasClient.CancelPending | crates/tycho-client/src/deltas.rs:379-396 | removes a pending entry and tells its subscriber of the error |
| DeltasClient.WsDeltasClient.ForceUnsubscribe | crates/tycho-client/src/deltas.rs:768-791 | does nothing for a subscription that is ending already; otherwise ends it and waits |
| DeltasClient.WsDeltasClient.HandleBlockChanges | crates/tycho-client/src/deltas.rs:741-762 | offers a message to its channel and ends the subscription if it is turned away |
| DeltasClient.WsDeltasClient.HandleMsg | crates/tycho-client/src/deltas.rs:564-739 | every kind of message leads to the protocol's next state and result, and the protocol's invariant survives |
| DeltasClient.WsDeltasClient.Connect | crates/tycho-client/src/deltas.rs:955-960 | empty tables for the new connection; every one-shot of the old one is dropped |
| DeltasClient.WsDeltasClient.Disconnect | crates/tycho-client/src/deltas.rs:1000-1004 | the tables go, and with them every one-shot they held |
| DeltasClient.WsDeltasClient.TimeOut | crates/tycho-client/src/deltas.rs:768-791 | the handler goes on without its answer |
| DeltasClient.WsDeltasClient.PerformAll | crates/tycho-client/src/deltas.rs:226-396 | driven by any sequence of actions, from any valid state, the object goes where the protocol's run goes and stays valid |
| DeltasClient.Reach | crates/tycho-client/src/deltas.rs:226-396 | every state the protocol can reach is that of an object driven there, so the theorems about runs are about the object |
| Connection.TaskRunBounds | crates/tycho-client/src/deltas.rs:909-1040 | over any life of the task it makes at most max attempts, leaves no connection behind, and is dead with ConnectionClosed exactly when its retries are used up |
| Connection.ReceiveMessages | crates/tycho-client/src/deltas.rs:967-1015 | the loop over messages is left at the first deciding event of the script: rebuilt after silence or a lost connection, over after the end of the stream, a close or a fatal message, and still open if there is none |
| Connection.Attempts | crates/tycho-client/src/deltas.rs:909-1040 | the outer loop refines the task's program counters on every script of events |
| Connection.TaskRunIsPhase | crates/tycho-client/src/deltas.rs:909-1040 | after every script the task is connected, trying or over, with the retries and the result that counting the deciding events gives |
| Connection.ConnectTask | crates/tycho-client/src/deltas.rs:909-1040 | the task as written: where the phases of its script say, at most max attempts, no connection left when it is over, dead exactly when retries ran out |
| Wakeup.AfterOk | crates/tycho-client/src/deltas.rs:533-557 | the invariant of task, waiters and closers holds in every interleaving, over any number of tasks one after the other |
| Wakeup.TaskBoundsInEveryInterleaving | crates/tycho-client/src/deltas.rs:909-1040 | every task's bounds hold whatever waiters and closers do; at each iteration head nothing is connected and every attempt was counted as a retry |
| Wakeup.NoLostConnectWakeup | crates/tycho-client/src/deltas.rs:533-557 | a waiter sleeps beside a live connection only while the task stands between installing and announcing it, and the next step wakes it |
| Wakeup.CallsWakeEverybody | crates/tycho-client/src/deltas.rs:955-965 | an announcement, the end of the client and a close are the calls, and after one nobody sleeps |
| Wakeup.EveryCallerGetsItsConnection | crates/tycho-client/src/deltas.rs:533-557 | in every run, beside an announced connection of a client not dead, everybody in ensure_connection returns with it after at most four own steps as long as it lives |
| Wakeup.CalledByDeathReturns | crates/tycho-client/src/deltas.rs:539-541 | a parked caller that is called because the client died is told so |
| Wakeup.CalledConnectCallerReturns | crates/tycho-client/src/deltas.rs:1042-1048 | a caller of connect that was called returns whether there is a connection |
| Wakeup.LockedOut | crates/tycho-client/src/deltas.rs:1022-1038 | nobody looks at the connection while the task cleans up |
| Wakeup.DeadWakeupLostIff | crates/tycho-client/src/deltas.rs:539-553 | a waiter that nobody is about to wake sleeps beside a dead client if and only if the client was dead when it took its ticket |
| Wakeup.SleepsOn | crates/tycho-client/src/deltas.rs:533-557 | once the task is over such a waiter sleeps through every later run in which nobody closes the client or connects again |
| Wakeup.NewConnectionWakes | crates/tycho-client/src/deltas.rs:955-965 | a new task's first connection wakes everybody who slept through the end of the old one |
| Wakeup.DeadIff | crates/tycho-client/src/deltas.rs:1022-1069 | in every run the client is dead if and only if somebody closed it or some task used up its retries |
| Wakeup.CallersAfterTheEndIff | crates/tycho-client/src/deltas.rs:533-557 | whoever calls ensure_connection after the end of a task sleeps, after four steps and in every continuation without a close or a new connect, if and only if nobody closed the client and no task used up its retries (with one task: if and only if it had retries left), and is told NotConnected otherwise |
| Wakeup.DeadClientRefuses | crates/tycho-client/src/deltas.rs:539-541 | in every continuation of a dead client, whoever starts ensure_connection is told NotConnected with its first step |
| Wakeup.RefusedBesideItsConnection | crates/tycho-client/src/deltas.rs:539-541 | a concrete run in which that happens beside a live second connection |
| Wakeup.QuietEndStrandsCaller | crates/tycho-client/src/deltas.rs:919-924 | a concrete run: the request cannot be built, and a later caller of ensure_connection sleeps beside a client that is not dead |
| Wakeup.BadRequestStrandsConnect | crates/tycho-client/src/deltas.rs:919-924 | a concrete run: the same end leaves the caller of connect asleep |
| Wakeup.DeadWakeupLost | crates/tycho-client/src/deltas.rs:539-553 | a concrete run that ends with such a waiter |
| Wakeup.ConnectCallerSleepsOnlyIfLate | crates/tycho-client/src/deltas.rs:1042-1048 | in every run the caller of connect sleeps beside an announced connection only if one was announced before the caller took its ticket |
| Wakeup.ConnectCallerSleepsIff | crates/tycho-client/src/deltas.rs:1042-1048 | a caller of connect that takes its ticket beside a live connection sleeps through every run in which the connection lives if and only if it was announced before |
| Wakeup.ConnectCallerLeftAsleepIff | crates/tycho-client/src/deltas.rs:909-1048 | in every run without a close, the end of a task leaves a caller of connect that was parked from the start asleep if and only if no connection was announced and no task used up its retries; then the request could not be built |
| Wakeup.ConnectCallerCanSleepThroughItsConnection | crates/tycho-client/src/deltas.rs:1042-1048 | a concrete run in which it does |
| U256ToF64.CodeRoundsTiesToEvenIff | crates/tycho-protobuf/src/u256_num.rs:49-96 | for every natural number the code's rounding is roundTiesToEven if and only if it is not the case that at least two bits are dropped, they are exactly three quarters of a step, and the kept significand is even |
| U256ToF64.FullMaskRoundsTiesToEven | crates/tycho-protobuf/src/u256_num.rs:15-31 | with a sticky mask up to the round bit the rounding is roundTiesToEven for every number |
| U256ToF64.CodeError | crates/tycho-protobuf/src/u256_num.rs:49-96 | exact on 53 bits; off by at most three quarters of a step always, by at most half a step outside the misrounded family |
| U256ToF64.MisroundedNumber | crates/tycho-protobuf/src/u256_num.rs:74-76 | 2^54 + 3 becomes 2^54 although 2^54 + 4 is nearest |
| U256ToF64.MisroundedGoesDown | crates/tycho-protobuf/src/u256_num.rs:74-96 | in the misrounded family the code arrives at the neighbour three quarters of a step below |
| U256ToF64.MisroundedInFigures | crates/tycho-protobuf/src/u256_num.rs:74-76 | 18014398509481987 becomes 18014398509481984 although 18014398509481988 is right |
| U256ToF64.CodeKeepsOrderIff | crates/tycho-protobuf/src/u256_num.rs:49-96 | of two numbers the smaller is rounded to the greater if and only if the greater is in the misrounded family and the smaller is less than a quarter of a step below it |
| U256ToF64.OrderReversed | crates/tycho-protobuf/src/u256_num.rs:74-76 | 2^55 + 5 is rounded to a greater number than 2^55 + 6 |
| U256ToF64.FullMaskKeepsOrder | crates/tycho-protobuf/src/u256_num.rs:15-31 | with a sticky mask up to the round bit the rounding is monotone |
| U256ToF64.OneIsEncoded | crates/tycho-protobuf/src/u256_num.rs:105-106 | 1 is encoded as 0x3ff0000000000000 |
| U256ToF64.ShiftOut | crates/tycho-protobuf/src/u256_num.rs:57-96 | the branches on round bit, sticky bits and last bit give the code's rounding, with 53 bits or the one 54-bit power of two |
| U256ToF64.Normalize | crates/tycho-protobuf/src/u256_num.rs:49-96 | shifting up or down gives significand and exponent of the rounded number, within the range of normal encodings |
| U256ToF64.Pack | crates/tycho-protobuf/src/u256_num.rs:98-106 | the carry step and the packing give a normal encoding of the rounded number |
| U256ToF64.BytesToF64 | crates/tycho-protobuf/src/u256_num.rs:38-108 | nothing for more than 32 bytes, zero for zero, and otherwise the bits of a positive, finite, normal number equal to the code's rounding |
| U256ToF64.EncodingUnique | crates/tycho-protobuf/src/u256_num.rs:98-106 | an integer has at most one such encoding |
| U256ToF64.LeadingZerosDoNotMatter | crates/tycho-protobuf/src/u256_num.rs:38-47 | any number of leading zero bytes leaves the encoding unchanged |
| U256ToF64.FitsU64 | crates/tycho-protobuf/src/u256_num.rs:49-96 | the conversions of the significand to 64 bits cannot fail |
| DeltaAlgebra.Fusion | crates/tycho-common/src/dto.rs:395-450 | applying the merge of any two block messages to any snapshot is applying one after the other, in attributes, slots, code, native, component and account balances and TVL, even where a delta names an attribute both set and deleted |
| DeltaAlgebra.FoldFusion | crates/tycho-common/src/dto.rs:395-450 | a snapshot to which the merge of any nonempty sequence of messages is applied ends up where one does to which each was applied |
| DeltaAlgebra.MergeAssociative | crates/tycho-common/src/dto.rs:395-450 | merging is associative as equality of whole messages, without any condition |
| DeltaAlgebra.GroupingDoesNotMatter | crates/tycho-common/src/dto.rs:395-450 | every way of putting brackets around a sequence of messages gives the message of the left fold |
| DeltaAlgebra.MergeDisjointIff | crates/tycho-common/src/dto.rs:799-822 | a merged delta names no attribute both set and deleted if and only if the newer one does not and speaks of every name on which the older one contradicts itself |
| DeltaAlgebra.FilterByComponentCommutes | crates/tycho-common/src/dto.rs:460-467 | filtering by component before or after merging is the same, for every predicate |
| DeltaAlgebra.ComponentFilterKeeps | crates/tycho-common/src/dto.rs:460-467 | a message filtered by component has an entry for a component if and only if the message has it and it is wanted, unchanged, and everything else is as it was |
| DeltaAlgebra.ComponentFilterMeans | crates/tycho-common/src/dto.rs:460-467 | a consumer of the filtered message sees of the wanted components what a consumer of the whole message sees, of the others no change, and of accounts everything |
| DeltaAlgebra.FilterByContractCommutes | crates/tycho-common/src/dto.rs:469-474 | so is filtering by contract |
| DeltaAlgebra.ContractFilterKeeps | crates/tycho-common/src/dto.rs:469-474 | a message filtered by contract has an entry for an account if and only if the message has it and it is wanted, unchanged, and everything else is as it was |
| DeltaAlgebra.ContractFilterMeans | crates/tycho-common/src/dto.rs:469-474 | the same for consumers, with accounts and components in each other's place |
| MessageMeaning.MergedWord | crates/tycho-common/src/dto.rs:395-450 | about every attribute, balance, slot, code and TVL a merged message says what the newer part says, or else what the older does |
| MessageMeaning.LastWordIsHeard | crates/tycho-client/src/feed/synchronizer.rs:889-940 | after any messages every place a consumer keeps holds what the last message that speaks of it says |
| MessageMeaning.MergeSaysLastWord | crates/tycho-common/src/dto.rs:395-450 | so it does after the one message merged from them |
| MessageMeaning.MergeReportsComponents | crates/tycho-common/src/dto.rs:442-445 | components that either message reports as new or deleted are reported so, as the newer has them |
| MessageMeaning.MergeAllHeads | crates/tycho-common/src/dto.rs:446-450 | of many merged messages block and revert flag are the last one's, and what merging leaves alone the first one's |
| MessageMeaning.CreationWins | crates/tycho-common/src/dto.rs:157-165 | many changes of an account merged are a creation if and only if one of them is, and otherwise of the kind of the last |
| BlockMessages.MergeEntries | crates/tycho-common/src/dto.rs:395-440 | the entry loop merges shared keys and takes over all others, in whatever order the entries come |
| BlockMessages.ProtocolStateDelta.Merge | crates/tycho-common/src/dto.rs:799-822 | the in-place merge of attributes is the algebra's |
| BlockMessages.AccountUpdateCell.Merge | crates/tycho-common/src/dto.rs:637-651 | the in-place merge of accounts is the algebra's |
| BlockMessages.BlockAggregatedChanges.Merge | crates/tycho-common/src/dto.rs:395-450 | the in-place merge of block messages is the algebra's |
| BlockMessages.RetainEntries | crates/tycho-common/src/dto.rs:460-474 | the loop keeps exactly the entries whose keys pass, in whatever order it looks at them |
| BlockMessages.BlockAggregatedChanges.FilterByComponent | crates/tycho-common/src/dto.rs:460-467 | three such loops are the algebra's filter by component and touch nothing else |
| BlockMessages.BlockAggregatedChanges.FilterByContract | crates/tycho-common/src/dto.rs:469-474 | two such loops are the algebra's filter by contract and touch nothing else |
| EntityDecoding.Decode | crates/tycho-protobuf/src/convert.rs:209-240 | fails exactly on an unspecified kind of change; otherwise collects what the changes say, for the component of the entity |
| EntityDecoding.CollectedNames | crates/tycho-protobuf/src/convert.rs:209-240 | which names a decoded delta sets, deletes and creates |
| EntityDecoding.CollectedFor | crates/tycho-protobuf/src/convert.rs:209-240 | a decoded delta is for the component of its entity |
| EntityDecoding.DecodedDisjointIff | crates/tycho-protobuf/src/convert.rs:209-240 | a decoded delta is free of contradictions if and only if the entity sets no name that it deletes |
| EntityDecoding.DecodingKeepsOrderIff | crates/tycho-protobuf/src/convert.rs:209-240 | applying a decoded delta is carrying out the changes in order if and only if every change that deletes a name is about a name whose last change deletes it |
| EntityDecoding.RebornNameIsLost | crates/tycho-protobuf/src/convert.rs:209-240 | deleting x and then setting it leaves no x |
| ModelDeltas.WireStateCommutes | crates/tycho-common/src/models/protocol.rs:199-222 | merging attribute deltas before or after the conversion to the wire is the same |
| ModelDeltas.WireAccountCommutesIff | crates/tycho-common/src/models/contract.rs:236-261 | the account merges agree in slots, balance and code, and altogether if and only if the first delta creates the account or both are of one kind |
| ModelDeltas.KindOfChangeDiffers | crates/tycho-common/src/models/contract.rs:236-261 | an update merged with a creation is an update in the model and a creation on the wire |
| ModelDeltas.WireRoundTrip | crates/tycho-common/src/models/contract.rs:358-373 | what came off the wire goes back onto it unchanged |
| ModelDeltas.CreatedAfterMerge | crates/tycho-common/src/models/protocol.rs:199-222 | a name counts as new after a merge if and only if the newer delta creates it or the older does and the newer does not delete it |
| ModelDeltas.MergedOnlyIfSame | crates/tycho-common/src/models/contract.rs:236-261 | deltas are merged if and only if they are for one component or account |
| ModelDeltas.ClearedSlotsFuseIff | crates/tycho-common/src/models/contract.rs:66-91 | a merged account delta does what its parts do in order; for a reader that passes over cleared slots, if and only if the newer part clears no slot to which the older one writes something new |
| ModelDeltas.ClearedSlotsReachTheFeed | crates/tycho-common/src/models/contract.rs:358-373 | from indexer to wire to feed, every delta, cleared slots included, has the effect on slots that it has on an account of the indexer |
| ModelDeltas.WireSlotsFuse | crates/tycho-common/src/models/contract.rs:358-373 | off the wire, a merged account delta does in the feed what its parts do in order |
| Feed.SnapshotCell.ApplyDeltas | crates/tycho-client/src/feed/synchronizer.rs:889-940 | the nested loops, with entries in any order, apply the buffered messages after the snapshot's block one by one |
| Feed.FeedAppliesWire | crates/tycho-client/src/feed/synchronizer.rs:889-940 | the feed does with its own form of a message what the wire message means, for the accounts that are asked for |
| Feed.BufferedIsOneMerge | crates/tycho-client/src/feed/synchronizer.rs:889-940 | a snapshot brought up to date with any buffered wire messages is where the one merge of those after its block would have brought it |
| Feed.LaterIs | crates/tycho-client/src/feed/synchronizer.rs:895-898 | exactly the messages after the snapshot's block are applied |
| Feed.MismatchKeepsTheOlder | crates/tycho-common/src/models/blockchain.rs:282-304 | a delta that stands under the wrong id does not replace the older one |
| Feed.MergedBlockShows | crates/tycho-common/src/models/blockchain.rs:282-328 | merging in the client's model and merging on the wire say the same in every field but the kind of change |
| Feed.CatchUpFuses | crates/tycho-common/src/models/blockchain.rs:282-328 | applying the deltas merged from any nonempty sequence of wire messages ends up where every message's deltas on their own would have |
| FeedMessages.Merge | crates/tycho-client/src/feed/synchronizer.rs:196-219 | the two loops that throw out entries and the extensions give the merged message |
| FeedMessages.MergedRemovals | crates/tycho-client/src/feed/synchronizer.rs:196-219 | what a merged message removes |
| FeedMessages.ConsumeMeans | crates/tycho-simulation/src/evm/decoder.rs:321-850 | what a consumer has after a message: snapshots replace, removals take out, and only then deltas are applied |
| FeedMessages.ConsumeAppliesWire | crates/tycho-simulation/src/evm/decoder.rs:683-850 | a message of deltas off the wire does to a consumer what the wire message means |
| FeedMessages.MergeFusesIff | crates/tycho-client/src/feed/synchronizer.rs:196-219 | for every consumer and any two messages, with or without snapshots, removals and deltas: consuming the merge is consuming both in order if and only if no delta of the older shows through a snapshot of the newer |
| FeedMessages.CatchUpMeansItsMessages | crates/tycho-client/src/feed/mod.rs:422-424 | the message merged from any nonempty sequence in which no delta is older than a snapshot of the same thing means the messages in order |
| FeedMessages.OldChangeShowsThroughNewSnapshot | crates/tycho-client/src/feed/synchronizer.rs:196-219 | a component changed, dropped and tracked again in one catch-up ends up with the old value instead of the new |
| ModelDeltas.ProtocolComponentStateDelta.Merge | crates/tycho-common/src/models/protocol.rs:199-222 | refuses a delta of another component and changes nothing then; otherwise merges updates, deletions and creations |
| Paging.SpliceIsWindow | crates/tycho-indexer/src/services/rpc.rs:853-878 | page by page, stored and buffered records come out as if they were one list |
| Paging.ServeIsWindow | crates/tycho-indexer/src/services/rpc.rs:811-878 | the answer for given ids, including the shortcut through the buffer, is a window on all that matches |
| Paging.ServePageIsPage | crates/tycho-indexer/src/services/rpc.rs:788-893 | the same for page numbers |
| Paging.MatchBound | crates/tycho-client/src/rpc.rs:856-858 | among records with distinct ids no more can match than ids were asked for |
| PaginatedFetch.TotalPagesIsCeiling | crates/tycho-common/src/dto.rs:908-911 | the number of pages is the smallest that holds all records |
| PaginatedFetch.FetchBatch | crates/tycho-client/src/rpc.rs:907-933 | a batch of concurrent requests brings the next pages in order, or fails with the error of one of them |
| PaginatedFetch.LoopEndsIff | crates/tycho-client/src/rpc.rs:903-933 | some number of rounds gets through all pages, or all chunks, if and only if the concurrency is positive or nothing is left to request |
| PaginatedFetch.FetchAll | crates/tycho-client/src/rpc.rs:885-934 | whenever the page loop ends: succeeds exactly when every needed page does, joins them in order, and requests each page once (page 0 alone for an empty list) |
| PaginatedFetch.PagesAreTheList | crates/tycho-client/src/rpc.rs:996-1050 | the pages a server cuts from a list, joined as the client joins them, are the list |
| PaginatedFetch.ClientSeesBothStores | crates/tycho-indexer/src/services/rpc.rs:853-893 | from the client's loop to the server's two stores: the client gets all that either holds, in order |
| PaginatedFetch.FetchByIds | crates/tycho-client/src/rpc.rs:786-826 | whenever the permits let it end: one request for every chunk of ids, joined in order, failing if any fails |
| PaginatedFetch.ChunksBringAll | crates/tycho-client/src/rpc.rs:963-985 | chunks requested with page 0 bring every match of any list of distinct ids, each once |
| PaginatedFetch.IndexedChunksBringFirstOnly | crates/tycho-client/src/rpc.rs:858-884 | chunks requested with their own number as the page bring exactly the first chunk's matches, which is all if and only if no later id matches |
| PaginatedFetch.SecondChunkIsLost | crates/tycho-client/src/rpc.rs:858-884 | of two ids in chunks of one, both on the server, only the first comes back |
| PaginatedFetch.ComponentServerServesIds | crates/tycho-indexer/src/services/rpc.rs:788-893 | the component endpoint is a server of the kind both results are about |
| ClientMetadata.PrintEntries | crates/tycho-client/src/client_metadata.rs:60-75 | prints all entries, or refuses for the first check that the first bad entry in key order fails |
| ClientMetadata.Serialize | crates/tycho-client/src/client_metadata.rs:47-81 | nothing for an empty map; accepts a map if and only if it has at most 16 entries, all acceptable, and prints to at most 1024 bytes; every refusal is justified |
| ClientMetadata.EntryOkIff | crates/tycho-client/src/client_metadata.rs:83-95 | which keys and values are accepted, by length and ASCII code |
| ClientMetadata.SortForgetsOrder | crates/tycho-client/src/client_metadata.rs:57-59 | whatever order the map is iterated in, the sorted entries are the same |
| ClientMetadata.HeaderIsFaithful | crates/tycho-client/src/client_metadata.rs:40-81 | splitting an accepted header at `;` and then at `=` gives back exactly the map; the header is visible ASCII (a legal field value, section 5.5 of RFC 9110) and independent of iteration order |
| HexText.DecodeIs | crates/tycho-common/src/hex_bytes.rs:320-332 | exactly the even-length digit strings decode, to half as many bytes with the same numeric value |
| HexText.PrintedIsReadBack | crates/tycho-common/src/hex_bytes.rs:41-57 | every printed byte string is read back |
| HexText.PrintedForm | crates/tycho-common/src/hex_bytes.rs:41-57 | the printed text is 0x and two lower-case digits for every byte |
| HexText.DigitValueIs | crates/tycho-common/src/hex_bytes.rs:320-332 | which characters are read as which digit |
| HexText.Lenient | crates/tycho-common/src/serde_primitives.rs:3-14 | accepts exactly digit strings of any length, keeps their numeric value, and agrees with the strict reader wherever that one succeeds |
| HexText.PrintMap | crates/tycho-common/src/serde_primitives.rs:202-211 | prints one entry for every entry of the map and no other |
| HexText.PrintedMapIsReadBack | crates/tycho-common/src/serde_primitives.rs:202-226 | whatever is collected from a printed map is the map: no entry is lost to another |
| ByteCodec.ToUnsigned | crates/tycho-common/src/hex_bytes.rs:376-394 | the big-endian value, for byte strings that fit |
| ByteCodec.ToSigned | crates/tycho-common/src/hex_bytes.rs:400-421 | the two's-complement value, for byte strings that fit |
| ByteCodec.FillBuffer | crates/tycho-ethereum/src/lib.rs:96-103 | the buffer holds the padding and then the bytes |
| ByteCodec.NumberRoundTrip | crates/tycho-ethereum/src/lib.rs:83-107 | a number survives the way to its bytes and back |
| ByteCodec.BytesRoundTrip | crates/tycho-common/src/hex_bytes.rs:358-372 | bytes survive the way to their number and back |
| ByteCodec.LpadKeeps | crates/tycho-common/src/hex_bytes.rs:108-113 | padding on the left with zeros keeps the number, with sign bytes the signed number |
| ByteCodec.LpadFills | crates/tycho-common/src/hex_bytes.rs:108-113 | padding on the left keeps the bytes and reaches the length, unless they are longer already |
| ComponentIndex.TychoState.ApplyUpdate | crates/tycho-integration-test/src/main.rs:732-756 | the three loops, in whatever order entries come, give the cache the update stands for |
| ComponentIndex.CacheHoldsWhatUpdatesCarried | crates/tycho-integration-test/src/main.rs:732-756 | after any updates the cache has a state, and a component, for an id if and only if some update carried one that neither it nor a later one removed, with the value of the last that carried one |
| ComponentIndex.UpdateKeepsIndexIff | crates/tycho-integration-test/src/main.rs:732-756 | an update keeps the index by protocol in step with the components if and only if it moves no id between protocols |
| ComponentIndex.IndexPartitionsComponents | crates/tycho-integration-test/src/main.rs:727-762 | after any updates in which each id carries one protocol, the index cuts the components up exactly by protocol |
| ComponentIndex.TakeUpdated | crates/tycho-integration-test/src/main.rs:1079-1111 | looks at as many updated ids as allowed, or all of them, and picks each known one once, with its own component and state |
| ComponentIndex.SelectStale | crates/tycho-integration-test/src/main.rs:1119-1163 | always-tested ids first; then, for every protocol in sync and for no other, new ids that were not updated, up to its quota, and fewer only if none is left |
| ComponentIndex.SelectedIsCached | crates/tycho-integration-test/src/main.rs:1166-1186 | with index and components in step no selected id lacks its component |
| ComponentIndex.SelectComponents | crates/tycho-integration-test/src/main.rs:1068-1189 | the known ones among as many updated ids as are allowed, then what is selected again and can be tested; bounded, and with no id twice if and only if the always-test list repeats no id that is due |

## Left out

- Sockets, TLS, the handshake, compression, JSON and HTTP retries: only their outcomes appear, as events or responses.
- Clocks: a timeout is an action that may come at any time while somebody waits.
- More than one connect task at a time: a new one starts when the old one is over.
- Failures of the server's database; the component endpoint is modelled when its query succeeds.
- A component that is new in one message and deleted in the next: merging reports it as both, and so does the model.
- The consumer of the feed is its order of work (removals, snapshots, deltas; crates/tycho-simulation/src/evm/decoder.rs:321-850): token proxies, inclusion filters and decoding failures are not modelled.
- Account balances per token and TVL are applied by overwriting, as merging treats them; the feed's snapshots do not carry them.
- The page loop for TVL collects its pages into a map; the lists it collects from are modelled, the map is not.
- Assembly of snapshots from several requests, and the merging of retry-after times.
- Decoding of transactions and of whole blocks with their sort by transaction index: one record at a time, and nothing else depends on it.
- Right padding: it truncates longer strings, unlike its documentation, and nothing else depends on it.
- Comparison and hashing of component requests: tolerance equality is not transitive.
- The page count that goes through a floating-point ceiling is modelled as the exact one, which it is for totals below 2^53.
- Random choice and map iteration order are arbitrary choices; results hold for each of them.
- DeltasClient.WsDeltasClient.HandleMsg: requires that no forced unsubscribe is waiting, because the source keeps the lock until that wait is over.
- PaginatedFetch.FetchAll: requires that the page loop ends, which PaginatedFetch.LoopEndsIff characterises, because otherwise the source never returns; and a positive page size, without which there are no pages.
- Feed.CatchUpFuses: requires every delta to stand under the id it is for, because the source drops a newer delta with another id and calls that a bug.
- FeedMessages.MergeFusesIff: requires the same.
- PaginatedFetch.FetchByIds: requires that there is a permit or nothing to request, because otherwise the source waits for ever; and a positive chunk size, without which the source panics.
- ByteCodec.ToUnsigned: requires the bytes to fit the target, because the source panics when they do not.
- ByteCodec.ToSigned: requires the bytes to fit the target, because the source panics when they do not.
