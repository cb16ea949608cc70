# A verified model of the OTA campaign engine

The engine sends secured commands to SIM cards over SMS. A campaign is a list of
commands and a set of target cards. The control plane cuts the targets into
shards, a planner feeds the shards to executor workers, the workers drive each
card through the commands, an in-process gateway turns network receipts back into
card events, and batched writers persist what happened. A completion checker
looks only at five counters per campaign.

This project models that machinery in Dafny and proves what it keeps over whole
runs. Concurrent parts are step systems over values, cut into steps where the code
reads or writes what its goroutines share. Objects and loops of the code are classes
and methods proved against functions, and the theorems are about those functions.

| File | Content |
|---|---|
| `Common.dfy` | options, octets, parts and chunks of sequences |
| `SmsFrame.dfy`, `SmsDelivery.dfy` | splitting into short messages, the user data header, reassembly over any reception |
| `Cipher.dfy`, `CommandPacket.dfy`, `ResponsePacket.dfy` | block chaining over an abstract permutation, command and response packets of GSM 03.48 |
| `OtaPath.dfy` | a command from the builder to the receiver |
| `Gateway.dfy`, `GatewayRuns.dfy` | the gateway's tables, and all interleavings of submissions, receipts and expiry |
| `CardStates.dfy`, `CardStateSchedules.dfy`, `CampaignStats.dfy` | the card-state writers, their schedules, the counters' law |
| `CardProtocol.dfy`, `CardTokens.dfy`, `CardProgress.dfy`, `CardBound.dfy` | one card's protocol, its single live token, the order and number of its activations |
| `CardOutcomes.dfy` | which steps end a card and how, which send it on, and what the database then shows |
| `CardRuns.dfy`, `CardMisses.dfy` | runs that every campaign has; lookups that miss the cache and store late |
| `CardSilence.dfy`, `CardNewest.dfy` | commands that expect no answer; the newest row of a card against the changes it emits |
| `Completion.dfy` | the completion checker over protocol, writers and counters together |
| `MessageLog.dfy`, `MessageRuns.dfy` | the coalescing message-log writers, and any number of them against a plain log |
| `Counters.dfy`, `WireCounters.dfy` | the local counter store, reserved ranges and the five-byte counter |
| `Shards.dfy`, `Planner.dfy` | paged start, publishing cycles |
| `Recovery.dfy`, `RecoveryNewest.dfy` | crash recovery, and what it does with cards that had ended |

## What the code does and does not keep

Some properties the code or its comments suggest hold only under a condition. In
each case the model keeps the code as it is, shows where the property fails, and
proves the condition.

- A packet split into 255 parts is never reassembled: the 8-bit loop variable
  cannot pass 255 (`GatherEndsExactly`). Every other split comes back intact
  (`SplitReassembles`).
- Receipts for one SMSC identifier that overlap are counted more than once. Over
  every run, with n receipts counted for a message of t parts, there are
  max(0, n - t + 1) events and one more if its submission failed
  (`AtMostOneExactly`). An aggregate "delivered" is true of all parts exactly when
  the receipts behind it are of different parts (`DeliveredTruthfully`). The shared
  state is looked up before its lock is taken, so a surplus receipt that found it
  reports the aggregate, and one that came too late reports itself
  (`EventsExactly`, `SurplusAggregate`).
- A comment in `internal/pgstore/card_state_writer.go:193-195` says transition
  numbers are unique per card. Each activation restarts them at 1
  (`internal/executor/worker.go:446`), so a card sent a second step has two changes
  with number 1 and its newest row depends on the flush order
  (`SecondStepAmbiguous`, `IndependentExactly`).
- The change of an activation is written after its message is sent
  (`internal/executor/worker.go:454`, `:488-498`), with the number the shared object
  has by then. If the card has ended in between, the two changes have one row key,
  and the unfinished one may stay the newest row (`LateWriteHides`,
  `NewestFinalExactly`). A crash then restarts the card
  (`EndedRestartsExactly`, `RefusedRestarts`).
- Every activation is counted as pending to in-progress, but only one of them is
  made up for by the card's end. A campaign is found complete exactly when all cards
  have ended and the surplus messages are balanced by cards that overflowed unsent
  (`FiresExactly`, everything flushed). Without such overflows one card that was sent
  two commands, was retried, or ended by a partial submission blocks it
  (`FiresWithoutOverflow`, `StallReached`), except in the moments before an
  activation's change is flushed (`UnflushedFires`).
- A delivery report for a command that expects no answer continues from step 0, not
  from the card's step (`DeliveredWithoutAnswer`). A card keeps a single token in
  every run exactly when no such command can be reached (`SingleTokenExactly`), and
  campaigns of such commands start over for ever (`NoAnswerNeverEnds`).
- A delivered report acted on after a later step was sent puts the earlier step's
  object back into the cache, and a lookup that missed the cache stores its object
  whatever has happened since (`internal/pgstore/coordination.go:187-212`). Either
  makes the card repeat a step (`UncalmBreaks`), and one of them can happen in every
  campaign with a second step or a second attempt (`AlwaysOrderedExactly`); without
  them the order and the bound on activations hold (`RunTerminates`).
- Lookups that miss can be outstanding in any number, and each can have a card sent
  one more message, so the messages of a card are bounded exactly in campaigns with
  one step and one attempt (`SendsBoundedExactly`). Without such lookups, and with
  each object put back by one report only, a card of k commands and t attempts is sent
  fewer than (t + 1)^k (`SendsBounded`), and for t = 1 the most is 2^k - 1
  (`MostSendsExactly`).
- A comment in `internal/pgstore/query_store.go:131-132` says cards whose latest state
  is failed are reset. The query resets every listed card, and takes each off the
  failed counter (`ResetMoves`, `ResetTrueExactly`).
- Initialising a campaign a second time resets `pending` but not the other columns
  (`InitializeConservesExactly`). Updating a card without rows writes a row with nil
  identifiers (`UpdateLandsExactly`).
- A ciphered build fails for redundancy checks and for AES, because the signature
  in front of the data is not padded (`CipheredBuildSucceeds`).
- An update that meets its create in the writer's buffer loses all columns but
  three, and one flushed before its create is lost entirely
  (`UpdateSurvivesExactly`). Four writers share one channel, so the second case is
  reachable (`OvertakenLost`).
- A preloaded counter is evicted with its card only if the card id has no colon or
  was indexed by an increment (`PreloadThenEvictExactly`). Counters repeat when more
  are used than reserved, and start from zero when nothing is reserved; retries use
  counters too (`CountersIncreaseExactly`, `BareBreaks`). Reading and incrementing are
  two locked calls (`internal/executor/worker.go:305-311`), so overlapping activations
  of one card and application send one counter twice, or send counters in the wrong
  order (`OverlapRepeats`, `OverlapReverses`); activations one after the other do not
  (`SerialSuffices`).
- A claim picks shards in creation order, but the rows come back in any order. A
  shard whose items cannot be read resets only itself; those returned after it stay
  claimed until a restart, those returned before it are published even if they were
  created later (`PastUnreadable`, `ReturnedLastFirst`). Shards whose closing update
  fails, as it does on an ended context, stay claimed too (`PollSettles`).

## Model

| member | source | states |
|---|---|---|
| `SmsFrame.SplitForConcat` | pkg/smsframe/frame.go:48-100 | the loop yields exactly the specified frames, or the specified error, for every packet and limit |
| `SmsFrame.SplitFits` | pkg/smsframe/frame.go:48-100 | every frame of a successful split fits the part size |
| `SmsFrame.ParseUdh` | pkg/smsframe/reassemble.go:79-126 | the cursor loop reads every octet string as the recursive reading of its elements |
| `SmsFrame.UdhInvertsPrint` | pkg/smsframe/reassemble.go:79-126 | parsing inverts printing for every header of well-formed elements |
| `SmsFrame.UdhOfSingle` | pkg/smsframe/frame.go:18-40 | a single frame is read back as its packet |
| `SmsFrame.UdhOfConcat` | pkg/smsframe/frame.go:18-40 | a concatenated frame is read back with its reference, total, part and packet |
| `SmsDelivery.UdhExactly` | pkg/smsframe/reassemble.go:79-126 | what the reader makes of any octets: well-formed elements, one cut short ignored, all payload when the header length exceeds them |
| `SmsDelivery.SplitAnnounces` | pkg/smsframe/frame.go:18-40 | every frame announces a secured packet by the empty element 0x70, frame i as part i + 1 of all by the element 0x00, around its chunk |
| `SmsDelivery.SplitFailsExactly` | pkg/smsframe/frame.go:48-75 | exactly when a split fails and with which error |
| `SmsFrame.PartKeyInjective` | pkg/smsframe/reassemble.go:29-40 | distinct senders or references never share a reassembly key |
| `SmsFrame.Reassembler.AddPart` | pkg/smsframe/reassemble.go:29-75 | the map-updating method does what the function on stores says, keeping its maps aligned |
| `SmsFrame.Reassembler.Gather` | pkg/smsframe/reassemble.go:61-68 | for totals below 255 the 8-bit loop ends and concatenates the parts in order |
| `SmsDelivery.AddPartOutcome` | pkg/smsframe/reassemble.go:29-75 | any part leaves the caller waiting until the last missing one, which yields the whole, or never returns at 255 |
| `SmsDelivery.FirstTotalStays` | pkg/smsframe/reassemble.go:42-75 | the first part received fixes the total, which alone decides completion, whatever later parts say |
| `SmsDelivery.StoreTracksSeen` | pkg/smsframe/reassemble.go:29-75 | while parts are missing, the store holds just those received, whatever the order, repetition and other traffic |
| `SmsDelivery.DeliveredOnce` | pkg/smsframe/reassemble.go:29-75 | a message is handed out exactly once, intact, on its last missing part |
| `SmsDelivery.SplitReassembles` | pkg/smsframe/frame.go:48-100 | split, any reception and reassembly return the packet if and only if it was not split into 255 parts |
| `SmsDelivery.GatherEndsExactly` | pkg/smsframe/reassemble.go:61-68 | the gathering loop ends exactly for totals below 255 |
| `SmsDelivery.SplitFramesAreParts` | pkg/smsframe/frame.go:76-98 | frame i of a split is part i + 1 of the message it stands for |
| `SmsDelivery.SingleReassembles` | pkg/smsframe/reassemble.go:29-40 | a packet in one frame comes straight back and the store is untouched |
| `Cipher.CbcRoundTrip` | pkg/gsm0348/builder.go:321-375 | chained decryption undoes chained encryption for every block permutation |
| `Cipher.CbcMacIsLastBlock` | pkg/gsm0348/builder.go:229-317 | the MAC register is the last block of the chained encryption |
| `Cipher.ChainBlocks` | pkg/gsm0348/builder.go:229-245 | the register loop computes the CBC-MAC |
| `Cipher.ComputeCrc` | pkg/gsm0348/builder.go:379-390 | check octet j is the exclusive-or of the octets at positions congruent to j |
| `Cipher.CrcDetects` | pkg/gsm0348/builder.go:379-390 | replacing an octet by another changes just the check octet of its position |
| `CommandPacket.ProfileRoundTrip` | pkg/gsm0348/builder.go:111-155 | the indicator octets determine the profile if and only if its fields fit their bits |
| `CommandPacket.PadCount` | pkg/gsm0348/builder.go:184-198 | the padding reaches the next block boundary with less than a block, and empty data gets exactly one |
| `CommandPacket.RetailMac` | pkg/gsm0348/builder.go:207-317 | a MAC exists exactly outside AES with a key long enough, and has eight octets |
| `CommandPacket.RetailMacOpens` | pkg/gsm0348/builder.go:229-317 | the MAC is the last chained block under the first key, covered by the second and the outer key where there are more |
| `CommandPacket.TwoKeysAreThree` | pkg/gsm0348/builder.go:321-352 | two keys K1, K2 encrypt as the three keys K1, K2, K1 |
| `CommandPacket.EqualKeysAreOne` | pkg/gsm0348/builder.go:321-352 | with triple DES as three DES runs, equal keys encrypt as one |
| `CommandPacket.AesKeyUsed` | pkg/gsm0348/builder.go:326-337 | of an AES key 32, 24 or 16 octets are used, the most there are |
| `CommandPacket.DecryptUndoesEncrypt` | pkg/gsm0348/response.go:133-175 | decrypting undoes encrypting exactly for the DES family |
| `CommandPacket.BuildSucceedsExactly` | pkg/gsm0348/builder.go:15-107 | exactly which profiles, keys and data build |
| `CommandPacket.CipheredBuildSucceeds` | pkg/gsm0348/builder.go:26-93 | with long keys a ciphered build succeeds if and only if unsigned, or a checksum without AES |
| `CommandPacket.SignatureChecks` | pkg/gsm0348/builder.go:47-93 | the signature in a built packet holds for the packet's own thirteen header octets and padded data: folded check octets, or the MAC of both filled with zeros to whole blocks |
| `CommandPacket.CommandRoundTrip` | pkg/gsm0348/builder.go:15-107 | a receiver recovers profile, TAR, counter and data, rightly padded and with a signature that holds for the packet's header, if and only if the length fits two octets |
| `ResponsePacket.ParseResponsePacket` | pkg/gsm0348/response.go:16-118 | the cursor-walking parser gives the specified reading or error for every octet string, never out of bounds |
| `ResponsePacket.ParseInvertsPrint` | pkg/gsm0348/response.go:16-118 | parsing inverts printing, ciphered or not, padded or not, whatever follows |
| `ResponsePacket.TrailingIgnored` | pkg/gsm0348/response.go:16-118 | octets after an accepted packet never change its reading |
| `ResponsePacket.AcceptsExactly` | pkg/gsm0348/response.go:16-118 | exactly which octet strings are accepted |
| `ResponsePacket.RefusesExactly` | pkg/gsm0348/response.go:16-118 | a refused packet's error names the first field that is missing |
| `OtaPath.CommandArrives` | pkg/gsm0348/builder.go:15-107 | a built, split and reassembled command is read with every field intact, padded and with a signature that holds, if and only if it was not split into 255 parts |
| `Gateway.InProcessGateway.HandleSendSms` | internal/transport/inprocess_gateway.go:99-176 | tables after submitting the parts one by one, with the failure path |
| `Gateway.InProcessGateway.RecordPartDlr` | internal/transport/inprocess_gateway.go:369-389 | the counting of a part's receipt |
| `Gateway.InProcessGateway.HandleDlr` | internal/transport/inprocess_gateway.go:190-272 | the whole effect of an uninterrupted receipt on the tables and the bus |
| `GatewayRuns.HandledAlone` | internal/transport/inprocess_gateway.go:190-272 | load, delete, look up and count in sequence have the effect of that one call |
| `Gateway.InProcessGateway.CleanupCorrelations` | internal/transport/inprocess_gateway.go:392-417 | the sweep removes expired correlations only |
| `Gateway.SweepExactly` | internal/transport/inprocess_gateway.go:392-417 | after the sweep a correlation is there exactly if it was and is in time, unchanged |
| `GatewayRuns.LiveUntilTaken` | internal/transport/inprocess_gateway.go:203-215 | over every run a correlation in time goes only by a receipt for it |
| `GatewayRuns.DropExactly` | internal/transport/inprocess_gateway.go:203-226 | a receipt goes on to be counted exactly if its correlation was found and in time |
| `GatewayRuns.ExecKeeps` | internal/transport/inprocess_gateway.go:99-272 | the invariant tying tables, deleted states still held, calls in flight and counted receipts holds over every interleaving of those steps |
| `GatewayRuns.HeldExists` | internal/transport/inprocess_gateway.go:369-376 | the state a handler found exists when it counts, deleted or not |
| `GatewayRuns.EventsExactly` | internal/transport/inprocess_gateway.go:218-272 | over every run a message's events are its submission failure and, per counted receipt, its own status if it missed the state, else from the last awaited one on the aggregate of all that found the state |
| `GatewayRuns.AtMostOneExactly` | internal/transport/inprocess_gateway.go:190-272 | the number of a message's events from its counted receipts, parts and failure; at most one exactly when the receipts do not exceed the parts |
| `GatewayRuns.DeliveredExactly` | internal/transport/inprocess_gateway.go:218-268 | a multi-part message is reported delivered exactly when the first receipts, one per part, all say so or a surplus one says so that missed the state |
| `GatewayRuns.DeliveredTruthfully` | internal/transport/inprocess_gateway.go:369-389 | the receipts behind an aggregate cover all parts exactly when they are of different parts |
| `GatewayRuns.PartialSubmitExactly` | internal/transport/inprocess_gateway.go:329-366 | a partial-submit failure is reported exactly when 0 < submitted < total at the failure |
| `GatewayRuns.SerialSuffices` | internal/transport/inprocess_gateway.go:190-215 | handled serially, counted receipts are of different parts and a message has at most one event |
| `GatewayRuns.OverlapMisleads` | internal/transport/inprocess_gateway.go:190-272 | a run in which a card is told of a delivery that did not happen, and then told again |
| `GatewayRuns.SurplusAggregate` | internal/transport/inprocess_gateway.go:369-389 | a run in which a delivered part's surplus receipt is reported as the failed aggregate |
| `CardStates.CardStateStore.WriteCardStateBatch` | internal/pgstore/card_state_writer.go:101-191 | the loops over the batch write one newest row per card and every change's counters |
| `CardStates.CardStateStore.KeepLatest` | internal/pgstore/card_state_writer.go:102-114 | the loop keeps the changes of the function LatestExactly is about |
| `CardStates.LatestExactly` | internal/pgstore/card_state_writer.go:102-114 | a card has a kept change exactly if the batch names it: the first of its latest ones with the highest transition |
| `CardStates.CardStateStore.SumDeltas` | internal/pgstore/card_state_writer.go:116-130 | the accumulated adjustments are the sum over all events, kept or not |
| `CardStates.LatestFacts` | internal/pgstore/card_state_writer.go:102-114 | the kept changes cover every card of the batch with a newest change of its own |
| `CardStates.AssignmentsAdd` | internal/pgstore/card_state_writer.go:302-334 | the UPDATE that leaves out zero adjustments adds the whole adjustment |
| `CardStateSchedules.BatchesGrow` | internal/pgstore/card_state_writer.go:101-191 | batches only add rows of their changes, with one as new as each change |
| `CardStateSchedules.RowsRecord` | internal/pgstore/card_state_writer.go:157-160 | after any batches old rows are unchanged and each new one has, column by column, the status, step, retry, message, error and time of a change with its key |
| `CardStateSchedules.BatchRecords` | internal/pgstore/card_state_writer.go:101-191 | a batch adds just the row of the kept change of each card, unless its key is taken |
| `CardStateSchedules.CountersExactly` | internal/pgstore/card_state_writer.go:116-130 | whatever the batches, each of the five counters gains the changes that enter its statuses and loses those that leave them |
| `CardStateSchedules.IndependentExactly` | internal/pgstore/query_store.go:71-77 | all groupings and orders of the changes agree on a card's newest row if and only if its newest changes agree |
| `CardStateSchedules.StatsOfSchedule` | internal/pgstore/card_state_writer.go:116-130 | the counters are the same for every grouping and order |
| `CardStateSchedules.BatchingRefines` | internal/pgstore/card_state_writer.go:101-191 | with unique row keys any batching over any writers gives the newest rows and counters of writing one at a time |
| `CardStateSchedules.RunCardStateWriter` | internal/pgstore/card_state_writer.go:43-97 | a writer flushes all it received, in order, in batches neither empty nor over the limit |
| `CampaignStats.FlushConservesExactly` | internal/pgstore/card_state_writer.go:268-334 | a flush keeps the sum of the columns exactly when it enters as many known columns as it leaves |
| `CampaignStats.InitializeConservesExactly` | internal/pgstore/query_store.go:164-211 | initialising keeps the sum exactly when the other columns net out to zero |
| `CampaignStats.UpdateLandsExactly` | internal/pgstore/execution_store.go:36-103 | an update lands on the card it names exactly when that card has a row, and then changes status and time only; else it writes a row with nil identifiers |
| `CampaignStats.UpdateConserves` | internal/pgstore/execution_store.go:88-99 | a single-card update keeps the sum, also for an unknown card |
| `CampaignStats.UpdateMoves` | internal/pgstore/execution_store.go:88-99 | which counter an update lowers and which it raises, statuses without a column counting as pending |
| `CampaignStats.RunConserves` | internal/pgstore/query_store.go:126-248 | every run of flushes, aborts, resets and updates keeps the sum equal to the total |
| `CampaignStats.PagesConserve` | internal/controlplane/campaign.go:131-140 | initialising page by page leaves every started card pending and nothing else counted |
| `CampaignStats.PagesStart` | internal/pgstore/query_store.go:164-211 | a first start gives each card of the pages one pending row at the first step, and counts as many cards, all pending |
| `CampaignStats.ConservedFromStart` | internal/pgstore/query_store.go:126-248 | so does every run from a first start over any pages of targets |
| `CampaignStats.AbortFinishesAll` | internal/pgstore/query_store.go:214-248 | aborting skips every unfinished card of the campaign and touches nothing else |
| `CampaignStats.AbortMoves` | internal/pgstore/query_store.go:236-243 | an abort that skips a card moves pending and in-progress to skipped and leaves the other counters |
| `CampaignStats.ResetRestarts` | internal/pgstore/query_store.go:126-146 | a reset gives every listed card with a row a pending one at the step, and no other |
| `CampaignStats.ResetMoves` | internal/pgstore/query_store.go:147-160 | failed loses and pending gains as many as are reset |
| `CampaignStats.ResetTrueExactly` | internal/pgstore/query_store.go:126-160 | the failed counter keeps telling the number of failed cards exactly when every card reset was failed |
| `CardProtocol.FindNextStep` | internal/executor/worker.go:1072-1082 | the scan with its -1 computes the function used by the protocol |
| `CardProtocol.ScanFindsLeast` | internal/executor/worker.go:1072-1082 | the scan finds the least sequence above the step, or tells there is none |
| `CardOutcomes.StepSettles` | internal/executor/worker.go:256-1123 | every step, in every world: whether it completes or fails the card, and all fields of the change it emits |
| `CardOutcomes.StatusExactly` | internal/executor/worker.go:1083-1104 | over every run a change says completed exactly when a completing step emitted it, and failed exactly when a refusal, used-up attempts, a partial submission or an overflow did |
| `CardOutcomes.OutcomeExactly` | internal/executor/worker.go:532-1123 | over every fully written run a completed change exists exactly when a step completed the card, a failed one exactly when a step failed it |
| `CardOutcomes.AnswerCompletes` | internal/executor/worker.go:999-1011 | with answering commands only an accepted answer at a step with no sequence above it completes a card |
| `CardOutcomes.EffectQueues` | internal/executor/worker.go:663-688 | an effect queues another attempt, or the least sequence above the step, exactly when it should |
| `CardOutcomes.EffectObject` | internal/executor/worker.go:597-622 | what a report or answer does to its object, the others and the cache |
| `CardOutcomes.ActivationObject` | internal/executor/worker.go:436-500 | the object, message and pending write of an activation that is sent |
| `CardOutcomes.LoadOpens` | internal/executor/worker.go:548-562 | on which statuses reports and answers are accepted |
| `CardOutcomes.CheckPasses` | internal/executor/worker.go:591-597 | on which statuses a report moves the card |
| `CardOutcomes.ThrottleKeeps` | internal/executor/worker.go:838-862 | a throttled activation goes behind those waiting and nothing else changes |
| `CardOutcomes.DurableExactly` | internal/pgstore/coordination.go:186-214 | the rows a missed lookup may find are just those that can be the card's newest in the database, whatever part of its changes was flushed how |
| `CardTokens.SingleToken` | internal/executor/worker.go:532-773 | over every interleaving of lookups, tests, effects and writes, with stale objects and rows, at most one live token and one final change |
| `CardTokens.NextKeeps` | internal/executor/worker.go:256-529 | no step of the protocol adds a token |
| `CardProgress.RunTerminates` | internal/executor/worker.go:1072-1143 | in calm runs activations strictly descend in (commands ahead, attempts left), in ascending steps, at most commands times attempts of them |
| `CardProgress.UncalmBreaks` | internal/executor/worker.go:597-622 | from any world reached in order, sending while a delivered report can still move an earlier step's object, or a missed lookup has still to store, is continued by a run that repeats a step, if there is a second step or attempt |
| `CardProgress.AlwaysOrderedExactly` | internal/executor/worker.go:1072-1143 | every run of a campaign is in order exactly when the campaign has one step and one attempt |
| `CardProgress.ReportOvertaken` | internal/executor/worker.go:597-622 | every campaign with a second step has a calm run, without missed lookups, up to a late report |
| `CardMisses.MissRepeats` | internal/pgstore/coordination.go:186-214 | a missed lookup outstanding at the first send can have one activation sent twice |
| `CardMisses.SendsUnbounded` | internal/pgstore/coordination.go:186-214 | where a card can be sent a second message, it has runs with any number of them |
| `CardBound.SendsBoundedExactly` | internal/executor/worker.go:532-773 | a card's messages are bounded over all runs exactly in campaigns with one step and one attempt |
| `CardBound.SendsBounded` | internal/executor/worker.go:597-622 | in tidy runs, however late reports are, fewer than (attempts + 1) to the number of commands |
| `CardBound.MostSendsExactly` | internal/executor/worker.go:597-622 | without retries the most messages of a tidy run is 2 to the number of commands, less one |
| `CardSilence.DeliveredWithoutAnswer` | internal/executor/worker.go:599-627 | a delivered report without expected answer completes the card, with a completed change, exactly when no sequence is positive, else activates the least |
| `CardSilence.SingleTokenExactly` | internal/executor/worker.go:599-627 | every run keeps a single token exactly when every command from the first on expects an answer |
| `CardSilence.StepReached` | internal/executor/worker.go:1006-1011 | every step from the first on can be reached by answers alone |
| `CardSilence.NoAnswerNeverEnds` | internal/executor/worker.go:599-627 | where the first and the least positive command expect no answer, runs of any number of activations have no final change |
| `CardNewest.NewestFinalExactly` | internal/pgstore/query_store.go:71-77 | a finished card is seen finished under every flushing of its changes exactly when no unfinished change has reached the final one's number |
| `CardNewest.PromptOnTop` | internal/executor/worker.go:488-498 | if reports take effect only after pending writes and missed lookups end before activations, the final change is above all others |
| `CardNewest.LateWriteHides` | internal/executor/worker.go:440-500 | in every campaign a late write can take the final change's row key |
| `CardNewest.SecondStepAmbiguous` | internal/executor/worker.go:439-447 | in every campaign with a second step a run emits changes whose newest row depends on the flushing |
| `Completion.CompletionSafe` | cmd/ota-engine/main.go:303-319 | whatever the cards did and whatever part was flushed in whatever batches, the test passes only if a final change of every target was flushed |
| `Completion.CompletionNewest` | cmd/ota-engine/main.go:303-319 | with prompt writes the newest row of every target is final by then |
| `Completion.CardAccounted` | internal/executor/worker.go:256-773 | with everything written, a card has a counted activation per message sent and one ending, which leaves in-progress unless it is a partial submission |
| `Completion.FiresExactly` | cmd/ota-engine/main.go:303-319 | with everything flushed, the test passes exactly when all cards have ended and their surplus messages sum to zero |
| `Completion.FiresWithoutOverflow` | cmd/ota-engine/main.go:303-319 | if every card was sent something, exactly when each was sent one message and none ended by a partial submission |
| `Completion.UnflushedFires` | cmd/ota-engine/main.go:307-309 | every campaign with a second step has a run with two messages sent and the card ended whose changes, one activation held back, pass the test |
| `Completion.TwoSendsReached` | internal/executor/worker.go:1126-1143 | in every campaign with a second step a card can end with two messages sent and everything written |
| `Completion.StallReached` | cmd/ota-engine/main.go:303-319 | such a campaign of one card, ended and with nothing left to happen, fails the test under every complete flushing |
| `Completion.VerdictExactly` | cmd/ota-engine/main.go:311-315 | whatever was flushed, the campaign is called failed exactly when the change of a step that failed its card is in the database and none of a step that completed one |
| `Completion.VerdictOfRuns` | cmd/ota-engine/main.go:311-315 | with everything flushed, exactly when some card's run has a failing step and no card's run a completing one |
| `Completion.FlushedWellFormed` | internal/executor/worker.go:1072-1143 | what the protocols emit gives each card at most one final change, wherever the flushes stand |
| `MessageLog.MessageWriter.Take` | internal/pgstore/message_writer.go:99-143 | one action's effect on the two buffers, which stay disjoint |
| `MessageLog.CreatedRecords` | internal/pgstore/message_writer.go:176-215 | a created row holds the entry's status, its counter and SMPP id if not empty, and nothing else |
| `MessageLog.FlushKeepsRows` | internal/pgstore/message_writer.go:57-96 | stored rows outlast a flush: creates for their key do not touch them, updates set the allowed columns they name |
| `MessageLog.MessageWriter.FlushBuffers` | internal/pgstore/message_writer.go:57-96 | creates then updates reach the table, in any map order, and the buffers empty |
| `MessageLog.MessageWriter.Run` | internal/pgstore/message_writer.go:38-151 | the loop, with its size-triggered flushes, is a run of take and flush steps over just the actions received, ending in a flush |
| `MessageLog.PendingDisjoint` | internal/pgstore/message_writer.go:99-143 | no message is ever pending both as a create and as an update |
| `MessageLog.UpdateBeforeCreate` | internal/pgstore/message_writer.go:113-118 | within a window, update then create leaves the same buffers as create then update |
| `MessageRuns.RunCommits` | internal/pgstore/message_writer.go:55-143 | every run of any number of writers leaves of each message what the plain log leaves for its windows in flush order |
| `MessageRuns.RowExactly` | internal/pgstore/message_writer.go:330-383 | the message's final row, exactly: create, kept columns of updates flushed with it, all columns of later ones |
| `MessageRuns.ColumnsExactly` | internal/pgstore/message_writer.go:176-383 | every column of that row: the last value flushed after the create's window, else for three columns the last one in it, else the entry's own field or null |
| `MessageRuns.UpdateSurvivesExactly` | internal/pgstore/message_writer.go:373-383 | the one update of a column shows exactly when flushed after the create, or with it and the column is kept |
| `MessageRuns.ChannelOrder` | internal/pgstore/message_writer.go:55-143 | with one writer per message and the create first, no flush schedule shows in status, SMPP id and counter |
| `MessageRuns.OvertakenLost` | internal/pgstore/message_writer.go:326-364 | with two writers an update that arrives after its create can be lost |
| `MessageRuns.ReceiptDropped` | internal/pgstore/message_writer.go:373-383 | a delivery status that meets its create in the buffer is dropped |
| `Counters.CounterStore.IncrCounter` | internal/pgstore/counter_store.go:37-47 | the new value, the store and its index after an increment |
| `Counters.CounterStore.TakeCounter` | internal/executor/worker.go:302-311 | the two calls, with nothing in between, take the old value and leave it incremented |
| `Counters.CounterStore.EvictCard` | internal/pgstore/counter_store.go:59-66 | the deletion loop removes the indexed counters of the card |
| `Counters.CounterStore.PreloadCounters` | internal/pgstore/counter_store.go:70-82 | all values stored and indexed, in any map order |
| `Counters.KeySplitsExactly` | internal/pgstore/counter_store.go:25-27 | cutting a joined key at its first colon gives the ids back exactly when the card id has none |
| `Counters.EvictAgrees` | internal/pgstore/counter_store.go:59-66 | evicting removes all of one card's counters and index entries and nothing else |
| `Counters.StoreAgrees` | internal/pgstore/counter_store.go:30-82 | over every run the index covers the store, which equals a plain map from card and application |
| `Counters.PreloadThenEvictExactly` | internal/pgstore/counter_store.go:59-82 | whatever the store held, a preloaded counter goes with its card exactly when the card id has no colon or the pair was indexed |
| `WireCounters.EncodeOrders` | internal/executor/worker.go:319-322 | byte order of the five-byte form is the order of the counters modulo 2^40 |
| `WireCounters.TakenAlone` | internal/executor/worker.go:302-311 | the steps of reading and incrementing, with nothing in between, do the same |
| `WireCounters.RunTracked` | internal/pgstore/batch_preload.go:209-235 | what one card and application see does not depend on what happens to others, over every interleaving of readings, increments, sends, evictions and restarts |
| `WireCounters.RunAccounted` | internal/pgstore/batch_preload.go:209-235 | each counter read is its block's start, the reserved one or zero, plus the increments made since |
| `WireCounters.CountersIncreaseExactly` | internal/executor/worker.go:302-311 | over every run counters read strictly increase exactly when an increment or a new block lies between any two readings and no block is read below what earlier ones reached |
| `WireCounters.SentIncreaseExactly` | internal/executor/worker.go:302-454 | then counters sent increase exactly when they are sent in the order they were read |
| `WireCounters.SerialSuffices` | internal/executor/worker.go:302-454 | activations of a pair that do not overlap are read apart and sent in order |
| `WireCounters.OverlapRepeats` | internal/executor/worker.go:305-311 | every pair has a run within its reservation that sends one counter twice |
| `WireCounters.OverlapReverses` | internal/executor/worker.go:305-454 | every pair has a run within its reservation, read apart, that sends the later counter first |
| `WireCounters.FrugalFits` | internal/pgstore/batch_preload.go:209-235 | taking no more than reserved, each time with a reservation in force, is enough |
| `WireCounters.BareBreaks` | internal/pgstore/counter_store.go:30-47 | a reading with no reservation in force and no increment since, after any other, breaks the order |
| `WireCounters.WireBytesIncrease` | internal/executor/worker.go:302-322 | taking no more than reserved, one activation after the other, the bytes sent increase lexicographically below 2^40 |
| `Shards.ForEachTargetBatch` | internal/controlplane/campaign.go:450-494 | the keyset loop ends and its batches are the chunks of the targets in ascending order |
| `Shards.TargetPage` | internal/controlplane/campaign.go:461-476 | a page is the ascending first part of the targets beyond the last one |
| `Shards.StartPartitions` | internal/controlplane/campaign.go:152-191 | the start shards hold every target once in ascending order, numbered from 1, none empty or oversized, item counts adding up |
| `Shards.ShardTable.StartCampaign` | internal/controlplane/campaign.go:143-196 | the transaction succeeds exactly with targets and free numbers, and otherwise changes nothing |
| `Recovery.CollectEvents` | internal/pgstore/recovery.go:94-121 | the loop collects an activation per unfinished card at its step and retry |
| `Recovery.RecoverEventsFrom` | internal/pgstore/recovery.go:106-120 | every recovered event is of an unfinished card, at its retry and step, step 0 meaning the first command |
| `Recovery.RecoverCampaign` | internal/pgstore/recovery.go:74-168 | the table after deleting stale shards and inserting new ones, unchanged when nothing is left to do |
| `Recovery.RecoveryExact` | internal/pgstore/recovery.go:82-168 | the open shards then hold each unfinished card exactly once and no finished one, well shaped |
| `Recovery.RecoveryRestarts` | internal/pgstore/recovery.go:82-168 | every event in the open shards has the retry and step of its card's newest row, the first command's sequence for step 0 |
| `Recovery.RecoveryNumbers` | internal/pgstore/recovery.go:136-146 | published shards stay and all new numbers lie above theirs |
| `Recovery.LastSequenceExactly` | internal/pgstore/recovery.go:136-146 | numbers go on from the highest of the campaign, or from 0 |
| `Recovery.RecoveryElsewhere` | internal/pgstore/recovery.go:130-134 | other campaigns keep all their shards |
| `Recovery.RecoverRunningCampaigns` | internal/pgstore/recovery.go:29-70 | claimed shards are released, then each running campaign recovered |
| `Recovery.StartupExact` | internal/pgstore/recovery.go:29-168 | after start-up this exactness holds for every running campaign at once |
| `Recovery.StartupRestarts` | internal/pgstore/recovery.go:29-168 | and every event in them restarts its card where its newest row left it |
| `Recovery.StartupElsewhere` | internal/pgstore/recovery.go:29-70 | campaigns with nothing to recover keep their shards, only claims being released |
| `RecoveryNewest.EndedRestartsExactly` | internal/pgstore/recovery.go:82-168 | an ended card is sharded again after a crash exactly when its newest row is an unfinished change that reached the final one's number |
| `RecoveryNewest.NeverRestartsExactly` | internal/pgstore/recovery.go:82-121 | it stays out under every flushing of its changes exactly when no unfinished one reached that number |
| `RecoveryNewest.RefusedRestarts` | internal/executor/worker.go:440-500 | in every campaign a refused card, all its changes flushed, can be restarted |
| `Planner.PublishBatch` | internal/pipeline/planner_publisher.go:30-43 | events go out in order until the context ends |
| `Planner.PublishClaimedShards` | internal/planner/service.go:194-283 | the loop with its breaks computes the shard-by-shard outcome |
| `Planner.PublishExactly` | internal/planner/service.go:194-283 | published is a prefix, sent in order; a failed send resets exactly the rest, an unreadable shard only itself |
| `Planner.ClaimExactly` | internal/planner/service.go:160-174 | a poll claims a shard exactly if it waits and fewer than the limit created before it do |
| `Planner.PollPublishesExactly` | internal/planner/service.go:128-315 | a poll sends a shard whole exactly when the claim returned it and it and all returned before it can be read and sent, and publishes it exactly when the mark is written as well |
| `Planner.PollSettles` | internal/planner/service.go:283-315 | the status of every claimed shard after a poll, whichever of the two closing updates succeed |
| `Planner.PastUnreadable` | internal/planner/service.go:201-210 | past an unreadable shard another one is published exactly when returned ahead of every unreadable one, it fits and the mark is written |
| `Planner.InOrderStops` | internal/planner/service.go:201-210 | if claims come back in creation order, nothing created after an unreadable shard of the claim is published |
| `Planner.ReturnedLastFirst` | internal/planner/service.go:160-174 | a claim returned last first publishes a shard created after an unreadable one |
| `Planner.RunLog` | internal/planner/service.go:128-315 | over every run of a process, every return order and every failing update, only readable shards are sent, each once and never claimed again, those whose mark was written are published for good, and the log is their events in order, then a proper part of one cut off |

## Left out

- SQL, GORM, COPY with its INSERT fallback, JSON and UUID parsing: tables are maps or sequences, ids are opaque, and database writes succeed.
- In-place update by the campaign operations of `CampaignStats.dfy`, the handlers of `CardProtocol.dfy` and the cycles of `Planner.dfy`: they are functions on values, a transaction being one step and a handler one step for each access to shared state.
- The completion checker's polling loop and its conditional status update: only its test and verdict on a counter row are modelled.
- Shutdown: a writer whose context is cancelled may fail its last database write, which the model lets succeed; the planner's may fail in the model.
- Block cipher internals, cryptographic strength and the external crypto provider: a cipher is any permutation with its inverse.
- Response signature verification: the code does not check it.
- Wall-clock behaviour: expiry, flush timers, throttling and cached campaign status are free choices of the environment; timestamps of message rows are not modelled.
- Cards in several campaigns at once: the card protocol is of one card in one campaign. Two campaigns of one application are a way for the activations of `WireCounters.dfy` to overlap.
- A card's end is one step: the final object stored, the change handed to its writer, the cache entry removed. Lost increments of a transition number by unsynchronised handlers are not modelled.
- Activations that fail before sending, and throttled attempts, also take a counter; the protocol and the counter model are not joined on that count.
- A reservation raises the row and then stores the range locally; the model takes one step for both, there being one planner and no other reader of the row.
- Counter reservation reserves for one application only; uses for further applications of a campaign are bare blocks in the sense of `WireCounters.Blocks`.
- Error texts and the `last_smpp_id` column of card states; of the columns a single-card update may name, status and time are modelled.
- The planner's backlog pacing and its per-event publisher, which the engine does not use.
- `ResumeCampaign` and `PauseCampaign`: resuming shards waiting cards with the chunking loop of recovery.
- The SMPP pool, MO routing, redis client, HTTP and WebSocket API, dashboards, CSV import, web front end, `pkg/globalplatform` and `pkg/hexutil`.
- CardTokens.SingleToken: with at most one report and one answer per message and never both an answer and a failing report.
- CardProgress.RunTerminates: for runs in which no step is sent while a delivered report of an earlier one can still move its object or a missed lookup is outstanding; throttled activations are put back and not counted as sent.
- CardBound.SendsBounded: for runs in which no step is sent while a missed lookup is outstanding, and no delivered report takes effect on an object that another one has moved since its test.
- SmsFrame.Reassembler.Gather: not for a total of 255, on which the code's loop does not end.
- MessageRuns.ChannelOrder: values sent for status, SMPP id and counter are strings, as the executor sends them, and each message is created once.
- Completion.CompletionSafe: from a first start, without abort or restart of failed cards.
- A planner run is of one process: a failed send means its context has ended, and the next process starts from whatever states are stored.
- GatewayRuns.ExecKeeps: a handler with nothing left to do but send its event is taken to have sent it; the order of events of different handlers is not claimed.
