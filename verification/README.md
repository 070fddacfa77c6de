# Verified models of the simulator's scheduling, addressing and memory system

This project models the parts of the NPU simulator in which a small piece of code keeps a
property that spans many steps, and proves those properties in Dafny. `dafny verify
dfyconfig.toml` checks all of it.

The path of a request runs through six groups of modules.

* **DRAM.** `DramTiming` is the tree of nodes whose `next` and `prev` tables stand for the whole
  command history; the tree is proved to answer exactly as the check over the history would.
  `HbmTables` and `Ddr4Tables` are the tables of the two standards, `DramRuns` what they mean for
  every legal run. `BankProtocol` is the decoder and the bank states, `DramController` one channel's
  queues, pending reads and reserved output places.
* **Speculative decoding.** `SpecDecModel` says what one launch does to one request and to its
  rows of the two KV caches, each row carrying the launch, phase and slot that wrote it last.
  `SpecDec` is the state of the whole scheduler, its invariant and its measure of progress;
  `SpecDecScheduler` is the scheduler itself, with its fields. `KvConcat` writes the rows.
  `SpecTrace` and `KvPool` are the open-loop trace generator, `SpecLockstep` its agreement with
  the scheduler.
* **Addresses.** `HeadBank`, `KvAddress`, `BankDecode`, `ChannelHash` and `AddressPath` follow a KV
  element from head, token and element to channel, in-channel address and bank; `WeightTiles`
  places weights. `Arith` holds the division facts they share.
* **Tile sizes.** `TileSearch` is the convolution search, `GemmMapping` the matrix product.
* **Cores.** `TilePipeline` and `Scratchpad` are the tiles resident in a core and its banks;
  `RequestQueues`, `Transport` and `InterconnectPhase` carry requests to the memory.
* **Operators.** `Dataflow` and `LayerScheduler` run the operators of a model.

An algorithm that updates fields or arrays is a class or a method proved against a function of
the old state; the properties are proved of those functions, over every input, state or run.

## What the proofs turned up

Where a property does not hold of the code as it stands, the code is kept, and the condition under
which it holds is proved; where that is not an equivalence, the list says what is.

* A prefill counts one row more than it writes (`src/scheduler/SpecDecScheduler.cc:318-319`), so
  statements about counted rows start at row cached + prompt + 1.
* Channel and compacted address identify a block exactly for 1, 2, 4, 7, 8, 14 and 16 or more
  channels (`ChannelHash.TellsBlocksExactly`). With 3, 5, 6, 9 to 13 or 15 channels two blocks
  collide.
* "Each head then owns a bank no other head can address" (`README.md:93-98`) holds, within one tile
  and over all tensors that start at one bank slot, exactly when there is one head or heads times
  banks per head is at most the number of banks (`AddressPath.HeadsOwnBanksEndToEnd`). Without
  rotation all tensors start at one bank slot.
* The head-to-bank layout is injective exactly when all heads fit side by side or fill whole
  stripes (`HeadBank.OffsetInjective`).
* A tile-bank stride is harmless with one bank a head, the default. With more it keeps the tiles of
  all lengths apart exactly when the greatest common divisor of the stride and the number of banks
  is a whole number of heads' banks or leads past all heads of a stripe (`KvAddress.StrideExactly`);
  when the heads fill whole stripes that is a stride of whole heads' banks
  (`KvAddress.FullStrideExactly`). Which tokens clash otherwise is `KvAddress.ClashExactly`, and
  `KvAddress.TokensClash` is a pair that does.
* The hash is said to be free of conflicts for every power-of-two stride (`src/Hashing.cc:34-36`).
  Consecutive blocks at stride 2^s, as many as there are channels, keep apart exactly up to s = 9
  for 16 channels, 10 for 32 and 13 for 64 (`ChannelHash.ChannelsSpreadExactly`).
* The tile-bank weight layout is injective exactly up to 32 streams (`WeightTiles.BankOffsetExactly`).
* The GEMM mapping divides by zero when raising the tile counts leaves a tile less than a block,
  for instance for one block of columns that is wider than the number of cores
  (`GemmMapping.OneBlockFails`); `GemmMapping.Map` states exactly when it does not.
* The convolution search can return a tile that fails its own bytes test: shrinking and growing
  columns do not look at it (`TileSearch.SizeCanBeExceeded`), and growing looks at the tile before
  the increment. A largest tile that fits decides it, a largest tile that passes is enough, and an
  all-ones tile that fails is against it (`TileSearch.SizeToldBefore`); a layer and all smaller ones
  meet the test exactly when every tile that fits passes it (`TileSearch.MeetsTestExactly`). Half as
  much again as the operands is at most twice the share after growing
  (`TileSearch.SizeWithinTwice`), and the operands themselves exceed it at most by what the padding
  adds, and not at all when the kernel reaches over it (`TileSearch.OperandsWithinShare`).
* The operand bank of a tile in use is never flushed exactly when at each issue every resident tile
  is among the last depth - 1 issued (`TilePipeline.NeverFlushesExactly`). In-order retirement
  without skip tiles is enough; a round of tiles retired early, or of skip tiles, breaks it.
* A refresh goes out whatever the power state of its rank. No run of the simulator has a rank
  asleep, as only reads, writes and refreshes are served; every refresh of every run meets a rank
  that is up exactly when power-down and self-refresh are not (`BankProtocol.RefreshesAwakeExactly`).
* The trace generator and the scheduler retire a request on the same step exactly when at least
  two tokens are to be generated (`SpecLockstep.Lockstep`).
* The trace generator asks for draft blocks counting from the draft rows, which is too few once
  enough plain steps have left the draft behind; exactly when is `KvPool.DraftBlocksAfterPlain`.

## Model

| member | source | states |
|---|---|---|
| DramTiming.Node.constructor | extern/ramulator_custom/src/DRAM.h:190-230 | a fresh tree answers for the empty history, at every node |
| DramTiming.Node.Check | extern/ramulator_custom/src/DRAM.h:267-280 | the recursion over the next tables is true exactly when the naive check over the full history holds at every node down to the scope |
| DramTiming.Node.IsReady | extern/ramulator_custom/src/Controller.h:485-494 | asked at the root, the tree agrees with the full-history check along the path, sibling entries included |
| DramTiming.Node.UpdateTiming | extern/ramulator_custom/src/DRAM.h:353-408 | raising next from the short queue of recent clocks keeps every node of the subtree exact for the longer history |
| DramTiming.Node.RaiseSiblings | extern/ramulator_custom/src/DRAM.h:356-369 | a node whose sibling was addressed stays exact through the sibling entries alone |
| DramTiming.Node.RaiseTarget | extern/ramulator_custom/src/DRAM.h:371-397 | the addressed node stays exact through entries that reach dist commands back |
| DramTiming.Node.GetNext | extern/ramulator_custom/src/DRAM.h:313-324 | the clock returned is the least one, from now on, at which the full-history check passes |
| DramTiming.Node.Issue | extern/ramulator_custom/src/Controller.h:608-612 | issuing after the check keeps the run legal under the naive check |
| DramTiming.DescentIsPathReady | extern/ramulator_custom/src/DRAM.h:267-280 | the naive check stated node by node and stated over whole paths are the same |
| DramTiming.PathReadyExactly | extern/ramulator_custom/src/DRAM.h:267-280 | told by events: a command may go exactly when every entry for it, on every level the check visits, is kept by every choice of as many earlier commands as the entry reaches back |
| DramTiming.TimingRespected | extern/ramulator_custom/src/DRAM.h:267-280 | in any legal run a command comes at least val cycles after the dist-th most recent earlier command to its node, for every entry relating the two |
| HbmTables.RowIs | extern/ramulator_custom/src/HBM.cpp:249-418 | the table rows of every level hold exactly the waits of the families of commands, the processing-in-memory command included |
| HbmTables.OneWindow | extern/ramulator_custom/src/HBM.cpp:319-320 | the one entry that reaches further back is the window of four activates at a rank |
| Ddr4Tables.RowIs | extern/ramulator_custom/src/DDR4.cpp:260-410 | the table rows of every level hold exactly the waits of the families of commands |
| Ddr4Tables.SiblingsAre | extern/ramulator_custom/src/DDR4.cpp:300-317 | the entries between ranks are exactly the turns of the bus |
| Ddr4Tables.OneWindow | extern/ramulator_custom/src/DDR4.cpp:334-335 | the one entry that reaches further back is the window of four activates at a rank |
| DramRuns.HbmReadyExactly | extern/ramulator_custom/src/HBM.cpp:249-418 | HBM: whatever was issued, a command may go exactly when it is as late as its families ask after every earlier command to a node both name, at every level its address reaches, and after the fourth activate of its rank back; the scope of a command never hides a wait |
| DramRuns.Ddr4ReadyExactly | extern/ramulator_custom/src/DDR4.cpp:260-410 | the same of DDR4, with the turns of the bus after commands to other ranks |
| DramRuns.FourActivateWindow | extern/ramulator_custom/src/HBM.cpp:319-320 | any five activates of a rank in a legal run span at least nFAW |
| DramRuns.RowCycleAndRefresh | extern/ramulator_custom/src/HBM.cpp:327-410 | activates of a bank are nRC apart, and an activate is nRFC after a refresh of its rank |
| DramRuns.RankSwitch | extern/ramulator_custom/src/DDR4.cpp:300-304 | reads of two ranks are a burst and the rank-switch time apart |
| DramRuns.HbmWaitsKept | extern/ramulator_custom/src/HBM.cpp:249-418 | in any legal run two commands to one node are as far apart as their families ask, at every level their addresses share |
| DramRuns.Ddr4WaitsKept | extern/ramulator_custom/src/DDR4.cpp:260-410 | the same of DDR4 |
| DramRuns.Ddr4TurnsKept | extern/ramulator_custom/src/DDR4.cpp:300-317 | in any legal run accesses of two ranks of a channel leave the bus the time it takes to turn |
| DramRuns.ReadyDominates | extern/ramulator_custom/src/Controller.h:557-612 | if every table row delays one command as much as another, readiness carries over in every history |
| DramRuns.HbmUpgradeStaysReady | extern/ramulator_custom/src/Controller.h:557-612 | HBM: after the autoprecharge upgrade the readiness assertion cannot fail |
| DramRuns.Ddr4UpgradeStaysReady | extern/ramulator_custom/src/Controller.h:557-612 | DDR4: after the autoprecharge upgrade the readiness assertion cannot fail |
| BankProtocol.Rank.Decode | extern/ramulator_custom/src/HBM.cpp:88-161 | the first command for a request is the decoder's, from power state, bank states and open rows |
| BankProtocol.Rank.UpdateState | extern/ramulator_custom/src/HBM.cpp:207-246 | a command changes power and banks as its lambda does; precharge-all and power-down look at every bank |
| BankProtocol.Rank.PrechargeAll | extern/ramulator_custom/src/HBM.cpp:215-220 | every bank of every bank group ends closed and without rows |
| BankProtocol.DecodedSafe | extern/ramulator_custom/src/HBM.cpp:88-129 | from any sound state what the decoder asks for is right: activate only a closed bank, access only the one open row of a rank that is up, refresh only closed banks |
| BankProtocol.AppliedOk | extern/ramulator_custom/src/HBM.cpp:207-246 | a right command keeps every bank open exactly when it has a row, and with one row at most |
| BankProtocol.RunSafe | extern/ramulator_custom/src/Controller.h:380-468 | whatever is served and whatever is precharged, after any run the next command is right and banks hold one row at most |
| BankProtocol.RequestNears | extern/ramulator_custom/src/DRAM.h:249-264 | each command the decoder asks for brings the request's own command exactly one nearer: an access after three at most, a refresh, bank refresh, power-down or self-refresh after one |
| BankProtocol.RequestReached | extern/ramulator_custom/src/DRAM.h:249-264 | following the decoder for n commands from any sound state, in any power state, leaves the distance n less, and the request's own command is next exactly at distance zero |
| BankProtocol.OthersStay | extern/ramulator_custom/src/HBM.cpp:207-246 | a command changes its own bank only, a precharge of all banks apart, and only power commands change the power |
| BankProtocol.AccessLeaves | extern/ramulator_custom/src/Controller.h:557-606 | an access leaves its row open, or with autoprecharge its bank closed |
| BankProtocol.PowerFollows | extern/ramulator_custom/src/HBM.cpp:232-245 | power-down is active exactly with a bank open, self-refresh is entered when asked for, and an access wakes the rank |
| BankProtocol.RefreshesAwakeExactly | extern/ramulator_custom/src/HBM.cpp:121-160 | every refresh of every run meets a rank that is up exactly when no power-down and no self-refresh request is served |
| BankProtocol.StaysUp | extern/ramulator_custom/src/Ramulator.cpp:56-91 | a rank given reads, writes and refreshes only, which is all the controller is given, stays up over any run |
| BankProtocol.HitIsImmediate | extern/ramulator_custom/src/HBM.cpp:164-181 | a row hit is exactly an access needing no command first in a rank that is up |
| DramController.Channel.Push | extern/ramulator_custom/src/Ramulator.cpp:56-74 | a caller that asked for room gets the request queued and a place reserved; neither assertion can fail |
| DramController.Channel.IsAvailable | extern/ramulator_custom/src/Ramulator.cpp:38-43 | true exactly when an output place and a queue slot are free |
| DramController.Channel.Enqueue | extern/ramulator_custom/src/Controller.h:322-341 | joins the back of the queue of its kind, stamped with the clock, unless that queue is full |
| DramController.Channel.Return | extern/ramulator_custom/src/Ramulator.cpp:154-158 | the callback appends to the output queue and gives up one reservation |
| DramController.Channel.Tick | extern/ramulator_custom/src/Controller.h:343-483 | one whole tick is the value-level tick, and accepted = held + returned + collected stays true |
| DramController.Channel.Finish | extern/ramulator_custom/src/Controller.h:455-483 | after a command is issued the request stays, moves to actq, becomes pending with its departure, or is returned |
| DramController.Channel.Pop | extern/ramulator_custom/src/Ramulator.cpp:101-103 | the oldest returned request leaves, and the books still balance |
| DramController.TickedKeeps | extern/ramulator_custom/src/Controller.h:343-483 | whatever is offered, a tick keeps reserved = requests held, all places within the size, kinds in their queues and departures increasing, and neither loses nor doubles a request |
| DramController.ServedBooks | extern/ramulator_custom/src/Controller.h:455-483 | serving moves requests between queues and returns writes; held plus returned is unchanged and reservations follow |
| DramController.ReadsServedKeeps | extern/ramulator_custom/src/Controller.h:350-362 | one pending read at most comes back per tick, and exactly on its departure tick |
| DramController.RunKeeps | extern/ramulator_custom/src/Controller.h:343-483 | over any run of ticks, accepted requests and collected results in any order, a read issued at some clock is pending until exactly latency ticks later and comes back then |
| DramController.RunBooks | extern/ramulator_custom/src/Controller.h:343-483 | over any such run everything accepted is held, waits to be collected or has been collected, once each |
| DramController.PushedKeeps | extern/ramulator_custom/src/Ramulator.cpp:38-74 | accepting adds exactly one request to the books and keeps the invariant |
| DramController.ModeFindsWork | extern/ramulator_custom/src/Controller.h:367-378 | the write mode never points at an empty queue while the other has work; it switches only past its watermark or for want of reads |
| DramController.TickMode | extern/ramulator_custom/src/Controller.h:367-378 | the mode a tick works in, from the queues it finds: writes from the moment more of them wait than the high mark or no read does, until fewer wait than the low mark and a read does |
| DramController.ModeKept | extern/ramulator_custom/src/Controller.h:367-378 | over any run the controller writes on until a tick finds few writes and a read, and reads on until a tick finds many writes or no read |
| DramController.TickTakes | extern/ramulator_custom/src/Controller.h:380-468 | activated requests go first, then refreshes, then writes or reads as the mode has it; no other queue changes |
| DramController.TickMovesOn | extern/ramulator_custom/src/Controller.h:455-483 | a read stays, is activated, or is pending to depart a latency later, never back yet; a write stays, is activated, or is back; one of each at most comes back a tick |
| DramController.OthersJoin | extern/ramulator_custom/src/Controller.h:322-341 | the refresh requests of a tick join in order, as many as there is room for |
| DramController.RoomExactly | extern/ramulator_custom/src/Ramulator.cpp:38-43 | there is room exactly when accepting one more keeps the invariant |
| DramController.AccessCountsItself | extern/ramulator_custom/src/Controller.h:557-606 | the row hits counted before an autoprecharge upgrade include the access itself, so the count is not zero |
| DramController.LastHit | extern/ramulator_custom/src/Controller.h:571-581 | a count of one is that of the last hit: no other request of the queue is for the row that is closed with the access |
| SpecDecModel.ScorersAgree | src/scheduler/SpecDecScheduler.cc:245-269 | multi-token and expanded verification leave the same rows, tags, verdicts and lengths |
| SpecDecModel.VerifyWritesLookahead | src/scheduler/SpecDecScheduler.cc:245-269 | either scorer writes exactly rows L to L+k, in slot order |
| SpecDecModel.DraftWidth | src/scheduler/SpecDecScheduler.cc:231-243 | the query width is always target minus draft rows; the fallback of one is never needed, and after the first draft step the width is one |
| SpecDecModel.PrefillTargetOk | src/scheduler/SpecDecScheduler.cc:314-327 | the target prefill counts cached + prompt + 1 rows of which the last is not written |
| SpecDecModel.PrefillDraftOk | src/scheduler/SpecDecScheduler.cc:329-338 | the draft prefill levels the draft rows with the target's, and the request generates or retires |
| SpecDecModel.DraftOk | src/scheduler/SpecDecScheduler.cc:340-348 | a draft pass ends one row further ahead, all its counted rows written by slots that count |
| SpecDecModel.VerifyOk | src/scheduler/SpecDecScheduler.cc:350-370 | a verify step commits the accepted slots, marks the rest rejected at or above the new length, and cuts the draft rows |
| SpecDecModel.JudgeDraftsOk | src/scheduler/SpecDecScheduler.cc:350-370 | the draft rows a verify cuts off are exactly those whose slot of this step was not accepted |
| SpecDecModel.PlainOk | src/scheduler/SpecDecScheduler.cc:372-381 | a plain step commits one row and lets the draft lag one more |
| SpecDec.BatchInputsSplit | src/scheduler/SpecDecScheduler.cc:134-164 | splitting a launch's inputs by request gives back what each request put in |
| SpecDec.BatchInputsDistinct | src/scheduler/SpecDecScheduler.cc:134-164 | the owners found in a launch's inputs, each once, are the batch in order |
| SpecDec.AdmitOneKeeps | src/scheduler/SpecDecScheduler.cc:99-125 | admitting the front request keeps the invariant and the work left |
| SpecDec.LaunchedKeeps | src/scheduler/SpecDecScheduler.cc:134-164 | sending a model out keeps the invariant and the work left |
| SpecDec.Outcome | src/scheduler/SpecDecScheduler.cc:305-388 | what the end of any launch does to a request of its batch: the next stage, generation, or retirement, with rows and verdicts in order |
| SpecDec.EndedKeeps | src/scheduler/SpecDecScheduler.cc:305-388 | the end of a launch keeps the whole invariant, whatever was accepted |
| SpecDec.VerifyAccepts | src/scheduler/SpecDecScheduler.cc:350-363 | each active request commits just the slots accepted for it and one more, and counts them |
| SpecDec.EndedProgress | src/scheduler/SpecDecScheduler.cc:305-388 | the end of a launch leaves less to do: a request advances or the step nears its end |
| SpecDec.CommittedStay | src/scheduler/SpecDecScheduler.cc:231-271 | in both caches counted rows keep their writer, rows newly counted were written by that very launch and slot, and the rest of a verify and the draft rows it cuts off are marked rejected, by their slots |
| SpecDec.CountedRowsAreCommitted | src/scheduler/SpecDecScheduler.cc:231-271 | in every reachable state a counted row above the prefill was last written by a slot that counts: in the target cache by a plain step or an accepted slot, in the draft cache by a draft pass, in an accepted slot once the step is over |
| SpecDec.PromptRowsWritten | src/scheduler/SpecDecScheduler.cc:189-229 | in every reachable state both caches hold, below the first row generated, exactly the rows of the prompt behind those cached, written by the prefill of that cache's model |
| SpecDec.ModelWritesItsCache | src/scheduler/SpecDecScheduler.cc:166-275 | a model goes out as the draft model exactly when its launch writes draft caches; the other cache is left as it is |
| SpecDec.RunningIsOut | src/scheduler/SpecDecScheduler.cc:134-144 | in every reachable state the requests marked running are those of the model that is out |
| SpecDec.RejectedRowsAreAbove | src/scheduler/SpecDecScheduler.cc:350-370 | in every reachable state rejected rows of either cache lie at or above its length |
| SpecDec.LengthsAddUp | src/scheduler/SpecDecScheduler.cc:340-380 | length = first row + accepted + verify steps + plain steps, and the bounds of the draft lag and lead |
| SpecDec.BatchIsActive | src/scheduler/SpecDecScheduler.cc:127-132 | one model in flight at most and listed with its batch, active requests within the limit, every batch id active when used |
| SpecDecScheduler.ParseTrace | src/scheduler/LanguageScheduler.cc:152-175 | requests get consecutive ids, summed arrival times, and target = cached + prompt + generate |
| SpecDecScheduler.AdmittedKeeps | src/scheduler/SpecDecScheduler.cc:99-125 | admission takes arrived requests in order while there is room, and keeps the invariant |
| SpecDecScheduler.AdmittedJoins | src/scheduler/SpecDecScheduler.cc:99-125 | those who join are the front of the queue in order, all of them have arrived, and nobody more joins only because nobody waits, the next has not arrived or the limit is met |
| SpecDecScheduler.LaunchSends | src/scheduler/SpecDecScheduler.cc:166-275 | a launch goes on with what it began; else prefills all who are new; else speculates for all active, unless there are no draft tokens or more are active than the limit, and then takes a plain step |
| SpecDecScheduler.LaunchStepKeeps | src/scheduler/SpecDecScheduler.cc:166-275 | a launch keeps the invariant, and sends a model out whenever anybody is active |
| SpecDecScheduler.CycleStepKeeps | src/scheduler/SpecDecScheduler.cc:127-132 | a cycle keeps the invariant, and leaves nothing in flight only when nobody has arrived |
| SpecDecScheduler.Scheduler.Admit | src/scheduler/SpecDecScheduler.cc:99-125 | who leaves the queue is a prefix of it, has arrived and is exactly who joins; the next stays for want of arrival or room |
| SpecDecScheduler.Scheduler.InputsFor | src/scheduler/SpecDecScheduler.cc:189-271 | the sequences of one request in each phase, the expanded verify one by one |
| SpecDecScheduler.Scheduler.Launch | src/scheduler/SpecDecScheduler.cc:166-275 | prefills all new requests, else starts a step for all, else goes on with its batch |
| SpecDecScheduler.Scheduler.LaunchModel | src/scheduler/SpecDecScheduler.cc:134-164 | marks owners running, lists each once under the model, queues the model |
| SpecDecScheduler.Scheduler.Cycle | src/scheduler/SpecDecScheduler.cc:127-132 | does nothing while a model is out, else admits between steps and launches |
| SpecDecScheduler.Scheduler.SampleAccepted | src/scheduler/SpecDecScheduler.cc:277-287 | the next recorded count cyclically, or any count up to k |
| SpecDecScheduler.Scheduler.Judge | src/scheduler/SpecDecScheduler.cc:350-364 | accepted counts drawn in batch order, each request judged by its own |
| SpecDecScheduler.Scheduler.RetireIfDone | src/scheduler/SpecDecScheduler.cc:289-303 | leaves the active requests exactly when at its target |
| SpecDecScheduler.Scheduler.FinishModel | src/scheduler/SpecDecScheduler.cc:305-388 | the state becomes the one the end of the launch describes, invariant kept and progress made |
| SpecDecScheduler.Scheduler.Drain | src/scheduler/SpecDecScheduler.cc:127-132 | the scheduler drains every request queue; each request ends at its target or at most k above, or right after its prefill |
| SpecDecScheduler.RunTrace | src/scheduler/SpecDecScheduler.cc:99-388 | from the lines of a trace to the end: every line is served with its prompt behind its cached rows and the rows it asks for, k more at most or the one the prefill counts, all but that one written by slots that count |
| SpecTrace.KvWrite | scripts/specdec_trace.py:179-199 | counts the requests that land on stale rows, and clears those rows only when consuming |
| SpecTrace.TraceRequest.Plain | scripts/specdec_trace.py:296-304 | one row written and counted, one token done |
| SpecTrace.TraceRequest.DraftPass | scripts/specdec_trace.py:306-324 | every draft layer writes the same new rows; stale ones are cleared after the last |
| SpecTrace.TraceRequest.VerifyLayer | scripts/specdec_trace.py:330-340 | both scorers count and clear the same stale rows |
| SpecTrace.TraceRequest.Verify | scripts/specdec_trace.py:325-351 | stale hits over all layers, then the rejected tail becomes stale and the counters advance |
| SpecLockstep.StepMirrors | scripts/specdec_trace.py:283-367 | after any step generator and scheduler agree on rows, stale rows and counters |
| SpecLockstep.VerifyRewritesStale | scripts/specdec_trace.py:179-199 | every stale target row is among the rows the next verify writes, which leaves stale exactly what it rejects |
| SpecLockstep.DraftsRewriteStale | scripts/specdec_trace.py:306-351 | every stale draft row is among the rows the next step's draft passes write, which leave none stale; the verify then leaves stale exactly the draft rows it cuts off |
| SpecLockstep.RetireTogether | scripts/specdec_trace.py:359-365 | done reaches gen exactly when the length reaches the target |
| SpecLockstep.RunMirrors | scripts/specdec_trace.py:283-367 | over any run both take the same steps to the same rows |
| SpecLockstep.Lockstep | scripts/specdec_trace.py:455-462 | with the workload mapping both retire on the same step exactly when at least two tokens are to be generated |
| KvPool.Pool.Alloc | scripts/specdec_trace.py:116-120 | the first n free blocks are lent, none is lost or lent twice; too few is a failure |
| KvPool.Pool.Release | scripts/specdec_trace.py:122-123 | blocks come back to the end of the free list, and the books balance |
| KvPool.Ensure | scripts/specdec_trace.py:273-281 | a table grows to the blocks needed and keeps what it had |
| KvPool.TargetCovered | scripts/specdec_trace.py:273-277 | the target rows of a step all have blocks exactly when the table has what is asked for |
| KvPool.DraftCovered | scripts/specdec_trace.py:278-281 | the draft rows of a step have blocks exactly when the table reaches target rows + k |
| KvPool.DraftBlocksAfterPlain | scripts/specdec_trace.py:278-281 | from level draft rows or one behind, the blocks asked for suffice exactly under a stated condition: always up to two rows behind, never beyond a block and two |
| KvConcat.LoopsCover | src/operations/KVCacheConcat.cc:96-110 | the tiles look at every token, a tile stages at least a chunk and less than a chunk and a token, and there are as few tiles as the bytes fill chunks |
| KvConcat.TokenHasOneTile | src/operations/KVCacheConcat.cc:96-133 | every token is looked at by exactly one tile, at exactly one place |
| KvConcat.Locate | src/operations/KVCacheConcat.cc:150-161 | the walk finds the input and index of a global token number |
| KvConcat.LocatedUnique | src/operations/KVCacheConcat.cc:150-161 | a token belongs to one input and one index only |
| KvConcat.TileRows | src/operations/KVCacheConcat.cc:112-171 | a tile writes exactly the rows of its tokens |
| KvConcat.TilesWriteNewRows | src/operations/KVCacheConcat.cc:96-171 | all tiles together write exactly the new rows of the inputs |
| KvConcat.LedgerRowsAreTileRows | src/operations/KVCacheConcat.cc:150-171 | the rows the scheduler's ledger records for a launch are the rows the tiles write |
| KvConcat.ScorersWriteSameRows | src/scheduler/SpecDecScheduler.cc:245-269 | one input of k+1 tokens and k+1 inputs of one token write the same rows |
| HeadBank.OffsetSplits | src/operations/Attention.cc:872-884 | row, bank slot and place in the chunk can be read back from the offset |
| HeadBank.OffsetInjective | src/operations/Attention.cc:872-884 | within one tile, different bytes of different heads get different offsets exactly when all heads fit side by side or fill whole stripes |
| KvAddress.BlockTable | src/operations/Attention.cc:673-688 | the block table is a permutation: the identity when not shuffled, else what the swaps drawn make of it |
| KvAddress.EveryTable | src/operations/Attention.cc:673-688 | every permutation comes of some draws |
| KvAddress.TiledInjective | src/operations/Attention.cc:755-791 | whatever the tile lengths and the block table, two elements share an address exactly when head, token and request are the same, for every tile-bank stride whose greatest common divisor with the banks is a whole number of heads' banks or leads past all heads of a stripe |
| KvAddress.ClashExactly | src/operations/Attention.cc:864-884 | with heads filling whole stripes, two tokens clash for some heads exactly when they are at the same place of chunks of one group and their steps, moved by their tiles, agree modulo the banks of a head |
| KvAddress.MeetExactly | src/operations/Attention.cc:872-884 | for every layout that fits, bytes with different shifts meet exactly when group, place, stripe and bank agree |
| KvAddress.StrideExactly | src/operations/Attention.cc:864-884 | for every layout that fits, a stride keeps all requests of all tables and tile lengths apart exactly when its greatest common divisor with the banks is a whole number of heads' banks or leads past all heads of a stripe |
| KvAddress.FullStrideExactly | src/operations/Attention.cc:864-884 | with heads filling whole stripes that is so exactly for strides of whole heads' banks |
| KvAddress.TokensClash | src/operations/Attention.cc:427-438 | with two banks a head, stride one and tiles of 450 tokens, token 386 of head 1 and token 450 of head 0 have one address |
| KvAddress.PadAligns | src/operations/Attention.cc:926-946 | the padded base starts at the wanted bank slot, and the pad is less than a stripe |
| KvAddress.RotationOfStripe | src/operations/Attention.cc:926-946 | with rotation a base at some place of stripe n starts at slot 11n and the chunks below it |
| KvAddress.RotationStaggers | src/operations/Attention.cc:926-946 | with rotation, bases at the same place of stripes less than a round of banks apart start at different slots |
| KvAddress.AddressSlot | src/operations/Attention.cc:755-791 | the bank slot of an element is its head's, moved by tile shift and rotation only |
| KvAddress.LaneInjective | src/operations/Attention.cc:909-921 | the activation lane keeps addresses apart and within its slot |
| BankDecode.LogAccess | src/Dram.cc:224-250 | the fields peeled off are the bit slices of the address, the bank fields together one slice |
| BankDecode.DecodedBankIsSlot | src/Dram.cc:302-309 | after compaction the decoded bank is the layout's slot, in every channel |
| BankDecode.BankNumberInjective | src/Dram.cc:241-250 | bank numbers are equal exactly when pseudochannel, group and bank are |
| BankDecode.HeadsOwnBanksExactly | src/operations/Attention.cc:840-884 | no two heads share a bank slot exactly when there is one head or all heads' banks fit |
| AddressPath.PathTells | src/Dram.cc:302-320 | channel and in-channel address tell a request from every other |
| AddressPath.ChannelOfRequest | src/Dram.cc:9-22 | every byte of a request goes to the channel of the request's number |
| AddressPath.BankIsHead | README.md:93-98 | without rotation, in the first tile and with all heads' banks fitting, the DRAM bank divided by the banks a head has is the head, the chunk counting within: with one bank a head the bank is the head |
| AddressPath.RequestsApart | src/operations/Attention.cc:427-438 | end to end, whichever tiles the tokens are in, two elements reach the same place of the same channel exactly when they are the same request of the same head and token |
| AddressPath.HeadOwnsItsBanks | README.md:93-98 | no head's requests reach a bank of another head in any two tensors that start at one bank slot, as all do without rotation, when all heads' banks fit |
| AddressPath.HeadsOwnBanksEndToEnd | README.md:93-98 | over all pairs of tensors that start at one bank slot, heads never share a decoded bank, for any tables and tokens, exactly when there is one head or all heads' banks fit |
| ChannelHash.NetworkIsResidue | src/Hashing.cc:38-86 | a network whose taps follow the powers of x computes a(x)x^n modulo the polynomial, for every argument |
| ChannelHash.Follows16 | src/Hashing.cc:38-50 | the 16-channel equations follow x^4+x+1 on 13 bits |
| ChannelHash.Follows32 | src/Hashing.cc:52-67 | the 32-channel equations follow x^5+x^2+1 on 15 bits |
| ChannelHash.Follows64 | src/Hashing.cc:69-86 | the 64-channel equations follow x^6+x+1 on 19 bits |
| ChannelHash.ResidueIsSum | src/Hashing.cc:30-37 | long division is linear: the residue is the sum of the residues of the powers |
| ChannelHash.ResidueTells | src/Hashing.cc:32-86 | arguments that agree outside any n bits in a row the networks read, and have the same outputs of networks that follow a polynomial of n bits, are equal |
| ChannelHash.SpreadsExactly | src/Hashing.cc:32-36 | the networks keep apart all arguments that differ only in bits s to s+n-1 exactly when they read all of these bits |
| ChannelHash.StridesSpread | src/Hashing.cc:32-86 | stride 2^s is free of conflicts exactly up to s = 9 for 16 channels, 10 for 32 and 13 for 64 |
| ChannelHash.Tells16 | src/Hashing.cc:38-50 | the 16-channel hash and the upper block bits tell the block |
| ChannelHash.Tells32 | src/Hashing.cc:52-67 | the 32-channel hash and the upper block bits tell the block |
| ChannelHash.Tells64 | src/Hashing.cc:69-86 | the 64-channel hash and the upper block bits tell the block |
| ChannelHash.TellsBlocksExactly | src/Dram.cc:9-22 | channel and shortened block number tell the block exactly for 1, 2, 4, 7, 8, 14 and from 16 channels up |
| ChannelHash.ChannelIsResidue | src/Dram.cc:9-22 | with 16, 32 or 64 channels bit j of a block's channel is coefficient j of block times x^n modulo the polynomial |
| ChannelHash.ChannelFolds | src/Dram.cc:9-22 | fewer than 16 channels fold the channel of 16; any other number takes blocks in turn |
| ChannelHash.ChannelsSpreadExactly | src/Hashing.cc:32-36 | as many blocks as channels at a stride of 2^s go to all of them exactly up to s = 9, 10 and 13 |
| WeightTiles.TileIsRun | src/operations/Operation.cc:223-231 | a tile is one contiguous run in row-major order |
| WeightTiles.ElementInjective | src/operations/Operation.cc:223-231 | different weights have different tile-major addresses |
| WeightTiles.TileMajor | src/operations/Operation.cc:223-231 | inside a tile the next column comes next and the next row a tile width later; the tile to the right comes next, the tile below after a row of tiles |
| WeightTiles.BankOffsetExactly | src/operations/Operation.cc:233-255 | the tile-bank layout is injective exactly with at most 32 streams |
| WeightTiles.StreamsApart | src/operations/Operation.cc:246-255 | tile rows of different streams never share a bank |
| WeightTiles.BankOffsetSplits | src/operations/Operation.cc:246-255 | read back from its offset: a stream owns a group of banks and goes through them chunk by chunk, its rows one below the other |
| WeightTiles.GroupLargest | src/operations/Operation.cc:233-245 | the streams share out the banks as far as they go |
| WeightTiles.StripesLeast | src/operations/Operation.cc:233-245 | a row of tiles takes as few stripes as its bytes need |
| WeightTiles.AddressesApart | src/operations/Operation.cc:223-255 | two weights share a request exactly when they are in the same row of tiles and the same request of it |
| TileSearch.Largest | src/Mapping.cc:446-456 | the first of the largest sizes considered, output columns left out while they fill the array |
| TileSearch.ColumnsKept | src/Mapping.cc:446-456 | a lowering leaves output columns that fill the array alone as long as there is a second row, and takes them when they are wider or the rows are down to one and nothing else is as large |
| TileSearch.Lower | src/Mapping.cc:458-468 | channels go down to the next multiple of the array, others by one, never below one |
| TileSearch.LoweredIs | src/Mapping.cc:458-468 | channels go to the last multiple of the array below them, or to one |
| TileSearch.Shrink | src/Mapping.cc:444-476 | ends within bounds at the first tile that fits on the way of lowering, again and again, the first of the largest sizes |
| TileSearch.GrowColumns | src/Mapping.cc:479-501 | raises only the output columns, as far as they fit |
| TileSearch.Pass | src/Mapping.cc:503-530 | looks at the sizes in order, each growing by one if it passes the test; a pass that grows nothing shows that no size passes |
| TileSearch.Search | src/Mapping.cc:393-530 | lowers, raises the columns and passes over the sizes as the code does; ends, keeps every size between one and its maximum, fits, is locally maximal under the code's test, and keeps the largest tile whenever that fits |
| TileSearch.OnesFitFirst | src/Mapping.cc:351-391 | if any tile fits the all-ones tile does, so the search's precondition is necessary |
| TileSearch.InputReach | src/Mapping.cc:363-370 | the input rows counted hold every row the outputs look at, less than a stride past the last |
| TileSearch.FittingTileHolds | src/Mapping.cc:351-391 | a tile that fits has no more inputs, weights and outputs than the scratchpad and the accumulator have elements |
| TileSearch.FitsExactly | src/Mapping.cc:351-391 | a tile fits exactly when its inputs and weights, channels filled up to full groups, are within the scratchpad share in bytes, and four bytes for every output within the accumulator share |
| TileSearch.StopsExactly | src/Mapping.cc:503-530 | a tile is left as it is exactly when half as much again as its operands is over the share, or every size is the layer's or would not fit if it were one larger |
| TileSearch.SizeToldBefore | src/Mapping.cc:431-530 | what is known before the search: if the largest tile fits, the result meets the bytes test exactly when that tile does; if the largest tile passes so does the result; a result that passes needs an all-ones tile that passes |
| TileSearch.MeetsTestExactly | src/Mapping.cc:393-530 | whatever the search returns for a layer and for all smaller ones meets the bytes test exactly when every tile that fits passes it |
| TileSearch.SizeWithinTwice | src/Mapping.cc:519-530 | nothing grows from a start that fails the bytes test, and what has grown has at most twice the operands of a tile that passed it |
| TileSearch.OperandsWithinShare | src/Mapping.cc:351-391 | in a batch of one any tile that fits, such as the one returned, has operands within the scratchpad share when its kernel reaches over the padding, and otherwise within (1 + 2 padding)^2 times the share |
| TileSearch.SizeCanBeExceeded | src/Mapping.cc:431-470 | the largest tile is returned whenever it fits, here one that fails the bytes test |
| GemmMapping.InnerFits | src/Mapping.cc:72-103 | however far the tile counts are raised, a tile's side stays within the blocks there is room for |
| GemmMapping.AccumulatorFits | src/Mapping.cc:55-79 | sides within the integer square root fit the accumulator share |
| GemmMapping.ScratchpadFits | src/Mapping.cc:55-79 | sides and depth within their blocks fit the scratchpad share |
| GemmMapping.SideLargest | src/Mapping.cc:55-79 | a tile a block longer on both sides would not fit the accumulator share |
| GemmMapping.DepthLargest | src/Mapping.cc:55-79 | a tile of the largest side a block deeper would not fit the scratchpad share |
| GemmMapping.FewestLeast | src/Mapping.cc:72-79 | the tile counts before raising are the least that cover a dimension |
| GemmMapping.InnerShare | src/Mapping.cc:101-107 | an extent is whole blocks and less than a block short of an even share |
| GemmMapping.InnerNonZero | src/Mapping.cc:101-107 | the rounded inner extent is non-zero exactly when the tiles do not outnumber what the blocks allow |
| GemmMapping.RaiseTiles | src/Mapping.cc:81-99 | the tile counts end as the raising rule says |
| GemmMapping.RaisedMirrors | src/Mapping.cc:81-99 | rows are raised as columns are |
| GemmMapping.RaisedColumns | src/Mapping.cc:81-99 | only the longer side is raised, when longer than the number of cores: by the least factor that gives every core a tile, and by what is over a round |
| GemmMapping.Map | src/Mapping.cc:52-117 | maps exactly under the stated condition, to the extents of the raised counts; every mapping fits both shares and covers all dimensions with as few tiles as that takes |
| GemmMapping.OneBlockFails | src/Mapping.cc:81-111 | one block of columns, more columns than cores, two cores at least: the code divides by zero |
| TilePipeline.SomeBankFree | src/Core.cc:86-96 | fewer tiles than banks leave an accumulator bank free |
| TilePipeline.Core.FreeBank | src/Core.cc:86-96 | finds the first bank after the last one handed out that no live tile uses; the every-bank-live fallback is unreachable |
| TilePipeline.CandidatesInTurn | src/Core.cc:86-96 | the search goes from bank to bank, beginning after the last one handed out |
| TilePipeline.BankIsResult | src/Core.cc:77-86 | two resident tiles have one accumulator bank exactly when both accumulate into the result of one operator of one layer |
| TilePipeline.Core.Issue | src/Core.cc:47-130 | a tile gets its partners' accumulator bank or a free one, tiles share a bank exactly when they are partners, no live bank is flushed, and the operand bank is the next in rotation, stamped with the issue |
| TilePipeline.Core.Retire | src/Core.cc:252-273 | retiring in any order keeps the sharing invariant |
| TilePipeline.FlushesExactly | src/Core.cc:61-64 | an issue flushes the operand bank of a resident tile exactly when some resident tile was issued a whole number of rounds before |
| TilePipeline.NeverFlushesExactly | src/Core.cc:61-125 | over every run of a core no issue flushes a bank in use exactly when at each issue the oldest resident tile is one of the last depth - 1 issued |
| TilePipeline.InOrderNeverFlushes | src/Core.cc:61-64 | with in-order retirement and no skip tiles that is always so |
| TilePipeline.OutOfOrderFlush | src/Core.cc:252-273 | at every depth a round of tiles that retire before an older one gets that one's bank flushed |
| TilePipeline.SkipFlush | src/Core.cc:61-125 | at every depth a round of skipped tiles does the same |
| Scratchpad.Sram.constructor | src/Sram.cc:4-17 | banks of the tile depth, two when that is zero, all empty |
| Scratchpad.Sram.CheckHit | src/Sram.cc:19-24 | a hit is exactly an entry whose announced fills have all arrived |
| Scratchpad.Sram.Prefetch | src/Sram.cc:46-70 | allocates exactly when the entry is new and there is room; occupancy stays the sum of entry sizes, within the bank's size |
| Scratchpad.Sram.Fill | src/Sram.cc:72-96 | one fill arrives; the entry becomes valid exactly with the last |
| Scratchpad.Sram.CountUp | src/Sram.cc:98-105 | one more fill is expected and the entry is invalid until it comes |
| Scratchpad.Sram.Flush | src/Sram.cc:40-44 | the bank is empty, the others untouched |
| Scratchpad.TotalWithout | src/Sram.cc:46-58 | occupancy counts every entry once |
| Dataflow.Model.constructor | src/Model.cc:139-144 | exactly the operators fed from the start wait to run |
| Dataflow.Model.GetExecutable | src/Model.cc:189-196 | the operator taken has never run, and all its producers have finished |
| Dataflow.Model.SetLayerFinish | src/Model.cc:174-183 | readers fed only now join the waiting once each; nothing that ran or waits joins again |
| Dataflow.Model.SetFinish | src/operations/Operation.cc:118-125 | exactly the outputs of the operator become available |
| Dataflow.Model.CheckFinish | src/Model.cc:205-211 | true exactly when every operator has finished |
| Dataflow.AllFinished | src/Model.cc:174-196 | with nothing waiting and everything started finished, all operators of an acyclic graph have finished |
| Dataflow.ProducersFinished | src/operations/Operation.cc:154-163 | an operator waits or runs only after all its producers |
| LayerScheduler.Scheduler.IssueTilePerCore | src/scheduler/Scheduler.cc:80-97 | every waiting tile joins, in order, the queue of the core it asks for or of the next in turn |
| LayerScheduler.DealtKeeps | src/scheduler/Scheduler.cc:80-97 | dealing tiles over the cores neither loses nor doubles one |
| LayerScheduler.DealtInOrder | src/scheduler/Scheduler.cc:80-97 | a core gets its tiles in their order |
| LayerScheduler.CoresMoveOn | src/scheduler/Scheduler.cc:80-97 | the core a tile asks for moves on by one with every layer, the core of a tile that asks for none with every turn |
| LayerScheduler.SpreadEvenly | src/scheduler/Scheduler.cc:80-97 | tiles that leave their core open are spread evenly: the cores next in turn get one more than the others |
| LayerScheduler.Scheduler.GetTile | src/scheduler/Scheduler.cc:99-114 | the front tile of the core's queue goes out and is counted; asking in vain changes nothing |
| LayerScheduler.Scheduler.FinishTile | src/scheduler/Scheduler.cc:174-193 | the layer finishes exactly with its last tile, when none is queued or out |
| LayerScheduler.Scheduler.RefreshStatus | src/scheduler/Scheduler.cc:197-252 | the next layer starts only when nothing is active, its tiles dealt to the cores as planned, and the model ends only when all layers have finished |
| LayerScheduler.Scheduler.NeverStuck | src/scheduler/Scheduler.cc:197-252 | while the model is pending some tile is queued or out |
| LayerScheduler.Scheduler.RunAll | src/scheduler/Scheduler.cc:174-252 | in whatever order cores ask for tiles and give them back, every operator is started exactly once and finishes; it applies to a scheduler as constructed |
| RequestQueues.RoundRobin.Top | src/Core.cc:314-325 | shows the front of the sub-queue whose turn it is, coming round past the end |
| RequestQueues.RoundRobin.Pop | src/Core.cc:327-334 | takes that request and passes the turn to the next sub-queue |
| RequestQueues.OnceEach | src/Core.cc:314-334 | between two grants to a sub-queue that stays non-empty every other such sub-queue is granted exactly once |
| RequestQueues.TileOrder | src/Core.cc:314-334 | over every run a sub-queue is first in, first out: what waited and was pushed is, in order, what was granted and waits |
| RequestQueues.TurnsOn | src/Core.cc:314-334 | turns in a row add up: each takes the request next in turn |
| Transport.Interconnect.Push | src/Interconnect.cc:52-61 | joins its link behind the latency or one cycle behind the packet before; the link keeps order and contents |
| Transport.Interconnect.Cycle | src/Interconnect.cc:30-50 | every destination takes the first ready source in turn; links lose, double and reorder nothing |
| Transport.Interconnect.Pop | src/Interconnect.cc:77-79 | takes what came out first at the node and leaves every link as it was |
| Transport.Interconnect.LinkInOrder | src/Interconnect.cc:30-79 | everything pushed on a link has been popped at its end, waits there, or is on the link, in this order |
| Transport.TakenWhenDue | src/Interconnect.cc:30-50 | with nothing due nothing moves; else the first packet of one link whose time has come comes out, and only that, the turn passing to the next source |
| Transport.HeadAdvances | src/Interconnect.cc:30-50 | a ready head comes out or has fewer sources ahead |
| Transport.DeliveredInTime | src/Interconnect.cc:30-50 | a ready head comes out within as many cycles as there are nodes, whatever else arrives |
| Transport.LinkIsCoreAndChannel | src/Simulator.cc:337-343 | with a port per channel two requests use one link exactly when core and channel are the same |
| Transport.PortSplits | src/Simulator.cc:176-195 | port and channel node tell core and channel |
| InterconnectPhase.Simulator.CoreTurn | src/Simulator.cc:176-195 | a port's turn hands out the request next in turn of the core, on the port of its channel or the one tried, and takes a response that has come to that port |
| InterconnectPhase.Simulator.CoreTurns | src/Simulator.cc:176-195 | a core hands out one request a port, in turn, as long as it has any |
| InterconnectPhase.Simulator.MemoryTurn | src/Simulator.cc:198-214 | a channel takes what waits at its node unless it is full, and sends its response to the port its channel has at the core that asked |
| InterconnectPhase.Simulator.Phase | src/Simulator.cc:176-215 | a whole phase hands out a request a port and core in turn, gives every channel that is not full what waits, sends the responses back, advances the interconnect by a cycle and keeps the order |
| InterconnectPhase.Simulator.InOrder | src/Simulator.cc:176-215 | with a port per channel, one core's requests to one channel reach the memory in the order the core handed them out, none lost or doubled: they have reached it, wait at its node, or are on the link |

## Left out

- Integer width: all arithmetic is on unbounded integers; 32-bit wrap-around of sizes, rows, counters and addresses is not modelled.
- Floating point: bandwidth, energy and memory-size estimates, and the random draws behind accepted counts, which may be any value up to k.
- Input and output: configuration and trace files, environment variables (they are parameters), logging, plots, and statistics counters.
- Booksim2, Ramulator2 and the simple DRAM model are not part of this model.
- The scheduler and row policy of the DRAM controller (`get_head`, `get_victim`) are any choice; how they choose is not modelled. Which requests lead to processing-in-memory commands is not either.
- DramController.Channel.Tick: the refresh scheduler and the decoder enter as inputs of a tick; the row table and the serving-request statistics are not modelled.
- DramTiming.Node.Check: the state of banks and rows is the subject of BankProtocol, not of the timing tree.
- BankProtocol.Rank.Decode: models one rank; the channel node above it has no prerequisites of its own. Banks are entries of a sequence, not node objects.
- SpecDecScheduler.Scheduler.Drain: the simulator's turn is one scheduler cycle and then the end of the model in flight; how long the model takes is not modelled.
- SpecLockstep.Lockstep: compares one request under the same sequence of steps and counts; admission by KV budget and the order of the queue differ between the two sides and are not compared.
- SpecTrace.TraceRequest.Verify: weight walks and the address lines themselves are not modelled, only rows, stale rows and counts.
- KvAddress.TiledInjective: states the addresses within one tensor. The V bank offset and the pool shared between requests, whose slot count grows as tensors register, are not modelled.
- AddressPath.HeadOwnsItsBanks: states tokens of one tile shift and tensors that start at one bank slot, because tile shifts and rotation are there to move heads to other banks.
- BankDecode.DecodedBankIsSlot: assumes field widths that are powers of two and a chunk of one row of one bank in every channel, as the code's constants do.
- ChannelHash.NetworkIsResidue: the hash's second argument, a set index folded into the result, is zero wherever a channel is computed and is not modelled.
- GemmMapping.Map: the rounding mask is modelled as a remainder, which is the same for the power-of-two array heights in use.
- TileSearch.Search: assumes that the all-ones tile fits, which OnesFitFirst shows to be necessary.
- LayerScheduler.Scheduler.RunAll: one model at a time, every operator with a tile, no barrier tiles; partitions, time multiplexing and regressive models are not modelled.
- TilePipeline.Core.Issue: which instruction of a tile goes next is not modelled, only residence and banks.
- Transport.Interconnect.Cycle: buffers are kept by destination, so a push changes the column of its destination.
- InterconnectPhase.Simulator.Phase: what the memory offers and when it is full are inputs; without a port per channel only the order on each link is stated.
- Clock domains of the simulator, fused-attention tiling, normalisation, softmax, pooling and concatenation operators: easy members or instruction emission.
