# QCluster: a Dafny model and its proofs

QCluster puts outgoing packets into a few queues by comparing a weight with thresholds derived from running
averages, and then schedules those queues. This project models the places where a loop, a heap structure or exact
arithmetic carries the guarantee. Each stateful component is a class whose methods follow the code and are proved
against functions on values; what the component is for is then proved about those functions, over every run.

| files | what they model |
|---|---|
| `FairQueueIdeal.dfy`, `RotatingList.dfy`, `MessageQueues.dfy` | FQ_Ideal: a linked list of queue ids; each deque serves the first non-empty queue and moves its node to the tail. Fairness, liveness, equal shares and FIFO order over every run, for queues and for messages. |
| `FlowRounds.dfy`, `FairQueueCredits.dfy`, `CreditScheduler.dfy`, `CreditRules.dfy` | FQ_QC: thresholds, flow maps and credits. `FlowRounds` is the round robin in its simplest form (a refill counts distinct flows by looking at the queues); every run of FQ_QC is shown to be one of its runs. |
| `CountMinSketch.dfy`, `SketchCells.dfy` | CM_Sketch: an expiring count-min sketch in one shared array, against the exact burst counter of a flow. |
| `ThresholdRules.dfy`, `RuleQueues.dfy`, `SwitchController.dfy`, `SwitchLoop.dfy` | The control loop of the switch: wrap-corrected counters, aging, separated averages, geometric-mean thresholds and the range rules; and the closed loop with the registers that count the packets those rules classify. |
| `HostClassifier.dfy`, `FlowBuckets.dfy`, `FlowTable.dfy`, `EndHost.dfy`, `HostMarks.dfy` | The end host: the bitwise 64-bit square root, the nearest-average search, the aged statistics, the chained hash table on the heap, and the packet hook that joins them: what it marks, records and remembers. |
| `AttainedService.dfy`, `ServiceOrder.dfy`, `LasQueue.dfy` | Unknown: least attained service with repaired thresholds and aging averages. |
| `TcpEstimators.dfy`, `SenderLaws.dfy`, `TcpSender.dfy` | The sender's round-trip filter (section 2 of RFC 2988) and the DCTCP estimator with its window cut (section 3.3 of RFC 8257). |
| `Packets.dfy`, `Basics.dfy`, `RealFacts.dfy`, `IntegerRoot.dfy`, `RatioDistance.dfy` | FIFOs and byte counts, machine words, order facts about reals, floored roots, and why geometric means pick the nearest average. |

Inputs of the model that the code takes from elsewhere: the message hash of FQ_Ideal and BOBHash32 (arbitrary fixed
functions), clocks, register readings, whether kmalloc succeeds, and, for the code that computes with doubles, exact
reals with `sqrt` characterised by its square and `pow` only by mapping fractions to fractions.

What the proofs bring to light about the code:

- FQ_QC.cc:106-107 adds to `pkt_num` twice and never writes `pkt_sum`, so in every reachable state the thresholds
  are 1, 2, 3, ... and a packet's queue depends on nothing but its ordinal within its message
  (`FairQueueCredits.PlacedByOrdinal`).
- The eight range rules of the switch partition the weights 0 to 2^18 if and only if the product of the two largest
  separated averages is below 2^36. In the closed loop of switch and controller that holds after every reading as long
  as no packet weighs more than 260104 (`SwitchLoop.LightPacketsPartition`). Packets that no rule matches, which the
  switch counts for queue 0 whatever they weigh, can break it in three readings (`SwitchLoop.HeavyPacketsBreakPartition`).
- The size counter of the flow table also counts re-inserts of a flow that is already present; it is the number of
  stored flows if and only if there was none since the last clear (`FlowBuckets.SizeOvercounts`).
- The sketch never reads too low if and only if no counter wraps, given that the rows of a flow hit different cells
  (`CountMinSketch.EnoughUnlessOverflow`); when rows and flows share a cell, a wrap can go unnoticed
  (`CountMinSketch.SharedRowsHideOverflow`).
- A segment that is sent again is not counted again in its flow's bytes, but is recorded again in the statistics of a
  queue (`EndHost.ResentSegmentIsRecordedAgain`).
- The header comments of FQ_Ideal.cc and FQ_QC.cc speak of weighted round robin with an ECN marking scheme; FQ_Ideal
  weighs all queues alike, and FQ_QC marks by the port's total whatever the scheme. The model follows the code.

## Model

| member | source | states |
|---|---|---|
| FairQueueIdeal.WaitingIsFair | ns2/fairqueuing/queue/FQ_Ideal.cc:57-88 | In every run, from the moment a queue holds packets until it is served, no other queue is served twice, only queues in front of it are served, and at most 99 services happen |
| FairQueueIdeal.WaitingMovesUp | ns2/fairqueuing/queue/FQ_Ideal.cc:64-83 | Meanwhile every dequeue succeeds and each one moves the waiting queue up by exactly one place |
| FairQueueIdeal.ServedInTurn | ns2/fairqueuing/queue/FQ_Ideal.cc:57-88 | A queue with packets is served once more dequeues happened than queues stand in front of it |
| FairQueueIdeal.EqualShares | ns2/fairqueuing/queue/FQ_Ideal.cc:57-88 | Over any run, two queues that stay backlogged are served equally often, up to one service, and the difference is exactly the change of their order in the list |
| FairQueueIdeal.QueuesAreFifo | ns2/fairqueuing/queue/FQ_Ideal.cc:26-88 | Over any run, what left a queue followed by what it holds is what it held followed by what was accepted for it |
| FairQueueIdeal.RunKeepsInv | ns2/fairqueuing/queue/FQ_Ideal.cc:32-45 | Every run keeps each queue id in the list exactly once and the stored bytes within the limit |
| FairQueueIdeal.StepBytes | ns2/fairqueuing/queue/FQ_Ideal.cc:36-45 | Stored bytes change by exactly the packet that is accepted or leaves |
| FairQueueIdeal.DequeueKeepsInv | ns2/fairqueuing/queue/FQ_Ideal.cc:57-88 | A dequeue yields nothing if and only if every queue is empty, and keeps the list a permutation of the ids |
| FairQueueIdeal.PositionAfterMove | ns2/fairqueuing/queue/FQ_Ideal.cc:76-83 | Moving a node to the tail closes the gap and keeps all other pairs of ids in order |
| MessageQueues.StoredWhereHashed | ns2/fairqueuing/queue/FQ_Ideal.cc:32-54 | A packet that does not fit changes nothing; any other joins the queue hash % 100 of its message, with CE set if it had it or if it is ECN-capable and the bytes of the queue, or of the port, then exceed the marking threshold |
| MessageQueues.RunHashed | ns2/fairqueuing/queue/FQ_Ideal.cc:42-46 | Over every run each stored packet is in the queue that the hash of its message names |
| MessageQueues.MessagesAreFifo | ns2/fairqueuing/queue/FQ_Ideal.cc:26-88 | Over every run what left of a message, then what its queue holds of it, is what the queue held of it, then what was accepted of it |
| MessageQueues.MessagesLeaveInOrder | ns2/fairqueuing/queue/FQ_Ideal.cc:26-88 | From the empty queue on, the packets of a message leave in the order in which they were accepted |
| MessageQueues.MessagesShareEqually | ns2/fairqueuing/queue/FQ_Ideal.cc:57-88 | Messages whose hashes name different queues are served equally often, up to one service, while both wait |
| RotatingList.FQIdeal.constructor | ns2/fairqueuing/queue/FQ_Ideal.h:42-52 | The list starts as 0, 1, ..., 99 behind the head, well linked, with the last node as tail and all queues empty |
| RotatingList.FQIdeal.Enque | ns2/fairqueuing/queue/FQ_Ideal.cc:26-55 | The object's new value is the specified one; a packet is dropped exactly when it does not fit |
| RotatingList.FQIdeal.Rotate | ns2/fairqueuing/queue/FQ_Ideal.cc:76-83 | Unlinking a node and appending a fresh one keeps the list well linked up to the new tail and moves one id to the end |
| RotatingList.FQIdeal.Deque | ns2/fairqueuing/queue/FQ_Ideal.cc:57-88 | The search never runs past the tail; the new value and the packet are the specified ones |
| Packets.TotalBytesZero | ns2/fairqueuing/queue/FQ_Ideal.h:80-87 | The byte total is zero exactly when every queue is empty |
| Packets.TotalByteLength | ns2/fairqueuing/queue/FQ_Ideal.h:80-87 | The loop computes the byte total of all queues |
| Packets.Marked | ns2/fairqueuing/queue/FQ_Ideal.cc:48-54 | Marking sets CE exactly on ECN-capable packets under congestion and changes nothing else |
| Packets.ClampIsNearest | ns2/fairqueuing/queue/FQ_QC.cc:33-34 | The number of queues is the number from 1 to 8 that is nearest to the configured one |
| FairQueueCredits.ThresholdsSpread | ns2/fairqueuing/queue/FQ_QC.cc:61-77 | For all statistics each threshold exceeds its predecessor by at least one |
| FairQueueCredits.ChooseMonotone | ns2/fairqueuing/queue/FQ_QC.cc:79-86 | A larger packet count never selects an earlier queue |
| FairQueueCredits.EveryQueueReachable | ns2/fairqueuing/queue/FQ_QC.cc:61-86 | Every queue index is selected by some packet count |
| FairQueueCredits.FrozenThresholds | ns2/fairqueuing/queue/FQ_QC.cc:62-77 | While pkt_sum is zero the thresholds are 1, 2, 3, ... whatever pkt_num is |
| FairQueueCredits.PlacedByOrdinal | ns2/fairqueuing/queue/FQ_QC.cc:46-109 | In every run from the constructor, the queue of an accepted packet is determined by its ordinal in its flow's current message: queue 0 for the first three, one further queue for each later packet, up to the last |
| FairQueueCredits.TracksRun | ns2/fairqueuing/queue/FQ_QC.cc:46-109 | flow_count and message_id of every flow equal what the accepted packets say about its current message; pkt_sum never changes |
| FairQueueCredits.EnqueueKeepsInv | ns2/fairqueuing/queue/FQ_QC.cc:89-109 | Enque keeps the flow maps equal to the packet counts per flow and queue, without zero entries, and no queue with more credits than packets |
| FairQueueCredits.DequeueKeepsInv | ns2/fairqueuing/queue/FQ_QC.cc:121-157 | Deque keeps the same coupling and returns a packet exactly when one is stored |
| FairQueueCredits.SomeCredit | ns2/fairqueuing/queue/FQ_QC.cc:126-151 | When bytes are stored, the queue that is chosen exists, is not empty, and its flow map counts the packet that leaves |
| FairQueueCredits.DistinctFlows | ns2/fairqueuing/queue/FQ_QC.cc:135-138 | The size of a flow map is the number of distinct flows in the queue, hence at most its length |
| FairQueueCredits.RunRefines | ns2/fairqueuing/queue/FQ_QC.cc:28-157 | Every run of FQ_QC has the queues, credits and services of a run of the simple round robin |
| FairQueueCredits.CompleteRound | ns2/fairqueuing/queue/FQ_QC.cc:126-152 | Between two consecutive refills each queue is served once per flow it held at the first, in increasing queue order, whatever is enqueued meanwhile |
| FairQueueCredits.DepartsWithinRounds | ns2/fairqueuing/queue/FQ_QC.cc:126-152 | A packet with k packets ahead in its queue has departed, in its place, after k+1 complete rounds following the current one |
| CreditRules.ThresholdIsMean | ns2/fairqueuing/queue/FQ_QC.cc:61-86 | For all statistics a count passes queue i exactly when it is nearer in ratio to the upper estimate than to the lower one, both shifted by the threshold before |
| CreditRules.StoredAtTarget | ns2/fairqueuing/queue/FQ_QC.cc:38-118 | A packet that does not fit is dropped; any other joins its queue, with CE set if it had it or if it is ECN-capable and the port then holds more bytes than the threshold |
| CreditRules.StatisticsByOrdinal | ns2/fairqueuing/queue/FQ_QC.cc:46-109 | Over every run pkt_num is the sum of 1 and the ordinal over the packets placed in a queue, and count_flow_in lists a flow for exactly the queues that packets of its current message were placed in |
| CreditRules.RoundInNumbers | ns2/fairqueuing/queue/FQ_QC.cc:126-152 | Between two refills the queues come in increasing order, each as often as its packets had different flows at the first |
| FlowRounds.ServicesFollowSchedule | ns2/fairqueuing/queue/FQ_QC.cc:126-144 | While credits last, services so far followed by the remaining schedule are the schedule fixed at the last refill |
| FlowRounds.ServedEveryRound | ns2/fairqueuing/queue/FQ_QC.cc:126-152 | A queue with n packets is served at least once in each complete round until those n are gone |
| FlowRounds.QueuesAreFifo | ns2/fairqueuing/queue/FQ_QC.cc:97-153 | Nothing is lost, duplicated or reordered within a queue by any run |
| FlowRounds.CurrentFits | ns2/fairqueuing/queue/FQ_QC.cc:131-143 | Right after a refill too, every credit stands for a stored packet, and some queue has a credit unless all are empty |
| CreditScheduler.FQQC.constructor | ns2/fairqueuing/queue/FQ_QC.h:32-54 | The object starts with empty queues and zero counters, for any configured number of queues |
| CreditScheduler.FQQC.FillThresholds | ns2/fairqueuing/queue/FQ_QC.cc:61-77 | The loop fills Qthres with the specified thresholds |
| CreditScheduler.FQQC.ChooseQueue | ns2/fairqueuing/queue/FQ_QC.cc:79-86 | The loop finds the first queue whose threshold the count fits |
| CreditScheduler.FQQC.Enque | ns2/fairqueuing/queue/FQ_QC.cc:28-119 | The new value of all arrays and maps is the specified one and the coupling invariant holds |
| CreditScheduler.FQQC.Deque | ns2/fairqueuing/queue/FQ_QC.cc:121-157 | Likewise; no empty queue is ever popped |
| CountMinSketch.QueryNeverUnderestimates | ns2/srpt_las_ddl/queue/cm_sketch.h:21-44 | With time non-decreasing and no overflow in the flow's cells, from Init of a flow until its burst is over Query_count is at least the smaller of 0x7fffffff and 1460 per call of the burst |
| CountMinSketch.QueryIsExact | ns2/srpt_las_ddl/queue/cm_sketch.h:21-44 | Query_count equals that number when some cell of the flow is hit by one row of it and by no other flow |
| CountMinSketch.CellsCountBurst | ns2/srpt_las_ddl/queue/cm_sketch.h:21-34 | Each cell of a flow has counted every call of its current burst, despite shared cells and resets by other flows |
| CountMinSketch.PrivateCellIsExact | ns2/srpt_las_ddl/queue/cm_sketch.h:21-34 | A cell private to one row of one flow is the exact burst counter of that flow |
| CountMinSketch.ReportedBurstsAreNew | ns2/srpt_las_ddl/queue/cm_sketch.h:21-34 | Init returns true only when the flow starts a new burst |
| CountMinSketch.NewBurstsAreReported | ns2/srpt_las_ddl/queue/cm_sketch.h:21-34 | For a flow with an earlier call and a private cell, Init returns true if and only if the call starts a new burst |
| CountMinSketch.ShortHistoriesFit | ns2/srpt_las_ddl/queue/cm_sketch.h:30-31 | A history short enough cannot overflow any cell |
| CountMinSketch.EnoughUnlessOverflow | ns2/srpt_las_ddl/queue/cm_sketch.h:21-44 | Over every history, when the rows of each flow hit different cells: no estimate right after a call is too low if and only if the caller's cells never overflow |
| CountMinSketch.OverflowUnderestimates | ns2/srpt_las_ddl/queue/cm_sketch.h:30-44 | For any number of rows, 2941759 calls of a flow read as at most 844 when some cell is hit by one row of it, and as exactly 844 when its rows hit different cells |
| CountMinSketch.SharedRowsHideOverflow | ns2/srpt_las_ddl/queue/cm_sketch.h:21-44 | In a sketch of two rows where both rows of two flows hit one and the same cell, there is a history with an overflow in which no estimate is too low |
| SketchCells.InitSetsNamedCells | ns2/srpt_las_ddl/queue/cm_sketch.h:21-34 | Init brings exactly the cells hash(flow, row) % length to the present and leaves all others alone; when they differ, each is zeroed if it was idle and grows by 1460 |
| SketchCells.QueryIsMinimum | ns2/srpt_las_ddl/queue/cm_sketch.h:36-44 | A query is the minimum over the cells hash(flow, row) % length, and 2^31 - 1 at most |
| SketchCells.SeparateHashesAreExact | ns2/srpt_las_ddl/queue/cm_sketch.h:21-44 | When the hashes of a flow's rows name different cells, one of which no other caller's rows name, the estimate is the smaller of 2^31 - 1 and 1460 per call of the burst |
| SketchCells.FirstCallReport | ns2/srpt_las_ddl/queue/cm_sketch.h:21-34 | The first call of a flow with untouched cells is reported as a new burst exactly if it comes later than the interval less 1 |
| CountMinSketch.CMSketch.Init | ns2/srpt_las_ddl/queue/cm_sketch.h:21-34 | The arrays hold the replay of all calls, counters modulo 2^32, and the result says whether a cell had expired |
| CountMinSketch.CMSketch.QueryCount | ns2/srpt_las_ddl/queue/cm_sketch.h:36-44 | The loop computes the capped minimum, which never underestimates a current burst |
| ThresholdRules.RulesPartition | p4/qcluster.py:231-258 | The eight ranges are non-empty, pairwise disjoint and cover exactly 0 to 2^18 if and only if the product of the two largest separated averages is below 2^36 |
| ThresholdRules.SmallAveragesFit | p4/qcluster.py:235-238 | That is so whenever no separated average exceeds 2^18 |
| ThresholdRules.LightTrafficPartitions | p4/qcluster.py:141-258 | In every run in which the packets of each queue weigh at most 260104 on average between readings, the installed ranges partition |
| SwitchLoop.LightPacketsPartition | p4/qcluster.p4:217-266 | In every run of switch and controller from empty registers and no rules, with fewer than 2^31 packets between readings and none above 260104, the installed ranges partition after every reading |
| SwitchLoop.HeavyPacketsBreakPartition | p4/qcluster.p4:217-266 | A run of three intervals, whose packets are counted where the rules installed before them say, after which the installed ranges do not partition |
| SwitchLoop.PassedGains | p4/qcluster.p4:249-266 | The registers of a queue gain one packet per packet counted, and never more weight than those packets have, although the low half drops what does not fit |
| SwitchLoop.SignedIncrease | p4/qcluster.py:198-204 | From two readings of the 32-bit packet register as a signed number the wrap correction recovers every increase below 2^31 |
| SwitchLoop.Carries | p4/qcluster.p4:256-266 | Packets of one weight that just fill the low half leave it at 0 and add exactly 1 to the high half |
| ThresholdRules.RulesPickNearest | p4/qcluster.py:235-258 | A weight matches the rule of the queue whose separated average is nearest in ratio, the first one if several are |
| ThresholdRules.InstalledRules | p4/qcluster.py:159-258 | Both hold for the rules computed from the counters in every reachable state |
| RuleQueues.EachQueueOnce | p4/qcluster.py:245-258 | The rules name each of the queues 0 to 7 exactly once |
| RuleQueues.HeavierGoesLower | p4/qcluster.py:245-258 | In every reachable state a heavier weight never goes to a higher queue than a lighter one |
| RuleQueues.WeightGoesToNearest | p4/qcluster.py:221-258 | In every reachable state whose queue averages are one apart, a weight goes to the queue whose average is nearest in ratio, on a tie to the highest |
| ThresholdRules.ThresholdsAreApart | p4/qcluster.py:235-237 | Consecutive geometric-mean thresholds differ by at least one |
| ThresholdRules.SeparatedIsGapped | p4/qcluster.py:235-236 | The separated averages are at least one apart and none is below its average |
| ThresholdRules.SeparatedIsLeast | p4/qcluster.py:235-236 | They are the least list with that property |
| ThresholdRules.GainedIsReading | p4/qcluster.py:197-206 | The packet increments of a run are congruent to the latest reading modulo 2^31 and equal it when readings never decrease |
| ThresholdRules.GainedIsTrueCount | p4/qcluster.py:197-206 | When registers show a count modulo 2^31 and less than 2^31 packets come between readings, the increments add up to the true count |
| ThresholdRules.CountersFollowIncrements | p4/qcluster.py:166-206 | A packet counter is its start plus the increments, less what aging takes away |
| ThresholdRules.RunKeepsInv | p4/qcluster.py:146-213 | Every packet counter stays at least 10 and no weight counter becomes negative |
| ThresholdRules.AveragesAreNonNegative | p4/qcluster.py:221-228 | The branch for a packet count of zero is unreachable and averages are never negative |
| SwitchController.PortController.constructor | p4/qcluster.py:139-148 | The four lists start with the initial weights, ten packets each and empty records |
| SwitchController.PortController.WrappedDifference | p4/qcluster.py:198-211 | The correcting loop terminates with a non-negative number congruent to the difference modulo 2^31 |
| SwitchController.PortController.Age | p4/qcluster.py:166-170 | Both counters of a queue are halved exactly when its packet counter exceeds 256 |
| SwitchController.PortController.SeparateAndMean | p4/qcluster.py:235-238 | One loop yields the separated averages and the geometric means between them |
| SwitchController.PortController.UpdatePort | p4/qcluster.py:164-258 | One pass yields the specified counters and the rules for their averages |
| RatioDistance.NearestOfAll | endhost/main.c:57-66 | An average that beats its two neighbours in ratio beats all averages, strictly the earlier ones |
| RatioDistance.MeanDecides | p4/qcluster.py:237 | Between two averages the nearer one in ratio is decided by their geometric mean |
| HostClassifier.IntSqrt64 | endhost/main.c:20-39 | For every x below 2^63 the result is the floored square root |
| HostClassifier.BitLoop | endhost/main.c:27-36 | The loop ends with its specified result, in 64-bit arithmetic that never wraps |
| HostClassifier.LoopFindsRoot | endhost/main.c:26-38 | From any state that knows the root to a multiple of the current bit, the rounds that remain find the floored square root and no sum carries |
| HostClassifier.PriorityIsNearest | endhost/main.c:52-68 | For all statistics with averages below 2^32 and every positive byte count, get_priority finds the lowest of the queues with positive, strictly increasing averages whose average is nearest in ratio, or the queue after them for bytes nearest to the last |
| HostClassifier.EightQueuesNearest | endhost/main.c:52-68 | With eight positive, strictly increasing averages it is the lowest-index queue whose average is nearest in ratio |
| HostClassifier.RootDecides | endhost/main.c:62 | Comparing with the floored square root of the 64-bit product loses nothing |
| HostClassifier.RecordingsStayInBand | endhost/main.c:189-200 | Over every run the average of the recorded byte counts stays in their band up to one rounding, however often the counters are aged, and flow_cnt is at most 2560 |
| HostClassifier.RecordingsArePositive | endhost/main.c:191-200 | flow_cnt never returns to 0 once positive |
| HostClassifier.AgingKeepsRatio | endhost/main.c:197-200 | An aging step takes b/f to between (b-1)/f and b/(f-1) |
| HostClassifier.BytesFit | endhost/main.c:44-45 | The signed 64-bit byte counter cannot overflow while flows send less than 2^51 bytes |
| FlowBuckets.RunRefines | endhost/flow.c:165-362 | Any sequence of search, insert, delete and clear calls answers and leaves behind what the same calls on a finite map do; every flow sits in its hash bucket and no bucket holds two equal flows |
| FlowBuckets.TableIsMap | endhost/flow.c:132-362 | From the initialised table on, every run answers like a map, stores its keys, and has a size counter of their number plus the re-inserts since the last clear |
| FlowBuckets.InsertedInfo | endhost/flow.c:200-243 | An insert sets or overwrites the information of its own key and of no other |
| FlowBuckets.DeletedInfo | endhost/flow.c:267-294 | A delete removes its key and disturbs no other |
| FlowBuckets.SizeOvercounts | endhost/flow.c:246-362 | The size counter is the number of stored flows plus the re-inserts since the last clear, and is right if and only if there was none |
| FlowBuckets.TwiceInserted | endhost/flow.c:246-264 | Two inserts of one flow give size 2 with one stored flow |
| FlowBuckets.StoredFlowsAreKeys | endhost/flow.c:246-362 | The number of stored flows is the number of keys of the map |
| FlowBuckets.Hash | endhost/flow.h:69-79 | The hash is below 256 |
| FlowBuckets.HashIsProduct | endhost/flow.h:69-79 | The wrap of 32-bit products does not show: the hash is the true product of the four factors modulo 256 |
| FlowTable.FlowList.Search | endhost/flow.c:165-182 | The traversal returns the first node with the key, or null |
| FlowTable.FlowList.Insert | endhost/flow.c:200-243 | A present flow is overwritten in place, an absent one is linked in at the end; the list stays well linked and len is its node count |
| FlowTable.FlowList.Delete | endhost/flow.c:267-294 | The node is unlinked and the result is its 32-bit byte count but at least 1, or 0 |
| FlowTable.FlowList.Clear | endhost/flow.c:317-341 | The list ends well linked and empty |
| FlowTable.HashTable.Insert | endhost/flow.c:246-264 | Only the flow's own bucket and the size change, as specified |
| FlowTable.HashTable.Delete | endhost/flow.c:297-314 | Likewise |
| FlowTable.HashTable.Clear | endhost/flow.c:344-362 | All buckets are empty and the size is 0 |
| FlowTable.HashTable.Search | endhost/flow.c:185-197 | The node found is the one that the table's value holds for the key |
| FlowTable.HashTable.WriteInfo | endhost/main.c:166-182 | A write through the pointer that search returned changes the information of that key and nothing else |
| EndHost.Host.GetPriority | endhost/main.c:52-68 | The loop computes the specified priority |
| EndHost.Host.Process | endhost/main.c:118-210 | Table, statistics and priority after the packet hook are the specified ones |
| EndHost.HookIsLocal | endhost/main.c:150-205 | A packet disturbs the record of no flow but its own |
| EndHost.RunRecords | endhost/main.c:184-202 | The statistics of a queue after a run are the recordings of the large packets classified into it |
| EndHost.RunKeepsAverages | endhost/main.c:184-202 | From an empty end host, flow_cnt is at most 2560, is 0 exactly when nothing was recorded, and the average lies in the band of the recorded byte counts up to one rounding |
| EndHost.PrioritiesAreNearest | endhost/main.c:41-202 | In every run from empty statistics that records no byte count of 2^31 or more, every priority is the nearest one in the sense of HostClassifier.PriorityIsNearest |
| EndHost.RunIsModerate | endhost/main.c:184-202 | In such a run every average stays below 2^32 |
| EndHost.ResentSegmentIsRecordedAgain | endhost/main.c:98-202 | When a segment of at least 1400 bytes of a known flow is processed again, bytes_sent and last_seq stay, but the same byte count and payload are recorded in a queue's statistics a second time |
| HostMarks.IgnoredPacket | endhost/main.c:131-141 | Exactly the packets that are not TCP or not of the configured port get no mark, and they change nothing |
| HostMarks.SmallPacketMark | endhost/main.c:150-188 | Control packets, segments of unknown flows and segments below 1400 bytes get priority 0 and leave the statistics alone |
| HostMarks.LargeSegmentMark | endhost/main.c:171-205 | A segment of at least 1400 bytes of a known flow is marked with the priority that is nearest for the bytes its flow has then sent, modulo 2^32, and enters the statistics of that queue and of no other |
| HostMarks.MarkAfterRun | endhost/main.c:118-210 | So it is after every run from empty statistics that records byte counts below 2^31 |
| HostMarks.PacketsRoundUp | endhost/main.c:191-193 | A payload counts as the number of packets of 1500 bytes it takes, rounded up |
| HostMarks.DataRecord | endhost/main.c:171-182 | A data segment changes of its flow's record only the byte count, sequence number and time, and notes the count for the queue it is classified into |
| HostMarks.NewRecord | endhost/main.c:150-154 | A SYN starts a fresh record, also for a known flow, unless there is no memory for a new one |
| HostMarks.RecordsFollowPackets | endhost/main.c:150-182 | In every run from an empty table the record of every flow is what its packets alone say |
| HostMarks.InOrderBytes | endhost/main.c:160-176 | A flow that sends its data in order after its SYN is known by exactly the bytes it has sent, across any wrap of sequence numbers |
| HostMarks.SequenceOrder | endhost/main.c:98-107 | Across the wrap, up to 67295 bytes ahead is larger and up to 67295 bytes behind is not |
| AttainedService.ThresholdsIncrease | ns2/srpt_las_ddl/queue/unknown.cc:59-73 | The repaired thresholds increase strictly for all statistics |
| AttainedService.AveragesStayInFront | ns2/srpt_las_ddl/queue/unknown.cc:59-77 | A packet at or below a queue's average is never placed behind that queue |
| AttainedService.ChooseMonotone | ns2/srpt_las_ddl/queue/unknown.cc:75-77 | More attained service never selects an earlier queue |
| AttainedService.AverageStaysWithin | ns2/srpt_las_ddl/queue/unknown.cc:83-93 | Over every run a queue's average stays between the least and the greatest value recorded in it, however often it ages |
| AttainedService.RunKeepsInv | ns2/srpt_las_ddl/queue/unknown.h:94-99 | distinct is 0 or at least 1 in every reachable state, and packets sit only in queues in use |
| AttainedService.WeightIsAttainedService | ns2/srpt_las_ddl/queue/unknown.cc:48-57 | In every run the weight of a full-sized packet is what the full-sized packets of its message have brought so far |
| ServiceOrder.WeightGoesToNearest | ns2/srpt_las_ddl/queue/unknown.cc:59-77 | When every queue in use has learned a positive average and the averages increase, a packet joins the queue whose average is nearest in ratio to its weight less 1, the first one on a tie |
| ServiceOrder.RepairedThresholds | ns2/srpt_las_ddl/queue/unknown.cc:59-73 | A queue that has learned nothing has the threshold before it plus 2^25; a mean that does not exceed the threshold before is replaced by that plus 1460 |
| ServiceOrder.SmallPackets | ns2/srpt_las_ddl/queue/unknown.cc:44-57 | A packet without TCP payload goes to queue 0, and one below full size weighs its payload |
| ServiceOrder.StoredAtTarget | ns2/srpt_las_ddl/queue/unknown.cc:36-101 | A packet that does not fit is dropped; any other joins its queue, with CE set if it had it or if it is ECN-capable and the queue, or the port, then holds more bytes than the threshold |
| ServiceOrder.StatisticsGain | ns2/srpt_las_ddl/queue/unknown.cc:83-93 | The queue of a packet with TCP payload gains its weight and 1; after more than a second the queues in use with more than 128 are then halved |
| ServiceOrder.StrictPriority | ns2/srpt_las_ddl/queue/unknown.cc:104-120 | The first packet of the first queue that holds one leaves |
| ServiceOrder.QueuesAreFifo | ns2/srpt_las_ddl/queue/unknown.cc:26-120 | Over every run what left a queue, then what it holds, is what it held, then what was accepted for it |
| LasQueue.Unknown.ChooseQueue | ns2/srpt_las_ddl/queue/unknown.cc:59-77 | The loops compute the specified thresholds and choice |
| LasQueue.Unknown.Enque | ns2/srpt_las_ddl/queue/unknown.cc:26-102 | The object's new value is the specified one; a packet is dropped exactly when it does not fit |
| LasQueue.Unknown.Deque | ns2/srpt_las_ddl/queue/unknown.cc:104-120 | The first non-empty queue is served, and a packet leaves exactly when one is stored |
| TcpEstimators.EstimateStaysWithin | ns2/srpt_las_ddl/tcp/tcp.cc:607-649 | Over every run of samples in [lo, hi] and backoffs the smoothed time, while there is one, stays in [lo, hi]; without a backoff there is one from the first sample on |
| TcpEstimators.SampledInRange | ns2/srpt_las_ddl/tcp/tcp.cc:607-620 | One sample keeps it there, and the clamp of t_srtt_ to 1 never fires |
| TcpEstimators.DeviationStaysWithin | ns2/srpt_las_ddl/tcp/tcp.cc:613-649 | The deviation estimate stays between 0 and the largest sample |
| TcpEstimators.Settles | ns2/srpt_las_ddl/tcp/tcp.cc:607-612 | Under a constant round-trip time the filter reaches exactly that value in bounded time and stays there |
| TcpEstimators.TicksWithin | ns2/srpt_las_ddl/tcp/tcp.cc:590-599 | A time of lo to hi ticks is measured as lo to hi, with and without timestamps |
| TcpEstimators.TimeoutCoversRoundTrip | ns2/srpt_las_ddl/tcp/tcp.cc:622-628 | The timeout is never below the smoothed time, and at most five times the largest sample plus rounding for exponent 2 |
| TcpEstimators.EcnRunOk | ns2/srpt_las_ddl/tcp/tcp.cc:1552-1585 | Every run keeps 0 <= marked <= total and the estimate in [0, 1] |
| TcpEstimators.AlphaIsMovingAverage | ns2/srpt_las_ddl/tcp/tcp.cc:1560-1584 | The estimate is the moving average of the marked fractions of the observation windows |
| TcpEstimators.ErrorShrinks | ns2/srpt_las_ddl/tcp/tcp.cc:1580 | Windows with a constant fraction shrink the error by the factor 1 - gain each |
| TcpEstimators.EveryCutIsBounded | ns2/srpt_las_ddl/tcp/tcp.cc:1519-1545 | In every run each cut of ecn() leaves cwnd_ at least 1, at most the larger of 1 and windowd and, for an ECN-hat sender, at least half of windowd |
| TcpEstimators.OneCutPerWindow | ns2/srpt_las_ddl/tcp/tcp.cc:1519-1545 | After a cut, and until a timeout or a lower recovery point, a run ends in the same state as the run without its echoes of data sent before the cut, whatever echoes of newer data and other window changes it contains |
| TcpEstimators.CutIsBounded | ns2/srpt_las_ddl/tcp/tcp.cc:1384-1428 | The bounds of one cut, for cwnd_ and ssthresh_ |
| TcpEstimators.HalvedIsBounded | ns2/srpt_las_ddl/tcp/tcp.cc:1334-1428 | The bounds of a cut without ECN-hat: at least one segment, nothing added, and a first cut takes at most half of the window plus one segment of rounding |
| TcpEstimators.CutIsMonotone | ns2/srpt_las_ddl/tcp/tcp.cc:1397-1402 | More congestion cuts at least as deep |
| TcpEstimators.ExponentBetween | ns2/srpt_las_ddl/tcp/tcp.cc:1319-1328 | The size-dependent exponent interpolates between its two ends |
| SenderLaws.FirstSample | ns2/srpt_las_ddl/tcp/tcp.cc:615-620 | The first sample is the smoothed time, and half of it the deviation |
| SenderLaws.LaterSample | ns2/srpt_las_ddl/tcp/tcp.cc:607-614 | A later sample moves the smoothed time by an eighth of its distance and the deviation by a quarter of the distance to that distance, in fixed point |
| SenderLaws.TimeoutsDouble | ns2/srpt_las_ddl/tcp/tcp.cc:632-649 | Timeouts in a row double the multiplier from 1 to 64; the fourth drops the estimate and adds it to the deviation |
| SenderLaws.TimeoutIsFourDeviations | ns2/srpt_las_ddl/tcp/tcp.cc:622-628 | With exponent 2 the timeout is the smoothed time and four deviations |
| SenderLaws.TicksRound | ns2/srpt_las_ddl/tcp/tcp.cc:590-599 | Times are rounded to the nearest tick with timestamps, and down after the offset without |
| SenderLaws.FractionOfBytes | ns2/srpt_las_ddl/tcp/tcp.cc:1572-1575 | The marked fraction of a window times its bytes is its marked bytes |
| SenderLaws.AckedBytesCases | ns2/srpt_las_ddl/tcp/tcp.cc:1560-1562 | New data acknowledges its bytes, a duplicate one segment |
| SenderLaws.EachAckPulls | ns2/srpt_las_ddl/tcp/tcp.cc:1557-1558 | Without smoothing each acknowledgement pulls the estimate towards 1 or 0 by the gain |
| SenderLaws.WindowCounts | ns2/srpt_las_ddl/tcp/tcp.cc:1563-1584 | Counts grow within a window and restart with the next, which ends beyond the highest sequence number |
| SenderLaws.CutDepth | ns2/srpt_las_ddl/tcp/tcp.cc:1384-1402 | Factor 0 keeps the window, factor 1 halves it, and equal steps of the factor take equal amounts off |
| SenderLaws.CutIsExact | ns2/srpt_las_ddl/tcp/tcp.cc:1384-1428 | After a cut cwnd_ is W - factor * W / 2 but at least 1, and ssthresh_ its whole part but at least 2 |
| SenderLaws.ExponentIsLinear | ns2/srpt_las_ddl/tcp/tcp.cc:1319-1328 | The exponent falls linearly from its maximum at the small size to its minimum at the large one |
| SenderLaws.HalvedIsExact | ns2/srpt_las_ddl/tcp/tcp.cc:1333-1428 | Without ECN-hat the first cut, and one in slow start, halves the window; later ones scale it by decrease_num_ |
| SenderLaws.WholeWindows | ns2/srpt_las_ddl/tcp/tcp.cc:1353-1396 | Without precision_reduce_ the same holds of whole windows |
| SenderLaws.EchoNotes | ns2/srpt_las_ddl/tcp/tcp.cc:1519-1530 | A cut moves the recovery point to the highest sequence number and forgets the timeout; the second echo at a window of one segment backs off the timer |
| TcpSender.TcpAgent.RttUpdate | ns2/srpt_las_ddl/tcp/tcp.cc:585-620 | The fields hold the specified filter step for the measured ticks |
| TcpSender.TcpAgent.RttBackoff | ns2/srpt_las_ddl/tcp/tcp.cc:632-649 | The multiplier doubles and the estimate is dropped as specified |
| TcpSender.TcpAgent.UpdateAlpha | ns2/srpt_las_ddl/tcp/tcp.cc:1552-1585 | The fields hold the specified estimator step |
| TcpSender.TcpAgent.Slowdown | ns2/srpt_las_ddl/tcp/tcp.cc:1306-1428 | The flags that ecn() passes, for both kinds of sender, lead to the specified, bounded cut |
| TcpSender.TcpAgent.Ecn | ns2/srpt_las_ddl/tcp/tcp.cc:1519-1545 | With and without ecnhat_, a cut happens exactly for an echo beyond recover_ or after a timeout, with the specified new state |

## Left out

- Floating-point rounding: averages, thresholds and windows are exact reals; `sqrt` of a product of two ints in FQ_QC is its exact floored root.
- Overflow of signed ints that the code does not guard (byte totals, pkt_num, flow_count, t_srtt_); wrap-around is modelled where it is part of the behaviour: sketch counters, sequence numbers, 32- and 64-bit byte counts, register differences and the 16-bit difference of the round-trip filter.
- A change of queue_num_ through Tcl in the middle of a run: it is an arbitrary number, but fixed.
- Locks and concurrent packets in endhost: each packet hook is one atomic step; NULL arguments of the flow functions, and jprobe.c, which resets bytes_sent at a new message.
- int_sqrt of the kernel, used when x fits an unsigned long: it is not part of this model, and the floored root stands in for it; the host classifier is modelled for a 64-bit unsigned long.
- For x of 2^63 and above the shift in qcluster_int_sqrt64 is undefined on 32-bit machines and is excluded.
- P4Connector's table handles, printing, timing and sleeping; ports are independent, so one port is modelled, with register readings as inputs and the rule list as output.
- TcpSender.TcpAgent.Slowdown: does not model the flags that only other callers than ecn() pass, the window options 6 and 8 or the window of F-RTO; what those callers do to window, threshold and recovery point appears as arbitrary events.
- TcpSender.TcpAgent.Ecn: leaves out target_wnd and the tcp-friendly increase that it sets, because nothing reads them: opencwnd() computes the increase anew (tcp.cc:1190) and the use of target_wnd is commented out (tcp.cc:1205-1208).
- opencwnd(), whose increases appear as arbitrary events too.
- The P4 pipeline, except how packets are classified and counted: their weights are inputs, the high half of the weight register does not wrap, and reading the registers and installing rules is one step.
- SACK, F-RTO and connection handling of tcp-full.cc, Tcl binding, tracing and the scripts.
- known.cc, priority.cc, appro_unknown.cc and FQ_AFQ.cc: near copies of the queues above or, for FQ_AFQ, an order that its slot arithmetic does not establish.
