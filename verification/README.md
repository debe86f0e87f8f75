# Verification of the market-data replay and fill engines

The system replays recorded exchange data (order-book snapshots, depth changes, prints) and decides what
would have happened to hypothetical orders. It does so several times over, with different data structures:
an index with a search tree and running volumes, a streaming exporter with lazily resolved labels, a grid of
25 queue assumptions per order, ledgers per displayed level, a quote dataset with cooldowns, two trading
simulators, and a storage layer that packs, rotates and replays the raw records. Each of these carries
caches, sentinels or shortcuts whose correctness is not visible in any one function. This project models
them in Dafny and proves that the shortcuts change nothing and that the promised invariants hold on every
run.

Times are natural numbers and prices and quantities are integers (ticks, lots, half ticks for mids); the
market-maker simulator uses reals. A callback of the C++ observers is a method of a class with the
same state; ghost fields record the history a claim is about (everything placed, every print, every record
stamp), so that the class invariant `Valid()` says what is true on every run and not only after one call.
Three files then drive a whole replay through the observers, callback by callback in the order of the replay
loop, over any sequence of records, and state what the files at the end contain in terms of the records alone;
`DepthRecords` makes such records from raw messages.

## How the files fit together

- `ExtremeTree`, `FillModel`, `FillAnswers`, `PassiveQueue`, `PassiveIndex`: the indexed fill evaluation equals a
  walk over every trade ever added, and what its answer has to say.
- `OrderBooks`, `DepthSync`: the book, and the synchroniser that builds it from snapshots and events.
- `QueueGrid`, `QueueSensitivity`: the 25 coupled cells of one order and the observer around them.
  `FillAgreement` shows the indexed, the streaming and the grid engine agree.
- `NativeRows`, `NativeResolver`, `NativeTruth`, `NativeEvents`, `NativeCalls`, `NativeCounts`,
  `NativePassives`, `NativeTracking`, `NativeDataset`: one pending row, the lazy against the eager resolver, what
  each label must say given the history, the two event streams, one resolver call, the counters, the half of a
  row labels do not touch, what holds between and inside records, and the exporter class. `NativeRaces` says
  what the book races record over a whole stream of events; `NativeWindows` is the sliding-window part.
- `EventWindows`, `EventQuotes`, `EventDataset`, `EventRuns`: the event-selective quote dataset, and two short
  runs of it.
- `LevelEpisodes`, `LevelRows`, `LevelLifecycle`: per-level ledgers and forward labels.
- `Replays`, `DepthRecords`, `Grids`, `GridRuns`: the records of a replay, where they come from, sampling grids,
  and what a run makes of a grid.
- `NativeReplay`, `LevelReplay` and `QueueReplay` drive the three observers through a whole replay. What their
  files must contain is said in terms of the records by `NativePlans` (which samples), `NativeLives` (the life of
  one row), `NativeFills` (where its orders rest and what fills them), `NativeSegments` (its labels) and
  `NativeStamps` (its race stamps), by `LevelStretches` (the episodes), `LevelLedgers` (their ledgers) and
  `LevelSampling` (the sampled rows), and by `QueuePlans` (which orders), `QueueLives` (the life of one),
  `QueueLedgers` (its 25 cells) and `QueueWindows` (when a fill can fall outside its window).
- `ReplayTrades` is the trade file of a replay; `IndexAgreement` and `NativeAgreement` compare the emitted orders
  and the written rows with the trade index over all of it.
- `MarketMaker`, `MarketBooks`, `MarketDay`, `MarketLimits`, `BookWalk`, `DayRun`, `DayTrades`: the two trading
  simulators, what their days come to, and how large a fill the limits of the first one bear.
- `Packer`, `PackerRun`, `PackerReplay`: packing historical messages, the whole packing run, and what a replay
  of its stream does. `RawFormat`, `RawLayout`, `RawFile`, `RawLedger`, `RawWriter`, `RawChain`: the record format
  and its layout, files, the rotating writer, and chain validation.
- `DailyGrid`, `DailyExporter`: trade buckets and the causal 100 ms grid.

## Results that differ from what a reader may expect

- A record stamped like the one before it can lose a mid move in the lazy label resolver.
  `NativeResolver.LazyCallExact` says exactly when a call is right; `NativeCalls.TiedRecordLosesTheMove` is an
  input where it is not. Strictly rising record stamps are sufficient, and the label theorems state that.
- The header of the native exporter calls a zero race stamp "not observed inside the window"; the code also
  records the first depth event at or after its end, and stops there. `NativeRaces.RaceStampsInside` says
  exactly when a stamp lies inside: when that event is not past the end, or does not settle the race, or an
  earlier one had (`NativeEvents.RaceStampCanPassTheWindow` is an input where it does not).
- A sampled level is retired before the prints of the record that reaches its widest horizon, so a print
  stamped exactly there belongs to the window and does not reach the label, unless the level was sampled in
  the announcement of that very record. `LevelSampling.SeesExactly` compares a row with every print of its
  segment: narrower horizons are exact, and each label of the widest one is exact if and only if no such print
  counts for it; `LevelReplay.MissesAPrint` is a run where one does.
- The tests expect no fill of the queue observer after the end of its observation. An order placed for an
  instant inside a gap longer than its window is still resting when the trade that ends the gap arrives:
  `QueueWindows.FillsInWindowIff` says that this is the only way, and `QueueWindows.FillsAfterItsWindow` is such
  a run. Records closer together than the window rule it out (`QueueWindows.CloseRecordsAreNeverLate`).
- A replacement snapshot stamped no later than a waiting quote's placement leaves the quote an empty window,
  and the index refuses to evaluate it. `EventQuotes.NoWindowNoRow` says exactly when a query is refused, the
  contracts of `EventDataset` carry that to the run, and `EventRuns.DecideThenCut` is the run: a decision and a
  snapshot at one stamp stop it, a later snapshot does not.
- A decision of the quote dataset stamped zero counts as none: the next one may follow at once, whatever the
  cooldown (`EventRuns.DecideAtZero`).
- The inventory limits rest on the schedule's promise that no fill exceeds the quoted size, which nothing
  checks. `MarketLimits.FillBoundIsExact` says exactly how large a fill may be before some schedule violates a
  limit: larger than the quoted size, larger than the room the hard limit leaves above the soft one, not
  ignored as dust, and with quotes permitted at all. `MarketLimits.Overfill` runs such a schedule through the
  simulator.
- Chain validation lets a file without a manifest pass anywhere. `RawChain.ExactIffManifested`: it accepts
  exactly the non-empty prefixes of what one writer wrote if and only if every file has its manifest.

## Model

| member | source | states |
|---|---|---|
| `ExtremeTrees.FirstBeyondIsLeast` | cpp/research/passive_queue.cpp:118-126 | the specification of the search: the answer is the least index of the interval printed strictly beyond the quote, or the number of trades when there is none |
| `ExtremeTrees.NodeBeyondIffLeafBeyond` | cpp/research/passive_queue.cpp:57-82 | a node's stored extreme is beyond the quote exactly when some trade below it is, for every quote and every padding |
| `ExtremeTrees.PruneIsSound` | cpp/research/passive_queue.cpp:84-116 | cutting a subtree off by its extreme never loses an answer |
| `ExtremeTrees.FirstSatisfyingImpl` | cpp/research/passive_queue.cpp:84-116 | the recursive descent returns what a linear scan of the covered part of the query would |
| `ExtremeTrees.Visits` | cpp/research/passive_queue.cpp:84-116 | a subtree inside the query costs one visit when it holds no answer and at most 2h+1 when it does; one cut by a single end of the query 2h+1 or 4h+1 |
| `ExtremeTrees.VisitsBound` | cpp/research/passive_queue.cpp:84-116 | in every case the descent visits at most 6h+1 nodes of a tree of height h |
| `ExtremeTrees.ExtremeTree.Build` | cpp/research/passive_queue.cpp:57-76 | after building, every inner node is the extreme of its children and the leaves are the trades, for every size including none and non-powers of two |
| `ExtremeTrees.ExtremeTree.CombineUp` | cpp/research/passive_queue.cpp:57-76 | the bottom-up pass over the array establishes the heap property from the leaves alone |
| `ExtremeTrees.ExtremeTree.FirstSatisfying` | cpp/research/passive_queue.cpp:118-126 | the public search equals the linear scan, and is refused beyond the trades |
| `FillModel.RunUnresolved` | cpp/research/passive_queue.cpp:185-343 | while nothing has resolved an order, its trade-by-trade progress is the level volume, the print count and the print that exhausted the queue |
| `FillModel.RunResolved` | cpp/research/passive_queue.cpp:185-343 | which print resolves the order, and what the walk reports from there on |
| `FillAnswers.ReportAnswers` | cpp/research/passive_queue.cpp:309-343 | every field of an outcome, told of the prints alone: full exactly when some print completes the order, partial exactly when the level printed more than the queue but no print did; what was consumed, traded and counted up to that print; the stamps of the first print past the queue and of the completing one; its price when it went through the quote |
| `FillAnswers.AnswerIsUnique` | cpp/research/passive_queue.cpp:309-343 | no other outcome says that |
| `PassiveQueue.LandmarksDetermineRun` | cpp/research/passive_queue.cpp:202-341 | three positions found by searching (first print through, queue exhausted, order completed) determine the whole walk, whatever their order |
| `PassiveQueue.SentinelIsSafe` | cpp/research/passive_queue.cpp:240-281 | a zero local time means "none" without ambiguity, because a print inside the window is stamped after placement |
| `PassiveQueue.BeatsIsBefore` | cpp/research/passive_queue.cpp:254-281 | comparing stamps with the zero sentinel is comparing positions in the trade stream |
| `PassiveQueue.LowerBound` | cpp/research/passive_queue.cpp:19-29 | the binary search splits a sorted stretch at the first element not below the value |
| `PassiveQueue.UpperBound` | cpp/research/passive_queue.cpp:31-41 | the binary search splits a sorted stretch at the first element above the value |
| `PassiveQueue.FindCrossing` | cpp/research/passive_queue.cpp:224-251 | searching the running volumes finds the very print at which the level's volume reaches the target, or reports that the window never reaches it |
| `PassiveQueue.EffectiveEnd` | cpp/research/passive_queue.cpp:286-313 | the rank at which the level's volume stops counting is the one of the resolving print, ties in local time included |
| `PassiveQueue.FindWindow` | cpp/research/passive_queue.cpp:200-201 | the two searches delimit exactly the prints strictly between placement and end |
| `PassiveQueue.EvaluateSide` | cpp/research/passive_queue.cpp:185-343 | the logarithmic evaluation returns, field by field, the record a walk over every print of the side would give, or refuses an invalid query; and each field says what the prints make of it (`FillAnswers.Answers`) |
| `PassiveIndex.HistoryRunIsRun` | cpp/research/passive_queue.cpp:128-157 | walking the whole history and skipping the wrong aggressor is walking the aggressor's own column |
| `PassiveIndex.PrintsOrdered` | cpp/research/passive_queue.cpp:128-183 | without a local-time regression each side's prints are ordered by local time and strictly by ordinal |
| `PassiveIndex.RowIsPrint` | cpp/research/passive_queue.cpp:128-157 | the prints of a side are exactly the rows of its aggressor, in row order (with `PrintIsRow`) |
| `PassiveIndex.RunningVolumes` | cpp/research/passive_queue.cpp:159-183 | prefix sums of a level are built exactly, and are refused exactly when its volume leaves the 64-bit range |
| `PassiveIndex.FillPrefixes` | cpp/research/passive_queue.cpp:159-183 | all levels get their running volumes in any iteration order, or the overflow is reported, exactly when some level overflows |
| `PassiveIndex.PassiveTradeIndex.AddTrade` | cpp/research/passive_queue.cpp:128-157 | a trade joins the history or is refused with the error the source gives, and the columns and levels stay those of the history |
| `PassiveIndex.PassiveTradeIndex.Finalize` | cpp/research/passive_queue.cpp:159-183 | finalizing succeeds exactly when stamps never regressed and no level overflows; it is idempotent and changes no history |
| `PassiveIndex.PassiveTradeIndex.Evaluate` | cpp/research/passive_queue.cpp:345-375 | main result: for every history, side, price, size, queue and interval the index answers what a trade-by-trade walk over everything ever added answers, with the same errors; and every field of the answer is what the prints of the opposite aggressor inside the interval make of it (`FillAnswers.Answers`) |
| `OrderBooks.UpsertIsAssignment` | cpp/book/order_book.cpp:31-43 | one quoted level sets its own price, leaves every other price alone and keeps the side ranked |
| `OrderBooks.ApplyLevelsIsLastQuoted` | cpp/book/order_book.cpp:31-43 | after a message every price shows the last quantity the message quoted there, else what it showed before; rejected exactly on a negative price or quantity |
| `OrderBooks.UsableIff` | cpp/book/order_book.cpp:45-74 | a book is two-sided and uncrossed exactly when, by what the messages quoted, something is displayed on both sides and every displayed bid lies below every displayed ask |
| `OrderBooks.OrderBook.LoadSnapshot` | cpp/book/order_book.cpp:49-58 | a snapshot is loaded exactly when nothing in it is negative and it leaves something on both sides with every bid below every ask; the book then shows exactly its levels |
| `OrderBooks.OrderBook.ApplyDepthEvent` | cpp/book/order_book.cpp:60-74 | an event is applied exactly when the book was usable and stays so by the same rule; it overwrites exactly the prices it quotes, an unusable book is left alone and any rejection leaves the book unusable |
| `DepthSync.ShowsOn` | cpp/exchange/binance/depth_sync.cpp:60-97 | one more event that continues the chain leaves the book showing, at every price, the last quantity the snapshot or an event since quoted there |
| `DepthSync.DepthSynchronizer.ApplyFirst` | cpp/exchange/binance/depth_sync.cpp:60-80 | the first event after a snapshot is applied exactly when it brackets the snapshot and leaves the book usable; an older one is stale, a later one a gap |
| `DepthSync.DepthSynchronizer.ApplyContiguous` | cpp/exchange/binance/depth_sync.cpp:82-97 | every later one is applied exactly when it names the last one applied and leaves the book usable; one that goes no further is stale, any other a gap |
| `DepthSync.DepthSynchronizer.OnSnapshot` | cpp/exchange/binance/depth_sync.cpp:99-143 | a snapshot makes the book live exactly when it reports success, and then the book shows the snapshot and every event that waited and goes beyond it, none of them missing; where it then stands follows from the ids alone unless a book came out unusable |
| `DepthSync.DepthSynchronizer.OnDepth` | cpp/exchange/binance/depth_sync.cpp:145-170 | over every run a live book shows its snapshot and a gapless chain of events since; an event is reported as applied exactly when it continues that chain and keeps the book usable, and one that is not leaves a live book as it was; where it then stands follows from the ids alone unless a book came out unusable or the buffer ran over |
| `DepthRecords.Records` | cpp/replay/event_replayer.cpp:142-315 | whatever the messages, the records the observers are shown are what their whole-replay theorems ask for: a live book is usable, only snapshots and applied events change it, and an applied event leaves it live |
| `QueueGrid.ScaleMonotone` | cpp/research/queue_sensitivity.cpp:38-42 | scaling by a larger percentage never gives less, truncation included |
| `QueueGrid.PlacementKeepsGrid` | cpp/research/queue_sensitivity.cpp:139-164 | a new order starts with its 25 cells ordered by assumption |
| `QueueGrid.PrintKeepsGrid` | cpp/research/queue_sensitivity.cpp:376-430 | a print keeps every more optimistic cell at least as far along, and its fill stamp no later |
| `QueueGrid.DepthKeepsGrid` | cpp/research/queue_sensitivity.cpp:292-357 | a displayed change keeps the order of the cells, and its three attributions add up to the lots lost |
| `QueueGrid.GridMonotone` | cpp/research/queue_sensitivity.cpp:292-430 | over every run, a cell assuming less queue and more credit never has more ahead, never less filled, and with non-decreasing stamps never fills later |
| `QueueSensitivity.QueueSensitivityObserver.Retire` | cpp/research/queue_sensitivity.cpp:203-212 | exactly the orders at the front whose window has passed leave, in order, with their full window |
| `QueueSensitivity.QueueSensitivityObserver.CloseSegment` | cpp/research/queue_sensitivity.cpp:96-107 | at a segment edge every resting order leaves once, with the part of its window it actually had |
| `QueueSensitivity.QueueSensitivityObserver.PlaceDue` | cpp/research/queue_sensitivity.cpp:129-176 | each grid instant up to the stamp brings its pair of orders at the touch, once and in order |
| `QueueSensitivity.QueueSensitivityObserver.PlaceOnLevelBirth` | cpp/research/queue_sensitivity.cpp:178-201 | an order arrives on exactly the sides whose best price is not the one last seen, behind everything displayed |
| `QueueSensitivity.QueueSensitivityObserver.BeforeRecord` | cpp/research/queue_sensitivity.cpp:258-271 | what leaves and what is placed before a record, and where the grid then stands, is determined by the stamps and the book the record found; nothing else changes but the clock |
| `QueueSensitivity.QueueSensitivityObserver.BeforeDepthEvent` | cpp/research/queue_sensitivity.cpp:279-290 | every pending order remembers what its own price shows |
| `QueueSensitivity.QueueSensitivityObserver.AfterDepthEvent` | cpp/research/queue_sensitivity.cpp:292-364 | every pending order is charged with its own level's change, the three counters grow by what was charged to quantity behind, to prints and to nothing known, which together is what disappeared; only then may a new level bring an order, and the mid path grows exactly on a new mid |
| `QueueSensitivity.QueueSensitivityObserver.OnTrade` | cpp/research/queue_sensitivity.cpp:376-430 | a print reaches every pending order and changes nothing but its fill progress |
| `QueueSensitivity.QueueSensitivityObserver.AfterRecord` | cpp/research/queue_sensitivity.cpp:432-461 | a segment is open after a record exactly when both streams are usable and it was open or the book is valid; everything the observer then holds is determined either way |
| `QueueSensitivity.QueueSensitivityObserver.OpenSegment` | cpp/research/queue_sensitivity.cpp:84-94 | the placement grid starts at the first multiple of the step at or after the record |
| `QueueSensitivity.QueueSensitivityObserver.Finish` | cpp/research/queue_sensitivity.cpp:463-468 | at the end every order ever placed has been emitted exactly once, in placement order |
| `FillAgreement.NativeFollowsWalk` | cpp/research/native_dataset_exporter.cpp:911-978 | the streaming row of the native exporter follows the trade-by-trade walk print by print |
| `FillAgreement.CellFollowsWalk` | cpp/research/queue_sensitivity.cpp:376-430 | so does the most conservative cell, through any displayed changes in between |
| `FillAgreement.ConservativeIgnoresRemovals` | cpp/research/queue_sensitivity.cpp:292-357 | a cell without credit is never moved by a displayed removal |
| `FillAgreement.ThreeWayAgreement` | cpp/research/queue_sensitivity.cpp:292-430 | for every run of prints before the end of the window and of displayed changes, the index, the stream and the conservative cell report the same quantity, completion time and mechanism |
| `QueueLives.DuePrefixIsAll` | cpp/research/queue_sensitivity.cpp:203-212 | in placement order, the orders whose window has passed are exactly the run at the front that retiring looks at |
| `QueueLives.EventTouches` | cpp/research/queue_sensitivity.cpp:279-430 | whatever the event, every resting order becomes what the event makes of it alone, and only one placed in the announcement of the record itself can have its window behind it |
| `QueueLives.LeavesOnce` | cpp/research/queue_sensitivity.cpp:202-230 | given where an order was placed, the records leave no choice when it leaves, in what state and as observed until when |
| `QueueLives.EmissionIsDetermined` | cpp/research/queue_sensitivity.cpp:202-230 | with rising stamps the instant and the side of an emitted order determine everything emitted of it |
| `QueueLives.WholeWindowIff` | cpp/research/queue_sensitivity.cpp:96-107 | an order is observed for its whole window if and only if that window ends no later than its segment |
| `QueueReplay.Replay` | cpp/replay/event_replayer.cpp:142-315 | over every sequence of records the orders emitted are exactly those the records call for, once and in placement order, with their 25 cells and fill stamps in the grid's order, and the mid path is theirs (`QueuePlans.PlanAt`); over a book usable while live the orders are, in grid mode with ordered stamps, a bid and an ask for each instant each record brings, and in level-birth mode over a steady book one on each side at the start of a segment and for each best price a record changed; over clean input each order is what the records of its own segment make of it alone, leaving at the first announcement or conclusion that finds its window passed, or with its segment (`QueueLives.TrueTo`) |
| `QueueLedgers.EmittedTells` | cpp/research/queue_sensitivity.cpp:139-164 | every emitted order, told of the books and prints of the records it lived through: it rests at the best price of its side behind what was shown; what joined behind it is what is shown above the lowest quantity since; removals ahead are explained by prints at its quote as far as these had not explained others; and each of the 25 cells stands at its share of the queue, less what printed, less its share of what nothing explains, and is filled by the first print that passes the quote or takes its last lot |
| `QueueLedgers.CreditIsLast` | cpp/research/queue_sensitivity.cpp:320-364 | a removal reaches the cells only once everything behind and every print is used up, and is charged to prints only once everything behind is |
| `QueueLedgers.ExplainedLeavesCells` | cpp/research/queue_sensitivity.cpp:330-345 | a removal of exactly what has printed, with nothing added behind, leaves all 25 cells as the print left them |
| `QueuePlans.PlanStands` | cpp/replay/event_replayer.cpp:170-294 | the closed form of the placements and of the mid path: by records, with the segment numbers in which they fall |
| `QueuePlans.GridKeys` | cpp/research/queue_sensitivity.cpp:129-176 | in grid mode: one bid and one ask for each instant the records bring, in order |
| `QueueWindows.PrintsComeInWindow` | cpp/research/queue_sensitivity.cpp:255-271 | an order sees no print past its window, except exactly when the record that announced it is a trade that comes so late |
| `QueueWindows.CloseRecordsAreNeverLate` | cpp/research/queue_sensitivity.cpp:255-271 | records closer together than the window rule that out |
| `QueueWindows.FillsInWindowIff` | tests/test_native_economic.py:118-128 | no cell of an emitted order is filled after the end of its observation, if and only if the record that announced it is not such a trade, or that trade neither goes through the quote nor meets it with the order's size |
| `QueueWindows.FillsAfterItsWindow` | cpp/research/queue_sensitivity.cpp:255-271 | a run of the observer with an order observed until 15 and filled at 20 |
| `IndexAgreement.CellFollowsTrades` | cpp/research/queue_sensitivity.cpp:292-430 | record by record the conservative cell of an order stands where a walk over every trade so far does |
| `IndexAgreement.WholeWindowAgrees` | cpp/research/passive_queue.cpp:185-343 | an emitted order whose window lies inside its segment, and that saw no print past it, stands where a walk over every trade of the replay does |
| `IndexAgreement.AskIndex` | cpp/research/passive_queue.cpp:345-375 | so the index, holding every trade of the replay, reports the same quantity, completion time and mechanism for it |
| `NativeRows.NeverIffDecided` | cpp/research/native_dataset_exporter.cpp:528-556 | a row has no deadline left exactly when every label is decided and no race is watched |
| `NativeRows.NotDueIsSettled` | cpp/research/native_dataset_exporter.cpp:528-668 | a row whose soonest undecided horizon lies ahead would not be changed by rechecking it |
| `NativeResolver.MoveKeepsCache` | cpp/research/native_dataset_exporter.cpp:560-588 | a mid move leaves the cached deadline a lower bound without recomputing it |
| `NativeResolver.LazyRowIsEager` | cpp/research/native_dataset_exporter.cpp:590-668 | row by row the cached and the eager resolver decide the same labels, and the cache alone tells when a row may be written |
| `NativeResolver.LazyRowExact` | cpp/research/native_dataset_exporter.cpp:606-616 | a row comes out right exactly when the mid just changed or the row has already reacted to it |
| `NativeResolver.MidReflectedIff` | cpp/research/native_dataset_exporter.cpp:560-588 | a row at its own mid, past its horizon, or with a move noted and no side left to note one, is exactly a row that applying the mid leaves as it is |
| `NativeResolver.LazyCallIsEager` | cpp/research/native_dataset_exporter.cpp:590-676 | main refinement: a call with its early return, per-row skips and global minimum writes and keeps exactly what rechecking every row and horizon would |
| `NativeResolver.LazyCallExact` | cpp/research/native_dataset_exporter.cpp:590-676 | for all states and inputs, a call equals the eager one if and only if the mid differs from the last one resolved, or every row old enough is at its own mid, past its horizon, or has recorded a move already and is drifted against by less than the threshold on each side not yet adverse |
| `NativeTruth.LatestMidReflected` | cpp/research/native_dataset_exporter.cpp:560-588 | in a row whose labels are true the latest mid is already applied, so a call without a move has nothing to apply |
| `NativeTruth.QuietCallKeepsTruth` | cpp/research/native_dataset_exporter.cpp:747-767 | the call before a record decides each deadline passed since the last one with the mid then in force, and nothing earlier or later |
| `NativeTruth.RecordCallKeepsTruth` | cpp/research/native_dataset_exporter.cpp:980-1002 | the call after a record decides the deadlines equal to its stamp with the mid that record left |
| `NativeTruth.NewRowIsTrue` | cpp/research/native_dataset_exporter.cpp:272-283 | a row emitted late, for a grid instant inside a gap, starts out with true labels |
| `NativeTruth.RecordMovesRow` | cpp/research/native_dataset_exporter.cpp:560-588 | the first move and the first adverse move recorded are those of the history, inside the horizon |
| `NativeEvents.PrintKeepsTruth` | cpp/research/native_dataset_exporter.cpp:911-978 | a print changes no label already due and decides the fill race as the history has it |
| `NativeEvents.PrintKeepsCache` | cpp/research/native_dataset_exporter.cpp:911-978 | refreshing the deadline only on a fill keeps the cache sound |
| `NativeEvents.WatchKeepsCache` | cpp/research/native_dataset_exporter.cpp:475-526 | settling the book races without refreshing the deadline keeps the cache sound |
| `NativeEvents.WatchKeepsTruth` | cpp/research/native_dataset_exporter.cpp:475-526 | the book races touch no label |
| `NativeEvents.WatchSettles` | cpp/research/native_dataset_exporter.cpp:475-526 | on either side a quote seen beyond has been seen gone, and a row stops being watched only when both races of both sides are settled or its horizon has passed |
| `NativeEvents.RaceStampCanPassTheWindow` | cpp/research/native_dataset_exporter.cpp:475-526 | an input where a race stamp lies past the window, unlike what the header says |
| `NativeRaces.StampsAreFirst` | cpp/research/native_dataset_exporter.cpp:475-526 | over every stream of depth events each race stamp is that of the first event that settles the race, among those up to and including the first at or past the end of the window; and the row is watched exactly while one is open |
| `NativeRaces.RaceStampsInside` | cpp/research/native_dataset_exporter.cpp:475-526 | a race stamp lies inside the window if and only if the last event heard is not past its end, or does not settle the race, or an earlier one had |
| `NativeCalls.QuietCall` | cpp/research/native_dataset_exporter.cpp:747-767 | a call between records keeps every invariant and writes only rows whose labels are true |
| `NativeCalls.RecordCall` | cpp/research/native_dataset_exporter.cpp:980-1002 | with strictly rising stamps the call after a record does the same for the grown history |
| `NativeCalls.TiedRecordLosesTheMove` | cpp/research/native_dataset_exporter.cpp:602-611 | an input with two records of one stamp after which lazy and eager labels differ |
| `NativeCounts.NeverMeansUnwatched` | cpp/research/native_dataset_exporter.cpp:528-556 | a row without a deadline is no longer watched, so popping it needs no correction of the counter |
| `NativeCounts.CallKeepsCounts` | cpp/research/native_dataset_exporter.cpp:590-676 | on every run, tied stamps included, a call neither loses, duplicates nor reorders a row, and leaves the number of watched rows alone |
| `NativeCounts.PrintsKeepMin` | cpp/research/native_dataset_exporter.cpp:911-978 | after a print over all rows the global minimum is still below every cached deadline |
| `NativeCounts.PrintsKeepCounted` | cpp/research/native_dataset_exporter.cpp:911-978 | a print over all rows keeps the counter and the sample order |
| `NativeCounts.WatchOneKeepsCounted` | cpp/research/native_dataset_exporter.cpp:475-526 | the counter follows a row's watch flag down by exactly one |
| `NativeCounts.CloseKeepsCounted` | cpp/research/native_dataset_exporter.cpp:252-270 | closing a segment writes what is pending once, in sample order, and zeroes the counter rightly |
| `NativeTracking.EmitKeepsEmitting` | cpp/research/native_dataset_exporter.cpp:272-283 | several samples emitted in one gap are each true from the start |
| `NativeTracking.PrintsKeepWithin` | cpp/research/native_dataset_exporter.cpp:911-978 | prints inside a record keep what holds while it is replayed |
| `NativeTracking.WatchKeepsWithin` | cpp/research/native_dataset_exporter.cpp:475-526 | so do the book races |
| `NativeTracking.CallKeepsBooks` | cpp/research/native_dataset_exporter.cpp:590-676 | every row a good call writes is backed by the history known at that moment |
| `Grids.InstantsAt` | cpp/research/native_dataset_exporter.cpp:272-283 | the instants an advance passes lie one step apart, up to where the grid then stands |
| `Grids.InstantsAreGrid` | cpp/research/native_dataset_exporter.cpp:272-283 | and they are exactly the grid instants from where it stood up to the stamp |
| `NativeDataset.NativeDatasetExporter.FlushFrontResolved` | cpp/research/native_dataset_exporter.cpp:670-676 | exactly the leading decided rows are written, in order |
| `NativeDataset.NativeDatasetExporter.ResolveRows` | cpp/research/native_dataset_exporter.cpp:606-665 | the in-place pass gives each row its lazy successor and the minimum of the new deadlines |
| `NativeDataset.NativeDatasetExporter.ResolvePending` | cpp/research/native_dataset_exporter.cpp:590-668 | the method is the lazy call on a usable two-sided book and nothing otherwise |
| `NativeDataset.NativeDatasetExporter.AdvanceGrid` | cpp/research/native_dataset_exporter.cpp:272-283 | each grid instant up to the stamp is sampled once, in order |
| `NativeDataset.NativeDatasetExporter.BeforeRecord` | cpp/research/native_dataset_exporter.cpp:747-767 | before a record everything that fell due since the last one is decided on the book between them; what was written and sampled stays, the new samples are the instants up to the stamp, and new rows are vouched for by the history of the segment |
| `NativeDataset.NativeDatasetExporter.WatchBookRaces` | cpp/research/native_dataset_exporter.cpp:475-526 | skipping the pass when the counter is zero loses nothing: every row is as if it had been visited |
| `NativeDataset.NativeDatasetExporter.AfterDepthEvent` | cpp/research/native_dataset_exporter.cpp:846-896 | an event that was not applied writes everything pending and ends the segment; an applied one updates exactly the races |
| `NativeDataset.NativeDatasetExporter.AfterSnapshot` | cpp/research/native_dataset_exporter.cpp:898-909 | a replacement snapshot ends the segment and every sample is written as it stands |
| `NativeDataset.NativeDatasetExporter.OnTrade` | cpp/research/native_dataset_exporter.cpp:911-978 | a print goes over every pending row once, and the minimum deadline follows |
| `NativeDataset.NativeDatasetExporter.AfterRecord` | cpp/research/native_dataset_exporter.cpp:980-1002 | labels due at the stamp are decided with the mid the record left, what was written and sampled stays, and the grid stands at the first instant beyond the stamp; with strictly rising stamps and a book that only records change, every row written is vouched for by the history of the segment |
| `NativeDataset.NativeDatasetExporter.OpenSegment` | cpp/research/native_dataset_exporter.cpp:228-250 | a segment starts on the next grid instant with nothing pending and the mid of its first record |
| `NativeDataset.NativeDatasetExporter.CloseSegment` | cpp/research/native_dataset_exporter.cpp:252-270 | closing writes everything pending once, in sample order |
| `NativeDataset.NativeDatasetExporter.Finish` | cpp/research/native_dataset_exporter.cpp:1004-1017 | at the end every sample ever placed has been written exactly once, in sample order |
| `GridRuns.AnnounceGrid` | cpp/replay/event_replayer.cpp:170-178 | announcing a record to an open segment samples exactly the instants between the record before it and its stamp |
| `GridRuns.ConcludeGrid` | cpp/replay/event_replayer.cpp:286-294 | concluding it samples its own stamp exactly when that is an instant and the segment is then open |
| `GridRuns.HeraldedIff` | cpp/research/level_lifecycle.cpp:240-255 | for stamps that never go back, the instants an announcement brings: those of an open segment after the record before it and before its stamp, that record's own stamp only if it opened the segment and left it |
| `GridRuns.ClosingIff` | cpp/research/level_lifecycle.cpp:240-255 | and those a conclusion brings: the record's own stamp, in a segment it leaves open, unless a record of that stamp has had it |
| `GridRuns.AllDueExact` | cpp/replay/event_replayer.cpp:170-294 | over all records, when stamps rise strictly, these are in strict order exactly the instants at which a segment is open |
| `NativeReplay.Replay` | cpp/replay/event_replayer.cpp:142-315 | over every sequence of records the rows written are exactly the samples the records call for, each once and in order (`NativePlans.PlanAt`); with ordered stamps and a book usable while live these are the instants each record brings, on the books between records; and when stamps rise strictly every row is true to its records: its quotes are the touch of the book shown when it was placed, its fills and races are what all later events of its segment make of it alone, each label whose deadline the segment reaches is what the mids of the whole segment say, and no other is decided |
| `NativeFills.RowTells` | cpp/research/native_dataset_exporter.cpp:457-472 | the two orders of a written row rest at the best bid and ask of the book it was sampled on, each behind what that book shows there, and its mid is their sum; each is filled by the first print of the opposite aggressor inside its window that passes its quote or completes it there, with that print's stamp and the mid shown with it, and otherwise holds the lots printed at its quote |
| `NativeSegments.DecidedIffInside` | cpp/research/native_dataset_exporter.cpp:590-676 | label by label: a markout, fill, race or post-fill label of such a row is decided if and only if its deadline is reached by the record that ends the segment the row was placed in, and a markout is the mid in force at its deadline against the one at its placement |
| `NativeSegments.RowStaysTrue` | cpp/research/native_dataset_exporter.cpp:528-556 | a row written with nothing left to decide stays true, whatever the rest of its segment brings |
| `NativePlans.PlanIsAllDue` | cpp/replay/event_replayer.cpp:170-294 | for stamps that never go back the samples called for are, record by record, the instants announcing and concluding it bring, on a book usable while live |
| `NativeStamps.WrittenStamps` | cpp/research/native_dataset_exporter.cpp:475-526 | a race stamp of a written row is that of the first depth event of its own segment that settles the race, among those up to and including the first at or past the end of its window, and it lies inside the window if and only if that last one does, or does not settle it, or an earlier one had |
| `NativePassives.CallKeepsTraces` | cpp/research/native_dataset_exporter.cpp:590-676 | a resolver call changes labels only: quotes, queues, fills and race stamps of written and of waiting rows stay, in order |
| `NativePassives.CallWritesDone` | cpp/research/native_dataset_exporter.cpp:670-676 | a resolver call writes only rows of which every label is decided and no race is watched |
| `NativeLives.LivesOn` | cpp/replay/event_replayer.cpp:142-315 | a row that has lived through i records lives through one more by what that record does to it alone |
| `NativeAgreement.FillFollowsTrades` | cpp/research/native_dataset_exporter.cpp:911-978 | record by record the fill of a sampled row stands where a walk over the trades of the replay does |
| `NativeAgreement.DecidedFillIsFinal` | cpp/research/native_dataset_exporter.cpp:590-676 | if the window of a written row lies inside one segment all its fill labels, at the horizon and at every earlier one, are those of the walk over every trade of the replay, later segments included |
| `NativeAgreement.AskIndex` | cpp/research/passive_queue.cpp:345-375 | whenever the window of the row lies inside one segment, the trade index, asked about the same quote over the same trades, reports the same fill, time and trade-through |
| `NativeWindows.InsideIsSuffix` | cpp/research/native_dataset_exporter.cpp:207-226 | in stamp order, what is inside a window is what stands from its head on |
| `NativeWindows.WindowedFlow.Push` | cpp/research/native_dataset_exporter.cpp:195-205 | a contribution enters every window |
| `NativeWindows.WindowedFlow.EraseConsumed` | cpp/research/native_dataset_exporter.cpp:217-226 | dropping what no window refers to and rebasing all heads leaves every window where it was |
| `NativeWindows.WindowedFlow.Prune` | cpp/research/native_dataset_exporter.cpp:207-226 | with non-decreasing stamps each running sum equals the sum of everything ever pushed that is still inside its own window, despite the shared queue |
| `EventWindows.EventWindow.Prune` | cpp/research/event_dataset_exporter.cpp:148-165 | the per-window queue keeps exactly what was stamped at most one width ago, the boundary included |
| `EventWindows.EventWindow.Reset` | cpp/research/event_dataset_exporter.cpp:336-346 | a replacement snapshot starts the window over |
| `EventQuotes.LaterCut` | cpp/research/event_dataset_exporter.cpp:447-470 | a later snapshot cannot move the end of a quote already resolved |
| `EventQuotes.NoWindowNoRow` | cpp/research/event_dataset_exporter.cpp:456-501 | a waiting quote gets its row exactly when price and size are positive and its window, cut by the next snapshot, is not empty; otherwise the index refuses the query |
| `EventQuotes.RowAnswers` | cpp/research/event_dataset_exporter.cpp:456-501 | every field of a written row's outcome is what the prints of the opposite aggressor inside the quote's own window make of it |
| `EventQuotes.GroupIs` | cpp/research/event_dataset_exporter.cpp:190-218 | consecutive trades of one stamp are one event |
| `EventQuotes.StatesCover` | cpp/research/event_dataset_exporter.cpp:472-501 | full, partial and unfilled rows add up to all rows |
| `EventQuotes.CountTallies` | cpp/research/event_dataset_exporter.cpp:482-500 | the summary counts the rows written by what became of them, and those cut short by a snapshot |
| `EventDataset.EventDatasetExporter.EmitFront` | cpp/research/event_dataset_exporter.cpp:472-501 | the front quote leaves with the outcome of the walk over its own window; the run stops exactly when that window, price or size is not a query |
| `EventDataset.EventDatasetExporter.ResolveUntil` | cpp/research/event_dataset_exporter.cpp:447-454 | expired quotes leave with their whole window and nothing expired stays; it stops only if a waiting quote is unfit |
| `EventDataset.EventDatasetExporter.ResolveAll` | cpp/research/event_dataset_exporter.cpp:456-470 | everything waiting is resolved at the earlier of its expiry and the cut; it stops exactly when some waiting quote, so cut, is unfit |
| `EventDataset.EventDatasetExporter.MaybeDecide` | cpp/research/event_dataset_exporter.cpp:348-374 | a pair of quotes at the touch appears exactly when the book is usable and deep and the cooldown is over, and suppressions are counted |
| `EventDataset.EventDatasetExporter.ProcessTradesBefore` | cpp/research/event_dataset_exporter.cpp:167-218 | every trade strictly before a book event comes first, one decision per stamp, on the book the event has not touched; the quotes placed are exactly those the trades bring, and it stops only if one of them or a waiting one is unfit |
| `EventDataset.EventDatasetExporter.BeforeDepthEvent` | cpp/research/event_dataset_exporter.cpp:220-231 | the merge takes exactly the earlier trades and then what has expired; it stops only if a quote waiting or brought by them is unfit |
| `EventDataset.EventDatasetExporter.AfterDepthEvent` | cpp/research/event_dataset_exporter.cpp:273-317 | trades of the same stamp and the best levels' own move decide at most once together; without such trades it never stops |
| `EventDataset.EventDatasetExporter.BeforeSnapshot` | cpp/research/event_dataset_exporter.cpp:319-326 | a replacement snapshot resolves every waiting quote at its stamp; it stops exactly when a quote waiting, or brought by the trades before it, is unfit for that cut |
| `EventDataset.EventDatasetExporter.AfterSnapshot` | cpp/research/event_dataset_exporter.cpp:328-334 | only trades of exactly the snapshot's stamp are taken after it, and only an unfit waiting quote stops it |
| `EventDataset.EventDatasetExporter.Finish` | cpp/research/event_dataset_exporter.cpp:503-510 | every quote is emitted exactly once in enqueue order with window end the earlier of expiry and first later snapshot, and rows = quotes = twice the decisions = full + partial + unfilled; it stops exactly when a quote waiting, or brought by the remaining trades, is unfit |
| `EventRuns.DecideThenCut` | cpp/research/event_dataset_exporter.cpp:319-326 | a run: after a decision the next replacement snapshot goes through if and only if it is stamped later |
| `EventRuns.DecideAtZero` | cpp/research/event_dataset_exporter.cpp:348-374 | a run: after a decision stamped zero the next one follows at once, whatever the cooldown |
| `LevelEpisodes.DeltaKeepsBalance` | cpp/research/level_lifecycle.cpp:175-212 | a level's ledger balances after any change: current = initial + added - removed, removed = explained + unexplained, no printed lot explains twice; a removal is explained as far as the printed lots reach, and unexplained only when they are used up |
| `LevelEpisodes.PrintKeepsBalance` | cpp/research/level_lifecycle.cpp:450-475 | a print keeps the ledger balanced and the displayed quantity alone |
| `LevelEpisodes.EventMirrors` | cpp/research/level_lifecycle.cpp:385-438 | whatever an event does to the best level, the settled episode shows the new best price and quantity, and an episode ends exactly when its price is no longer best |
| `LevelEpisodes.ObserveKeepsLabels` | cpp/research/level_lifecycle.cpp:476-504 | the streamed label of a sampled level equals the sum over all prints of its window, for every horizon |
| `LevelEpisodes.LatePrintsDoNotCount` | cpp/research/level_lifecycle.cpp:312-321 | prints at or after the widest horizon, however many, change no label of a narrower one |
| `LevelEpisodes.WidestHorizonMissesItsLastInstant` | cpp/research/level_lifecycle.cpp:312-321 | of the prints at or after the widest horizon its three labels miss exactly those stamped at its last instant: each label is exact if and only if there is no such print it counts |
| `LevelLifecycle.LevelLifecycleObserver.ApplyEvent` | cpp/research/level_lifecycle.cpp:400-438 | both levels are charged before either is settled, ids follow bid before ask, and the result mirrors the book |
| `LevelLifecycle.LevelLifecycleObserver.BeforeDepthEvent` | cpp/research/level_lifecycle.cpp:370-383 | both levels note the quantity the book shows at their price before the event, and nothing else changes |
| `LevelLifecycle.LevelLifecycleObserver.AfterDepthEvent` | cpp/research/level_lifecycle.cpp:385-438 | after an applied event each side's episode is the book's best level with its displayed quantity, and exactly the displaced episodes have ended, with the right reason |
| `LevelLifecycle.LevelLifecycleObserver.OnTrade` | cpp/research/level_lifecycle.cpp:450-504 | a print reaches the one episode its aggressor can hit, and every pending sample becomes what the print makes of it; nothing else changes |
| `LevelLifecycle.LevelLifecycleObserver.Retire` | cpp/research/level_lifecycle.cpp:312-321 | exactly the samples whose widest horizon has passed leave, or all of them marked with the edge |
| `LevelLifecycle.LevelLifecycleObserver.AdvanceGrid` | cpp/research/level_lifecycle.cpp:240-310 | each grid instant up to the stamp samples every active level once |
| `LevelLifecycle.LevelLifecycleObserver.BeforeRecord` | cpp/research/level_lifecycle.cpp:351-362 | what leaves and what is sampled before a record is a function of stamps and of the levels the record found; levels, mirror and finished episodes stay |
| `LevelLifecycle.LevelLifecycleObserver.AfterRecord` | cpp/research/level_lifecycle.cpp:506-526 | the whole state after a record: an open segment goes on with its mirror or ends with both episodes, and a usable book opens a new one with one episode a side |
| `LevelLifecycle.LevelLifecycleObserver.AfterSnapshot` | cpp/research/level_lifecycle.cpp:440-448 | a replacement snapshot ends both episodes and censors every pending sample at its stamp |
| `LevelLifecycle.LevelLifecycleObserver.OpenSegment` | cpp/research/level_lifecycle.cpp:214-228 | a segment opens with fresh numbered episodes that mirror the book |
| `LevelLifecycle.LevelLifecycleObserver.CloseSegment` | cpp/research/level_lifecycle.cpp:230-238 | at a segment edge every sample leaves with the edge and both episodes end |
| `LevelLifecycle.LevelLifecycleObserver.Finish` | cpp/research/level_lifecycle.cpp:528-533 | every episode ever started has ended, as many as were numbered, all with balanced ledgers |
| `LevelReplay.Replay` | cpp/replay/event_replayer.cpp:142-315 | over every sequence of records as many episodes end as were numbered, with balanced ledgers; over clean input the episode file is exactly that of the records (`LevelStretches.AllEpisodes`), there is exactly one bid and one ask row for each instant the records bring, and every row is true to its records: taken of the episode then current on its side, at the best price then shown, marked with the stamp its segment ends on exactly if that censors it or it came too late to leave otherwise, and with labels exact for the prints of its segment up to the first announcement or conclusion that finds its widest horizon over (`LevelSampling.Heard`) |
| `LevelStretches.EndsWithStretch` | cpp/research/level_lifecycle.cpp:400-438 | episodes are maximal stretches: one ends on a side with a record, or with the input, if and only if a maximal stretch of records over which a price stays best there does, and it is the one that stretch started |
| `LevelStretches.StretchTells` | cpp/research/level_lifecycle.cpp:109-228 | what it says: price, displayed quantity, stamp and segment of the record that made the price best, the stamp of the one that ended it, and why |
| `LevelLedgers.StretchLedger` | cpp/research/level_lifecycle.cpp:109-212 | the whole ledger of an ended episode from the books and prints of its stretch: lots added, removed and refilled with their counts, largest and smallest quantity shown, lots printed there and through, and what stays unexplained, which is the most by which removals ever ran ahead of prints |
| `LevelLedgers.CurrentLedger` | cpp/research/level_lifecycle.cpp:175-228 | the same for the current episode, which is what a sampled row shows of its level |
| `LevelLedgers.NothingExplainsMore` | cpp/research/level_lifecycle.cpp:201-209 | no other way of matching removals to lots printed before them explains more |
| `LevelStretches.EpisodeShows` | cpp/research/level_lifecycle.cpp:385-438 | while a segment is open the current episode of a side, told from the records alone, is the best level with the quantity the book shows there |
| `LevelSampling.PassedIsAll` | cpp/research/level_lifecycle.cpp:312-321 | in sample order, the run of passed samples at the front is all of them |
| `LevelSampling.HeardFirst` | cpp/research/level_lifecycle.cpp:312-321 | the prints a row is held to are the first of its segment, and all later ones came when its widest horizon was over |
| `LevelSampling.SeesExactly` | cpp/research/level_lifecycle.cpp:312-321 | such a row against all prints of its segment: exact for every narrower horizon, and for the widest one, label by label, if and only if no print it counts came at the last instant after the row had left |
| `LevelSampling.CensoredIff` | cpp/research/level_lifecycle.cpp:323-345 | a label is left blank exactly when its segment ended, at a stamp other than zero, before its horizon was over |
| `LevelReplay.MissesAPrint` | cpp/research/level_lifecycle.cpp:351-362 | a run whose row reports no volume although a print stamped at its last instant belongs to its window |
| `MarketMaker.QuotePermission` | pyresearch/obi/continuous_mm.py:64-100 | a side is blocked by inventory exactly when it has no room for a whole order, and by imbalance exactly when the policy looks at it, it leans against the side by the threshold, and the quote would not reduce the inventory |
| `MarketMaker.FillKeeps` | pyresearch/obi/continuous_mm.py:103-128 | delivering a fill moves its quantity from outstanding to inventory, where the limit had already counted it |
| `MarketMaker.PushKeepsOrder` | pyresearch/obi/continuous_mm.py:168-233 | fills come soonest first, and those of one time in the order their orders were accepted in |
| `MarketMaker.SideIsFree` | pyresearch/obi/continuous_mm.py:169-174 | once a side's last order has ended and due fills are delivered nothing of it is outstanding |
| `MarketMaker.OrderKeepsLimit` | pyresearch/obi/continuous_mm.py:181-236 | a new order on a free side keeps inventory plus outstanding inside a limit if and only if the inventory moved by its whole quantity does |
| `MarketMaker.OversizedOrderBreaksLimit` | pyresearch/obi/continuous_mm.py:103-128 | delivering an order's fill at once is counted as a violation exactly when the order did not keep the hard limit |
| `MarketMaker.DrainOnTime` | pyresearch/obi/continuous_mm.py:169-170 | draining by a placement keeps the queue exactly the accepted fills stamped after it |
| `MarketMaker.DecisionInventory` | pyresearch/obi/continuous_mm.py:169-187 | at a decision the inventory is exactly the accepted fills stamped at or before it |
| `MarketMaker.DrainDue` | pyresearch/obi/continuous_mm.py:169-170 | every fill due by a placement is delivered before it, and no later one is |
| `MarketMaker.PlaceOrder` | pyresearch/obi/continuous_mm.py:200-236 | an order is accepted exactly when its labels are there, it does not end before its placement, and its fill, if above tolerance, lies inside its lifetime; it then occupies its side until it ends and adds at most that one fill |
| `MarketMaker.HandleRow` | pyresearch/obi/continuous_mm.py:168-236 | a row the side is free for stops the run exactly when its quoted size is not the frozen one or the order it attempts is not orderly; otherwise the next state is that of the row's one fate, with exactly one counter moved |
| `MarketDay.Simulate` | pyresearch/obi/continuous_mm.py:131-269 | the day stops exactly on a faulty row; otherwise the result before and after fees is what the fills and the closing trade at the last quote come to (`MarketDay.Settled`), inventory and cash are those of the fills of exactly the rows tried, every counter counts the rows of its fate, in placement order the heap changes nothing, and fills of at most the quoted size never violate a limit |
| `MarketDay.DecisionSees` | pyresearch/obi/continuous_mm.py:169-187 | in placement order the inventory a decision looks at is exactly the fills of earlier tried rows stamped by its placement: none early, none late |
| `MarketDay.RunIsPlan` | pyresearch/obi/continuous_mm.py:131-269 | in placement order every row meets the fate and brings the fill that the earlier fills alone determine, without any heap |
| `MarketDay.FaultIsPlanned` | pyresearch/obi/continuous_mm.py:168-236 | the same plan alone tells which row stops the run |
| `MarketDay.DayKeeps` | pyresearch/obi/continuous_mm.py:238-269 | at the end every accepted fill has been delivered once, inventory is bought less sold, cash is what they cost, and the six counters add up to the rows |
| `MarketDay.DaySettles` | pyresearch/obi/continuous_mm.py:105-131 | gross is what the sales brought less what the purchases cost plus the closing trade at the last bid or ask; net is gross less the maker fee on every fill and the taker fee on the closing trade |
| `MarketDay.DayStaysInside` | pyresearch/obi/continuous_mm.py:103-128 | a limit that admits every fill of a schedule is never passed, under any policy or selector |
| `MarketLimits.FillBoundIsExact` | pyresearch/obi/continuous_mm.py:64-128 | no schedule with fills of at most q violates the limits if and only if q is at most the quoted size, or at most what the hard limit leaves above the soft one, or ignored as dust, or no quote is ever permitted |
| `MarketLimits.HarmfulViolates` | pyresearch/obi/continuous_mm.py:103-128 | for every other q an ordered, faultless schedule with fills of at most q ends in a violation |
| `MarketLimits.Overfill` | pyresearch/obi/continuous_mm.py:131-269 | that schedule through the simulator: the day succeeds and reports a violation |
| `MarketLimits.SlightlyOversized` | pyresearch/obi/continuous_mm.py:64-128 | fills of one and a half times the quoted size are enough under soft limit two and hard limit three |
| `BookWalk.WalkFills` | pyresearch/execution/engine.py:127-138 | the walk takes exactly the requested quantity and no more than any level shows |
| `BookWalk.PresentKeepsOrder` | pyresearch/execution/engine.py:111-114 | the filtered book is exactly the positive levels, in order |
| `BookWalk.WalkIsOptimal` | pyresearch/execution/engine.py:127-139 | among all ways of filling the order from the visible levels none buys cheaper or sells dearer |
| `BookWalk.NeverBeatsTheTouch` | pyresearch/execution/engine.py:139-141 | slippage against the touch is never negative |
| `BookWalk.WalkVisibleBook` | pyresearch/execution/engine.py:104-153 | a fill is returned exactly when the filtered book is ordered and deep enough, an error exactly when it is unordered, and the cost is that of the walk |
| `DayRun.Decide` | pyresearch/execution/engine.py:222-275 | a signal's fate, in every case: excluded for the first reason that applies, a book out of order, too little depth, or a trade at its own quantity and the walk's cost on the delayed books |
| `DayRun.SearchSorted` | pyresearch/execution/engine.py:344-345 | the next cursor is the first signal at or after the exit |
| `DayRun.TradeFollows` | pyresearch/execution/engine.py:344-347 | a new position opens after every earlier one has closed |
| `DayRun.AccountKeeps` | pyresearch/execution/engine.py:214-350 | the account after any number of signals keeps its promises: no overlap, every trade reported from its own signal, every signal counted once, every tradeable one explained |
| `DayRun.RunDay` | pyresearch/execution/engine.py:175-350 | the day fails exactly on unacceptable input or when a signal the account is free for meets a book out of order; otherwise the report is the account of all signals: each trade is a signal's own at its own cost, positions never overlap, each counter is that of one fate, signals = completed + skipped + all exclusions, and no tradeable signal is passed over except inside an open position |
| `DayTrades.TradeSays` | pyresearch/execution/engine.py:222-330 | what a trade says, of the samples alone: entered the latency after its decision, rounded up to whole samples, and left at the horizon, inside one segment with usable books; the largest whole number of steps the notional buys at the delayed touch; entered and left at the best price any way of filling it from the levels shown could get |
| `DayTrades.QuantityIsLargest` | pyresearch/execution/engine.py:90-101 | the quantity is the largest whole number of steps the notional buys |
| `DayTrades.SignalsAre` | pyresearch/execution/engine.py:200-206 | signals are the predictions of at least the threshold, either way, that are not zero |
| `DayTrades.CountersCount` | pyresearch/execution/engine.py:214-350 | each counter counts exactly the signals of its fate |
| `Packer.Packer.AwaitedUpdate` | pyresearch/historical/l2.py:756-769 | the first update the snapshot does not contain decides between live and invalid by bracketing it |
| `Packer.Packer.InvalidUpdate` | pyresearch/historical/l2.py:770-774 | without a sound book updates are written and kept for the next snapshot |
| `Packer.Packer.ContiguousUpdate` | pyresearch/historical/l2.py:775-787 | a contiguous update extends the chain and is written at once or deferred in order |
| `Packer.Packer.BridgedUpdate` | pyresearch/historical/l2.py:789-819 | a gap the held snapshot covers is gated, and the book restarts on snapshot and update with a valid chain |
| `Packer.Packer.BrokenUpdate` | pyresearch/historical/l2.py:821-827 | a gap nothing covers flushes what was deferred and invalidates the book |
| `Packer.Packer.FeedUpdate` | pyresearch/historical/l2.py:748-827 | every update not stale on arrival is accepted once, and the next mode and the records written are determined by the state machine |
| `Packer.Packer.ResolveBuffered` | pyresearch/historical/l2.py:723-747 | a snapshot makes the book live exactly when the first buffered update brackets it and the rest continue it; otherwise only the offending update stays |
| `Packer.Packer.HoldSnapshot` | pyresearch/historical/l2.py:688-698 | a snapshot during a sound book is only held, and replacing an earlier one first writes what waited for it |
| `Packer.Packer.UseSnapshot` | pyresearch/historical/l2.py:705-747 | outside a live book a snapshot is written at once and drops exactly the leading updates it contains |
| `Packer.Packer.FeedSnapshot` | pyresearch/historical/l2.py:685-747 | a snapshot never interrupts a live book and never leaves the awaiting state by itself |
| `Packer.Packer.Finish` | pyresearch/historical/l2.py:829-832 | at the end nothing stays deferred: written updates are the accepted ones, in order |
| `PackerRun.Feed` | pyresearch/historical/l2.py:682-755 | one message moves the state machine by its pure step, writes its update exactly when it is not stale in the state it meets, and fails exactly on missing ids |
| `PackerRun.UnneededIsContained` | pyresearch/historical/l2.py:748-755 | an update not written was contained when it arrived: an earlier snapshot is past it, or an earlier written update reaches it |
| `PackerRun.Pack` | pyresearch/historical/l2.py:632-832 | over the whole run the updates written are exactly those the book needed when they arrived, each once, in input order; the snapshots and connections between them are exactly those the messages call for (`PackerRun.AllCalls`); the run fails exactly without a usable snapshot or on an in-range update without ids |
| `Packer.AfterTheStart` | pyresearch/historical/l2.py:84-93 | which messages count: those received before the end and, in the input's order, after the initial snapshot |
| `PackerReplay.LiveTogether` | pyresearch/historical/l2.py:676-829 | after every message of the input, replaying what is written by then through the synchroniser leaves it live exactly when the packer's book is, as far as the packer exactly when nothing is deferred, and all the way once that is written |
| `PackerReplay.RunMirrors` | pyresearch/historical/l2.py:716-718 | more closely: waiting for the first event of the same snapshot, or with the same events waiting, or live |
| `PackerReplay.SnapshotsLoad` | pyresearch/historical/l2.py:692-716 | no snapshot of the packed stream is ignored by the synchroniser |
| `PackerReplay.PackAndPlay` | cpp/exchange/binance/depth_sync.cpp:60-170 | packing a history and running the stream through the synchroniser class itself: unless a book comes out unusable or the buffer runs over, the live flag after each record is the one the packer's mode implies |
| `RawFormat.LeRoundTrip` | cpp/storage/raw_event_writer.cpp:22-51 | a number that fits its width is read back as written |
| `RawFormat.LeIsCanonical` | cpp/storage/raw_event_writer.cpp:22-51 | every byte string of a width is the encoding of the number it reads as |
| `RawFormat.SignedBits` | cpp/storage/raw_event_writer.cpp:233-277 | the two's complement reading of the exchange stamp is one-to-one |
| `RawFormat.RecordRoundTrip` | cpp/storage/raw_event_writer.cpp:233-277 | decoding an encoded record gives it back |
| `RawFormat.RecordIsCanonical` | cpp/storage/raw_event_writer.cpp:327-367 | any record view the reader accepts re-encodes to the same bytes |
| `RawFormat.BlockIsCanonical` | cpp/storage/raw_event_writer.cpp:327-367 | any block the reader accepts re-encodes to identical bytes |
| `RawFormat.ReadBlock` | cpp/storage/raw_event_writer.cpp:327-367 | the offset loop decodes the block as the recursive reading does, errors included |
| `RawFile.BlockRoundTrip` | cpp/storage/raw_event_writer.cpp:233-301 | whatever records were framed into a block come out of it, in order |
| `RawFile.PackedRoundTrip` | cpp/storage/raw_event_writer.cpp:279-301 | a compressed block followed by anything decodes to its records followed by the rest |
| `RawLayout.RecordIsLaid` | cpp/storage/raw_event_writer.cpp:233-277 | where everything stands in a record, byte by byte: both stamps, the exchange stamp modulo 2^64, the kind, and three texts, each behind its length, every number lowest byte first |
| `RawLayout.FrameIsLaid` | cpp/storage/raw_event_writer.cpp:233-277 | in a block a record stands behind its size |
| `RawLayout.BlockIsLaid` | cpp/storage/raw_event_writer.cpp:279-301 | in a file a compressed block stands behind its raw and its compressed size |
| `RawLayout.HeaderIsLaid` | cpp/storage/raw_event_writer.cpp:155-165 | a file starts with the eight letters of the format and its version |
| `RawLedger.FileRoundTrip` | cpp/storage/raw_event_writer.cpp:312-367 | a file of any sequence of blocks decodes to all their records, in order |
| `RawLedger.SealKeeps` | cpp/storage/raw_event_writer.cpp:186-225 | closing a file keeps the account of every accepted record and links the file to its predecessor |
| `RawWriter.RawEventWriter.SegmentPath` | cpp/storage/raw_event_writer.cpp:125-149 | a chosen name is in use by no file; none is returned exactly when every suffix of the second is taken |
| `RawWriter.SecondOfStamp` | cpp/storage/raw_event_writer.cpp:125-127 | files are named after the second in which the bucket of their first stamp starts |
| `RawWriter.RawEventWriter.OpenSegment` | cpp/storage/raw_event_writer.cpp:151-184 | a new file bears a name of its second that no file on disk had, no name is forgotten, and it opens exactly when some name of its second is free |
| `RawWriter.RawEventWriter.FlushLocked` | cpp/storage/raw_event_writer.cpp:279-301 | flushing moves the block in memory behind the file exactly when it fits the format, and leaves both alone otherwise |
| `RawWriter.RawEventWriter.CloseSegment` | cpp/storage/raw_event_writer.cpp:186-225 | a file is closed exactly when the block in memory can be written; it then follows the files closed before, which stay as they were, complete, readable and naming its predecessor |
| `RawWriter.RawEventWriter.Turn` | cpp/storage/raw_event_writer.cpp:233-256 | rotation happens only between complete records and exactly into a strictly later bucket; it succeeds exactly when the old file can be finished and a name is free; closed files and names on disk stay, and the new file has a name none had |
| `RawWriter.RawEventWriter.Write` | cpp/storage/raw_event_writer.cpp:233-277 | a record joins the account exactly when a file can take it and it can be encoded; the call succeeds exactly when, besides, a block it fills can be written; blocks stay below the target, closed files and names on disk stay as they were, and one file is closed at most, when the call rotates |
| `RawWriter.RawEventWriter.Close` | cpp/storage/raw_event_writer.cpp:227-231 | it succeeds exactly when the last block can be written, and then decoding the files in order returns every accepted record, for every rotation pattern; files closed before stay as they were |
| `RawWriter.ExistingRawFormatWriter.Write` | pyresearch/historical/l2.py:571-586 | the Python adapter appends the same framed record, flushes at the same threshold, and refuses exactly what does not fit the format |
| `RawWriter.ExistingRawFormatWriter.FlushBlock` | pyresearch/historical/l2.py:588-594 | its flush writes the packed block exactly when it fits the format, and changes nothing otherwise |
| `RawWriter.WriteBoth` | pyresearch/historical/l2.py:550-600 | fed the same records, the Python and the C++ writer put the same bytes on disk, block for block, exactly when every record and block fits the format, and the file reads back as exactly the records |
| `RawWriter.ReadsBack` | cpp/storage/raw_event_writer.cpp:279-367 | a file with nothing left in memory decodes to exactly what was accepted |
| `RawChain.ValidateRawChain` | cpp/replay/event_replayer.cpp:54-87 | a list is accepted exactly when it is non-empty, every file exists and each continues the one before; the error names the first offender |
| `RawChain.ValidationIsExact` | cpp/replay/event_replayer.cpp:54-87 | among the manifested files of one writer exactly the non-empty prefixes in writing order are accepted |
| `RawChain.UnmanifestedPasses` | cpp/replay/event_replayer.cpp:54-87 | any file without a manifest passes anywhere: listed twice it is accepted although that is no prefix |
| `RawChain.ExactIffManifested` | cpp/replay/event_replayer.cpp:54-87 | over all lists of one writer's files the check accepts exactly the non-empty prefixes if and only if every file has its manifest |
| `DailyGrid.BucketIsInterval` | cpp/historical/tardis_trade_reader.cpp:138-150 | a stamp belongs to bucket k exactly when it lies after the instant before and up to its own |
| `DailyGrid.BucketSumsUp` | cpp/historical/tardis_trade_reader.cpp:100-166 | a bucket holds, side by side, the quantities, notionals and numbers of the trades of its interval, and the stamp of the last of them |
| `DailyGrid.ReadTradeDay` | cpp/historical/tardis_trade_reader.cpp:90-167 | it fails exactly on a grid that does not divide the day and on a file without rows; otherwise every bucket holds exactly the trades of its interval, in order, and bucket counts plus outside rows are all rows |
| `DailyExporter.EventJoins` | cpp/research/tardis_daily_exporter.cpp:91-139 | a later event leaves every row already written causal |
| `DailyExporter.DepthCountsPrices` | cpp/research/tardis_daily_exporter.cpp:168-169 | how deep a side is, is how many distinct prices it shows |
| `DailyExporter.RowTells` | cpp/research/tardis_daily_exporter.cpp:91-192 | which segment a row is in: none unless every event since some snapshot left a usable book with both sides, no replacement is on its way across a gap and both sides show ten prices, and then the one its snapshots count to |
| `DailyExporter.DailyResearchExporter.EmitUntil` | cpp/research/tardis_daily_exporter.cpp:141-159 | every instant before the stamp (or up to it) is written now, with the current book, valid exactly when it is observed and deep |
| `DailyExporter.DailyResearchExporter.BeforeBookEvent` | cpp/research/tardis_daily_exporter.cpp:91-109 | before an event every earlier instant has its row; a backward stamp is refused; a replacement snapshot takes the observation away, an event leaves it as it was |
| `DailyExporter.DailyResearchExporter.AfterBookEvent` | cpp/research/tardis_daily_exporter.cpp:111-139 | the event enters the account; the book is observed exactly when the last snapshot and every event since left a best level on both sides |
| `DailyExporter.DailyResearchExporter.Finish` | cpp/research/tardis_daily_exporter.cpp:271-283 | every instant of the day has exactly one row, in order, each reflecting exactly the events stamped before it and none after, and valid exactly when those left an observed and deep book and it lies in no gap before a snapshot |
| `DailyExporter.GapIsHidden` | cpp/research/tardis_daily_exporter.cpp:91-109 | between an event and the replacement snapshot that follows it no row is valid |
| `DailyExporter.ExportDay` | cpp/research/tardis_daily_exporter.cpp:91-159 | a whole day of events: it stops exactly on a stamp that goes back, and otherwise has one row per instant, causal and valid exactly as said |

## Left out

- 64-bit overflow: integers are unbounded, so sums of volumes, deadlines and notionals never wrap. The explicit overflow checks of the trade index are modelled; the `checked_add` checks of the trade-day reader are not.
- Text, CSV and JSON rows, headers, number formatting, hashes, gzip and zstd, and file-system, network and thread behaviour. Compression is an invertible relation given as a graph, a manifest is a record, and disk errors never happen; names already on disk are modelled.
- Floating point: the features of the book (imbalances, microprice, pressure, dispersion) and the 1e-12 fudge terms of the simulators. The taker engine works on integers, the market maker on reals.
- MessageParser, InstrumentInfo and DecimalIncrement are not part of this model: a message arrives parsed, or as one that cannot be. The rows above call input clean when a live book is usable (`Replays.LiveShows`), only snapshots and applied events change it (`Replays.Steady`), an applied event leaves it live (`Replays.AppliedGoesLive`) and stamps do not fall; all but the last hold of every record `DepthRecords.Records` makes. The theorems on a replay also cover an event reported as failed after it was announced, which that loop never makes.
- DepthSync.DepthSynchronizer.OnSnapshot: which of the events that wait spoils the book, when one does, is left to the book.
- An exception of the source is a false or error result; nothing is claimed about an object after one, except where the contract says so.
- Orders, rows, cells and episodes are values in sequences updated by the methods; their fixed-size inner arrays are sequences, and the small loops over horizons and cells that fill them are sequence comprehensions, except the cell loop of `QueueSensitivity.QueueSensitivityObserver.StreamPrint`. An order-book side is a ranked list in place of a map.
- A deadline is a datatype with a case for "none" in place of the all-ones stamp.
- NativeDataset.NativeDatasetExporter.AfterRecord: vouches for labels only while record stamps rise strictly and the book changes inside records only (`Replays.StampsRise`, `Replays.LiveShows`); with a tied stamp `NativeResolver.LazyCallExact` says when a call is still right.
- NativeDataset.NativeDatasetExporter.BeforeDepthEvent: the flow contributions of an event enter `NativeWindows` as given; how they are computed from the levels is not modelled.
- NativeDataset.NativeDatasetExporter.OnTrade: the feature columns of a sample are left out.
- DailyGrid.ReadTradeDay: rows arrive parsed; the errors of single rows (columns, numbers, sides, the order of stamps) are not modelled.
- DailyExporter.DailyResearchExporter.EmitUntil: the feature columns of a row are left out; a row carries the book they are computed from.
- NativeReplay.Replay: a record of a replay carries no exchange stamp, so nothing is claimed about exchange times there.
- EventDataset.EventDatasetExporter.MaybeDecide: whether the book has the levels and features a decision needs is an input of the model, and feature columns are left out.
- EventDataset.EventDatasetExporter.EmitFront: what happens after the index refuses a window is not described; the source stops there too.
- LevelLifecycle.LevelLifecycleObserver.OnTrade: the last-change stamps of an episode are left out.
- DayRun.Decide: profit, drag and participation columns are left out; a position records its quantity and the notionals of both ends.
- PackerRun.Pack: input is taken in the given order; the merge of hourly files and the audit report are separate programs. Output stamps are not claimed to be monotone, since the closing record of a covered gap may precede a stamp already written.
- RawWriter.ExistingRawFormatWriter.Write: a field that does not fit its width is one refusal; which Python error it is, is not modelled.
- Capture, training, statistics, policy search, reporting, caches and downloaders: no state machine of their own, or only easier variants of what is above (the research exporter, the cross-stream timing report, the prefix metrics of the imbalance search).
