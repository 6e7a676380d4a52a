# A verified model of a workflow manager for engineering agents

The repository keeps a project's engineering history as *chunks* and other artifacts, lets agents talk over a message
*board*, and gives long-running agents a memory. This project models the parts of it with the most state and the most
branching, in Dafny, and proves what they promise: over all inputs, and over all runs where there are runs.

`dafny verify dfyconfig.toml` checks everything.

## What is modelled

* **Causal history** (`CausalOrder`, `SortOrder`, `TopologicalSort`, `Frontier`, `ArtifactIndexing`, `IndexFreshness`,
  `HiddenEdits`, `ChunkLifecycle`, `ForkedFrontier`, `ChunkOverlap`). Artifacts name their parents in `created_after`;
  the maps may hold missing parents, repeats, self-loops and cycles. `CausalOrder.Ordered` is the order as a function of
  the map alone; `TopologicalSort.Sort` is the queue-and-counter algorithm, proved equal to it. A declarative notion of
  ancestor (a path of parent links) is the measure of both the sort and the breadth-first search, and `SortOrder` says
  without the queue which of the causal orders it is. The frontier ("tips"), the index shared through one file, what
  a query of that index can miss, and the life of a chunk from creation to completion build on it.
* **Board** (`BoardDelivery`, `BoardProgress`, `BoardReconnect`). A transition system of server logs, a lossy and duplicating wire, the
  reconnecting client with its two sets of cursors, and a consumer that prints and then saves the cursor. The server
  answers a watch at cursor c with the first message after c, late or more than once
  (`workers/leader-board/src/storage.ts`, `workers/leader-board/src/swarm-do.ts`). The retry loops run against an
  arbitrary script of network events and leave a trace in which every event obeys one rule, `Allowed`.
* **Symbolic references** (`Symbols`). `org/repo::file#A::b` as text, containment by string prefix, and what a
  reference denotes: the set of references under it.
* **Memory** (`MemoryDecay`, `MemoryStore`). The age pass and the capacity pass, and what they and the merge before them
  do to files, over any number of cycles.
* **Episodic search** (`EpisodicChunks`, `Bm25`, `EpisodicStore`). Sliding windows, BM25 over the reals, and an
  incrementally grown index.
* **Text that is rewritten** (`WikiRename`, `ManagedBlock`, `FrictionHeadings`, `FrictionLog`, with `TextLines`). Page
  renaming against the link resolver, the splice between markers, and a log's appender against its parser.
* **Restartable demotion** (`ChunkDemote`). A sequence of filesystem operations that may stop after any of them and be
  started again.

Code that changes things step by step is modelled by classes and loops, each proved against a specification function or
relation; the theorems are about those. `Names`, `StableSort` and `Options` are shared.

## Where the code and its documentation part

The model follows the code. Each of these is a theorem below: when the code does what it promises, exactly, and an input
or a run where it does not.

* A query of the shared index can answer an old frontier. `IndexFreshness.QueryIsFreshIff` says at every query of every
  run when it does, in terms of the artifacts that have changed status and of their parents
  (`Frontier.StatusChangeKeepsTipsIff`); `IndexFreshness.CarefulQueriesAreFresh` says what keeps all queries of a run
  fresh. An edit is hidden by a save for another type or by another instance, or by having the very time of the index file
  (`HiddenEdits.SaveHidesEdit`, `HiddenEdits.EditIsSeenIff`), and `HiddenEdits` has a whole run for each.
* Creating a chunk takes its parents from that index. It becomes the only tip exactly when they hold every tip and nothing
  leads back from them to the new name (`Frontier.AdoptionIsOnlyTipIff`); in a sound project the second always holds
  (`ChunkLifecycle.CreationMovesFrontier`), and the first fails in a run of planning, activating, completing and creating
  that ends with two tips (`ForkedFrontier.StaleEntryForksFrontier`).
* `update_status` has no guard against a second IMPLEMENTING chunk (`ChunkLifecycle.UpdateKeepsSoundIff`,
  `ChunkLifecycle.UpdateBreaksARun`).
* Two references whose symbols differ by one trailing colon have references in common that the overlap check does not
  see, and about all other pairs it is right (`Symbols.PairIsRightUnlessTwins`, `Symbols.EverySymbolHasATwin`).
* The rewrite that demotion calls idempotent is so only on values without a doubled prefix
  (`ChunkDemote.RewriteTwice`), and a demotion that stops between its two copies loses the plan when it is resumed
  (`ChunkDemote.Interrupted`, `ChunkDemote.PlanCanBeLost`). A demotion takes a target that has any GOAL for a finished copy,
  and loses the architecture chunk's GOAL exactly if the two differ in more than prefixes (`ChunkDemote.GoalKeptIff`,
  `ChunkDemote.GoalCanBeLost`).
* A page link spelt with blanks or with `.md` dies when the page is renamed (`WikiRename.LinkToRenamed`,
  `WikiRename.LinkWithExtensionDies`). The linter takes a link's display text for part of its target, so it reports every
  link with display text, and about all others it is right (`WikiRename.LintDeadIff`).
* A friction log that ends in a heading with trailing blanks changes that heading on the next append
  (`FrictionLog.ParseUndoesAppend`, `FrictionLog.TrailingBlankIsUnsafe`).
* A lowered salience is reported as an event and not written back: the file is in the form that survives exactly when the
  salience was not to drop (`MemoryStore.SavedIffNotFading`). The merge stops with an error on two entries with one title
  that is already on disk (`MemoryStore.Memories.MergeTier`, `MemoryStore.SameTitleTwiceStops`).

One difference needs no theorem. Decay's description speaks of every tier's budget; only the core tier has one in the
code, and the configured `tier1_capacity` is never read (`src/entity_decay.py:169-194`).

## Model

| member | source | states |
|---|---|---|
| CausalOrder.OrderedIsCausal | src/artifact_ordering.py:28-69 | the sort lists each existing artifact at most once, nothing else, and each one after all of its existing parents, for every dependency map |
| CausalOrder.OrderedIsFixpoint | src/artifact_ordering.py:49-67 | an artifact is listed if and only if all of its existing parents are |
| CausalOrder.OrderedIsComplete | src/artifact_ordering.py:28-69 | an artifact is left out if and only if it is its own ancestor or has an ancestor that is |
| CausalOrder.UnlistedMeetsCycle | src/artifact_ordering.py:49-69 | any walk over parent links that ends in an unlisted artifact starts in one that is on a cycle or above one |
| CausalOrder.AncestorsComeEarlier | src/artifact_ordering.py:463-511 | every ancestor of a listed artifact is listed at an earlier index |
| TopologicalSort.Sort | src/artifact_ordering.py:28-69 | the queue-and-counter loops compute exactly the order that the dependency map determines, whatever order sets and dictionaries are read in; which order that is, the next five rows say |
| SortOrder.LeIsCodePointOrder | src/artifact_ordering.py:49-64 | the order of names is code-point order: a prefix first, and otherwise the first difference decides |
| SortOrder.OrderedInWaves | src/artifact_ordering.py:49-69 | the sorted list, with the names of missing parents in it, is first come first served: of two entries the one whose last parent stands earlier comes first, and by name if that is the same |
| SortOrder.WavesAreUnique | src/artifact_ordering.py:49-69 | and no other complete list is |
| SortOrder.RootsComeFirst | src/artifact_ordering.py:49-57 | artifacts without parents come before all others, in code-point order |
| SortOrder.DepthNeverFalls | src/artifact_ordering.py:28-69 | the length of the longest chain of parents never falls along the order |
| TopologicalSort.BuildTables | src/artifact_ordering.py:38-47 | the counters start at the number of parent occurrences, repeats counted, and `children` is the reversed relation with one entry an occurrence |
| TopologicalSort.PendingAfterPop | src/artifact_ordering.py:53-67 | popping a node lowers the number of pending occurrences of a child by exactly that node's occurrences, so a counter is always the number of occurrences not yet popped |
| TopologicalSort.CountDown | src/artifact_ordering.py:57-63 | counting down over a child list takes each counter down by its entries and frees exactly the children that reach zero, sorted |
| TopologicalSort.ReleaseChildren | src/artifact_ordering.py:53-67 | one pop keeps every counter equal to its pending occurrences and queues exactly the nodes that have become ready |
| TopologicalSort.GetAncestors | src/artifact_ordering.py:463-511 | the breadth-first search terminates on cyclic graphs and returns exactly the transitive closure over existing artifacts |
| Frontier.CollectReferenced | src/artifact_ordering.py:361-378 | the referenced set holds exactly the names that an eligible artifact has as parents |
| Frontier.CollectTips | src/artifact_ordering.py:380-392 | tips are the eligible, unreferenced artifacts in causal order |
| Frontier.EveryEligibleHangsFromTip | src/artifact_ordering.py:361-392 | in an acyclic history every eligible artifact is linked to some tip through a chain of eligible artifacts that name the next as a parent |
| Frontier.StatusChangeKeepsTipsIff | src/artifact_ordering.py:361-392 | for every history, cyclic ones included, any set of status changes keeps the tips if and only if every listed artifact that changes is named by an eligible one, and so is each of its listed parents that is eligible before and after, on the side where the artifact does not count |
| Frontier.RetiringKeepsTipsIff | src/artifact_ordering.py:361-392 | in an acyclic history one artifact can be retired with the tips unchanged if and only if an eligible one names it and its eligible parents are still named without it |
| Frontier.StartingKeepsTipsIff | src/artifact_ordering.py:361-392 | and one can become eligible with the tips unchanged if and only if it and its eligible parents were named already |
| Frontier.CreationKeepsAcyclicIff | src/chunks.py:396-427 | adding an artifact with any parents keeps the history acyclic if and only if no parent is the new name or leads back to it, and otherwise puts the new artifact on a cycle |
| Frontier.AdoptionIsOnlyTipIff | src/chunks.py:396-427 | an eligible artifact created with any parents becomes the only tip if and only if every tip is among the parents and no cycle is closed |
| Frontier.FutureAdoptionKeepsTipsIff | src/chunks.py:396-427 | one that is not eligible keeps the tips if and only if no cycle is closed or nothing that names it supports the frontier |
| Frontier.EligibleCreationIsOnlyTip | src/chunks.py:406-427 | with the frontier itself as parents: if and only if no artifact that already names the new one supports the frontier |
| Frontier.FutureCreationKeepsTips | src/chunks.py:406-427 | creating an artifact that is not eligible keeps the tips, under exactly the same condition |
| Frontier.AttachedClosesCycle | src/chunks.py:396-427 | the failing family: if such an artifact exists, the creation puts a former tip and the new artifact out of the order |
| Frontier.CreationKeepsOrder | src/artifact_ordering.py:28-69 | adding an artifact that nothing names leaves the order of all the others as it was, through the whole run of the sort |
| Frontier.AcyclicListsAll | src/artifact_ordering.py:28-69 | in an acyclic history the order holds every artifact |
| ArtifactIndexing.ArtifactIndex.BuildIndexForType | src/artifact_ordering.py:320-399 | the entry built is the one that the files of the type determine |
| ArtifactIndexing.ArtifactIndex.ReadArtifacts | src/artifact_ordering.py:334-359 | the loop reads parents and status of every artifact |
| ArtifactIndexing.EligibleIff | src/artifact_ordering.py:225-232 | what counts for the frontier, read off the files: chunks that are ACTIVE or IMPLEMENTING and external ones, ACTIVE narratives and no external ones, every investigation and subsystem |
| ArtifactIndexing.ArtifactIndex.IsIndexStale | src/artifact_ordering.py:279-317 | the checks and the loop over the files find the entry stale if and only if it is missing, of another version, for other directories, or older than a file |
| ArtifactIndexing.ArtifactIndex.EnsureIndexFresh | src/artifact_ordering.py:279-317 | loads once, rebuilds if and only if the entry is stale, and then saves the whole index; the new cache, file and file time are stated outright |
| ArtifactIndexing.StepKeepsCoherence | src/artifact_ordering.py:279-425 | every query, rebuild, directory change or lost file keeps each stored order equal to the order of its own directory set, in the file and in every instance's cache |
| ArtifactIndexing.RunKeepsCoherence | src/artifact_ordering.py:238-461 | the same for every interleaving of any number of instances and types sharing one index file |
| ArtifactIndexing.QueriesAgreeWithFreshBuild | src/artifact_ordering.py:401-425 | while `created_after` of a name never changes, every query answers the order of a fresh build of the files of that moment |
| IndexFreshness.QueryIsFreshIff | src/artifact_ordering.py:401-425 | in every run of any number of instances and types, a query answers the whole entry of a fresh build if and only if its guard finds the index stale, or the status changes since the entry was built are harmless: each artifact that began or ceased to count is named by an eligible one, and its parents that count before and after are too |
| IndexFreshness.CarefulQueriesAreFresh | src/artifact_ordering.py:279-317 | in every run in which edits of a type get times later than the index file, and no save overtakes an entry that lacks an edit, every query of that type is fresh at every moment, tips included |
| IndexFreshness.SoleUserIsFresh | src/artifact_ordering.py:279-317 | for one instance on one type the first of these is enough, restarts and losses of the file included |
| HiddenEdits.EditIsSeenIff | src/artifact_ordering.py:279-317 | after an edit a query is fresh if and only if a file is later than the index file, or the set of directories changed, or the status changes since the entry was built are harmless |
| HiddenEdits.SaveHidesEdit | src/artifact_ordering.py:279-317 | after an edit and a save for any other type or by any other instance, the same with the time of that save in place of the edit's own |
| HiddenEdits.RetiringChangesTips | src/artifact_ordering.py:361-392 | a concrete edit that a kept entry misses: retiring the only chunk empties the frontier |
| HiddenEdits.OtherTypeHides | src/artifact_ordering.py:279-317 | a run from nothing that ends in a query with a tip where there is none, after a save for another type |
| HiddenEdits.OtherInstanceHides | src/artifact_ordering.py:279-317 | the same after another instance has rebuilt and saved the same type |
| HiddenEdits.SameTimeHides | src/artifact_ordering.py:303-317 | the same for an edit with the very time of the index file |
| ChunkLifecycle.GuardSeesUnblocked | src/chunks.py:210-224 | the guard finds nothing if and only if every IMPLEMENTING chunk is blocked by a cycle |
| ChunkLifecycle.SoundGuardIsExact | src/chunks.py:179-224 | in a sound project the listing holds every chunk and the guard finds the IMPLEMENTING chunk if there is one |
| ChunkLifecycle.StepKeepsSound | src/chunks.py:317-427 | creating, activating and completing keep the history acyclic and at most one chunk IMPLEMENTING |
| ChunkLifecycle.TransitionIff | src/models/chunk.py:36-43 | the transition table read backwards: where each status can be reached from; nothing leaves HISTORICAL, and only a FUTURE chunk is started |
| ChunkLifecycle.SetStatusIff | src/artifact_manager.py:276-293 | a status change leaves every other file, and the parents of its own, as they were |
| ChunkLifecycle.UpdateKeepsSoundIff | src/chunks.py:882-913 | `update_status`, which has no guard, keeps that if and only if it does not start a chunk beside another |
| ChunkLifecycle.SecondIsStarted | src/chunks.py:882-913 | the failing family: while a chunk is current, any FUTURE chunk can be started by an update, and there are two |
| ChunkLifecycle.UpdateBreaksARun | src/chunks.py:882-913 | three operations from an empty project, the last of them an update, after which two chunks are IMPLEMENTING |
| ChunkLifecycle.RunsAreSound | src/chunks.py:179-427 | so every run of those operations from an empty project is sound throughout |
| ChunkLifecycle.CreationMovesFrontier | src/chunks.py:396-427 | in a sound project, for whatever parents the index answered: a new chunk whose status counts for tips becomes the only tip if and only if the parents hold every tip, and any other leaves the tips alone |
| ChunkLifecycle.FreshFrontierMoves | src/chunks.py:406-427 | so with a fresh frontier it becomes the only tip |
| ForkedFrontier.StaleEntryForksFrontier | src/chunks.py:396-427 | one run, of the chunk operations and of the index at once: a chunk is planned, indexed, activated and completed, the index is saved for another type, and the next creation gets no parents from it and leaves two tips in a sound project |
| ChunkLifecycle.Chunks.ListChunks | src/chunks.py:179-208 | the listing is the whole causal order, newest first, through the cached index |
| ChunkLifecycle.Chunks.GetCurrentChunk | src/chunks.py:210-224 | the first IMPLEMENTING chunk of that listing |
| ChunkLifecycle.Chunks.CreateChunk | src/chunks.py:369-429 | when it is refused and why; the new chunk with the tips that the index answers as its parents and nothing else changed; and what that does to the frontier |
| ChunkLifecycle.Chunks.ActivateChunk | src/chunks.py:317-360 | succeeds exactly for a FUTURE chunk while none is current, and changes that status alone |
| ChunkLifecycle.Chunks.CompleteChunk | src/cli/chunk.py:516-533 | completes the named chunk exactly if it is there with its document, or the current one exactly if there is one, and changes that status alone |
| ChunkLifecycle.Chunks.UpdateStatus | src/chunks.py:882-913 | goes through if and only if the table allows it, changes that status alone, and says what is wrong otherwise |
| ChunkOverlap.FindOverlappingChunks | src/chunks.py:720-814 | returns, sorted, exactly the ACTIVE ancestors whose references overlap; an error exactly for a missing or unreadable chunk |
| ChunkOverlap.AffectedShareCode | src/chunks.py:720-814 | for well-formed references these are exactly the active ancestors that have some code in common with the chunk |
| ChunkOverlap.AffectedComeEarlier | src/chunks.py:720-733 | an affected chunk stands earlier in the causal order than the chunk that affects it |
| BoardDelivery.NoMessageSkipped | src/board/client.py:464-573 | in every run with lost connections, duplicated or late answers, timeouts and restarts, every message after the starting cursor and up to any cursor held in memory has been handed out, and up to the one on disk printed |
| BoardDelivery.RunsAreSafe | src/board/client.py:425-643 | the invariant behind it, over cursors, frames and answers on the wire, holds in every reachable state |
| BoardDelivery.StepKeepsSafe | src/board/client.py:468-573 | and is kept by every single step of client, server, network and consumer |
| BoardDelivery.SaveKeepsSafe | src/cli/board.py:366-394 | the consumer saves a cursor only after the message is printed, so a stop in between repeats a message and never loses one |
| BoardDelivery.CapAcrossReconnects | src/board/client.py:615-643 | with a cap, a process hands out at most that many messages over all of its connections and is finished exactly when it has |
| BoardDelivery.EveryChannelIsWatched | src/board/client.py:464-573 | in every run, the generator's cursors are the wrapper's whenever frames are sent or awaited, and differ at the yielded channel only while a message is with the consumer; a client that waits watches each of its channels at exactly its cursor, so the next message can be answered at once and then be received |
| BoardDelivery.StepKeepsWired | src/board/client.py:450-573 | the invariant behind it, over both sets of cursors, the frames still to be sent and the frames on the wire, is kept by every step |
| BoardProgress.OnlyAppendedIsHandedOut | src/board/client.py:464-573 | in every run, a message that is handed out has a position among those appended to its channel so far, counted from 1 |
| BoardProgress.SecondSilenceEndsConnection | src/board/client.py:487-516 | in every run, a timeout ends the connection if and only if the one before it came with no message, removed channel or new connection in between; otherwise all watch frames are due again |
| BoardProgress.FramesAreSentAgain | src/board/client.py:464-516 | in every run, after a timeout or a reconnection nothing is received, and no further timeout is reached, before the loop has come to every channel of the connection again and sent the frame of each that is still active |
| BoardProgress.NeverStuck | src/board/client.py:425-643 | from every reachable state, a client that still has a channel can come to wait for messages, or to its cap, by steps of its own and its consumer alone |
| BoardReconnect.Client.CountFailure | src/board/client.py:127-187 | a counted failure raises exactly when the count exceeds the budget, and otherwise sleeps the given number of seconds and doubles the backoff up to 60 |
| BoardReconnect.Client.DialOnce | src/board/client.py:146-187 | one attempt by its cause: a lost connection or a status from 500 on counts and is tried again within the budget, a status below 500 and any other error are final, everything else is a connection |
| BoardReconnect.Client.ConnectWithRetry | src/board/client.py:127-187 | every event taken before the last was a lost connection or a status from 500 on; it raises only on another error, on a status below 500 or on a failure that exceeds the budget, and hands back a connection, with `attempt == 0` and `backoff == 1`, only on none of these |
| BoardReconnect.Client.WatchWithReconnect | src/board/client.py:292-406 | returns exactly the delivered position, and everything it did before followed the rule of `Allowed`, for every script of network events |
| BoardReconnect.Client.Stream | src/board/client.py:487-573 | messages until the cap, until the last channel is dropped, or until the connection is lost, refused or stale, and the reason is exact |
| BoardReconnect.Client.WatchMultiWithReconnect | src/board/client.py:615-684 | at most `count` messages over all connections, counted on the trace; it ends without a result if and only if the last connection has dropped every channel; every event before followed the rule, and so each message handed out, but for the one that reaches the cap, is followed at once by the frame that watches its channel again, if and only if the stream still watches that channel |
| BoardReconnect.WaitTime | src/board/client.py:669-676 | a retry waits between its backoff and 60 seconds |
| BoardReconnect.BackoffDoubles | src/board/client.py:669-677 | the first backoff is one second, and each is the double of the one before or 60 seconds, whichever is less: min(2^(k-1), 60) for the k-th failure |
| BoardReconnect.StaleTimeoutClosed | src/board/client.py:645-653 | closed form of the growing receive timeout, which doubles up to 600 seconds |
| BoardReconnect.BudgetBound | src/board/client.py:127-187 | with a finite budget M an outage that raises on the budget has exactly M+1 counted failures, no outage has more, and after the last comes the exception and nothing else |
| BoardReconnect.ObeysEverywhere | src/board/client.py:292-406 | every event of an obedient trace followed the rule at the moment it happened |
| Symbols.ParseFormat | src/symbols.py:85-149 | every canonical reference is read back from its text |
| Symbols.FormatParse | src/symbols.py:85-149 | every text that parses is the text of the canonical reference it parses to |
| Symbols.IsParentOfIff | src/symbols.py:178-224 | parenthood read off the two texts: the same text, or its own followed by "#" or, where it has one already, by "::"; an error exactly for a text without "::" before its first "#" |
| Symbols.QualifyRefIs | src/symbols.py:152-175 | only such a text gets the project in front of it |
| Symbols.QualifyAgreesWithContext | src/symbols.py:152-175 | qualifying first and parsing in the context of a project agree if and only if the project name is clean |
| Symbols.ContainsIsPartialOrder | src/symbols.py:178-224 | containment is reflexive, antisymmetric and transitive |
| Symbols.ContainersFormChain | src/symbols.py:207-224 | two containers of one reference are comparable, unless they are twins: symbols that differ by one trailing colon |
| Symbols.SymbolOverIsSegmentPrefix | src/symbols.py:212-224 | on well-formed symbol paths the string-prefix test is the prefix order of segments |
| Symbols.PairMeaning | src/symbols.py:178-224 | two references denote intersecting sets if and only if one contains the other or they are twins |
| Symbols.ComputeSymbolicOverlap | src/chunks.py:1015-1039 | the loops answer true only with an overlapping pair, false only with none and no error, and raise only on a pair that does |
| Symbols.PairIsRightUnlessTwins | src/chunks.py:1015-1039 | the comparison of two references agrees with intersection of what they denote if and only if they are not twins |
| Symbols.OverlapMeaning | src/chunks.py:1015-1039 | two lists are found to overlap if and only if a pair intersects that is no pair of twins; so the answer is wrong exactly if there are twins and nothing else meets |
| Symbols.WellFormedOverlapIsIntersection | src/chunks.py:1015-1039 | for "::"-joined non-empty segments the comparison is exactly semantic intersection |
| Symbols.TwinsAreMissed | src/symbols.py:212-224 | the failing family, qualified references or not: twins have references in common and the comparison does not see it |
| Symbols.EverySymbolHasATwin | src/symbols.py:152-175 | and every reference with a symbol is in it, with itself and one more colon |
| MemoryDecay.ApplyDecay | src/entity_decay.py:43-196 | survivors, demotions and expirations as the two passes define them, and exactly one event for each expiry, demotion and lowered salience |
| MemoryDecay.EachInOnePlace | src/entity_decay.py:74-196 | every input memory is kept, demoted or expired, and only one of these, with multiplicity |
| MemoryDecay.CapacityIsMet | src/entity_decay.py:169-194 | at most the capacity of core memories stays, and exactly the capacity if any fresh one is demoted |
| MemoryDecay.LeastRecentlyReinforcedGoFirst | src/entity_decay.py:148-194 | no demoted core memory, of either pass, was reinforced later than one that stays; a stale one strictly earlier |
| MemoryDecay.TiesGoInOrder | src/entity_decay.py:170-188 | among core memories reinforced at the same moment the capacity pass takes those listed first |
| MemoryDecay.FateByAge | src/entity_decay.py:90-167 | outside core a memory expires if and only if it is past its threshold; core memories never expire |
| MemoryDecay.DaysMean | src/entity_decay.py:85-107 | an age is the number of whole days of 24 hours |
| MemoryDecay.FadedMeans | src/entity_decay.py:109-146 | a survivor is what it was, but that a consolidated one loses a point of salience, never the last, once half its threshold has passed |
| MemoryDecay.ExpiriesSay | src/entity_decay.py:90-146 | there is an event for each expired memory that says when, which one and from which tier, and no other |
| MemoryDecay.DemotionsSay | src/entity_decay.py:148-194 | the same for each demotion, with both tiers |
| MemoryDecay.FadingsSay | src/entity_decay.py:109-146 | and for each lowered salience |
| MemoryDecay.DecayConsolidated | src/entity_decay.py:109-146 | salience drops by one from half the threshold on, never below one, with one event exactly when it drops |
| MemoryDecay.DemoteExcess | src/entity_decay.py:169-194 | the capacity pass takes off the oldest of the stable order, and only the excess |
| MemoryStore.Memories.DecayCycle | src/entity_shutdown.py:672-722 | the memory files, counts and log after the decisions are applied |
| MemoryStore.FateIsExact | src/entity_shutdown.py:703-722 | on disk a file stays byte for byte (a lowered salience is not written), or is a core memory rewritten one tier down, or is stale, not core and gone |
| MemoryStore.SavedIffNotFading | src/entity_shutdown.py:703-722 | a file that stays is on disk in the form that survives if and only if its salience was not to drop, and the drop is reported either way |
| MemoryStore.FadingStays | src/entity_shutdown.py:703-722 | the files whose lowered salience is not written are those in the second half of their term and not past it |
| MemoryStore.CycleHasEffect | src/entity_shutdown.py:672-722 | a cycle maps the files one to one onto what is left, nothing appears, and the core memories fit the capacity |
| MemoryStore.CyclesAreARun | src/entity_shutdown.py:672-722 | cycles of the operation, one after the other, form a run in the sense of the next three |
| MemoryStore.NeverPromotedDemotedOnce | src/entity_shutdown.py:672-722 | over any number of cycles a memory keeps everything but its tier, which changes at most once, from core to consolidated |
| MemoryStore.TwoOverdueCyclesRemove | src/entity_shutdown.py:672-722 | two cycles, however far apart, that find a memory past all three thresholds remove it |
| MemoryStore.NothingAppears | src/entity_shutdown.py:672-722 | every file on disk after a run is one that was there in the beginning |
| MemoryStore.Memories.MergeTier | src/entity_shutdown.py:642-663 | the files after the merge, and the exact failure: it stops at the first entry whose title was on disk and has already been replaced |
| MemoryStore.SameTitleTwiceStops | src/entity_shutdown.py:642-663 | any two entries with one title that is on disk make such a failure, at the second of them |
| MemoryStore.TwoForOneFile | src/entity_shutdown.py:642-663 | for instance one file and two entries for it: the first goes through and the second fails |
| MemoryStore.MergeLosesNoTitle | src/entity_shutdown.py:642-663 | no title is lost, whether the merge goes through or stops half-way, and files with other titles are untouched |
| EpisodicChunks.BuildChunks | src/entity_episodic.py:73-116 | one chunk for every second substantive turn, with its window's text and anchors and consecutive numbers |
| EpisodicChunks.SubstantiveIff | src/entity_episodic.py:73-90 | a turn counts from 20 characters of cleaned and trimmed text on |
| EpisodicChunks.WindowIsSpoken | src/entity_episodic.py:99-116 | the text of a window says each of its turns in order, the role in capitals and the cleaned words, with an empty line in between |
| EpisodicChunks.FourShareAWindow | src/entity_episodic.py:93-97 | m consecutive substantive turns share a window if and only if m is at most four, or five from an even turn on |
| EpisodicChunks.AnchorsDelimitWindow | src/entity_episodic.py:104-114 | a substantive turn lies between a chunk's anchors if and only if it is in the chunk's window |
| Bm25.Build | src/entity_episodic.py:133-146 | term frequencies, lengths and average are those of the tokenized chunks |
| Bm25.CountTerms | src/entity_episodic.py:140-144 | the counting loops give each term the number of documents that contain it |
| Bm25.AveragePositive | src/entity_episodic.py:163-171 | whenever a query term is looked up the average length is positive |
| Bm25.IdfArgumentAboveOne | src/entity_episodic.py:167 | the logarithm is taken of a number above one |
| Bm25.TermScorePositive | src/entity_episodic.py:163-172 | a term never subtracts, and adds exactly when the document contains it |
| Bm25.RarerTermScoresMore | src/entity_episodic.py:157-174 | of two terms with the same count in a document, the one in fewer documents scores strictly more |
| Bm25.MoreOccurrencesScoreMore | src/entity_episodic.py:157-174 | of two documents of one length, the one with more occurrences of a term scores strictly more for it |
| Bm25.ShorterDocumentScoresMore | src/entity_episodic.py:157-174 | of two documents with the same count of a term, the shorter scores strictly more for it |
| Bm25.ScorePositiveIffShared | src/entity_episodic.py:157-174 | a score is positive if and only if document and query share a token |
| Bm25.Search | src/entity_episodic.py:148-176 | the loops return the positive ones among the first `top_k` of a stable descending sort |
| Bm25.BestAreBest | src/entity_episodic.py:175-176 | these are sorted, come from the scored chunks with multiplicity, are as many as possible, and no omitted chunk outscores a returned one |
| Bm25.SearchReturnsSharers | src/entity_episodic.py:148-176 | the number returned is `top_k` or the number of chunks that share a token, whichever is less, and each returned chunk shares one |
| EpisodicStore.EpisodicStore.BuildOrUpdate | src/entity_episodic.py:297-339 | an update indexes exactly the sessions not yet indexed, after the others, and leaves the index equal to a batch build |
| EpisodicStore.StepKeepsValid | src/entity_episodic.py:297-339 | updates and new session files keep the stored index equal to a batch build and keep the chunks that are there |
| EpisodicStore.RunIsBatch | src/entity_episodic.py:297-339 | after any run from an empty index it is the batch build, chunk i has number i, and earlier chunks never changed |
| EpisodicStore.BatchIsNumbered | src/entity_episodic.py:316-322 | chunk i of the corpus has number i and anchors inside its session |
| EpisodicStore.EpisodicStore.Search | src/entity_episodic.py:341-365 | searching the stored index is searching a freshly built one |
| EpisodicStore.HitsExpand | src/entity_episodic.py:383-407 | what a hit names is found again by `expand`, uniquely, with its session and its anchors in range |
| EpisodicStore.EpisodicStore.Expand | src/entity_episodic.py:382-424 | a context is found if and only if a stored chunk has that session and number; it is that chunk's, inside the transcript, as wide as the radius allows and with the hit in it |
| WikiRename.EntityRepo.WikiRename | src/entity_repo.py:1081-1135 | the three errors, and otherwise the moved page, every page rewritten, piece by piece the old one but for the links that name the renamed page, and the exact number of files changed |
| WikiRename.EntityRepo.RewriteWikilinks | src/entity_repo.py:1049-1077 | one page is rewritten link by link: text and other links stay, a link that names the page gets the new target and keeps its display text, and it is reported as modified exactly when one of them reads differently |
| WikiRename.PartsIff | src/entity_repo.py:1046-1046 | what the link pattern takes apart: a target without bars, and then nothing, or a bar and a text |
| WikiRename.RenamingChanges | src/entity_repo.py:1049-1135 | in the renamed wiki the page is at its new path, all others are where they were, and each piece of each page is the same but for the target of a link that names the page |
| WikiRename.TouchedIff | src/entity_repo.py:1071-1077 | a page counts as changed if and only if it has such a link and that reads differently afterwards |
| WikiRename.LinkToRenamed | src/entity_repo.py:1064-1072 | a link to the renamed page means it afterwards if and only if it is trimmed and without extension, or names a file name that stays; otherwise it is dead |
| WikiRename.LinkWithExtensionDies | src/entity_repo.py:1064-1072 | for every renaming of a page below a directory, or to another file name, there is a link that dies: the page's old path with `.md` |
| WikiRename.SelfLinkDies | src/entity_repo.py:1064-1072 | for instance in a wiki of one page that links to itself |
| WikiRename.LinkToOther | src/entity_repo.py:1064-1072 | a link to another page keeps its meaning if and only if the rewriter does not take it for the renamed one, which only blanks around the target can cause |
| WikiRename.DeadLink | src/entity_repo.py:1064-1072 | a dead link stays dead or comes to mean the renamed page |
| WikiRename.CarriedIffWellSpelt | src/entity_repo.py:1049-1135 | one link of the wiki is carried along by the renaming if and only if it is well spelt |
| WikiRename.RenameKeepsMeaning | src/entity_repo.py:1049-1135 | renaming keeps the meaning of all links if and only if all are well spelt |
| WikiRename.PlainTargetsAreWellSpelt | src/entity_repo.py:1049-1078 | trimmed targets without extension are |
| WikiRename.LintDeadIff | src/entity_repo.py:1416-1424 | the linter reports a link if and only if it has display text or its target does not resolve; it is wrong exactly about links with display text that do mean a page |
| WikiRename.DisplayTextIsReported | src/entity_repo.py:1416-1424 | for instance in a wiki of one page that links to itself with display text |
| WikiRename.DiesIff | src/entity_repo.py:1341-1360 | the linter reports a link as dead only after the renaming if and only if it meant the page in a spelling that does not follow it |
| WikiRename.ResolveWikilink | src/entity_repo.py:1341-1360 | returns a page that the target may mean, and none only if there is none |
| WikiRename.LintDeadLinks | src/entity_repo.py:1416-1424 | the dead-link issues are exactly the links that do not resolve, page by page in the order of the text, one for each occurrence |
| ManagedBlock.ParsedIffOnePair | src/project.py:44-108 | parsing succeeds if and only if there is exactly one well-ordered marker pair, and cuts the text just around it |
| ManagedBlock.RefusedIff | src/project.py:44-93 | each other answer by its cause: no marker, one kind alone, one kind twice, or the end before the start |
| ManagedBlock.PlainTextBetweenMarkers | src/project.py:28-29 | any text without "<" between the two markers is a block |
| ManagedBlock.MarkersDisjoint | src/project.py:28-29 | occurrences of the markers never overlap, so none can straddle a cut |
| ManagedBlock.SurroundedBlockIsPair | src/project.py:451-476 | a block put between two marker-free texts is the only pair of the whole |
| ManagedBlock.PairHasFreeSurroundings | src/project.py:44-108 | what stands around the pair of a text has no markers, and the inside is a block |
| ManagedBlock.SpliceParses | src/project.py:451-476 | after the splice, the text before and after is the old one exactly and the markers are found again around the new block |
| ManagedBlock.UpdateIsIdempotent | src/project.py:451-476 | a second run with the same template changes nothing |
| ManagedBlock.LastTemplateWins | src/project.py:451-476 | whatever templates came in between, the last one decides |
| ManagedBlock.ProjectDirectory.InitAgentsMd | src/project.py:417-494 | all cases of AGENTS.md and CLAUDE.md: what each is afterwards, and exactly when the run reports a creation, a silent skip, a skip for which reason, or a broken template |
| FrictionHeadings.MatchFormatted | src/friction.py:43-45 | a formatted heading is matched back part by part if and only if its title is one the pattern gives back |
| FrictionHeadings.MatchIff | src/friction.py:43-45 | a line is matched, and as which heading, if and only if it has the shape that the pattern describes |
| FrictionHeadings.TrailingBlanksMatter | src/friction.py:43-45 | blanks after a line change what it matches exactly when there are some and the longer line is a heading |
| FrictionHeadings.PaddedReadsBack | src/friction.py:142-161 | formatting a number with three digits or more and reading it back is the identity |
| FrictionHeadings.PaddedToThree | src/friction.py:142-161 | ids have at least three digits, and more only if they are needed |
| FrictionLog.ParseEntries | src/friction.py:79-140 | the line loop computes the entries of the body |
| FrictionLog.GetNextEntryId | src/friction.py:142-161 | the next id is one above the largest number, padded; every entry that is read has a number, and the next id is above it |
| FrictionLog.AppendedText | src/friction.py:276-306 | the text after an append, in full: the old one less its trailing blanks, the heading, the description and the labelled impact |
| FrictionLog.AppendedEntries | src/friction.py:276-306 | the appended text closes whatever was open and adds its own entry |
| FrictionLog.ContentSays | src/friction.py:276-306 | what is read back as the content of an entry is the description, an empty line and the labelled impact |
| FrictionLog.OldEntriesKept | src/friction.py:276-306 | the entries before it are all kept if and only if the body does not end in a heading with trailing blanks |
| FrictionLog.ParseUndoesAppend | src/friction.py:276-306 | parsing after an append gives the old entries and exactly the new one, if and only if the end is safe |
| FrictionLog.TrailingBlankIsUnsafe | src/friction.py:276-306 | such logs exist for every heading: the heading and one more blank |
| FrictionLog.AppendedEndsSafely | src/friction.py:276-306 | an appended log ends safely again |
| FrictionLog.OneCall | src/friction.py:232-306 | one call adds one entry, numbered one above all others |
| FrictionLog.RunReadsBack | src/friction.py:232-306 | over any run of calls the log reads as what it held first and then one entry a call |
| FrictionLog.IdsIncrease | src/friction.py:142-161 | the numbers of new ids strictly increase over a run and exceed every old one |
| FrictionLog.Friction.AppendEntry | src/friction.py:232-306 | the error cases, and otherwise the id, the themes and the body afterwards |
| ChunkDemote.StripTwice | src/chunk_demote.py:75-88 | stripping is idempotent on a value if and only if it does not carry the prefix twice |
| ChunkDemote.RewriteStrips | src/chunk_demote.py:91-141 | the rewrite keeps the text and every other key, drops `dependents`, and takes the prefix off exactly the paths and references that carry it; no other document does that |
| ChunkDemote.RewriteTwice | src/chunk_demote.py:91-141 | the documented idempotence of the rewrite holds if and only if no path and no reference carries the prefix twice |
| ChunkDemote.ValidateChunkScope | src/chunk_demote.py:45-72 | the offenders are exactly the qualified paths of another repository, in the order of the list and with its repeats |
| ChunkDemote.OffendingIff | src/chunk_demote.py:61-72 | a path offends if and only if it has a "::" and what stands before the first one does not end in the repository's name |
| ChunkDemote.Workspace.DemoteChunk | src/chunk_demote.py:213-354 | when it is refused and why, and otherwise that the directories are those after the whole program of steps, which the row below describes, with the counts |
| ChunkDemote.EndState | src/chunk_demote.py:282-347 | after an uninterrupted run, for all documents: the architecture chunk is gone, the target holds its GOAL and PLAN stripped of prefixes unless it had a GOAL of its own, the pointers of the searched repositories are gone, and nothing else has changed |
| ChunkDemote.CopiesSameEnd | src/chunk_demote.py:302-306 | both copies together lead to the same end; the first alone if and only if the plan would not have changed the target |
| ChunkDemote.Interrupted | src/chunk_demote.py:282-347 | a run stopped after any number of steps can be resumed and ends in the same files, if and only if it was not stopped between the two copies with a plan to lose |
| ChunkDemote.PlanCanBeLost | src/chunk_demote.py:302-306 | the exception exists: a chunk with a GOAL and a PLAN, stopped after the first copy and started again, ends without its PLAN |
| ChunkDemote.RestartsEndAlike | src/chunk_demote.py:213-347 | so does any number of interruptions, with the projects visited in any order |
| ChunkDemote.GoalKeptIff | src/chunk_demote.py:282-347 | after any number of steps of a run the GOAL, its text word for word and its frontmatter up to prefixes and `dependents`, is in the architecture repository or in the target, if and only if the run has not ended or the target held no GOAL that differs in more than that |
| ChunkDemote.GoalNeverLost | src/chunk_demote.py:282-347 | so it is there at every step of a first run and of every later one, unless the target holds another GOAL |
| ChunkDemote.GoalCanBeLost | src/chunk_demote.py:282-347 | the exception exists: with two different GOALs the run counts the target as copied and removes the architecture chunk |
| ChunkDemote.StopsKeepGoal | src/chunk_demote.py:213-347 | with no other GOAL in the target, the text is in one of the two places after any number of runs stopped anywhere, between the two copies included |
| ChunkDemote.StopsEndWithGoalIff | src/chunk_demote.py:213-347 | and once a run goes through it is in the target if and only if that was so in the beginning |
| Names.ListingUnique | src/artifact_ordering.py:49-63 | a set has one sorted listing, so results do not depend on the order in which sets are read |
| StableSort.Sorts | src/entity_decay.py:172 | the sort orders |
| StableSort.KeepsTies | src/entity_episodic.py:175 | and keeps elements of equal rank in order |

## Left out

- Files, clocks, networks and subprocesses: the filesystem is a map from paths to contents, times are integers, and each file operation is one step.
- YAML: dumping and loading frontmatter is taken to be the identity. A chunk that does not parse counts as one with no parents and no status (`src/artifact_ordering.py:331-348`), and a memory file that does not parse is not among the files.
- Regular-expression engines: headings, markers and links are matched by explicit functions; only ASCII blanks and digits count as blanks and digits, and blank lines that a frontmatter pattern swallows are not modelled.
- ArtifactIndexing.QueriesAgreeWithFreshBuild: claims the stored order; the stored tips have their own exact statement, IndexFreshness.QueryIsFreshIff.
- ChunkLifecycle.RunsAreSound: runs of creating, activating and completing; directories that disappear are covered by the index theorems only, and `update_status` by its own exact condition.
- ChunkLifecycle.Chunks.CompleteChunk: completion inside one project; the mode that works across repositories, and the demotion that a completion may start, are not part of the model.
- ChunkOverlap.FindOverlappingChunks: the branches for line-based references, which the conversion at `src/chunks.py:746` and `src/chunks.py:781` never reaches, since it gives every reference a `ref` key.
- BoardDelivery.NoMessageSkipped: the mode without acknowledgement, an explicit `--offset`, the manual `ack` command and messages that the server has expired are not part of it, nor is the deletion of a channel, after which positions start again at 1 under a kept cursor (`workers/leader-board/src/storage.ts:131-140`).
- BoardDelivery.Watcher.ChannelNotFound: the channel to remove is given; finding its name inside the error text is not modelled.
- BoardReconnect.Client.Stream: the channel that an error message names is given, as in the watcher above.
- BoardReconnect.WaitTime: the jitter is a parameter between 0 and 1.
- Symbols: extracting symbols from source files.
- MemoryStore.Memories.DecayCycle: the caller supplies names that are not in use; that two files written in one microsecond under one title collide is not modelled, nor is the removal of consolidated journals between merge and decay.
- MemoryDecay.ApplyDecay: the sentence that explains each event, and times without a zone.
- MemoryStore.Memories.MergeTier: the language model's response is a parameter.
- Bm25.Search: real arithmetic in place of floating point; `tokenize`, `clean_text` and `upper` are arbitrary functions, and the logarithm is any strictly increasing function that is positive above 1.
- EpisodicStore.EpisodicStore.Search: the layout of results; ingestion of foreign transcripts.
- EpisodicStore.EpisodicStore.Expand: the turns of the context are given by their range, not printed.
- WikiRename.EntityRepo.WikiRename: a page is a sequence of text and links; paths are compared as written, so `./`, `..` and doubled slashes are not resolved, and `*` and `?` in a target are ordinary characters.
- WikiRename.ResolveWikilink: of several pages with one file name an arbitrary one is found; the theorems ask for distinct file names before and after.
- WikiRename.LintDeadLinks: frontmatter, index coverage and orphan pages.
- FrictionLog.Friction.AppendEntry: the impact is the text already capitalised, and the date is a parameter.
- ChunkDemote.Workspace.DemoteChunk: errors in finding repositories; the architecture repository is none of the projects; a directory holds GOAL.md, PLAN.md and external.yaml only.
- ChunkDemote.Interrupted: asks for an architecture chunk with a GOAL and for values without a doubled prefix, and treats each copy, rewrite and removal as one step.
- ChunkDemote.GoalKeptIff: under the assumptions of ChunkDemote.Interrupted.
- Easy members: cluster categorisation and renaming, status tables of other artifacts, migrations, integrity reports, key handling.
