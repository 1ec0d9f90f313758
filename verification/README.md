# Verified core of the workbench

IO Workbench runs coding agents for its users: it supervises their processes, follows
their output live, reads the transcripts the agents leave behind, and keeps a board of
tasks. Most of its code is input and output. This project models the stateful algorithms
in between and proves what they are there for.

Values are datatypes, and the objects the program updates in place are classes whose
methods are proved against functions on values; the main results are lemmas about these
functions. Text is a sequence of characters that take one to four bytes each. JSON values
are records of the fields that are read, digests are numbers, and parsers, line steps and
the shortening of titles are arbitrary functions. Threads are interleaved steps.

| files | what they are about |
|---|---|
| `Alignment`, `StableSort`, `TranscriptMerge`, `TranscriptMeaning`, `MessageCache` | stored and provider transcripts are aligned and merged; loaded ones are cached within bounds |
| `Board`, `BoardApproval`, `BoardWalk`, `BoardSecondRepair`, `BoardLevels`, `BoardPasses`, `BoardSwings`, `BoardConvergence`, `BoardFields`, `TaskIds`, `AgenticBoard` | the task board repairs its hierarchy: approval, parents and levels, and the numbering of tasks |
| `BoundedSuffix`, `ProcessOutput`, `ProcessSupervision`, `ProcessOutcome` | readers, waiters and control threads of child processes share a gate, an event log, a process table and a replay buffer |
| `LiveTurn`, `LiveTurnMeaning` | one turn is picked out of a notification stream that all turns share |
| `LineFraming`, `DisplayChunks`, `DirectAiStream`, `StreamMeaning`, `DirectAiHistory`, `HistoryMeaning` | chunked streams are framed and shown; a history is selected within a budget |
| `JsonlScan`, `JsonlMeaning`, `ClaudeSessions`, `ClaudeMeaning`, `ClaudeIndex`, `ClaudeIndexExample` | growing transcripts are scanned from where the last scan ended |
| `Base32`, `Base32Meaning`, `BoundedText`, `Utf8` | secrets are decoded, long texts cut at character boundaries |

The functions that the methods are proved against are pinned in turn: `BoardFields`,
`BoardWalk`, `ProcessOutcome`, `Utf8` and the files named `…Meaning` say what they compute
in the fields, characters and bytes themselves, without calling them.

`dafny verify dfyconfig.toml` checks everything.

## Where the code and its comments differ

- The comment at `crates/iowb-server/src/agentic_board/normalization.rs:816-820` justifies
  five passes by a greatest depth of five levels. Depth does not matter: a change handed
  down a chain of parents moves one level lower with each task, and there are only five
  levels. Four passes do not do (`BoardConvergence.FourPassesAreNotEnough`), and where
  five do not, no number does (`BoardConvergence.FivePassesSuffice`). This happens exactly
  when a card swings for ever between two sources that point to each other, or around a
  ring of three cards that come from each other (`BoardConvergence.FivePassesConvergeIff`).
- The search loop for a free task id can never go round twice (`TaskIds.AheadIsFree`).
- The truncation marker is meant to say how many bytes were left out. It says too few, by
  about its own length, since the room it takes itself is not counted
  (`BoundedText.BoundedToolText`).
- A resumed index is promised to equal a rescan. It does exactly for those sessions
  of which nothing was lost that shows: `ClaudeIndex.ResumedIndexEqualsRescanIff` over any
  run, `ClaudeIndex.TwoLooksShowRescanIff` in terms of two looks. `ClaudeIndexExample` has
  an input that fails it.
- The approval repair looks tasks up by id when it blocks them. It does what it is for
  exactly when every task that fails the walk is the first bearer of its id
  (`BoardApproval.RepairApprovesIff`); otherwise a second run may block more, and
  `BoardSecondRepair` tells when. Unique ids make that sure, but ids built from the
  number of tasks on the board can repeat after a deletion, as in
  `crates/iowb-server/src/agentic_board/orchestration/quality_assurance.rs:84`.

## Model

| member | source | states |
|---|---|---|
| `Alignment.OrderedTextMatches` | crates/iowb-core/src/core/session_helpers.rs:517-549 | The aligner returns an order-preserving matching of equal entries. Up to a million table cells no order-preserving matching of the two lists is longer; above that it returns what the greedy scan returns. |
| `Alignment.LengthTable` | crates/iowb-core/src/core/session_helpers.rs:524-533 | The bottom-up table, filled row by row in place, holds in each cell the matching length of the two suffixes that start there. |
| `Alignment.FillRow` | crates/iowb-core/src/core/session_helpers.rs:526-532 | The inner loop completes one row from the row below it and touches no other row. |
| `Alignment.TraceBack` | crates/iowb-core/src/core/session_helpers.rs:535-548 | Walking the finished table from the top left yields the traceback. |
| `Alignment.TraceIsMatching` | crates/iowb-core/src/core/session_helpers.rs:535-548 | The traceback is an order-preserving matching, exactly as long as the table cell it starts from. |
| `Alignment.CellBoundsMatchings` | crates/iowb-core/src/core/session_helpers.rs:524-533 | No order-preserving matching of two suffixes is longer than their table cell (the exchange argument). |
| `Alignment.TraceIsEarliest` | crates/iowb-core/src/core/session_helpers.rs:537-547 | Ties: because the left side is skipped first when both choices are equal, the result has the earliest right-hand indices of all longest matchings. |
| `Alignment.MatchesIsLongest` | crates/iowb-core/src/core/session_helpers.rs:517-549 | Within the limit the result is a longest matching, and the earliest one on the right among those of its length. |
| `Alignment.MatchesIsMaximal` | crates/iowb-core/src/core/session_helpers.rs:517-577 | On either side of the limit, no further pair of equal entries fits into the result. |
| `Alignment.OrderedTextMatchesGreedy` | crates/iowb-core/src/core/session_helpers.rs:551-577 | The aligner with one queue of positions per value computes the same pairs as the simple scan for the first equal entry behind the last match. |
| `Alignment.TakeNext` | crates/iowb-core/src/core/session_helpers.rs:562-574 | Dropping passed positions from a queue and taking its front gives the first occurrence at or behind the scan position, or nothing if there is none. |
| `Alignment.IndexQueues` | crates/iowb-core/src/core/session_helpers.rs:555-558 | The index holds, for each value, all its positions in order. |
| `Alignment.GreedyIsMatching` | crates/iowb-core/src/core/session_helpers.rs:551-577 | The greedy scan yields an order-preserving matching. |
| `Alignment.GreedyIsMaximal` | crates/iowb-core/src/core/session_helpers.rs:551-577 | Every candidate pair crosses a pair of the greedy matching, so none can be added. |
| `Alignment.GreedyCanBeFarFromLongest` | crates/iowb-core/src/core/session_helpers.rs:551-577 | Maximal is not longest: for lists of any length, moving one entry from front to back leaves the greedy scan with one pair where a longest matching has all but one. |
| `StableSort.SortIsStable` | crates/iowb-core/src/core/session_helpers.rs:92-93 | A sort by key that keeps the order of equal keys exists for every list and keeps its entries. |
| `StableSort.StableSortingIsUnique` | crates/iowb-core/src/core/session_helpers.rs:92-93 | There is only one stable sorting of a list, so the specification of the merges determines their result. |
| `TranscriptMerge.MergeActiveContextMessageDescriptors` | crates/iowb-core/src/core/session_helpers.rs:51-94 | Without a compaction the merge is the stored list. With one it is the stable sorting by time of the stored entries followed by the imported ones, and holds exactly these entries. |
| `TranscriptMerge.MergeOrderAtInstant` | crates/iowb-core/src/core/session_helpers.rs:80-93 | Among entries of one instant the stored ones come first, then the imports, each in their own order. |
| `TranscriptMerge.MergeImportsFewest` | crates/iowb-core/src/core/session_helpers.rs:60-91 | What is imported and what the aligner identified are together the eligible external messages; within the limit no order-preserving identification of messages would import fewer. |
| `TranscriptMerge.MergeLosesNothing` | crates/iowb-core/src/core/session_helpers.rs:60-91 | Every eligible external message is imported, or has a stored twin with the same digest from after the compaction. |
| `TranscriptMerge.IdentifiedHasTwin` | crates/iowb-core/src/core/session_helpers.rs:60-78 | A message that the aligner identifies has the digest of a stored message from after the compaction. |
| `TranscriptMerge.ImportedIsEligible` | crates/iowb-core/src/core/session_helpers.rs:65-91 | Nothing from before the compaction and no rollover set-up message is imported. |
| `TranscriptMerge.MergeMappedExternalMessages` | crates/iowb-core/src/core/session_helpers.rs:157-189 | The mapped merge is the stable sorting by time of the provider messages, with the identified ones under their stored identities, and of the stored system messages that were not identified. |
| `TranscriptMerge.AdoptMatches` | crates/iowb-core/src/core/session_helpers.rs:161-176 | The marking loop rewrites exactly the identified provider messages and raises exactly the flags of their stored counterparts. |
| `TranscriptMerge.AdoptedKeepsBodies` | crates/iowb-core/src/core/session_helpers.rs:164-176 | No provider message is lost: role, content and time survive, and an identity is either its own or that of its match. |
| `TranscriptMerge.MappedMergeKeepsIdsDistinct` | crates/iowb-core/src/core/session_helpers.rs:157-189 | If stored and provider ids are distinct, so are the ids of the result; in particular a stored identity is given away at most once. |
| `TranscriptMeaning.MappedMessagesAre` | crates/iowb-core/src/core/session_helpers.rs:157-189 | In the fields of the messages: what is identified are messages of one role and one content up to outer white space, in order on both sides, and within the limit no more could be; these appear under the stored id, all other provider messages as they are, and behind them exactly the unidentified stored system messages. |
| `TranscriptMeaning.IdentityIsKept` | crates/iowb-core/src/core/session_helpers.rs:157-189 | With distinct ids, whoever carries a stored id in the merged list has the role and, up to outer white space, the content of the stored message. |
| `TranscriptMeaning.ImportedAre` | crates/iowb-core/src/core/session_helpers.rs:60-91 | What is imported are the external messages from after the compaction, less set-up messages and less those paired in order with a stored message of the same digest from after the compaction. |
| `TranscriptMeaning.NoPairingImportsFewer` | crates/iowb-core/src/core/session_helpers.rs:60-91 | Within the limit no such pairing, told in times and digests, would leave fewer messages to import. |
| `MessageCache.ExternalSessionCache.Evict` | crates/iowb-core/src/core/session_helpers.rs:139-155 | Eviction ends within 8 entries and 64 MiB, keeps the byte counter equal to the sum, drops only entries used no later than all that remain, and drops no more than it has to. |
| `BoardApproval.WalkFindsChain` | crates/iowb-server/src/agentic_board/normalization.rs:478-512 | The walk with its visited set finds nothing to object to exactly when a finite chain of consenting ancestors leads to a root, on any parent graph. |
| `BoardWalk.ApprovedIffParentConsents` | crates/iowb-server/src/agentic_board/normalization.rs:478-512 | A task is approved exactly if it is a root or its parent exists, is approved itself and consents: a completed parent to optional children if nothing has superseded it, an active one to all, any other to none. Statuses are spelled as texts. |
| `BoardWalk.TaskObstacleIsTrue` | crates/iowb-server/src/agentic_board/normalization.rs:931-967 | What the repair writes into a blocked task is true: the missing ancestor is missing, the cycle is one, and the ancestor named does not consent and has that status. |
| `Board.StatusTextsAreRead` | crates/iowb-server/src/agentic_board/normalization.rs:268-281 | Which texts count as active, done, blocked and failed, white space aside. |
| `BoardApproval.NoChainOnCycle` | crates/iowb-server/src/agentic_board/normalization.rs:487-491 | No such chain starts on a cycle of parents, so giving up at a visited id is right. |
| `BoardApproval.ObstacleIffUnapproved` | crates/iowb-server/src/agentic_board/normalization.rs:931-967 | The repair finds an obstacle for a task exactly when the walk of the approval check rejects it. |
| `AgenticBoards.AgenticBoard.TaskAncestorsAreApproved` | crates/iowb-server/src/agentic_board/normalization.rs:478-512 | The loop returns whether a chain of consenting ancestors exists, and ends on cyclic boards. |
| `BoardApproval.WalkToObstacle` | crates/iowb-server/src/agentic_board/normalization.rs:931-967 | The inner loop of the repair stops at the first obstacle on the way up. |
| `BoardApproval.CollectInvalid` | crates/iowb-server/src/agentic_board/normalization.rs:919-968 | The first loop collects the failing tasks in order, over a snapshot. |
| `AgenticBoards.AgenticBoard.BlockInvalid` | crates/iowb-server/src/agentic_board/normalization.rs:969-979 | The second loop blocks, for each collected id, the first task that bears it, in place. |
| `AgenticBoards.AgenticBoard.ReconcileHierarchyApprovalStates` | crates/iowb-server/src/agentic_board/normalization.rs:919-980 | The board is left as the two loops leave it. |
| `BoardApproval.RepairedIsReconciledIff` | crates/iowb-server/src/agentic_board/normalization.rs:919-980 | Blocking by id in place equals settling each task by its own walk over the old board exactly when every failing task is the first bearer of its id. |
| `BoardApproval.RepairApprovesIff` | crates/iowb-server/src/agentic_board/normalization.rs:919-980 | After the repair every active task is approved on the new board exactly when every failing task was the first bearer of its id. |
| `BoardApproval.ReconcileBlocksExactlyTheUnapproved` | crates/iowb-server/src/agentic_board/normalization.rs:919-980 | Settling each task by its own walk, on any board: every active task is then approved, and exactly the active tasks that failed the walk were changed, to blocked. |
| `BoardApproval.ReconcileIsIdempotent` | crates/iowb-server/src/agentic_board/normalization.rs:919-968 | Settling a settled board changes nothing. |
| `BoardSecondRepair.RepairIsIdempotentIff` | crates/iowb-server/src/agentic_board/normalization.rs:919-980 | For any ids and links, a second repair changes nothing exactly when, on the board before the first, one repair is enough: where a bearer of an id would fail again, by the walk that takes every hit id for blocked, the first bearer is blocked by the first repair with the same text, or stood so from the start. |
| `BoardSecondRepair.SecondRepairBlocksNobodyIff` | crates/iowb-server/src/agentic_board/normalization.rs:919-980 | A second repair leaves the same tasks active as the first exactly when, for every active first bearer whose id no failing task bears, every active bearer of the id is spared: approved along a chain on which no id is hit. |
| `BoardSecondRepair.ApprovedAfterRepairIff` | crates/iowb-server/src/agentic_board/normalization.rs:919-980 | A task is approved on the repaired board exactly when it was spared on the board before. |
| `BoardSecondRepair.SecondWalkIsWalk` | crates/iowb-server/src/agentic_board/normalization.rs:931-967 | The walk on the board before the repair that takes hit ids for blocked finds, text and all, what the walk on the repaired board finds. |
| `BoardSecondRepair.FailingAreFirstSuffices` | crates/iowb-server/src/agentic_board/normalization.rs:969-979 | With failing tasks first bearers of their ids, one repair is enough. |
| `BoardApproval.ApprovedBoardIsKept` | crates/iowb-server/src/agentic_board/normalization.rs:919-980 | A board on which only approved tasks are active is left alone, whatever its ids. |
| `BoardApproval.ReconcileBlocksFewest` | crates/iowb-server/src/agentic_board/normalization.rs:919-980 | Any way of blocking tasks that leaves only approved ones active blocks all the tasks that fail the walk. |
| `BoardApproval.RepairedExactly` | crates/iowb-server/src/agentic_board/normalization.rs:919-980 | All that the repair does, for any ids and any links: the first bearer of each id is blocked for what stops the last failing bearer of that id, and every other task is kept. |
| `BoardApproval.RepairKeepsIff` | crates/iowb-server/src/agentic_board/normalization.rs:919-980 | The boards that the repair leaves alone are exactly those on which each first bearer of a failing id stands blocked already, for the same reason. |
| `BoardApproval.FailingBearerEscapes` | crates/iowb-server/src/agentic_board/normalization.rs:969-979 | A failing task behind another bearer of its id stays active, and unapproved on the new board too. |
| `BoardApproval.DuplicateIdsBreakReconcile` | crates/iowb-server/src/agentic_board/normalization.rs:969-979 | An input: of two tasks under one id the approved one is blocked and the failing one stays active. |
| `BoardApproval.DuplicateIdsNeedAnotherRun` | crates/iowb-server/src/agentic_board/normalization.rs:969-979 | An input on which a second repair still changes something: the child of the wrongly blocked task. |
| `BoardLevels.LevelNamesRoundTrip` | crates/iowb-server/src/agentic_board/normalization.rs:187-201 | Canonical level names are read back as themselves, whatever the default. |
| `BoardLevels.DedupeIsStable` | crates/iowb-server/src/agentic_board/validation_and_settings.rs:407-415 | Deduplicating dependencies twice gives what doing it once gives. |
| `AgenticBoards.AgenticBoard.NormalizeOnce` | crates/iowb-server/src/agentic_board/normalization.rs:822-914 | Rewriting the tasks in place from a snapshot is one simultaneous pass. |
| `AgenticBoards.AgenticBoard.NormalizeBoardHierarchy` | crates/iowb-server/src/agentic_board/normalization.rs:815-917 | The board is left as five passes and then the approval repair leave it. |
| `BoardFields.DependenciesSurvive` | crates/iowb-server/src/agentic_board/normalization.rs:905-913 | On the board handed in: a normalised task depends on an id exactly if the id is the nonempty trimming of an item of either of its two lists; both lists hold it once, in the order of first mention. |
| `BoardFields.NormalizedKeepsRest` | crates/iowb-server/src/agentic_board/normalization.rs:822-980 | All other fields: a first scope version makes the task required, the work of the task is untouched or blocked with the text that names the obstacle, and everything else stays. |
| `BoardFields.ChildIsOneRungBelow` | crates/iowb-server/src/agentic_board/normalization.rs:880-900 | Every level text of a normalised board is one of the five; if no card will swing, the child of a task above the last level stands exactly one level below it. |
| `BoardFields.OwnLevelIsRead` | crates/iowb-server/src/agentic_board/normalization.rs:861-899 | The level of a root, and of a task whose parent is missing, is read from its text where that spells one, in any capitals; a plain root is at least a story; with nothing to read, children and system cards are subtasks and the rest stories. |
| `BoardFields.CardGoesBeside` | crates/iowb-server/src/agentic_board/normalization.rs:833-860 | In one pass a system card below one of its sources goes where that source hangs if that reads as a subtask, and becomes a root otherwise; no other task moves. |
| `BoardFields.LevelIsReadIff` | crates/iowb-server/src/agentic_board/normalization.rs:187-201 | A level text is read exactly from the name of the level in any capitals with white space around it; any other text gives the default. |
| `BoardPasses.MoveRule` | crates/iowb-server/src/agentic_board/normalization.rs:833-860 | In a pass a card below one of its sources goes beside that source if this is a subtask, and becomes a root otherwise; every other task keeps its parent. |
| `BoardPasses.RankStep` | crates/iowb-server/src/agentic_board/normalization.rs:861-899 | In one pass a parent that is not a subtask decides the level of its child, one below its own; otherwise, from the second pass on, the child keeps its level, even if it has just moved. |
| `BoardPasses.LateChangesAreLow` | crates/iowb-server/src/agentic_board/normalization.rs:815-915 | A level that still changes in a late pass lies at least as low as the number of passes before, whether it was handed down or came with a move. |
| `BoardConvergence.FivePassesConvergeIff` | crates/iowb-server/src/agentic_board/normalization.rs:815-915 | On any board, of any depth and with cycles, a sixth pass changes nothing exactly when no card will swing: none that the first pass leaves below one of two sources which are then a pair of subtasks that are each other's parents, or belong to a ring of three cards that come from each other. The condition names only repaired parents and levels of the board handed in. |
| `BoardConvergence.FivePassesSuffice` | crates/iowb-server/src/agentic_board/normalization.rs:816-821 | If any number of passes settles a board, five do. |
| `BoardConvergence.FourPassesAreNotEnough` | crates/iowb-server/src/agentic_board/normalization.rs:821 | The number five is tight: on such a chain of five tasks the fifth pass still moves the last one. |
| `BoardSwings.LateMoversSwing` | crates/iowb-server/src/agentic_board/normalization.rs:833-860 | A card that still moves in the sixth pass has been swinging since the first. |
| `BoardSwings.SwingingNeverSettles` | crates/iowb-server/src/agentic_board/normalization.rs:815-915 | Once the first pass leaves a swinging card, every later pass changes the board. |
| `BoardSwings.MoverMovedBefore` | crates/iowb-server/src/agentic_board/normalization.rs:833-860 | From the third pass on, a card that moves has moved in the pass before. |
| `BoardConvergence.RepeatedDetachmentOscillates` | crates/iowb-server/src/agentic_board/normalization.rs:833-860 | On any board with canonical levels on which some card swings, this can be told before the first pass: no pass settles it. |
| `BoardConvergence.BothSituationsExist` | crates/iowb-server/src/agentic_board/normalization.rs:833-860 | Inputs for both situations, the pair and the ring of three: boards of three tasks that no number of passes settles. |
| `BoardConvergence.RepairKeepsFixpoint` | crates/iowb-server/src/agentic_board/normalization.rs:815-917 | The approval repair neither settles nor unsettles the levels of a board. |
| `BoardConvergence.NormalizedBoardIsInOrderIff` | crates/iowb-server/src/agentic_board/normalization.rs:815-917 | What the normalisation leaves is settled and has only approved tasks active exactly when no card will swing and after the passes every failing task is the first bearer of its id. |
| `BoardConvergence.NormalizeIsIdempotentIff` | crates/iowb-server/src/agentic_board/normalization.rs:815-917 | Normalising twice is normalising once exactly when no card will swing and one repair is enough for the board that the passes hand to it. |
| `BoardConvergence.ActiveFirstBearersSettleIff` | crates/iowb-server/src/agentic_board/normalization.rs:815-917 | On the board handed in: where active tasks are first bearers of their ids, every active task ends up approved, and normalising settles the board, once and for all, exactly when no card will swing. |
| `BoardConvergence.UndetachedBoardIff` | crates/iowb-server/src/agentic_board/normalization.rs:815-917 | On the board handed in, for any ids and links, where no card stands below one of its sources: the levels settle; every active task ends up approved exactly when the failing tasks are first bearers; and normalising again changes nothing exactly when one repair is enough. Both are told on the board with tasks that have no scope version yet made required. |
| `BoardSecondRepair.SameConditions` | crates/iowb-server/src/agentic_board/normalization.rs:919-980 | Both conditions depend only on ids, statuses, parents and the few other fields that the repair reads or writes. |
| `BoardConvergence.PlainBoardIsNormalizedOnce` | crates/iowb-server/src/agentic_board/normalization.rs:815-917 | In particular with unique ids and no card below one of its sources: the normalised board is settled, all its active tasks are approved, and normalising it again changes nothing. |
| `BoardConvergence.NormalizedBoardIsWellFormed` | crates/iowb-server/src/agentic_board/normalization.rs:815-917 | On a normalised board exactly the subtasks are executable; if no card will swing, each task sits at the level below its parent's whenever there is one; and with failing tasks first bearers every active task is approved. |
| `AgenticBoards.AgenticBoard.AllocateTaskId` | crates/iowb-server/src/agentic_board/normalization.rs:1-19 | A new id carries the number behind everything counted and everything in use, and no task has it; only after 2^64 - 1 is a random id used. |
| `TaskIds.AheadIsFree` | crates/iowb-server/src/agentic_board/normalization.rs:1-19 | No number ahead of the count is taken, so the search loop never has to go round twice. |
| `TaskIds.NumberedIdsAre` | crates/iowb-server/src/agentic_board/normalization.rs:21-23 | A task id is numbered exactly if it is `task-` followed by a numeral that fits 64 bits, perhaps behind a plus sign and zeros. |
| `TaskIds.NextFollowsTheGreatest` | crates/iowb-server/src/agentic_board/normalization.rs:1-19 | The next number is the one behind the greatest of the count and all numbers in use. |
| `TaskIds.SequenceOfNumberedId` | crates/iowb-server/src/agentic_board/normalization.rs:21-23 | The number read from an id made from a number is that number. |
| `TaskIds.NoIdIsAllocatedTwice` | crates/iowb-server/src/agentic_board/normalization.rs:1-19 | Over any course of allocations, with tasks added and deleted in between, no number is handed out twice until the counter runs out. |
| `BoundedSuffix.LongestFittingIsLongest` | crates/iowb-process/src/lib.rs:96-106 | Dropping from the front until the rest fits keeps the longest suffix that fits. |
| `BoundedSuffix.BoundingIsIncremental` | crates/iowb-process/src/lib.rs:96-106 | Bounding after each arrival keeps what bounding once at the end would keep. |
| `ProcessOutput.ProcessOutputBuffer.Push` | crates/iowb-process/src/lib.rs:90-106 | After any pushes the buffer is the longest suffix of everything pushed that fits 64 KiB, and its byte counter is the sum. |
| `ProcessOutput.ProcessOutputBuffer.Snapshot` | crates/iowb-process/src/lib.rs:108-110 | A reconnecting client is shown that suffix. |
| `ProcessSupervision.RunKeepsInv` | crates/iowb-process/src/lib.rs:224-263 | The invariant on locks, gate, table, readers, buffer and log holds through every interleaving, for terminal and pipe processes side by side. |
| `ProcessSupervision.NothingFollowsAnExit` | crates/iowb-process/src/lib.rs:224-263 | In every reachable state: no output and no second exit of a process follows its exit in the log, and by then its id has left the table. |
| `ProcessSupervision.TerminalReplayMatchesLog` | crates/iowb-process/src/lib.rs:517-546 | For a terminal, whenever the gate lock is free the buffer is the longest fitting suffix of the outputs published for it. |
| `ProcessSupervision.StreamsKeepTheirOrder` | crates/iowb-process/src/lib.rs:477-515 | For pipes, the two readers may publish in another order than they push, but each stream is published in its own order and nothing is lost or doubled. |
| `ProcessSupervision.OutputIsFrozenAfterEnd` | crates/iowb-process/src/lib.rs:339-372 | Once the end of a process is published, by an exit or a failure, no later step adds to its output or puts it back into the table. |
| `ProcessSupervision.LockStep` | crates/iowb-process/src/lib.rs:525-546 | Reader and waiter of a terminal exclude each other: every step keeps the lock with the one that holds it, and nothing is pushed behind a closed gate. |
| `ProcessSupervision.CleanTraceMeansOrder` | crates/iowb-process/src/lib.rs:464-475 | The summary of the log that the invariant speaks of says, event by event, that nothing follows an exit. |
| `ProcessOutcome.ExitTellsHowTheChildEnded` | crates/iowb-process/src/lib.rs:224-263 | In every run an exit in the log carries the code with which the child of that process ended, or none after a kill. |
| `ProcessOutcome.PublishedEndIsTrue` | crates/iowb-process/src/lib.rs:224-263 | Once the waiter has published: an ended child shows as an exit with its code, a killed one as an exit without, and a failed wait as that failure and no exit. |
| `ProcessOutcome.EndCanBePublished` | crates/iowb-process/src/lib.rs:339-372 | From every reachable state in which the child has ended, steps of this process alone, with no further output, lead to a state where the end is published and the log says how the child ended. |
| `ProcessOutcome.PublishedIsRead` | crates/iowb-process/src/lib.rs:477-560 | What is published on a stream is what was read from it, in order, up to the chunk in the hand of the reader; only a closed gate withholds the rest. |
| `ProcessOutcome.ErrorsAreReported` | crates/iowb-process/src/lib.rs:505-512 | Errors of reading, controlling and killing are published under the id of the process with their message. |
| `LiveTurn.OthersAreInvisible` | crates/iowb-core/src/codex_app_server/live_turn.rs:185-257 | Once a turn id is latched, deleting any notifications of other threads or other turns changes nothing: forwarded events, writes, latch, activity flag and outcome are the same. |
| `LiveTurn.OtherThreadsAreInvisible` | crates/iowb-core/src/codex_app_server/live_turn.rs:201-212 | Notifications of other threads are invisible even before a turn id is latched. |
| `LiveTurn.ExactlyOthersAreInvisible` | crates/iowb-core/src/codex_app_server/protocol.rs:150-208 | Conversely, for every running loop, exactly these notifications leave no trace: those of another thread; once a turn id is latched, those of another turn, thread-level ones before any activity, and others that name no turn; before, thread-level ones that name no turn, while there was no activity. |
| `LiveTurn.NotifiedKeepsEvents` | crates/iowb-core/src/codex_app_server/live_turn.rs:201-237 | One notification keeps the invariant on forwarded events. |
| `LiveTurn.StepKeepsInterrupts` | crates/iowb-core/src/codex_app_server/client.rs:268-296 | One step of the select loop keeps: at most one interrupt was written, with the latched id, and exactly when the deadline is armed. |
| `LiveTurn.StepKeepsEnding` | crates/iowb-core/src/codex_app_server/client.rs:245-313 | A finished loop reports its own thread and turn: its completion, which was the last event forwarded, or an interruption after an abort. |
| `LiveTurn.EveryRunIsSound` | crates/iowb-core/src/codex_app_server/client.rs:208-313 | Over every run: a latched turn id never changes, the association is announced at most once and with that id, only events of the own thread and turn are forwarded, and thread-level events only behind an event that showed activity of the turn. |
| `LiveTurn.RequestsAreAnsweredInOrder` | crates/iowb-core/src/codex_app_server/live_turn.rs:259-327 | The responses written are those owed to the server's requests, in order and without gaps, all of them while the loop runs. |
| `LiveTurn.LiveTurnLoop.HandleLiveJsonrpcLine` | crates/iowb-core/src/codex_app_server/live_turn.rs:185-257 | The line handler changes the latch, the flag, the events and the replies as the step function says, and returns its outcome or error. |
| `LiveTurn.LiveTurnLoop.RunLiveTurn` | crates/iowb-core/src/codex_app_server/client.rs:245-313 | The select loop ends as the run of the steps does, for every order in which its branches become ready. |
| `LiveTurnMeaning.LineEndsExactly` | crates/iowb-core/src/codex_app_server/live_turn.rs:185-256 | From any running loop, in the members of the message: a line ends the turn exactly if it is a `turn/completed` notification of the own thread that names the latched turn, or any turn while none is latched; a missing or "completed" status is reported as completed, "interrupted" as interrupted, every other one as failed. |
| `LiveTurnMeaning.OthersEndExactly` | crates/iowb-core/src/codex_app_server/client.rs:252-313 | What the end of the stream, an abort and the deadline behind it do: the interrupt for the latched turn is written on the first abort, and an abort with no turn ends the loop at once. |
| `LiveTurnMeaning.NotificationDoesExactly` | crates/iowb-core/src/codex_app_server/live_turn.rs:199-237 | What a notification does, in its members: the turn id latched and announced, the notification forwarded or not, the activity noted or not. |
| `LiveTurnMeaning.RequestDoesExactly` | crates/iowb-core/src/codex_app_server/live_turn.rs:193-198 | A request is answered once, under its own id, with the refusal that belongs to its method, and changes nothing else. |
| `LiveTurnMeaning.NamesAreRead` | crates/iowb-core/src/codex_app_server/protocol.rs:150-169 | Which of its members name the thread and the turn of a notification. |
| `LineFraming.LinesCutTheText` | crates/iowb-core/src/core/claude_gemini_normalizers.rs:26-40 | The framed lines and the pending rest are the text cut at its newlines, nothing more or less. |
| `LineFraming.FrameFoldsLines` | crates/iowb-core/src/core/claude_gemini_normalizers.rs:26-40 | Framing folds the line step over the finished lines and keeps what follows them. |
| `LineFraming.FrameAppend` | crates/iowb-core/src/core/claude_gemini_normalizers.rs:26-40 | Framing two chunks in turn equals framing their concatenation. |
| `LineFraming.ChunksDoNotMatter` | crates/iowb-core/src/core/claude_gemini_normalizers.rs:26-40 | However a text is cut into chunks, outputs, pending line and state are those of one push of the whole. |
| `LineFraming.TwoPushesAreOne` | crates/iowb-core/src/core/claude_gemini_normalizers.rs:600-611 | Pushing two chunks leaves either normaliser, Claude's list and Gemini's text, as pushing both at once does. |
| `LineFraming.ClaudeLiveOutputNormalizer.PushChunks` | crates/iowb-core/src/core/claude_gemini_normalizers.rs:26-40 | The draining loop yields the nonempty outputs of the framing and keeps its rest and state. |
| `LineFraming.ClaudeLiveOutputNormalizer.Finish` | crates/iowb-core/src/core/claude_gemini_normalizers.rs:42-52 | The end of the stream runs the step once on a pending line, if there is one, and clears it. |
| `LineFraming.GeminiLiveOutputNormalizer.Push` | crates/iowb-core/src/core/claude_gemini_normalizers.rs:600-611 | The draining loop yields the joined outputs of the framing and keeps its rest and state. |
| `LineFraming.GeminiLiveOutputNormalizer.Finish` | crates/iowb-core/src/core/claude_gemini_normalizers.rs:613-619 | As for Claude. |
| `DirectAiStream.SseReader.PushText` | crates/iowb-core/src/core/direct_ai.rs:239-254 | Draining the buffer is framing: the chunks shown, the text, the usage and the flag are those of the framed lines. |
| `DirectAiStream.SseReader.ProcessSseLine` | crates/iowb-core/src/core/direct_ai.rs:256-292 | One event line adds its delta to the text and shows it in display chunks; every other line is ignored. |
| `DirectAiStream.SseReader.Finish` | crates/iowb-core/src/core/direct_ai.rs:214-223 | A last line without a newline is still processed. |
| `DirectAiStream.SseReader.ReadDirectAiResponse` | crates/iowb-core/src/core/direct_ai.rs:181-231 | Reading all chunks and the end of the stream yields the state and the chunks shown that the next row is about. |
| `DirectAiStream.StreamIsLossless` | crates/iowb-core/src/core/direct_ai.rs:181-254 | For any cutting of the stream, a last line without a newline included: state and chunks shown are those of one piece, each chunk can be shown, and joined they are the text returned. |
| `StreamMeaning.LinesAreHandedOver` | crates/iowb-core/src/core/claude_gemini_normalizers.rs:26-40 | The line step runs once on every finished line, in order, each time on the state left by the one before; the text it is handed is the line less its carriage returns at the end, all of them and nothing else. |
| `StreamMeaning.DataLinesAre` | crates/iowb-core/src/core/direct_ai.rs:266-272 | A line carries data exactly if, white space aside, it is `data:` followed by something else than nothing and `[DONE]`; the data is that, trimmed. |
| `StreamMeaning.LineDoesExactly` | crates/iowb-core/src/core/direct_ai.rs:256-292 | The delta of the event is appended to the text and shown, a usage replaces the one known, and a line with no readable event changes nothing. |
| `StreamMeaning.StreamSaysItsDeltas` | crates/iowb-core/src/core/direct_ai.rs:181-292 | For any cutting of the stream: the text returned is made of the deltas of its data lines, in order, the unterminated last line included, and the usage is the last one reported. |
| `JsonlScan.ForEachJsonLineFrom` | crates/iowb-core/src/external_sessions/message_utils.rs:114-146 | The reading loop visits the parsable finished lines behind the offset, in order, and returns the offset behind the last line read, or the one given if the file cannot be opened. |
| `JsonlMeaning.RecordsAreLines` | crates/iowb-core/src/external_sessions/message_utils.rs:111-146 | In bytes: the file is its newline-terminated lines and a rest without a newline; the records are these lines, each less one carriage return at its end. |
| `JsonlMeaning.VisitsAreReadable` | crates/iowb-core/src/external_sessions/message_utils.rs:138-142 | Visited are exactly the records that parse, in order, each with its value. |
| `JsonlScan.RecordsAppend` | crates/iowb-core/src/external_sessions/message_utils.rs:111-146 | The records of a file cut at a boundary are the records of the two parts. |
| `JsonlScan.ScanExtends` | crates/iowb-core/src/external_sessions/message_utils.rs:111-146 | A scan from a boundary ends at a boundary and visits exactly the records in between. |
| `JsonlScan.UndisturbedScanReachesAll` | crates/iowb-core/src/external_sessions/message_utils.rs:111-146 | A scan that no error cuts short leaves no finished record behind. |
| `JsonlScan.ResumedScansMissNothing` | crates/iowb-core/src/external_sessions/discovery.rs:140-172 | For any appends with a scan after each, wherever scans broke off: the records visited are those in front of the offset, in order and once each, and one undisturbed scan at the end makes that all finished records of the file. |
| `ClaudeSessions.ClaudeBuilders.UpdateClaudeBuilder` | crates/iowb-core/src/external_sessions/provider_sources.rs:25-91 | One line updates the builder of its session and no other. |
| `ClaudeSessions.FoldIsPerSession` | crates/iowb-core/src/external_sessions/provider_sources.rs:25-91 | After any lines, each builder is its old self joined with what the lines say about that one session. |
| `ClaudeSessions.GatheredAppend` | crates/iowb-core/src/external_sessions/provider_sources.rs:25-91 | Reading a session's lines in two goes and joining the results equals reading them in one. |
| `ClaudeMeaning.GatheredIsWhatIsSaid` | crates/iowb-core/src/external_sessions/provider_sources.rs:25-91 | In the fields of the lines: the count is the number of lines of the session, not of a sidechain and with content, that are visible user text or an answer; the model is the first such answer's that names one, the path the first nonempty one, the title the last summary, the prompt the first counted user text, the time the greatest. |
| `ClaudeMeaning.RescannedIsWhatIsSaid` | crates/iowb-core/src/external_sessions/provider_sources.rs:539-573 | The record that one scan makes of a session, told in the same way, and which sessions get one. |
| `ClaudeIndex.TwoLooksShowRescanIff` | crates/iowb-core/src/external_sessions/discovery.rs:125-182 | After two looks the index shows a session's count, path and model as one scan of the same lines does exactly when the second look found nothing new or scanned from the start (as it does if the first made no record at all), or the first made a record of the session, or what it lost of it does not show. |
| `ClaudeIndexExample.OtherSessionIsUndercounted` | crates/iowb-core/src/external_sessions/discovery.rs:140-172 | An input where it does not: three lines of two sessions, after which the index counts one message of the second where a rescan counts two. |
| `ClaudeSessions.ResumedRecordEqualsIff` | crates/iowb-core/src/external_sessions/discovery.rs:140-182 | For a session listed before: after a resume its whole record is that of a rescan exactly when its title and its time survive; restored builders have lost the first user message and keep fallback times. |
| `ClaudeIndex.ClaudeHistoryIndex.SyncSource` | crates/iowb-core/src/external_sessions/discovery.rs:125-188 | One transcript is served from the index, resumed or scanned from the start as its fingerprint says, its records are handed out, and no other entry changes. |
| `ClaudeIndex.ClaudeHistoryIndex.SyncClaudeSources` | crates/iowb-core/src/external_sessions/discovery.rs:104-190 | All listed transcripts are synchronised in turn, each contributing its records in that order, and all others are dropped from the index. |
| `ClaudeIndex.SyncIsPerPath` | crates/iowb-core/src/external_sessions/discovery.rs:125-188 | Transcripts do not disturb one another. |
| `ClaudeIndex.LookKeepsFaith` | crates/iowb-core/src/external_sessions/discovery.rs:125-188 | Each of the three branches keeps the entry faithful to the lines in front of its offset. |
| `ClaudeIndex.ResumedIndexEqualsRescanIff` | crates/iowb-core/src/external_sessions/discovery.rs:140-182 | Over any run of looks at a growing or replaced transcript, with bytes arriving even between fingerprint and scan: a session shows the count, path and model of one full rescan exactly when what was read of it without making a record does not show. Sessions of which every scan that met them made a record always do, and none ever shows too many messages. |
| `ClaudeIndex.UndisturbedLookIsComplete` | crates/iowb-core/src/external_sessions/discovery.rs:159-172 | After a scan that no error cut short, the lines in front of the offset are all that are finished. |
| `ClaudeIndex.UnchangedLookIsServed` | crates/iowb-core/src/external_sessions/discovery.rs:125-138 | After any look, a look with the same identity, size and time changes nothing, whatever the entry was before. |
| `Base32.DecodeBase32Secret` | crates/iowb-core/src/core/runtime_and_auth_utils.rs:89-129 | The shifting 32-bit accumulator computes the bytes that the bits of the symbols fill, and reports empty, invalid and short secrets in that order. |
| `Base32.ShiftInAppends` | crates/iowb-core/src/core/runtime_and_auth_utils.rs:116-121 | The high bits that a shift drops are never missed: the low bits of the accumulator are the old ones followed by the five new ones. |
| `Base32.DecodedBits` | crates/iowb-core/src/core/runtime_and_auth_utils.rs:103-128 | n symbols decode to floor(5n/8) bytes, whose bits are a prefix of the bit string of the symbols. |
| `Base32.DecodingInvertsEncoding` | crates/iowb-core/src/core/runtime_and_auth_utils.rs:89-129 | The decoder inverts the encoding of section 6 of RFC 4648 on every byte string of at least 10 bytes, and refuses the encodings of shorter ones. |
| `Base32Meaning.SecretMeans` | crates/iowb-core/src/core/runtime_and_auth_utils.rs:89-129 | Every secret, in characters and numbers: blanks around it and any number of prefixes are dropped, white space, hyphens and padding skipped, small letters read as capitals; the bytes, big-endian, write the number that the symbols write by their places in the alphabet, less at most seven bits; and each error says what is wrong. |
| `DisplayChunks.DirectAiDisplayChunks` | crates/iowb-core/src/core/direct_ai.rs:548-572 | The chunks joined are the text, for every text; none is empty, and each has at most 72 bytes or at most 36 characters. |
| `DisplayChunks.DisplayChunksAreBlocks` | crates/iowb-core/src/core/direct_ai.rs:548-587 | The chunks are blocks of whole lines, each as large as 36 bytes allow, and pieces of 36 characters of the lines over 72 bytes. |
| `DisplayChunks.SegmentsAreLines` | crates/iowb-core/src/core/direct_ai.rs:552 | The segments join to the text; a newline only ends one, and ends all but the last. |
| `DisplayChunks.SplitOnCharBoundaries` | crates/iowb-core/src/core/direct_ai.rs:574-587 | Long pieces are cut every so many characters. |
| `DisplayChunks.PiecesAreLossless` | crates/iowb-core/src/core/direct_ai.rs:574-587 | The pieces joined are the text, and each can be shown. |
| `DirectAiHistory.DirectAiConversationMessages` | crates/iowb-core/src/core/direct_ai.rs:14-76 | The backward selection, the dropping of leading assistant turns and the joining of equal roles compute the history that the lemmas below are about. |
| `DirectAiHistory.SelectRecent` | crates/iowb-core/src/core/direct_ai.rs:21-44 | The backward loop with its reversal takes the turns that the limits allow. |
| `DirectAiHistory.Coalesce` | crates/iowb-core/src/core/direct_ai.rs:53-63 | The loop over the selection joins each turn to the one before it if they share a role. |
| `DirectAiHistory.TakenIsLargest` | crates/iowb-core/src/core/direct_ai.rs:34-41 | The number of turns taken is within 48 turns and 96 KiB, or is one, and one more would break a limit. |
| `DirectAiHistory.CoalescedIsRuns` | crates/iowb-core/src/core/direct_ai.rs:53-63 | Joining merges exactly the maximal runs of one role. |
| `DirectAiHistory.CoalescedAlternates` | crates/iowb-core/src/core/direct_ai.rs:53-63 | The joined history strictly alternates roles. |
| `DirectAiHistory.HistoryIsWellFormed` | crates/iowb-core/src/core/direct_ai.rs:14-76 | The history is a contiguous end of the usable turns, within the limits, starts with the user and strictly alternates; and it could not start earlier. |
| `HistoryMeaning.HistoryIsWhatWasSaid` | crates/iowb-core/src/core/direct_ai.rs:14-76 | Of the history itself, in the fields of the messages: which messages are in it, that the user speaks for users and the assistant for assistants, that each turn is the paragraphs of a run of one side, that answers ahead of the first question are left out and nothing else, and why it does not start earlier. |
| `DirectAiHistory.RecoveryPromptEndsWithUser` | crates/iowb-core/src/core/direct_ai.rs:78-93 | With the recovery prompt the history still alternates, and ends with a user turn that ends with the prompt. |
| `BoundedText.FloorCharBoundary` | crates/iowb-core/src/external_sessions/gemini_and_formatting.rs:285-291 | The loop finds the last character boundary at or below the index, at most three bytes away. |
| `Utf8.BoundaryIffNoContinuation` | crates/iowb-core/src/external_sessions/gemini_and_formatting.rs:285-291 | The boundaries are the offsets at which the UTF-8 encoding of RFC 3629 has no continuation byte, and its end. |
| `Utf8.EncodingIsReadBack` | crates/iowb-core/src/external_sessions/gemini_and_formatting.rs:211-215 | That encoding is as long as the widths of the characters say, and can be read back. |
| `BoundedText.BoundedToolText` | crates/iowb-core/src/external_sessions/gemini_and_formatting.rs:211-238 | Text up to 128 KiB is returned as it is; above, a prefix, the marker and a suffix in whole characters that do not overlap, of at most 128 KiB + 3 bytes together, and the omission the marker states is off by about its own length. |
| `BoundedText.MarkerIsShort` | crates/iowb-core/src/external_sessions/gemini_and_formatting.rs:223-230 | Whatever the 64-bit count, the marker takes at most 300 bytes, so the head never has a negative share. |
| `BoundedText.BoundaryIsNear` | crates/iowb-core/src/external_sessions/gemini_and_formatting.rs:285-291 | A character boundary lies at most three bytes below any index in the text. |
| `BoundedText.CapturedStderr.AppendBounded` | crates/iowb-core/src/codex_app_server/protocol.rs:77-89 | After any chunks the capture is the longest end of the diagnostics that fits 32 KiB, in whole characters. |

## Left out

- HTTP handlers, databases, Git, user interface assets, the RAG plug-ins and the doctor: input, output and foreign calls.
- The board's execution loop as a whole: it depends on agents and storage, and a running loop does not always own its project, since a start that arrives between its last save and its release is released by it.
- The redaction of secrets in transcripts: as written, its loop finds the value it has just replaced again.
- The normalisation of task groups: group ids set beforehand can move by one level in each run, so it is not idempotent.
- Codex message counting and the Codex output normaliser: the count does not equal the loaded list, and the separators depend on how the output is cut.
- The Gemini and Codex indexes: they rescan a changed source as a whole and have nothing to resume.
- The HOTP truncation and the clock window around it: single expressions over a keyed hash that is not modelled.
- JSON parsing, the line steps of the normalisers, the visibility of user text and the sanitising of inline data are arbitrary functions or given inputs; UTF-8 decoding of bytes cut inside a character is not modelled.
- The set-up of a live turn before the answer to `turn/start`, which forwards everything; the model starts behind it. Timeouts are steps that may happen at any time.
- Lag and overflow of the event channel: the event log keeps everything.
- The input and resize controls of processes: of these the model keeps that they may publish a failure at any time, even after the end of the process.
- ClaudeIndex.ResumedIndexEqualsRescanIff: speaks of counts, paths and models, because restored builders have lost the first user message and keep fallback times; what this means for one resume is in ClaudeSessions.ResumedRecordEqualsIff. The order in which a hash map lists records is not modelled, nor are failures of the storage.
- DirectAiHistory.RecoveryPromptEndsWithUser: is about a function on values where the source extends its list in place.
- DirectAiStream.StreamIsLossless: covers the event stream, and not the fallback that parses the whole body when nothing was streamed.
- TaskIds.NoIdIsAllocatedTwice: says nothing about the random ids after the 64-bit counter has run out.
