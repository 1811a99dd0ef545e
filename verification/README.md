# A verified model of sharpen's storage and fiber core

This Dafny 4.11 project models the parts of sharpen whose correctness is an argument about every run, and proves what
they promise. Each module keeps the form of the code it models: what is a class with fields updated in place there is a
class here, loops are loops, and every such method is tied by its contract to a function of the old state; the laws are
lemmas about these functions. Concurrent code is a system of atomic steps, and the laws hold over every interleaving.

- **The log-structured table** (`Buffers`, `LevelViews`, `MemoryTables`, `LevelStore`, `LevelProofs`, `LevelTombstones`,
  `LevelPlacements`, `LevelMerges`, `LevelReader`, `LevelDb`, `LevelMemories`, `LevelStalls`, `LevelHistories`,
  `LevelTables`). Memory tables with logs, a queue of
  immutable tables, levels of views of key intervals, the recursive merge into deeper levels, and the reader. The main
  result is `LevelDb.RunLookups`: after any run of batches, rotations, dumps, cascading merges and restarts that the
  program gets out of, a lookup answers what a plain map given the same writes answers, except exactly for a key whose
  empty value has left memory. It gets out of every step of every run if and only if the number of tables of a level is
  not limited (`LevelStalls.AlwaysReturnsIff`), and out of a given step exactly if no merge in it is an ordered one
  (`LevelDb.RunGoesOn`).
- **Fiber synchronisation** (`ReadWriteLocks`, `AwaitableFutures`, `EventLoops`, `Quorums`, `ParallelLoops`).
- **One Raft node** (`RaftNodes`, `RaftLogs`, `RaftCommits`, `RaftElections`) over an abstract storage of logs, including restarts.
- **The data block of a sorted table** (`Varints`, `SstPairs`, `SstGroups`, `SstBlocks`), byte for byte, with an exact
  account of which blocks can be read back and a proof that any one changed byte is noticed.
- **The checksum and the file space** (`LittleEndian`, `Crcs`, `FreeLists`).

## What the code does not do

Where a promise is false of the code, the model keeps the code, a lemma names an input, and another says exactly when
the promise holds.

- Told that the tables it merges are in order (`src/LevelTable.cpp:377-404`), the builder combines them in a loop that
  never advances (`include/sharpen/SortedStringTableBuilder.hpp:233-245`), so the call does not return. A merge is an
  ordered one exactly when the only view of the level has as many tables as allowed, a limit being set, and the new
  table fits into it (`LevelMerges.OrderedMergeIff`). Without a limit this never happens; with one, as many puts of
  new keys as it takes to dump one table more than the limit get there, whatever the key order
  (`LevelStalls.LimitedStalls`). The default limit is 16 (`include/sharpen/LevelTableOption.hpp:20`).
- An empty value is the tombstone on disk (`src/LevelTable.cpp:1010-1013`): a key put with an empty value exists until
  its table is dumped and is gone afterwards (`LevelDb.EmptyValueVanishes`, `LevelDb.DumpLosesEmptyValues`). Without
  empty values every lookup agrees (`LevelDb.NonEmptyValuesAgree`).
- A log that conflicts with the leader's is removed but not appended in the same call
  (`include/sharpen/RaftWrapper.hpp:271-288`): `RaftNodes.StoredExactly`, `RaftNodes.AllStoredIff`. Sending the same
  entries again stores them (`RaftNodes.ResendHeals`).
- The commit index of a follower can go down: `RaftCommits.CommitCanFall` is a run of a new node,
  `RaftCommits.CommitFallsIff` and `RaftCommits.StoredCommitFallsIff` say when, by what the node and the message hold
  before the call. The applied index cannot.
- The leader of a term is forgotten by a restart (`RaftNodes.RestartForgetsLeader`). After the last message let in of
  one leader, another leader is let in exactly if the term lasts, the node is not leader itself, and it has been reset
  or restarted since (`RaftNodes.NextLeaderIff`).
- An accepted append clears the vote of the current term (`RaftNodes.AppendClearsVote`). After the last vote in a term,
  another candidate whose logs reach far enough gets one exactly if the term lasts, the node is not leader, and an
  append of the term has been accepted since (`RaftNodes.NextVoteIff`).
- `Quorum` never completes the continuation when the majority is 0 or more than the number of proposers
  (`Quorums.DecidedInTheEnd`); the finish future can be completed before the continuation,
  exactly if there are two proposers or more, or one whose vote alone is not the majority
  (`Quorums.FinishMayComeFirst`).
- `ParallelFor` runs nothing, and completes, when there are fewer indices than event loops or the grain is 0
  (`ParallelLoops.CompletedMeansAllRun`, `ParallelLoops.CompletesWithoutRunning`).
- `Varint::Get` shifts in a 32-bit `int`, so numbers from 2^31 on are not read back (`Varints.RoundTrip`); a data block
  without a group reads an offset behind its end (`SstBlocks.EmptyBlock`).
- `BalancedTable::InitFreeArea` does not take over the first free area (`FreeLists.FileSpace.InitFreeArea`), which one
  allocation and one free already bring about (`FreeLists.FreedAreaIsLost`).

## Model

| member | source | states |
|---|---|---|
| `Buffers.BufferCompareIsComparator` | src/BufferOps.cpp:255-274 | the default order of byte strings answers only -1, 0 and 1 and is a total order whose 0 means equality |
| `Buffers.FirstDifferenceDecides` | src/BufferOps.cpp:255-274 | the first byte that differs decides, as a number from 0 to 255, and a proper prefix is smaller |
| `LevelViews.FindSplits` | src/LevelView.cpp:30-50 | the search position splits a sorted view into the intervals that end before the key and the others |
| `LevelViews.FindIdExact` | src/LevelView.cpp:149-161 | the answer is the id of the one interval that contains the key, and nothing if and only if none does |
| `LevelViews.NotOverlappedExact` | src/LevelView.cpp:163-185 | looking at the two neighbours of the search position decides whether the new interval is disjoint from every stored one |
| `LevelViews.InsertKeepsSorted` | src/LevelView.cpp:187-212 | a disjoint interval put in its place keeps the view sorted and disjoint |
| `LevelViews.LevelView.TryPut` | src/LevelView.cpp:187-212 | succeeds exactly when the new interval is disjoint from all; the view stays sorted either way |
| `LevelViews.LevelView.Delete` | src/LevelView.cpp:223-232 | removes the first item with the id, nothing else, and keeps the view sorted |
| `MemoryTables.BatchIsPlain` | include/sharpen/MemoryTable.hpp:118-160 | with or without tombstones, the undeleted part of the table follows the writes like a plain map |
| `MemoryTables.ReplayIsPlain` | include/sharpen/MemoryTable.hpp:237-245 | replaying a log from the empty table gives what a plain map given the same batches holds |
| `MemoryTables.MemoryTable.InternalDelete` | include/sharpen/MemoryTable.hpp:123-141 | a delete leaves a tombstone even for an unknown key, unless the table erases directly |
| `MemoryTables.MemoryTable.Action` | include/sharpen/MemoryTable.hpp:247-255 | the table stays what its log would rebuild, and its undeleted part follows the batch |
| `MemoryTables.MemoryTable.Restore` | include/sharpen/MemoryTable.hpp:237-245 | rebuilds exactly what the log says |
| `MemoryTables.MemoryTable.ExistKey` | include/sharpen/MemoryTable.hpp:276-290 | existing means present in the plain map; a directly erasing table never answers deleted |
| `MemoryTables.MemoryTable.Get` | include/sharpen/MemoryTable.hpp:292-314 | answers what the plain map holds, or throws |
| `LevelProofs.InsertRun` | src/LevelView.cpp:187-212 | putting a table into a view lays its content over the view's, wherever its interval is inserted |
| `LevelProofs.OpenViewCorrect` | src/LevelTable.cpp:435-447 | a table in a new newest view is read over everything the level held, and ids, intervals and limits stay in order |
| `LevelProofs.ExtendViewCorrect` | src/LevelTable.cpp:489-556 | a table put into the newest view is read over everything the level held, and ids, intervals and limits stay in order |
| `LevelProofs.MergedContent` | src/LevelTable.cpp:450-456 | the merged table over the deeper levels reads like the level and the new table over them, also when tombstones are dropped at the deepest level |
| `LevelProofs.DeletedAreDead` | src/LevelTable.cpp:471-486 | no table deleted after a merge is listed by any level that stays |
| `LevelProofs.AddCorrect` | src/LevelTable.cpp:415-557 | through any depth of cascade: levels stay below the maximal one and within their limits, intervals stay disjoint, live ids stay unique and fresh, shallower levels keep their tables, and to a reader the table lies over what the level and the deeper ones held; with it the recursion ends |
| `LevelTombstones.ContentExactly` | src/LevelTable.cpp:449-557 | what a level and the deeper ones hold after a placing, tombstones included: the table over what they held, without its tombstones if and only if the cascade gets to merge the only view of the deepest level |
| `LevelTombstones.DeepestMerge` | src/LevelTable.cpp:457-504 | a forced merge of the deepest level drops the tombstones exactly if the level has a single view |
| `LevelPlacements.WhereItGoes` | src/LevelTable.cpp:415-557 | a table opens the first view of an empty level, joins the newest view if it is apart from all intervals there, opens a view of its own if one more is allowed, and is merged down with the whole level otherwise, and whenever the level has as many tables as allowed; merged tables are deleted |
| `LevelPlacements.StaysTight` | src/LevelTable.cpp:415-557 | through any depth of cascade, the recorded deepest level is one that holds a view, or the record ends above the level in question |
| `LevelPlacements.TablesCreated` | src/LevelTable.cpp:415-557 | one placing writes at most one table for each level from its own to the deepest |
| `LevelReader.ViewGetCorrect` | src/LevelTable.cpp:999-1016 | looking only into the table whose interval contains the key misses no key of the view |
| `LevelReader.LevelsGetCorrect` | src/LevelTable.cpp:991-1018 | reading levels from the first on and views from the newest on finds exactly what all of them laid over one another hold |
| `LevelReader.AddChangesLookups` | src/LevelTable.cpp:415-557 | after placing a table at a level, every lookup from this level on gives the table's value, or what was found before |
| `LevelReader.LevelBound` | src/LevelTable.cpp:415-557 | the deepest level never exceeds the number of tables ever created |
| `LevelReader.EmptyTableWraps` | src/LevelTable.cpp:552-556 | an empty table placed in an empty store would make the number of levels wrap to 0 |
| `LevelMerges.OrderedMergeIff` | src/LevelTable.cpp:377-404 | a level is merged in order exactly when a limit on its tables is set, its only view has reached it, and the new table fits into that view |
| `LevelStalls.LimitedStalls` | include/sharpen/SortedStringTableBuilder.hpp:233-245 | with any limit on the tables of a level and any length of the queue there is a run of puts, every rotation being due, after which rotating the full memory table never ends |
| `LevelStalls.AlwaysReturnsIff` | include/sharpen/SortedStringTableBuilder.hpp:233-245 | every step of every run returns if and only if the number of tables of a level is not limited |
| `LevelDb.AppendIsGood` | src/LevelTable.cpp:933-949 | logging and applying a batch keeps memory, logs and levels in agreement with the plain map |
| `LevelDb.RotateIsGood` | src/LevelTable.cpp:950-963 | so does rotating a full memory table and dumping a full queue |
| `LevelDb.DumpIsGood` | src/LevelTable.cpp:867-917 | so does the dump, after which queue and counters are settled and only the logs of dumped tables are gone |
| `LevelDb.ReopenRebuilds` | src/LevelTable.cpp:611-647 | replaying the logs rebuilds every memory table in order; only the byte count is recomputed |
| `LevelDb.ReopenKeepsLookups` | src/LevelTable.cpp:749-808 | closing and reopening changes no lookup |
| `LevelMemories.HeldAfterEntry` | src/LevelTable.cpp:793-805 | an empty table holds no bytes; an entry adds those of its key and value and takes away those of the entry it replaces |
| `LevelMemories.RunCounts` | src/LevelTable.cpp:933-953 | in every run the counter is the bytes of all keys and put values appended since the last rotation or opening, never less than what the memory table holds, and exactly that after an opening |
| `LevelDb.StoppedIsOnDisk` | src/LevelTable.cpp:611-633 | a store stopped between operations, or between a rotation and its dump, leaves files from which it can be opened |
| `LevelDb.RunIsGood` | src/LevelTable.cpp:867-1020 | every store reached by steps that return keeps all invariants against the plain map given the same writes |
| `LevelDb.RunGoesOn` | src/LevelTable.cpp:867-966 | every run can go on with a step if and only if no merge in that step is an ordered one, from which the program does not return |
| `LevelDb.RunLookups` | src/LevelTable.cpp:968-1074 | in every store reached by steps that return, a lookup equals the plain map's if and only if the key's value is not an empty one that has left memory; existence says whether the lookup finds something |
| `LevelDb.NonEmptyValuesAgree` | src/LevelTable.cpp:968-1020 | a store never given an empty value answers every lookup like a plain map |
| `LevelDb.DumpLosesEmptyValues` | src/LevelTable.cpp:1006-1014 | after a dump every key that the plain map holds with an empty value reads as absent |
| `LevelDb.EmptyValueVanishes` | src/LevelTable.cpp:1006-1014 | the shortest such run: one put and one rotation |
| `LevelTables.LevelTable.GetView` | src/LevelTable.cpp:205-245 | the cached view is the recorded one |
| `LevelTables.LevelTable.GetComponent` | src/LevelTable.cpp:255-293 | the cached list of views is the recorded one |
| `LevelTables.LevelTable.MergeTables` | src/LevelTable.cpp:368-413 | walking views and tables oldest first with the appended table last, the newest value of every key wins, tombstones are dropped on request, and only the new file is written; the builder is told that the tables are in order exactly when there is one view and the appended table fits into it |
| `LevelTables.LevelTable.AddToComponent` | src/LevelTable.cpp:415-557 | records, caches and files end in exactly the levels of which `LevelProofs.AddCorrect`, `LevelTombstones.ContentExactly` and `LevelPlacements.WhereItGoes` speak; `returned` says whether the cascade meets no ordered merge |
| `LevelTables.LevelTable.MergeIntoNext` | src/LevelTable.cpp:449-487 | merging a level, recursing and deleting leaves the same, with caches coherent although views vanish; it returns if neither this merge nor a deeper one is an ordered one |
| `LevelTables.LevelTable.DummpImmutableTables` | src/LevelTable.cpp:867-917 | walking the queue newest first and keeping the first value of a key gives the newest one; the logs removed are those of the queue |
| `LevelTables.LevelTable.Action` | src/LevelTable.cpp:933-966 | the store stays valid for the plain map with the batch applied; the memory table is rotated exactly if its counter has passed the limit, and the queue dumped exactly if this fills it; `returned` is false exactly if an ordered merge keeps the call from returning |
| `LevelTables.LevelTable.PutKey` | src/LevelTable.cpp:919-924 | afterwards the store is valid for the map with the key set |
| `LevelTables.LevelTable.DeleteKey` | src/LevelTable.cpp:926-931 | afterwards the store is valid for the map without the key |
| `LevelTables.LevelTable.TryGetKey` | src/LevelTable.cpp:968-1020 | answers the plain map's value for keys in memory, and for others up to empty values, changing nothing but caches |
| `LevelTables.LevelTable.Exist` | src/LevelTable.cpp:1022-1074 | existing means that the plain map holds the key, not as an empty value that has left memory; deleted that a tombstone is left in memory or, for a key not in memory, on disk; anything else does not exist |
| `LevelHistories.ExistByHistory` | src/LevelTable.cpp:1022-1074 | after any run: a key never written does not exist; a written one exists exactly if the plain map holds it, not as an empty value that has left memory; it is deleted exactly while a tombstone for it is left, in memory or on disk, and does not exist once a merge has dropped that |
| `LevelHistories.NothingForgotten` | src/LevelTable.cpp:1022-1074 | as long as no dump reaches the deepest level's only view, disk and memory together remember exactly the keys ever written |
| `LevelHistories.NeverWrittenIff` | src/LevelTable.cpp:1022-1074 | in such a run a key does not exist, instead of being deleted, if and only if it was never written |
| `LevelHistories.ErasingForgets` | src/LevelTable.cpp:867-966 | right after a dump that drops tombstones no key is reported as deleted: it exists with its value or does not exist |
| `LevelHistories.DeletedIsForgotten` | src/LevelTable.cpp:449-504 | put, rotate, delete, rotate, with one view a level: the key is deleted before the second rotation and does not exist after it |
| `LevelHistories.RunIsTight` | src/LevelTable.cpp:415-557 | in every reachable store the deepest level on record holds a view, or is level 0 |
| `LevelTables.LevelTable.Open` | src/LevelTable.cpp:749-808 | opening over what a stopped store left gives a valid store for the same plain map; the collectors find nothing to do |
| `ReadWriteLocks.StepIsGood` | src/AsyncReadWriteLock.cpp:12-190 | every operation keeps mutual exclusion, the reader count and one place per request, and adds or removes only the request it is for |
| `ReadWriteLocks.MutualExclusion` | src/AsyncReadWriteLock.cpp:12-190 | in every run: at most one writer, never beside a reader, the reader count and the state match the holders, whoever waits waits for a holder, readers only for a writer |
| `ReadWriteLocks.ModeIsStableOverRuns` | src/AsyncReadWriteLock.cpp:142-153 | what `Unlock` reads before taking the spin lock stays true as long as the caller holds the lock |
| `ReadWriteLocks.ToldPreviousState` | src/AsyncReadWriteLock.cpp:92-190 | everyone granted out of a queue is told the state of the lock before the grant |
| `ReadWriteLocks.WaitsUntilGranted` | src/AsyncReadWriteLock.cpp:92-190 | a waiter keeps its place until it is granted, and is then told |
| `ReadWriteLocks.EverybodyIsGranted` | src/AsyncReadWriteLock.cpp:92-190 | without new requests, the lock is free exactly after as many unlocks as there were holders and waiters, and by then each of them has held it |
| `ReadWriteLocks.NotStuck` | src/AsyncReadWriteLock.cpp:92-190 | while anyone holds or waits, some holder can unlock or resume |
| `ReadWriteLocks.WhoEnters` | src/AsyncReadWriteLock.cpp:12-90 | a reader enters exactly if nobody writes, whoever waits; a writer exactly if nobody holds the lock; anyone else queues up or, only trying, changes nothing |
| `ReadWriteLocks.WhoFollows` | src/AsyncReadWriteLock.cpp:92-153 | after a writer's unlock the last write waiter holds the lock, or all read waiters if no writer waits; after the last reader's, the last write waiter; after any other reader's, the readers that are left |
| `ReadWriteLocks.WhoUpgrades` | src/AsyncReadWriteLock.cpp:155-172 | the only reader becomes the writer at once, any other one queues up behind all writers |
| `ReadWriteLocks.WhoDowngrades` | src/AsyncReadWriteLock.cpp:174-190 | a writer becomes a reader together with all read waiters, and no write waiter enters |
| `ReadWriteLocks.LaterWritersFirst` | src/AsyncReadWriteLock.cpp:92-140 | over every run, a writer that has queued up earlier waits as long as a later one does |
| `ReadWriteLocks.AsyncReadWriteLock.Unlock` | src/AsyncReadWriteLock.cpp:92-153 | releases what the caller holds, whichever it is, and grants nobody who did not wait |
| `ReadWriteLocks.AsyncReadWriteLock.UpgradeFromRead` | src/AsyncReadWriteLock.cpp:155-172 | the last reader becomes the writer at once, any other one waits as a writer |
| `ReadWriteLocks.AsyncReadWriteLock.DowngradeFromWrite` | src/AsyncReadWriteLock.cpp:174-190 | the writer becomes a reader together with everyone who waited to read |
| `RaftNodes.RunKeepsPrefix` | include/sharpen/RaftWrapper.hpp:219-302 | over every regular run, restarts included: logs are applied once each, in order, and what has been applied is never changed |
| `RaftNodes.AppliedLogsStay` | include/sharpen/RaftWrapper.hpp:219-302 | a log at an applied index is still stored, unaltered, in every later state, and the applied index never passes the commit index |
| `RaftNodes.ApplicationIsFold` | include/sharpen/RaftWrapper.hpp:451-478 | whatever the application does with a log, its state is the fold of the stored logs up to the applied index, and later states continue earlier ones |
| `RaftNodes.NewNodeAppliesInOrder` | include/sharpen/RaftWrapper.hpp:451-478 | in every regular run of a new node the logs applied are the stored ones from 1 to the applied index, in order |
| `RaftNodes.StoredExactly` | include/sharpen/RaftWrapper.hpp:265-289 | of the unapplied entries of an accepted message all end up stored except the first one that conflicts |
| `RaftNodes.AllStoredIff` | include/sharpen/RaftWrapper.hpp:265-289 | all are stored if and only if none conflicts |
| `RaftNodes.ResendHeals` | include/sharpen/RaftWrapper.hpp:265-289 | the same entries sent twice are all stored |
| `RaftLogs.ContentsWithoutConflict` | include/sharpen/RaftWrapper.hpp:265-289 | without a conflict, every stored log stays and every missing index is filled in with what was sent for it |
| `RaftLogs.ContentsAfterConflict` | include/sharpen/RaftWrapper.hpp:265-289 | with one: below the first conflict the same, at it nothing is stored, and behind it what was sent and nothing else |
| `RaftCommits.CommitFallsIff` | include/sharpen/RaftWrapper.hpp:265-296 | a message takes the commit index back exactly if it is accepted, the leader is ahead of that index, every log from there on is at or behind the first conflict, and no other unapplied entry reaches that far |
| `RaftCommits.StoredCommitFallsIff` | include/sharpen/RaftWrapper.hpp:265-296 | where the committed log is stored: exactly if the first conflict lies at or before it and no entry behind the conflict reaches it |
| `RaftCommits.CommitRises` | include/sharpen/RaftWrapper.hpp:291-296 | a message without conflicts never takes back a commit index within the logs |
| `RaftCommits.CommitCanFall` | include/sharpen/RaftWrapper.hpp:271-296 | a run of a new node, two messages long, in which it goes from 3 to 1 |
| `RaftNodes.CommitAfterAppend` | include/sharpen/RaftWrapper.hpp:291-296 | the commit index is never above both the leader's and the old one; behind an accepted leader that is ahead it is the leader's or the last stored index, whichever is smaller, and else it stays |
| `RaftCommits.OnlyCommittedIsApplied` | include/sharpen/RaftWrapper.hpp:219-302 | over every regular run of a new node, nothing is committed or applied beyond the largest commit index that it has been told of |
| `RaftCommits.AppliesAsFar` | include/sharpen/RaftWrapper.hpp:451-478 | applying takes the committed logs in order and stops only at the commit index, at a log that the application does not take, or, if told so, at a missing one |
| `RaftNodes.TermNeverFalls` | include/sharpen/RaftWrapper.hpp:90-95 | over every run, restarts included, the term never decreases |
| `RaftNodes.OneLeaderPerTerm` | include/sharpen/RaftWrapper.hpp:219-246 | any two messages that pass the leader checks in one term, however far apart, come from one leader, unless the node was reset or restarted in between |
| `RaftNodes.NextLeaderIff` | include/sharpen/RaftWrapper.hpp:219-246 | after the last admission in a term, a message of the term passes the leader checks if and only if the term lasts, the node is not leader itself, and the message is of the same leader or the node was reset or restarted since |
| `RaftNodes.RestartForgetsLeader` | include/sharpen/RaftWrapper.hpp:101-113 | after a restart or reset a second leader is let in |
| `RaftNodes.OneVotePerTerm` | include/sharpen/RaftWrapper.hpp:305-363 | over any stretch of a run a node votes for one candidate per term, itself included and across restarts, unless an append of that term came in between |
| `RaftNodes.NextVoteIff` | include/sharpen/RaftWrapper.hpp:305-363 | after the last vote in a term, its own candidacy included, a request in the term is granted if and only if the term lasts, the node is not leader, the logs of the candidate reach far enough, and it is the same candidate or an append of the term was accepted since |
| `RaftNodes.AppendClearsVote` | include/sharpen/RaftWrapper.hpp:247-248 | that exception is real |
| `RaftElections.FirstVoteIff` | include/sharpen/RaftWrapper.hpp:337-363 | in a term that the node has not reached, a vote is granted if and only if the node is not leader and both the index and the term of the candidate's last log reach those of the node; the term is entered either way, unless it is leader |
| `RaftElections.VotesForLongerLogs` | include/sharpen/RaftWrapper.hpp:356 | who gets a vote has logs that reach to every index the node has, and to the term of its last log |
| `RaftElections.LeadersWereElected` | include/sharpen/RaftWrapper.hpp:305-335 | over every run a node becomes leader only by ending an election of its own, in the term of that election, having been told since of at least half as many votes as there are members |
| `RaftElections.EnoughVotesWin` | include/sharpen/RaftWrapper.hpp:326-335 | and an election ended with that many votes is won, with fewer it is not |
| `RaftNodes.RaftWrapper.AppendEntries` | include/sharpen/RaftWrapper.hpp:219-302 | the result and the whole new state, with the applied prefix kept; after an accepted message the commit index is the old one, or the smaller of the leader's and the last stored index; a refused one leaves logs, commit index and applied logs alone |
| `RaftNodes.RaftWrapper.CheckLeader` | include/sharpen/RaftWrapper.hpp:378-403 | which messages are refused and why; a refused one changes nothing |
| `RaftNodes.RaftWrapper.ApplyLogs` | include/sharpen/RaftWrapper.hpp:451-478 | applies as far as logs are there and the application takes them, and persists how far |
| `RaftNodes.RaftWrapper.RequestVote` | include/sharpen/RaftWrapper.hpp:337-363 | granted if and only if the node is not leader, the term is not behind, nobody else has this term's vote, and the index and the term of the candidate's last log are at least the node's; a granted vote pledges the node to the candidate |
| `RaftNodes.RaftWrapper.constructor` | include/sharpen/RaftWrapper.hpp:101-113 | a new process resumes at the stored applied index as a follower without a leader |
| `Quorums.NeverWrong` | include/sharpen/Quorum.hpp:55-79 | in every interleaving the continuation is completed at most once, true only after a majority of proposers have answered with success and false only when one is out of reach; the finish future at most once, after all callbacks have begun |
| `Quorums.DecidedInTheEnd` | include/sharpen/Quorum.hpp:55-79 | when all callbacks have ended: finish exactly once, the continuation exactly once if and only if 1 <= majority <= proposers, and true if and only if that many proposers answered with success |
| `Quorums.RunsEnd` | include/sharpen/Quorum.hpp:55-79 | no run has more than four steps for each proposer; it has that many exactly when all callbacks have ended, and a shorter one can go on |
| `Quorums.SignalIsGood` | include/sharpen/Quorum.hpp:44-53 | the callback that reaches a threshold finds the continuation still there, so the unsynchronised swap has one user |
| `Quorums.DefaultIsStrictMajority` | include/sharpen/Quorum.hpp:324-334 | with the default majority, true means that the voters and the proposer itself are a strict majority of all |
| `Quorums.FinishMayComeFirst` | include/sharpen/Quorum.hpp:55-79 | some run completes finish before the continuation if and only if there are two proposers or more, or one and a majority other than 1 |
| `Quorums.QuorumWaiter.CountVote` | include/sharpen/Quorum.hpp:59-74 | the vote is counted and exactly the deciding one fires |
| `AwaitableFutures.ScheduledSafely` | include/sharpen/AwaitableFuture.hpp:29-114 | in every interleaving the awaiting fiber is scheduled at most once, only after completion, only when switched out, and only if it parked |
| `AwaitableFutures.NeverLost` | include/sharpen/AwaitableFuture.hpp:29-114 | when neither side has a step left, the awaiting fiber has returned |
| `AwaitableFutures.RunsEnd` | include/sharpen/AwaitableFuture.hpp:29-114 | and that is the case after at most twelve steps |
| `AwaitableFutures.StateTellsOutcome` | include/sharpen/Future.hpp:83-111 | over every run the future is completed if and only if its completer did not fail, and in error if and only if it did; there is one completer at most |
| `AwaitableFutures.AwaitableFuture.NotifyIfCompleted` | include/sharpen/AwaitableFuture.hpp:29-42 | under the lock the fiber goes to the completer, or is taken along to be scheduled, never both |
| `AwaitableFutures.AwaitableFuture.Complete` | include/sharpen/Future.hpp:83-111 | a pending future becomes completed, or is in error if it failed, before any awaiter is looked for |
| `EventLoops.ExecutedInOrder` | src/EventLoop.cpp:52-125 | in every interleaving the executed tasks are the first queued ones, once each and in order; pending tasks imply a notification out or on its way or a loop on its way; a sleeping loop has executed all |
| `EventLoops.EverythingRuns` | src/EventLoop.cpp:52-125 | a bounded number of internal steps runs everything that is queued, and no schedule of them stops short |
| `EventLoops.EventLoop.RunInLoopSoon` | src/EventLoop.cpp:52-64 | the caller is told to notify exactly if nobody has since the last takeover |
| `EventLoops.EventLoop.ExecuteTask` | src/EventLoop.cpp:66-92 | everything pending is executed in queue order and nothing is left |
| `ParallelLoops.AtMostOnce` | src/AsyncOps.cpp:26-60 | in every interleaving no index is run twice, none outside the range, and the future completes at most once |
| `ParallelLoops.CompletedMeansAllRun` | src/AsyncOps.cpp:4-62 | on completion every index has been run exactly once if and only if the grain is not 0 and there are at least as many indices as loops; otherwise none has |
| `ParallelLoops.RunsComplete` | src/AsyncOps.cpp:26-60 | apart from compare-and-swaps that fail for no reason, the steps of a run are bounded by the range and the number of workers, and where none is left the future has been completed |
| `ParallelLoops.CompletesWithoutRunning` | src/AsyncOps.cpp:10-50 | with a grain of 0 or fewer indices than workers there is a run that completes the future, and nothing has been run in it |
| `ParallelLoops.ChunkIsLargest` | src/AsyncOps.cpp:10-16 | the chunk is the largest one within the grain of which every worker could have one |
| `ParallelLoops.ZeroGrainCompletes` | src/AsyncOps.cpp:26-50 | the shortest such run: load, swap, leave |
| `ParallelLoops.StepIsGood` | src/AsyncOps.cpp:26-60 | every step keeps each claimed index owed by one worker, and the remaining length never wraps |
| `ParallelLoops.ParallelFor.RunNext` | src/AsyncOps.cpp:52-56 | runs an index of the range that nobody has run |
| `ParallelLoops.ParallelFor.LeaveLoop` | src/AsyncOps.cpp:42-50 | the future is completed by the last worker, when everything before the shared iterator has been run exactly once |
| `Varints.RoundTrip` | include/sharpen/Varint.hpp:93-138 | whatever follows, the length read is the length written, and the number is read back if and only if it is below 2^31 |
| `Varints.WrittenAsGroups` | include/sharpen/Varint.hpp:110-126 | a number is written as its groups of seven bits, lowest first, in as few bytes as possible, every byte but the last marked |
| `Varints.GetExact` | include/sharpen/Varint.hpp:93-108 | which buffers are read, whoever wrote them: those of at most five groups, the fifth below 8; and then the number that the groups mean |
| `Varints.Load` | include/sharpen/Varint.hpp:93-108 | the decoding loop, including where its shifts are undefined |
| `Varints.Store` | include/sharpen/Varint.hpp:110-126 | the encoding loop |
| `SstPairs.LoadStored` | src/SstKeyValuePair.cpp:17-119 | a stored pair is read back, whatever follows, if and only if its three lengths are below 2^31 |
| `SstPairs.StoredPieces` | src/SstKeyValuePair.cpp:89-119 | a stored pair is both lengths of its key, the part of the key that is its own, the length of the value and the value, in this order |
| `SstPairs.LoadFrom` | src/SstKeyValuePair.cpp:17-67 | what is read, and which buffers are refused |
| `SstPairs.UnsafeStoreTo` | src/SstKeyValuePair.cpp:89-119 | the bytes written and their number, everything else in the buffer unchanged |
| `SstPairs.PairSize` | src/SstKeyValuePair.cpp:75-87 | the number of bytes that storing writes |
| `SstGroups.PutIsGood` | src/SstKeyValueGroup.cpp:172-227 | wherever the search stops, a put keeps every pair's shared part a prefix of the first key and its lengths exact |
| `SstGroups.PutEntries` | src/SstKeyValueGroup.cpp:172-227 | a put replaces the value of an equal key or inserts one entry, in front for a new first key and else behind the place found, and changes no other entry |
| `SstGroups.BuiltIsGood` | src/SstKeyValueGroup.cpp:172-227 | every group built from the empty one by puts is in that shape |
| `SstGroups.BuiltIsTight` | src/SstKeyValueGroup.cpp:163-227 | in every group built by puts each shared part is the longest common prefix with the first key |
| `SstGroups.PairsInOrder` | src/SstKeyValueGroup.cpp:35-59 | the stored pairs lie one behind the other, in the order of the group |
| `SstGroups.SstKeyValueGroup.ComputeKeySizes` | src/SstKeyValueGroup.cpp:163-170 | the longest common prefix with the first key |
| `SstGroups.SstKeyValueGroup.TryPutAt` | src/SstKeyValueGroup.cpp:172-227 | refuses exactly keys without a common prefix, and keeps the shape |
| `SstGroups.GroupRoundTrip` | src/SstKeyValueGroup.cpp:8-59 | a group in shape is read back if and only if all its lengths are below 2^31 |
| `SstGroups.SstKeyValueGroup.LoadFrom` | src/SstKeyValueGroup.cpp:8-33 | what is read; a refused buffer leaves the group empty |
| `SstBlocks.BlockRoundTrip` | src/SstDataBlock.cpp:8-123 | a block of groups in shape is read back, every key, value and length, if and only if it has a group and all counts and lengths are below 2^31 |
| `SstBlocks.BuiltBlockRoundTrip` | src/SstDataBlock.cpp:8-123 | in particular every block of groups built by puts, within these limits |
| `SstBlocks.StoredLayout` | src/SstDataBlock.cpp:102-123 | behind checksum and count, the i-th offset says where the i-th group starts, and up to the next one lies exactly that group |
| `SstBlocks.EmptyBlock` | src/SstDataBlock.cpp:29-61 | the stored empty block is undamaged, three bytes long, and refused |
| `SstBlocks.CorruptionIsDetected` | src/SstDataBlock.cpp:14-22 | a block that loads no longer does when any one of its bytes is changed |
| `SstBlocks.SstDataBlock.ComputeSize` | src/SstDataBlock.cpp:89-100 | the number of bytes that storing writes |
| `SstBlocks.SstDataBlock.UnsafeStoreTo` | src/SstDataBlock.cpp:102-123 | the bytes written and their number, everything behind them unchanged |
| `SstBlocks.SstDataBlock.LoadFrom` | src/SstDataBlock.cpp:8-81 | succeeds exactly on the blocks that can be read, and then holds their groups |
| `SstBlocks.ReadIndex` | src/SstDataBlock.cpp:34-61 | accepts exactly an index that stays within the buffer and never goes back |
| `Crcs.TablesAgree` | src/BufferOps.cpp:8-101 | every entry of the two tables is what eight shifts by the reflected polynomial 0xA001 make of its index |
| `Crcs.Crc16` | src/BufferOps.cpp:103-118 | for every byte string, the two-table loop computes the register of the bit-by-bit definition, started at 0xFFFF |
| `Crcs.CheckValue` | test/ChecksumTest.cpp:8-11 | the digits 1 to 9 give 0x4B37 |
| `Crcs.OneByteIsDetected` | src/BufferOps.cpp:103-118 | a change confined to one byte always changes the checksum |
| `FreeLists.RunIsGood` | src/BalancedTable.cpp:18-89 | after every run, live and free regions tile the file behind the header, and the list threaded through the file is the list in memory |
| `FreeLists.ReusesFirstFit` | src/BalancedTable.cpp:26-69 | if any free area is large enough, the first such one is handed out and leaves the list, and the file does not grow; otherwise the file grows by the size asked for |
| `FreeLists.OthersUntouched` | src/BalancedTable.cpp:26-89 | allocating and freeing change no byte of a region that stays live, nor of the root slot |
| `FreeLists.OwnerWriteIsGood` | src/BalancedTable.cpp:222-225 | data written into a live region, or a root pointer into its slot, leaves the list intact |
| `FreeLists.FileSpace.AllocMemory` | src/BalancedTable.cpp:26-69 | the first free area that is large enough is handed out and leaves the list, the file staying as long as it is; only if there is none does the file grow; what is handed out overlaps nothing that is live |
| `FreeLists.FileSpace.FreeMemory` | src/BalancedTable.cpp:71-89 | the region joins the end of the list, in memory and in the file |
| `FreeLists.FileSpace.InitFreeArea` | src/BalancedTable.cpp:91-107 | reads back all free areas but the first, so the whole list if and only if it is empty |
| `FreeLists.FreedAreaIsLost` | src/BalancedTable.cpp:91-107 | one region allocated and freed is a free area that opening the file does not read back |

## Left out

- The table builder is taken by contract: merged tables hold the newest value of every key, in the order in which
  `MergeTables` passes them.
- `LevelTables.LevelTable.MergeTables`: for ordered tables it still gives back what the builder promises; that the
  program does not return then is what the flag, and `returned` of the methods that call it, stand for.
- Write batches are a sequence in the log, not bytes: the decoder (`src/WriteBatch.cpp:91-110`) does not advance past a
  value.
- Bloom filters, block and table caches are not modelled; a table file is the map it holds.
- Inside `LevelTables.LevelTable` memory tables are values with logs beside them; that a table object updated in place
  does the same is what `MemoryTables.MemoryTable` states.
- Concurrent `Action` calls are batches in some order; that two fibers can log in one order and apply in the other is
  not modelled. Crash points inside an operation, and collecting what they leave, are not either.
- `LevelDb.RunLookups`: assumes fewer than 2^64 - 1 tables are ever created; the 64-bit width of ids is modelled where
  a level number wraps. A file left behind by a merge whose result is empty has no effect on lookups.
- User comparators must answer exactly -1, 0 or 1, and 0 only for equal byte strings: orders that identify different
  keys are not covered. Empty keys are allowed here although the merge uses one as a mark.
- `TableScan`, `LevelTableScanner`, `Destory` and the bytes of views and components are not part of this model.
- Which thread completes the futures of a granted lock request is a later step of the same request, not a thread.
- `ReadWriteLocks.MutualExclusion`: the 32-bit reader count wraps below 0 but not above its largest value.
- Raft cluster safety, elections across nodes, log compaction and what `InstallSnapshot` of the application does to the
  stored term or vote: a snapshot here replaces logs only, and regular runs have none.
- `RaftElections.LeadersWereElected`: counts votes as the code does, the node's own not among them; whose votes callers
  report, and whether the members include the node itself, is up to them.
- `RaftNodes.OneLeaderPerTerm`: not across restarts, because the leader is not persistent; what happens after one is
  `RaftNodes.NextLeaderIff`.
- `RaftNodes.OneVotePerTerm`: not across an append of the term; what happens after one is `RaftNodes.NextVoteIff`.
- Timeouts and cancellation of proposers; an empty range of proposers, which completes both futures at once and needs
  the finish future to be there.
- Waiting threads outside the scheduler, futures awaited by more than one fiber, reuse after `Reset`, and how long the
  future itself has to live.
- Stopping an event loop; events of channels only make `Select` return.
- Deleting from a group or block, splitting and merging blocks, and the order of keys in a group after an insertion in
  the middle: a put is proved for any answer of the binary search.
- `SstPairs.LoadFrom`: where the program would read behind the buffer or shift out of an `int`, it answers nothing.
- Big-endian machines: offsets and checksums are little-endian.
- File sizes are below 2^64; the B+ tree above the free list, reopening after `InitFreeArea`, and its caches.
