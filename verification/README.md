# Verification of libeio's engine and of the PHP layer on top of it

Dafny models of the parts of the repository where most of the reasoning is, with proofs of what they
are for. `dafny verify dfyconfig.toml` checks everything.

- **Directory entries** (`Bits`, `Counting`, `CStrings`, `Dirents`, `DentSort`, `Readdir`): reading a directory, the
  in-place radix and insertion sort, and the two decoders for PHP. The radix pass stops early and the
  insertion loop has no bound; the proof that the sort is right spans both.
- **Path names** (`Paths`, `Realpath`): `realpath` in three slices of one buffer, proved against a
  recursive resolver on lists of components. The reference notion is pathname resolution, section 4.13
  of the Base Definitions of POSIX.1-2017. Like the code, the resolver does not ask whether what comes
  before `.`, `..` or a trailing slash is a directory.
- **Queues and groups in place** (`Options`, `PriLists`, `ReqQueue`, `EtpPool`, `Members`, `GroupLists`):
  the linked lists of the priority queues and of group members, the two halves of the pool object, and
  cancellation. `Members` has the requests of the engine with their links; the objects of `GroupLists`
  and `EtpPool` are proved to do what the engine's steps do to requests and pool.
- **The engine** (`Engine`, `EnginePlaces`, `EngineCounters`, `EngineOrder`, `EngineThreads`,
  `EngineSupply`, `EngineGroups`, `EngineRuns`, `EngineHistories`, `EngineLoops`, `EngineCompletion`):
  worker threads, event loop, polls nested in callbacks, and request groups as a state machine with one
  step for each critical section. A run is any interleaving of the steps. The invariants and histories
  hold in every run; the theorems about thread supply and completion are for runs with fixed settings.
- **Request handles** (`Handles`): the reference-counted indirection between PHP resources and requests.
- **Decimal text** (`Arithmetic`, `DecimalText`): digits from fixed-point numbers, the exact range in
  which they are right, and the 32-bit and 64-bit conversions built on them.

What the models take as given:

- Directory names have no 0 byte and fewer than 65536 characters, as `struct dirent` has them, and no
  allocation fails. When more than 60 entries are to be sorted, every inode number is 0 and no score can
  differ, the sort has no bit to test and the code steps below its bit list; that case is excluded, and
  `Readdir.SortUndefinedExactly` says exactly when it occurs.
- A file system is a fixed function from paths to link texts, and link texts are not empty. `getcwd`
  answers a canonical path. `EIO_PATH_MAX` is any number from 8160 on and the link budget any from 32 on.
- A request joins at most one group, never one that contains it, and never a group that has been shifted
  with no members or later. Any stream of calls within these limits is a run.
- Executing a request and running a callback are opaque; a callback may make any of the calls modelled.
  Wakes may be spurious, and a signal wakes one waiting worker if there is one.
- Machine integers that count things do not overflow. Priorities are the exception: the shift of the
  `signed char` wraps, as `PriLists.QueueOfClamps` and `PriLists.HighPriorityWraps` say.

## Model

| member | source | states |
|---|---|---|
| `Dirents.Cmp` | libeio/eio.c:1189-1196 | the sign of the comparison is the lexicographic order of (score, inode), within a `signed char` |
| `Dirents.DigitsDecideOrder` | libeio/eio.c:1217-1245 | if the inode mask is the OR of all inodes and scores differ only within the score mask, comparing entries by the bits the sort tests is comparing them by (score, inode) |
| `Dirents.DigitsCompareUpper` | libeio/eio.c:1231-1244 | from any bit upwards, the tested bits decide the comparison exactly like all score and inode bits, in both directions |
| `Dirents.KeyLevelsNonEmpty` | libeio/eio.c:1229-1244 | there is a bit to test if and only if one of the two masks is not 0 |
| `DentSort.PrepareBits` | libeio/eio.c:1217-1245 | the bit list holds a sentinel and then exactly the bits set in the masks, least significant first |
| `DentSort.BitPartitionInPlace` | libeio/eio.c:1269-1286 | the asymmetric partition loop permutes the range and leaves all entries with a clear bit before all with a set bit |
| `DentSort.SplitDown` | libeio/eio.c:1258-1299 | a popped partition is split bit by bit; stack depth plus bits left never exceeds the number of key bits, and what lies left of the pending partitions is finished |
| `DentSort.RadixPass` | libeio/eio.c:1247-1301 | the stack loop ends, permutes the entries and finishes every partition |
| `DentSort.DoneIsNearlySorted` | libeio/eio.c:1272-1290 | partitions cut off early are small or have no bits left, so entries at least `EIO_SORT_CUTOFF - 1` places apart are in order |
| `DentSort.RadixSort` | libeio/eio.c:1203-1302 | more than 60 entries come out permuted, with any two at least `EIO_SORT_CUTOFF - 1` places apart in order; up to 60 are untouched |
| `DentSort.FewGreater` | libeio/eio.c:1312-1315 | in such an order at most `EIO_SORT_CUTOFF - 2` earlier entries are greater than a given one |
| `DentSort.FindMinimum` | libeio/eio.c:1308-1315 | the least of the entries scanned (the first 31 when there are more than 60) is the least of all |
| `DentSort.SentinelKeepsNearlySorted` | libeio/eio.c:1317-1320 | swapping the minimum to the front keeps entries far apart in order |
| `DentSort.InsertOne` | libeio/eio.c:1327-1335 | the unguarded loop stops at or above index 1 and moves the entry past exactly the greater ones |
| `DentSort.InsertionSort` | libeio/eio.c:1304-1337 | the whole array is sorted, and after a radix pass no insertion shifts more than `EIO_SORT_CUTOFF - 2` entries |
| `DentSort.Sort` | libeio/eio.c:1339-1352 | for every size, the first `size` entries are permuted into (score, inode) order and the others untouched |
| `Readdir.KeptIsNotDot` | libeio/eio.c:1521-1521 | the character tests skip exactly `.` and `..` |
| `Readdir.KeptAreTheOthers` | libeio/eio.c:1520-1522 | what is listed are exactly the entries of the stream other than `.` and `..` |
| `Readdir.KeptAsOften` | libeio/eio.c:1520-1522 | and each of them as often as in the stream |
| `Readdir.GuessOrder` | libeio/eio.c:1608-1621 | with `DIRS_FIRST`: known directories before guesses before known others; among guesses names with a leading dot, then names without a dot by length in the classes 1, 2 to 3, 4 to 6 and longer, then other names with a dot |
| `Readdir.KeepEntry` | libeio/eio.c:1521-1626 | a kept entry is added to both buffers, which grow without overrun or loss |
| `Readdir.Gather` | libeio/eio.c:1460-1641 | the loop gathers all kept entries in stream order, unless it is seen to be cancelled after an entry |
| `Readdir.DirentSelectsName` | libeio/eio.c:1549-1552 | each (offset, length) selects its own terminated name in the names buffer |
| `Readdir.PartitionDirs` | libeio/eio.c:1493-1508 | the walk from both sides permutes the entries and puts all directories first |
| `Readdir.ArrangeDents` | libeio/eio.c:1485-1512 | the entries are permuted into the order that the flags ask for |
| `Readdir.Scandir` | libeio/eio.c:1355-1642 | for every entry stream and flag set, a success lists exactly the kept entries: packed names in stream order, entries permuted and in the promised order, the sorting flags without effect unless entries are asked for, and `FOUND_UNKNOWN` set if and only if asked for or found |
| `Readdir.SortUndefinedExactly` | libeio/eio.c:1229-1270 | the excluded case is exactly a sort of more than 60 entries with no bit to test, where the first bit pointer is the sentinel itself |
| `Readdir.SortUndefinedHappens` | libeio/eio.c:1485-1486 | the case can occur: 61 entries with inode 0 in `STAT_ORDER` |
| `Readdir.DirectoriesPrecede` | libeio/eio.c:1487-1512 | with `DIRS_FIRST`, everything before a known directory is a known directory with no greater inode |
| `Readdir.InodesAscend` | libeio/eio.c:1485-1486 | with `STAT_ORDER` alone, all entries are in inode order |
| `Readdir.SetReaddirNames` | php8/php_eio.c:370-391 | the `strlen` decoder recovers every name in stream order |
| `Readdir.SetReaddirDentsAndNames` | php8/php_eio.c:394-423 | decoding through the offsets shows the entries of the stream, permuted: each with its own name and inode number, and with its own `d_type` if that is one of the eight known ones and 0 if not |
| `Readdir.FlagsReported` | libeio/eio.c:1376-1377 | the flags that come back: `DIRS_FIRST` and `STAT_ORDER` if and only if asked for together with entries, `FOUND_UNKNOWN` if and only if asked for or a listed `d_type` is none of the known ones and was looked at |
| `Readdir.ReaddirForPhp` | php8/php_eio.c:832-850 | from entry stream to PHP arrays: when entries are asked for, a permutation of the kept entries, each shown with its name, inode number and the type that its `d_type` says, with directories first if that is asked for, and in (score, inode) order, the score told from the name and type shown, whenever all entries were sorted; otherwise all names in stream order |
| `Readdir.FilesAscend` | libeio/eio.c:1485-1512 | where all entries are sorted, known files ascend by inode, and without `DIRS_FIRST` all entries do |
| `Paths.ResolveSettles` | libeio/eio.c:1101-1179 | a success has no empty, `.` or `..` component and no prefix that is a link |
| `Paths.WalkSettled` | libeio/eio.c:1101-1155 | walking along such a path reaches it with no link expanded, whatever the budget |
| `Paths.BudgetOnlyCuts` | libeio/eio.c:1165-1167 | with a smaller link budget the result is the same if fewer links than the budget are expanded, and ELOOP otherwise |
| `Paths.BlanksVanish` | libeio/eio.c:1106-1120 | an empty component or `.` changes nothing |
| `Paths.UpTakesBack` | libeio/eio.c:1122-1131 | `..` takes back the name before it if that is no link, and does nothing at the root |
| `Paths.LinkIsItsText` | libeio/eio.c:1134-1178 | a link below a resolved path fails by the length of its path, of its text and the rest, or by the budget, in this order; otherwise it counts once and the result is that of its text in its place, from the root if absolute and in its directory if not |
| `Paths.UnreadableFails` | libeio/eio.c:1148-1151 | a name below a resolved path that cannot be looked up fails with the error of the look-up |
| `Paths.PlainPathFits` | libeio/eio.c:1134-1155 | a path of names without links is its own resolution if and only if it fits with room for two more characters |
| `Paths.LimitsOnlyCut` | libeio/eio.c:1134-1163 | if the longest path looked up or made by a splice fits in a buffer, the result is that of plain pathname resolution; if not it is ENAMETOOLONG, which plain resolution never gives |
| `Realpath.MemMove` | libeio/eio.c:1172-1173 | an overlapping move delivers the old source range and changes nothing else |
| `Realpath.PopComponent` | libeio/eio.c:1122-1131 | going up leaves exactly the text of all components but the last, and nothing at the root |
| `Realpath.FollowLink` | libeio/eio.c:1156-1178 | the length check, the budget and the splice in place leave link target, slash and remaining path in the third slice |
| `Realpath.Round` | libeio/eio.c:1101-1179 | one turn of the loop in the buffer is one step on the component lists |
| `Realpath.RoundResolves` | libeio/eio.c:1101-1179 | each turn keeps the resolution of what remains, and decreases (budget, length of the remaining path) |
| `Realpath.Walk` | libeio/eio.c:1101-1179 | the loop ends with the result or the error of the recursive resolver |
| `Realpath.Realpath` | libeio/eio.c:1015-1187 | for every path, working directory and file system: the result, or the kind of failure, of the recursive resolver, always with room for a final 0 byte |
| `Realpath.RelativeToCwd` | libeio/eio.c:1079-1099 | a relative path has the result of the absolute path made by putting the working directory before it |
| `Realpath.RealpathIdempotent` | libeio/eio.c:1101-1184 | a result starts with `/`, is canonical, took fewer links than the budget, and resolves to itself with none |
| `PriLists.QueueOfClamps` | libeio/etp.c:565-568 | the shift and clamp select the queue of the nearest valid priority if and only if the priority is at most 123 |
| `PriLists.HighPriorityWraps` | libeio/etp.c:565-568 | priority 124 wraps in its `signed char` and lands in the lowest queue |
| `PriLists.PushItems` | libeio/etp.c:244-259 | a push adds exactly its request |
| `PriLists.RestItems` | libeio/etp.c:261-281 | a shift removes exactly the request it answers |
| `PriLists.ShiftRepresents` | libeio/etp.c:270-281 | a shift takes the oldest request of the highest priority |
| `PriLists.RunRefines` | libeio/etp.c:244-285 | in every run of pushes and shifts, nine lists answer like one log: a push with the number held, a shift with the oldest request of the highest priority |
| `ReqQueue.ReqQueue.constructor` | libeio/etp.c:233-242 | an empty queue |
| `ReqQueue.ReqQueue.Push` | libeio/etp.c:244-259 | the head and tail pointers realise the push on lists, and the old size is returned |
| `ReqQueue.ReqQueue.Shift` | libeio/etp.c:261-285 | the pointers realise the shift on lists; the `abort` after the scan is unreachable |
| `EtpPools.ClampPriority` | libeio/etp.c:565-568 | the field ends up as the number of the queue, for every `signed char` |
| `EtpPools.RequestSide.AddRequest` | libeio/etp.c:588-593 | the section under the request lock does to the object what the engine's submit does to the pool |
| `EtpPools.RequestSide.AddQuit` | libeio/etp.c:460-468 | a quit request is queued without being counted as ready |
| `EtpPools.RequestSide.TakeRequest` | libeio/etp.c:351-389 | a worker takes the front request and counts one less as ready, also for a quit |
| `EtpPools.RequestSide.CountDown` | libeio/etp.c:512-514 | a polled request is counted down |
| `EtpPools.ResultSide.AddResult` | libeio/etp.c:396-401 | publishing a result asks for a poll if and only if the queue was empty |
| `EtpPools.ResultSide.TakeResult` | libeio/etp.c:496-507 | taking a result ends the call for a poll if and only if the queue is empty then |
| `Members.JoinedKeepsLists` | libeio/eio.c:2426-2443 | joining keeps all lists well linked: each runs through its members in both directions, once each, and `size` is their number |
| `Members.LeftKeepsLists` | libeio/eio.c:470-482 | unlinking keeps all lists well linked and removes exactly one member from one of them |
| `Members.ListsDisjoint` | libeio/eio.c:2426-2443 | well-linked lists of different groups share no request |
| `Members.CoversIffReaches` | libeio/etp.c:547-560 | going through members, and the members of members, covers exactly what chains of memberships lead to |
| `GroupLists.MirroredLists` | libeio/eio.c:2426-2443 | objects that mirror well-linked requests form doubly linked lists, one for each group, with no object twice in them |
| `GroupLists.GrpAdd` | libeio/eio.c:2426-2443 | if the objects mirror the engine's requests (links, sizes, flags), they mirror them after the join, whatever the other groups are |
| `GroupLists.Unlink` | libeio/eio.c:440-485 | if the objects mirror the engine's requests, they mirror them after the leave, and the answer is the guard by which the engine finishes the group |
| `GroupLists.Delay` | libeio/etp.c:516-520 | flagging the object is what the engine does to the request |
| `GroupLists.Cancel` | libeio/etp.c:547-553 | on acyclic nesting the mutual recursion ends and marks the request and its members at all depths, and nothing else |
| `GroupLists.GrpCancel` | libeio/etp.c:555-560 | the same for the members only |
| `GroupLists.EioCancel` | libeio/eio.c:499-503 | a cancellation of the objects is the engine's: all that chains of memberships lead to is marked |
| `GroupLists.EioGrpCancel` | libeio/eio.c:493-497 | the same for the members of a group |
| `EnginePlaces.KeepsPlaces` | libeio/etp.c:335-406 | every step of every thread leaves every request in exactly one place: queued once, with one worker, among the results once, or in one frame of the main thread |
| `EnginePlaces.UnlinkFinishesDelayed` | libeio/eio.c:441-453 | the flag that an unlinking tests is never out of date: the group that it finishes is one that waits for its members |
| `EngineCounters.KeepsCounters` | libeio/etp.c:384-405 | `nreqs`, `npending` and `nready` keep counting the requests in flight, pending, and queued less the quits taken |
| `EngineCounters.KeepsBalanced` | libeio/etp.c:457-473 | `nreqs` stays the ordinary requests queued, executing and among the results, plus one between two critical sections; `npending` the length of the result queue |
| `EngineCounters.KeepsNotified` | php8/php_eio.c:888-911 | want and done calls strictly alternate, and the descriptor is readable if and only if there are results, for counters and for 1 or 8 byte pipes |
| `EngineCounters.KeepsSignalled` | libeio/etp.c:367-380 | if a worker sleeps unsignalled, as many others are awake as requests are queued |
| `EngineCounters.KeepsAwaiting` | php8/php_eio.c:357-367 | a blocked event loop always has a request to wait for |
| `EngineOrder.KeepsOrdered` | libeio/etp.c:586-593 | over all steps each list holds the requests of its own priority in the order of submission |
| `EngineOrder.FrontIsBest` | libeio/etp.c:355-358 | the request at the front has the highest priority of all queued ones, and of those it was submitted first |
| `EngineRuns.WorkerTakesBest` | libeio/etp.c:355-387 | in every run, whenever a worker takes a request, every other queued one has a lower priority or was submitted later |
| `EngineHistories.TakenAsSubmitted` | libeio/etp.c:562-593 | in every run requests are taken by the priority they were submitted with, clamped to the valid range, and among equals in the order of the submits |
| `EngineHistories.QuitsGoFirst` | libeio/etp.c:457-468 | no request submitted with less than the highest priority is taken while a request to quit is queued |
| `EngineRuns.PolledBest` | libeio/etp.c:496-507 | a poll takes a result of the highest priority that any waiting result has |
| `EngineThreads.KeepsStaffed` | libeio/etp.c:457-473 | over all steps `started` is the number of live workers less the quit requests queued and counted off and a new thread not yet counted, whether workers are asked to leave or time out |
| `EngineThreads.KeepsRested` | libeio/etp.c:369-382 | as long as `max_idle` is not changed, no step leaves more workers than that asleep without a timeout |
| `EngineRuns.RunRested` | libeio/etp.c:369-382 | in every run without a change of `max_idle`, at most that many workers sleep without a timeout |
| `EngineThreads.GivesUp` | libeio/etp.c:355-385 | a worker gives up if and only if its wait timed out and nothing is queued, and waits with a timeout if and only if more than `max_idle` workers are idle |
| `EngineThreads.IdleThreadLeaves` | libeio/etp.c:360-381 | while nothing is queued, a worker that waits with a timeout can run out of it and leave, and is then counted neither as idle nor as started |
| `EngineRuns.ThreadsForWork` | libeio/etp.c:444-455 | however the reads of the three counters interleave with the workers, a thread is created only while fewer are started than wanted and than requests are counted |
| `EngineLoops.SettingsFollow` | libeio/etp.c:631-642 | the number of wanted threads is raised by one call and lowered by another, and by nothing else |
| `EngineLoops.ShrinkReturns` | libeio/etp.c:638-646 | the call that lowers the number of wanted threads returns only when no more than that are started, whatever the workers do meanwhile |
| `EngineSupply.KeepsManned` | libeio/etp.c:371-381 | with `max_idle >= wanted` no worker ever waits with a timeout or leaves |
| `EngineSupply.KeepsSupplied` | libeio/etp.c:444-455 | however the reads of the three counters interleave with the workers, and while a new thread already runs but is not counted, `wanted >= started >= min (wanted, nreqs - npending - 1)`, and without the 1 outside of a submit or poll |
| `EngineGroups.AddKeepsGrouped` | libeio/eio.c:2426-2443 | adding a request keeps all lists well linked and holding exactly the requests that joined and have not left |
| `EngineGroups.KeepsGrouped` | libeio/eio.c:465-491 | over all steps of all threads, all lists stay well linked and hold exactly the requests that joined their group and have not left it; only delayed groups are flagged, and only unfinished ones have members |
| `EngineGroups.GroupedAreFlagged` | libeio/eio.c:441-453 | a group with a member and the flag set is delayed |
| `EngineGroups.KeepsDelayOk` | libeio/etp.c:516-520 | a delayed group always has a member |
| `EngineGroups.KeepsHistories` | libeio/eio.c:77-83 | a request is polled, finished and destroyed at most once each and in this order, and its callback runs unless it is cancelled |
| `EngineGroups.AddKeepsAcyclic` | libeio/eio.c:2426-2443 | a member that does not contain its group leaves the nesting acyclic |
| `EngineGroups.KeepsAcyclic` | libeio/eio.c:2426-2443 | the nesting stays acyclic over all steps |
| `EngineRuns.RunInv` | libeio/etp.c:287-596 | all of these invariants hold in every state of every run, with nested polls and event loops |
| `EngineRuns.DelayedReachesFinishing` | libeio/eio.c:441-491 | when no request is counted, a delayed group contains, at some depth, a request that is finishing |
| `EngineRuns.Uncounted` | php8/php_eio.c:357-367 | when no request is counted, each request is destroyed, finishing on the stack, or a delayed group around a finishing one |
| `EngineHistories.Quiescence` | libeio/etp.c:512-526 | when no request is counted and no finish is in progress, every request was polled, finished and destroyed exactly once, every list is empty, and each callback ran exactly once, unless a cancellation reached its request before its finish |
| `EngineHistories.CancelledExactly` | libeio/etp.c:547-560 | in every state of every run a request is cancelled if and only if an earlier cancellation of a request or of the members of a group reached it when it was made |
| `EngineHistories.CalledExactly` | libeio/eio.c:77-83 | the callback of a request runs exactly once, with its finish, if no cancellation reached the request before, and never otherwise |
| `EngineHistories.CallbackHasControl` | libeio/eio.c:77-83 | in every run the steps that count a callback are exactly those that put the main thread into it |
| `EngineHistories.AddPossible` | libeio/eio.c:2426-2443 | while the user has control, an unfinished request in no group can be added to any unfinished group that it does not contain |
| `EngineRuns.SubmitPossible` | libeio/etp.c:562-596 | a request can be submitted whenever the user has control, also in callbacks, in every reachable state |
| `EngineRuns.CallPossible` | libeio/etp.c:562-646 | whenever the user has control, groups can be submitted, loops and polls nested, and settings changed |
| `EngineRuns.CancelPossible` | libeio/etp.c:547-560 | every request can be cancelled until it is destroyed, and so can the members of every group |
| `EngineRuns.GroupLife` | libeio/eio.c:441-491 | in every state of every run the doubly linked list of a group holds exactly what joined it and has not left, once each, with `size` their number; it finishes at most once, only after it was shifted from the result queue, with an empty list, and only after all that ever joined it finished |
| `EngineRuns.FlagMeansDelayed` | libeio/eio.c:441-453 | in every run a group with a member is flagged if and only if it waits for its members, although the flag is never cleared |
| `EngineHistories.CancelledNeverCalled` | libeio/eio.c:77-79 | a request that is cancelled before its finish never runs its callback |
| `EngineHistories.CancelSilences` | libeio/etp.c:547-560 | after a cancellation no callback runs of any request it reaches, at any depth, whose finish had not begun |
| `EngineRuns.WorkConservation` | libeio/etp.c:418-455 | with fixed settings, `max_idle >= wanted` and successful creation: no worker times out, there are never more than `wanted` threads, counted or not, and `started >= min (wanted, nreqs - npending)` outside of a submit or poll |
| `EngineRuns.NeverStuck` | php8/php_eio.c:357-367 | with fixed settings that want a thread, whenever the event loop is blocked with nothing to read, one or two steps of one worker make the descriptor readable |
| `EngineLoops.LoopReturns` | php8/php_eio.c:357-367 | an event loop, nested in callbacks or not, returns only in a state in which no request is counted |
| `EngineLoops.LoopDrains` | php8/php_eio.c:357-367 | when an event loop called outside of callbacks has returned, every request was polled, finished and destroyed exactly once, and called exactly once unless it was cancelled in time |
| `EngineLoops.CalledPollReturns` | libeio/etp.c:490-541 | a poll returns only if no results are left, or by its limits or the result of a callback, right after a finish |
| `EngineCompletion.CanComplete` | php8/php_eio.c:357-367 | with fixed settings that want a thread, every run can go on without the user until the main thread has returned; from an event loop called outside of callbacks, this is with every request polled, finished, destroyed, and called unless cancelled in time |
| `EngineRuns.GuardsHold` | libeio/etp.c:494-526 | what the steps find in frames, workers and queues are always existing requests |
| `Handles.ReferenceKeepsValid` | php8/php_eio.c:125-150 | registering a resource keeps counts, table and hooks in agreement |
| `Handles.DropKeepsValid` | php8/php_eio.c:160-166 | releasing a resource keeps them in agreement and frees a handle with its last reference |
| `Handles.DestroyRunsOriginal` | php8/php_eio.c:105-121 | with the hook installed or not, destroying a live request runs its original callback once and removes its table entry |
| `Handles.DestroyKeepsValid` | php8/php_eio.c:105-121 | destroying a request keeps counts, table and hooks in agreement |
| `Handles.ResetKeepsValid` | php8/php_eio.c:169-185 | a reset keeps them in agreement and gives every live request its own callback back |
| `Handles.RunValid` | php8/php_eio.c:80-186 | in every run `refs` is the number of resources plus 1 if in the table, and a live request has the hook exactly if it is in the table |
| `Handles.FetchIsSafe` | php8/php_eio.c:152-158 | a resource never leads through a freed handle, and only to the live request that its handle was made for |
| `Handles.FetchExactly` | php8/php_eio.c:152-158 | in every run a resource leads to the request it was registered for if and only if that still lives and neither a release of the resource nor a reset or shutdown came between |
| `Handles.DropReleases` | php8/php_eio.c:160-166 | a release clears the resource, takes one reference from its handle, frees that with the last one, and changes nothing else |
| `Handles.AllowedExactly` | php8/php_eio.c:125-166 | no call is refused but those that name no live request, no resource, or come after the shutdown |
| `Handles.NothingAfterShutdown` | php8/php_eio.c:1155-1159 | in every run, after the shutdown nothing is registered, no live request has the hook, and no resource leads anywhere |
| `Handles.StaleStaysStale` | php8/php_eio.c:80-89 | once its request is destroyed a resource leads nowhere, even if a new request reuses the address |
| `Handles.DestroyedOnce` | php8/php_eio.c:105-121 | the original destroy callback of each request runs exactly once, when it is destroyed |
| `Handles.HandleTable.HandleRef` | php8/php_eio.c:125-145 | the code does what the registration does to the table |
| `Handles.HandleTable.RegisterResource` | php8/php_eio.c:147-150 | a new resource holds the handle of the request |
| `Handles.HandleTable.FetchReq` | php8/php_eio.c:152-158 | answers what `Handles.FetchExactly` is about: the request of the handle, or nothing |
| `Handles.HandleTable.ReleaseResource` | php8/php_eio.c:160-166 | releases the reference once |
| `Handles.HandleTable.DestroyHook` | php8/php_eio.c:105-121 | cuts the handle off, then runs the callback it kept |
| `Handles.HandleTable.DestroyRequest` | libeio/eio.c:456-463 | whatever callback is installed, the original one runs and the memory is free |
| `Handles.HandleTable.HandlesReset` | php8/php_eio.c:168-185 | the loop over the table cuts off every handle and restores every callback |
| `Handles.HandleTable.ModuleShutdown` | php8/php_eio.c:1155-1159 | a reset, after which nothing is registered |
| `DecimalText.CanonicalIsDecimal` | libeio/ecb.h:1002-1005 | the canonical text of a number is the only text without leading zeroes that means it |
| `DecimalText.ShownIsExact` | libeio/ecb.h:982-987 | the generator shows the number itself if and only if `u` times the rounding excess of the factor is less than 2 to the number of bits |
| `DecimalText.DigitStep` | libeio/ecb.h:970-978 | the top bits are the next digit, and the rest times 5 holds the remaining digits one bit further right |
| `DecimalText.PutDigit` | libeio/ecb.h:970-978 | the digit is written in any case and kept if it is the last or not a leading zero |
| `DecimalText.Digits` | libeio/ecb.h:982-1000 | the unrolled digits make the canonical or the padded text of the number shown, within the places of all digits |
| `DecimalText.X5Limit` | libeio/ecb.h:1007-1010 | the limit of `x5` is the largest argument that is shown right, and nothing overflows up to it |
| `DecimalText.X10Limit` | libeio/ecb.h:1007-1011 | the same for `x10` |
| `DecimalText.LimitsAreSharp` | libeio/ecb.h:1008-1009 | one above each limit the text of the next number is written |
| `DecimalText.D9Full` | libeio/ecb.h:1031-1031 | `09` is right for all nine-digit numbers |
| `DecimalText.D2Full` | libeio/ecb.h:1014-1014 | `2` is right for all two-digit numbers |
| `DecimalText.WriteU32` | libeio/ecb.h:1039-1052 | every 32-bit number is written as its canonical text |
| `DecimalText.WriteI32` | libeio/ecb.h:1080-1093 | every signed 32-bit number is written as its canonical text, the smallest included |
| `DecimalText.WriteU64` | libeio/ecb.h:1095-1119 | every 64-bit number is written as its canonical text |
| `DecimalText.WriteI64` | libeio/ecb.h:1136-1170 | every signed 64-bit number is written as its canonical text |

## Left out

- PriLists.QueueOfClamps: the code promises the nearest valid priority for every value, but its shift wraps above 123; the lemma says exactly when the promise is kept.
- DentSort.RadixSort: for more than 60 entries needs a nonzero mask, because the code has no defined behaviour without one.
- DentSort.Sort: for more than 60 entries needs a nonzero mask, because the code has no defined behaviour without one.
- EngineRuns.WorkConservation: for fixed settings only, because a timeout or a shrinking pool changes `started` outside of the lock that the counters are read under.
- EngineRuns.NeverStuck: for fixed settings only, for the same reason; it says that a worker can make the step, not that the operating system schedules it.
- EngineCompletion.CanComplete: for fixed settings only, for the same reason; it says that every run can be completed, not that the operating system schedules it so.
- EngineHistories.TakenAsSubmitted: for priorities up to 123, because above that the code's shift wraps.
- EngineHistories.QuitsGoFirst: for priorities up to 123, for the same reason.
- EngineSupply.KeepsManned: thread creation succeeds; a failed creation is a step of the engine but not of these runs.
- Readdir.ArrangeDents: directories on which the sort has no defined behaviour are excluded, exactly as `Readdir.SortUndefinedExactly` says.
- Readdir.Scandir: no allocation fails, and directories on which the sort has no defined behaviour are excluded.
- Handles.HandleTable.HandleRef: addresses are numbers and memory is a map, so that an address can be used again; the pointer itself is not modelled.
- Freeing request objects: the object of a destroyed request stays, and no link of the lists leads to it.
- Group feeders: PHP never sets one, and without one the feeding loop does nothing.
- `eio_execute`, the system calls, the request constructors, and the marshalling of PHP values.
- The lifetime of callback data after `eio_cancel`.
- Limits on the time and number of requests of a poll: a poll may stop after any finish.
- How timeouts race with `started`, and shutting the pool down: the steps exist, but only the accounts of threads and quit requests are proved for them.
- `realpath` with a working-directory handle, and the Windows branch.
- The decimal conversions for machines without 64-bit words, and the variants with 3 to 8 digits.
- `eio__sendfile`, `eio__mtouch`, `eio_page_align` and the rest of `ecb.h`: simpler than what is modelled.
- Reinitialisation at fork, except for the reset of the handles.
