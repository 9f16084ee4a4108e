# ENDIT nearline storage: a verified model

This project models the engine of the dCache ENDIT nearline-storage
provider. A dCache pool uses the engine to hand files to the ENDIT tape
daemon and to get them back. The engine and the daemon talk only through
files in four directories below one root: `request/`, `in/`, `out/` and
`trash/`.

- A **flush** hard-links the pool file as `out/<name>`. The daemon deletes the link once the file is on tape, and the flush then reports the tape locator `type://name?bfid=<id>`.
- A **stage** writes `request/<id>`. The daemon answers with `in/<id>` (the data) or `request/<id>.err` (an error report). The engine moves a complete in-file to its destination, or turns the error file into a failure.
- A **remove** writes `trash/<id>`, which holds the file's locator.

The engine exists in three variants:

- a watching engine, which polls a request when the file system reports a change to one of its files;
- a polling engine, which polls each request on a timer;
- the original single-class engine.

All three share the request ledger and the completion routing. The two
current variants also share `configure`.

The model is layered as the source is:

| module | file | models |
|---|---|---|
| `Wrappers` | wrappers.dfy | `Option`, `Result` |
| `Text` | text.dfy | `Integer.parseInt`, `Integer.toString`, Guava's `Splitter`/`Joiner`, `readAllLines`, path splitting |
| `Fs` | filesystem.dfy | the directory tree as a map from path to entry; each `Files.*` call as a function from the old tree, and as a method of `FileStore` (the shared mutable tree) proved to agree with it |
| `Failures` | failures.dfy | the exceptions; the error-file protocol of `EnditException.create` |
| `Locators` | locators.dfy | the flush locator (`java.net.URI` as a record with a text rendering) and `getPnfsId` |
| `StageTasks`, `FlushTasks`, `RemoveTasks` | stage.dfy, flush.dfy, remove.dfy | the three tasks: each step as a tree function plus a `FileStore` method |
| `PollingTasks` | polling_tasks.dfy | the `PollingTask` interface, as the closed set of its two implementations; the future state machine both current variants share |
| `Listening` | listening.dfy | the UUID ledger, the batch methods, the completion routing |
| `AbstractStorage` | abstract_storage.dfy | the shared engine state and `configure` (busy check, layout checks, purge of `request/`) |
| `Watching` | watching.dfy | the path registry, the event-driven future and the watcher |
| `Polling` | polling.dfy | the timer-driven future (the timer as a "scheduled" flag) and the polling engine's `configure` |
| `Legacy` | legacy.dfy | the single-class engine: its `configure`, its dispatch order and its future |

A `synchronized` method is modelled as one atomic step. Each file operation
is a function `Step(old tree) -> (outcome, new tree)`. The method that
performs the operation on the shared `FileStore` states
`(r, store.entries) == Step(old(store.entries))`, so the lemmas about the
functions describe those methods too.

## Model

| member | source | states |
|---|---|---|
| Failures.Create | src/main/java/org/ndgf/endit/EnditException.java:31-48 | create is total and always yields an EnditException |
| Failures.CreateWithoutLines | src/main/java/org/ndgf/endit/EnditException.java:35-37 | no lines give code 1 and the fixed "without providing a reason" message |
| Failures.CreateRoundTrip | src/main/java/org/ndgf/endit/EnditException.java:39-41 | a first line written from any 32-bit code, followed by message lines, is read back as that code and those lines joined by "\n" |
| Failures.CreateCodeOnly | src/main/java/org/ndgf/endit/EnditException.java:40-41 | a single numeric line gives that code and an empty message |
| Failures.CreateNotNumeric | src/main/java/org/ndgf/endit/EnditException.java:42-44 | a first line that is not an int gives code 1 and all lines joined as the message |
| Failures.CreateExample | src/main/java/org/ndgf/endit/EnditException.java:39-41 | ["42", "reason text"] gives (42, "reason text") |
| Failures.NewEnditException | src/main/java/org/ndgf/endit/EnditException.java:50-54 | getReturnCode returns the code passed to the constructor; the message is kept |
| Text.ParseInt | src/main/java/org/ndgf/endit/EnditException.java:40 | a parsed value lies in the 32-bit range and the text starts with a digit or a sign |
| Text.ParseIntToString | src/main/java/org/ndgf/endit/EnditException.java:40 | parseInt reads back every 32-bit value written in decimal |
| Text.ParseIntRejectsNonDigit | src/main/java/org/ndgf/endit/EnditException.java:42-44 | any character that is neither a digit nor a leading sign makes parseInt fail |
| Text.ParseIntRejectsOverflow | src/main/java/org/ndgf/endit/EnditException.java:42-44 | digits whose value exceeds 2^31-1 make parseInt fail |
| Text.ReadLinesOfTerminatedLines | src/main/java/org/ndgf/endit/StageTask.java:84 | a file of '\n'-terminated lines is read back as those lines |
| Text.ReadLinesOfUnterminatedLines | src/main/java/org/ndgf/endit/StageTask.java:84 | a file whose last line is not terminated is read back as its lines |
| Text.SplitJoin | src/main/java/org/ndgf/endit/RemoveTask.java:59 | splitting the join of separator-free pieces gives back the pieces |
| Text.JoinSplit | src/main/java/org/ndgf/endit/RemoveTask.java:59 | joining the pieces of a split gives back the string |
| Fs.DeleteAll | src/main/java/org/ndgf/endit/StageTask.java:86-88 | a sequence of deleteIfExists that succeeds removes exactly the named paths |
| Fs.DeleteAllOnlyNamed | src/main/java/org/ndgf/endit/StageTask.java:86-88 | a failed sequence of deletes removed only named paths |
| StageTasks.NewStageTask | src/main/java/org/ndgf/endit/StageTask.java:53-62 | the task keeps the destination file and the size of the request |
| StageTasks.StagePaths | src/main/java/org/ndgf/endit/StageTask.java:57-68 | the paths are in/<id>, request/<id>.err and request/<id>, pairwise distinct; the watched files are exactly [errorFile, inFile] |
| StageTasks.StartWritesRequest | src/main/java/org/ndgf/endit/StageTask.java:71-75 | start succeeds unless request/<id> is a directory; it then creates or overwrites that file with "<pid> <seconds>" and changes nothing else; a failed start changes nothing |
| StageTasks.PollErrorCleansUp | src/main/java/org/ndgf/endit/StageTask.java:80-91 | an error file makes the poll fail, even beside a complete in-file; the three files are gone afterwards even when the read failed; a readable error file fails with the CacheException parsed from its lines |
| StageTasks.PollDelivers | src/main/java/org/ndgf/endit/StageTask.java:92-96 | with no error file, an in-file of exactly the expected size is moved to the destination, the request file is deleted and the result is the empty set |
| StageTasks.PollPending | src/main/java/org/ndgf/endit/StageTask.java:92-97 | with no error file and no complete in-file, there is no result and the tree is unchanged |
| StageTasks.PollNeverEndit | src/main/java/org/ndgf/endit/StageTask.java:116 | the standalone stage never fails with an EnditException |
| StageTasks.ThrowError | src/main/java/org/ndgf/endit/StageTask.java:100-117 | throwError always yields a CacheException |
| StageTasks.ThrowErrorMatchesCreate | src/main/java/org/ndgf/endit/StageTask.java:100-117 | throwError splits the lines exactly as create does; only the fallback code differs (DEFAULT_ERROR_CODE 666 against 1) |
| StageTasks.ThrowErrorExample | src/main/java/org/ndgf/endit/StageTask.java:108-110 | ["42", "reason text"] gives CacheException(42, "reason text") |
| StageTasks.AbortIff | src/main/java/org/ndgf/endit/StageTask.java:119-128 | abort answers true exactly when the request file existed; without one nothing changes; with one, all three files are gone |
| StageTasks.AbortTwice | src/main/java/org/ndgf/endit/StageTask.java:119-128 | a second abort after a successful one answers false and changes nothing |
| FlushTasks.NewFlushTask | src/main/java/org/ndgf/endit/FlushTask.java:45-52 | the task keeps the pool file, the id, the storage type and the storage name |
| FlushTasks.FlushPaths | src/main/java/org/ndgf/endit/FlushTask.java:50-57 | the out-file is out/<name of the pool file> and it is the only watched path |
| FlushTasks.StartLinks | src/main/java/org/ndgf/endit/FlushTask.java:59-67 | start links the out-file to the pool file; an existing out-file is tolerated and left unchanged; a missing pool file fails and changes nothing |
| FlushTasks.PollLocator | src/main/java/org/ndgf/endit/FlushTask.java:69-76 | while the out-file exists there is no result; once it is gone the result is the single locator type://name?bfid=id, or a URISyntaxException for an invalid scheme |
| FlushTasks.PollNeverEndit | src/main/java/org/ndgf/endit/FlushTask.java:69-76 | a flush poll never fails with an EnditException |
| FlushTasks.AbortIff | src/main/java/org/ndgf/endit/FlushTask.java:78-82 | abort answers true exactly when the out-file existed; the out-file is gone afterwards; a repeated abort answers false |
| Locators.FlushLocator | src/main/java/org/ndgf/endit/FlushTask.java:73 | for a type with none of : / ? #, the locator is built exactly when the type is a valid scheme; it then has scheme type, authority name, no path and query bfid=id |
| Locators.FlushLocatorText | src/main/java/org/ndgf/endit/FlushTask.java:73 | the locator's text is type://name?bfid=id |
| Locators.GetPnfsId | src/main/java/org/ndgf/endit/RemoveTask.java:55-62 | a locator without a query is rejected with "URI lacks query part" |
| Locators.GetPnfsIdFindsBfid | src/main/java/org/ndgf/endit/RemoveTask.java:59 | for a query of distinct key=value pairs, the id is the value paired with bfid |
| Locators.GetPnfsIdWithoutBfid | src/main/java/org/ndgf/endit/RemoveTask.java:59-61 | a well-formed query without bfid is rejected with "Query part lacks bfid parameter" |
| Locators.FlushLocatorRoundTrip | src/main/java/org/ndgf/endit/RemoveTask.java:55-62 | getPnfsId of a flush's locator gives back the flushed id, when the id has no '&' or '=' |
| RemoveTasks.CallWritesMarker | src/main/java/org/ndgf/endit/RemoveTask.java:43-53 | a locator without an id is rejected and nothing is written; otherwise trash/<id> holds exactly the locator's text and nothing else changes |
| RemoveTasks.RemoveOfFlushedLocator | src/main/java/org/ndgf/endit/RemoveTask.java:43-53 | removing a flushed file writes trash/<id> holding type://name?bfid=id |
| PollingTasks.PendingPollIsReadOnly | src/main/java/org/ndgf/endit/PollingTask.java:37-42 | a poll without a result changes nothing |
| PollingTasks.NeverEndit | src/main/java/org/ndgf/endit/StageTask.java:116 | neither task fails with an EnditException, whether polled or aborted |
| PollingTasks.DoneIsFinal | src/main/java/org/ndgf/endit/WatchingEnditNearlineStorage.java:184-207 | once done, poll and cancel change neither the future nor the tree, and cancel answers false |
| PollingTasks.PollOutcomes | src/main/java/org/ndgf/endit/WatchingEnditNearlineStorage.java:181-200 | a result resolves the future; no result leaves it pending with the tree unchanged; an exception fails it with that exception, any abort failure suppressed into it |
| PollingTasks.CancelOutcomes | src/main/java/org/ndgf/endit/WatchingEnditNearlineStorage.java:202-218 | cancel answers true exactly when the future leaves the pending state; a refused abort leaves it pending, a successful one cancels it, a raising one fails it |
| PollingTasks.FutureNeverEndit | src/main/java/org/ndgf/endit/StageTask.java:116 | a stage or flush future never fails with an EnditException as cause |
| PollingTasks.PollFuture | src/main/java/org/ndgf/endit/WatchingEnditNearlineStorage.java:181-200 | one poll of a future on the store is the poll transition |
| PollingTasks.CancelFuture | src/main/java/org/ndgf/endit/WatchingEnditNearlineStorage.java:202-218 | one cancel of a future on the store is the cancel transition |
| Listening.Route | src/main/java/org/ndgf/endit/ListeningNearlineStorage.java:97-106 | the hook is for the completed request |
| Listening.RouteExactlyOne | src/main/java/org/ndgf/endit/ListeningNearlineStorage.java:97-106 | exactly one hook per completion: a result calls completed(result); an EnditException cause calls failed(rc, message); anything else, cancellation included, calls failed(e) |
| Listening.StageErrorTakesGenericBranch | src/main/java/org/ndgf/endit/ListeningNearlineStorage.java:100-105 | a daemon error on a stage completes the future and reaches the pool through failed(e) |
| Listening.TaskFuturesNeverReportCodes | src/main/java/org/ndgf/endit/ListeningNearlineStorage.java:100-102 | no outcome of a stage or flush future reaches failed(rc, message) |
| Listening.PutAllEntries | src/main/java/org/ndgf/endit/ListeningNearlineStorage.java:54-75 | a batch adds one entry per request: the ids are the old ones plus the batch's; each id holds the future it was last put with; other ids keep theirs |
| Listening.Ledger.HasTasks | src/main/java/org/ndgf/endit/ListeningNearlineStorage.java:77-80 | hasTasks holds exactly when some id is in the ledger |
| Listening.Ledger.Add | src/main/java/org/ndgf/endit/ListeningNearlineStorage.java:88-90 | the future is stored under the request's id |
| Listening.Ledger.Complete | src/main/java/org/ndgf/endit/ListeningNearlineStorage.java:96-106 | the entry is removed, and then the routed hook is recorded |
| Listening.Ledger.Cancel | src/main/java/org/ndgf/endit/ListeningNearlineStorage.java:45-51 | the future to cancel is the one stored under the id; an unknown id gives none |
| Listening.Ledger.AddAll | src/main/java/org/ndgf/endit/ListeningNearlineStorage.java:54-75 | the batch methods add, in iteration order, the future of each request up to the first dispatch that throws; that exception is returned and no later request is added; with no refusal the ledger is PutAll of the whole batch |
| Listening.Dispatched | src/main/java/org/ndgf/endit/ListeningNearlineStorage.java:56-58 | the number of requests dispatched is the length of the prefix whose dispatches all returned a future; the next one, if any, threw |
| Listening.BatchStopsAtRefusal | src/main/java/org/ndgf/endit/ListeningNearlineStorage.java:54-75 | after a batch that a dispatch ends, the ledger holds the old ids plus exactly the ids before the refusal, each with its latest future |
| AbstractStorage.CheckLayoutIff | src/main/java/org/ndgf/endit/AbstractEnditNearlineStorage.java:53-64 | a missing directory property is rejected; the checks pass exactly when the root and its request, out, in and trash entries are all directories, and yield the layout below the root; a rejection names a path that is not a directory |
| AbstractStorage.LayoutDistinct | src/main/java/org/ndgf/endit/AbstractEnditNearlineStorage.java:58-61 | the four directories are distinct children of the root |
| AbstractStorage.EnditStorage.Purge | src/main/java/org/ndgf/endit/AbstractEnditNearlineStorage.java:66-72 | the purge succeeds exactly when no entry of the directory is a non-empty directory; it then removes every entry of the directory; in all cases it removes only entries of the directory |
| AbstractStorage.EnditStorage.Configure | src/main/java/org/ndgf/endit/AbstractEnditNearlineStorage.java:48-78 | while requests are outstanding it fails with the busy message and changes nothing; a failed check changes nothing; success means a valid layout and a purged request directory, and only then are the directory fields assigned; a failed purge has removed only entries of request/ and leaves the directories as they were |
| Watching.PutAllIfAbsentEntries | src/main/java/org/ndgf/endit/WatchingEnditNearlineStorage.java:165-172 | registration never overwrites: taken paths keep their futures and exactly the new paths go to the future; a clash is reported exactly when some path was taken, and it is the first such path |
| Watching.RemoveAllOwned | src/main/java/org/ndgf/endit/WatchingEnditNearlineStorage.java:174-179 | unregistering removes only the entries that map to this future, and keeps every other entry |
| Watching.RegisterThenUnregister | src/main/java/org/ndgf/endit/WatchingEnditNearlineStorage.java:165-179 | unregistering undoes registering for a future that owned nothing before |
| Watching.AtMostOneWatcher | src/main/java/org/ndgf/endit/WatchingEnditNearlineStorage.java:78-83 | at most one watcher runs, and it is the latest one |
| Watching.WatchingStorage.Schedule | src/main/java/org/ndgf/endit/WatchingEnditNearlineStorage.java:159-172 | the new future claims its free paths without overwriting; it fails with "Duplicate nearline requests on <path>" for the first taken path; a future that stays pending holds every file it watches |
| Watching.WatchingStorage.Unregister | src/main/java/org/ndgf/endit/WatchingEnditNearlineStorage.java:174-179 | the registry loses exactly this future's entries on its paths |
| Watching.WatchingStorage.Poll | src/main/java/org/ndgf/endit/WatchingEnditNearlineStorage.java:181-200 | the poll transition; a future that completes is unregistered, a pending one stays registered |
| Watching.WatchingStorage.Cancel | src/main/java/org/ndgf/endit/WatchingEnditNearlineStorage.java:202-218 | the cancel transition; a future whose cancel answers true is unregistered, one whose abort was refused stays |
| Watching.VisitFacts | src/main/java/org/ndgf/endit/WatchingEnditNearlineStorage.java:181-218 | one poll or cancel of the future registered at a path: the registry only shrinks and loses entries of that future only; no other future changes; a done future keeps its paths; a future left registered keeps its state |
| Watching.PassShape | src/main/java/org/ndgf/endit/WatchingEnditNearlineStorage.java:139-144 | a pass keeps every registered future on a path it watches, and the registry only shrinks |
| Watching.PassLog | src/main/java/org/ndgf/endit/WatchingEnditNearlineStorage.java:139-144 | a path leaves the registry only with a future the pass reached; every visited path that was registered reaches its future |
| Watching.PassReachesOnly | src/main/java/org/ndgf/endit/WatchingEnditNearlineStorage.java:139-144 | only registered futures are reached, and a future the pass did not reach is unchanged |
| Watching.PassKeeps | src/main/java/org/ndgf/endit/WatchingEnditNearlineStorage.java:124-144 | a done future keeps its paths and its state through a pass; a future still registered afterwards keeps the state it had |
| Watching.PassReachesEvery | src/main/java/org/ndgf/endit/WatchingEnditNearlineStorage.java:139-144 | a pass over an iteration of the registry reaches exactly the registered futures |
| Watching.CancelAllLeaves | src/main/java/org/ndgf/endit/WatchingEnditNearlineStorage.java:124-127 | the cancel-all offers cancel(true) to every registered future; a future still registered afterwards has the state it had before, so its abort was refused or it had failed its registration |
| Watching.ClashedFutureKeepsPaths | src/main/java/org/ndgf/endit/WatchingEnditNearlineStorage.java:165-172 | a future that failed its registration is never unregistered: every path it claimed stays registered to it through any pass |
| Watching.EntryEventPollsOwner | src/main/java/org/ndgf/endit/WatchingEnditNearlineStorage.java:113-114 | an entry event on any file a pending future watches polls that future |
| Watching.Enumerate | src/main/java/org/ndgf/endit/WatchingEnditNearlineStorage.java:141 | the iteration visits each registered path exactly once |
| Watching.WatchingStorage.ValidBoard | src/main/java/org/ndgf/endit/WatchingEnditNearlineStorage.java:165-179 | the engine's invariant on its board: every registered future has a state, sits only on paths it watches, and while pending holds every file it watches |
| Watching.WatchingStorage.VisitPath | src/main/java/org/ndgf/endit/WatchingEnditNearlineStorage.java:124-137 | poll(path), or one cancel(true) of the cancel-all, is exactly one visit of the pass function at that path: the future registered there takes the poll or cancel transition and gives its paths back when it completes; an unregistered path changes nothing |
| Watching.WatchingStorage.VisitAll | src/main/java/org/ndgf/endit/WatchingEnditNearlineStorage.java:124-144 | pollAll, or the cancel-all, is exactly the pass of the pass function over an iteration order that lists every registered path once |
| Watching.WatchingStorage.HandleEvent | src/main/java/org/ndgf/endit/WatchingEnditNearlineStorage.java:109-116 | an overflow is a pollAll over an iteration of the current registry; any other event is the visit at dir/name |
| Watching.WatchingStorage.HandleKey | src/main/java/org/ndgf/endit/WatchingEnditNearlineStorage.java:107-119 | the events of a key in order, each overflow iterating over the registry as that event finds it |
| Watching.WatchingStorage.HandleKeys | src/main/java/org/ndgf/endit/WatchingEnditNearlineStorage.java:106-120 | the loop of the watcher: the keys in order, each as HandleKey |
| Watching.WatchingStorage.RunWatcher | src/main/java/org/ndgf/endit/WatchingEnditNearlineStorage.java:97-129 | exactly WatchRun: with the directories set and registered, an initial pollAll and then each key's events; in every case the cancel-all over the registry left at exit |
| Watching.WatchingStorage.Start | src/main/java/org/ndgf/endit/WatchingEnditNearlineStorage.java:78-83 | a watcher is launched only when none was, so at most one runs |
| Watching.WatchingStorage.CancelRequest | src/main/java/org/ndgf/endit/ListeningNearlineStorage.java:45-51 | cancel(true) on the future stored under the id is its cancel transition, and the registry loses its entries exactly when the cancel answers true; an unknown id changes nothing |
| Watching.WatchingStorage.Shutdown | src/main/java/org/ndgf/endit/WatchingEnditNearlineStorage.java:85-92 | the submitted watcher is cancelled and the executor stops, so no watcher runs; the registry is unchanged |
| Watching.WatchingStorage.Configure | src/main/java/org/ndgf/endit/WatchingEnditNearlineStorage.java:56-64 | the shared configure, passing its busy, check and purge errors through unchanged, with its effect on the tree: nothing changes when busy or when a check fails, and only entries of request/ are removed otherwise; after success a running watcher is replaced by a new one |
| Polling.GetOrDefault | src/main/java/org/ndgf/endit/PollingEnditNearlineStorage.java:45-46 | the property's value if present, otherwise the default |
| Polling.SettingsDefaults | src/main/java/org/ndgf/endit/PollingEnditNearlineStorage.java:45-46 | without the properties, threads is 1 and period is 5000 |
| Polling.SettingsParsed | src/main/java/org/ndgf/endit/PollingEnditNearlineStorage.java:45-46 | any 32-bit threads and period written in decimal are read back; a non-numeric threads value fails naming its text |
| Polling.RunIsPoll | src/main/java/org/ndgf/endit/PollingEnditNearlineStorage.java:96-116 | with a live executor a run is the shared poll transition, and it reschedules exactly when the future stays pending; a run on a done future does nothing and does not reschedule |
| Polling.RunKeepsTimer | src/main/java/org/ndgf/endit/PollingEnditNearlineStorage.java:101-115 | a run reschedules exactly when the future stays pending; with a shut-down executor a pending future fails |
| Polling.PollingFuture.constructor | src/main/java/org/ndgf/endit/PollingEnditNearlineStorage.java:90-94 | a new future is pending with exactly one poll scheduled after the period |
| Polling.PollingFuture.Run | src/main/java/org/ndgf/endit/PollingEnditNearlineStorage.java:96-116 | the run transition; a reschedule adds exactly one scheduled poll with the current period; a future stays pending exactly while a poll is scheduled |
| Polling.PollingFuture.Cancel | src/main/java/org/ndgf/endit/PollingEnditNearlineStorage.java:118-134 | the cancel transition; the timer is cancelled exactly when cancel answers true |
| Polling.PollingStorage.Configure | src/main/java/org/ndgf/endit/PollingEnditNearlineStorage.java:42-57 | threads and period are parsed before anything else changes; then the shared configure, passing its busy, check and purge errors through unchanged, with its effect on the tree: nothing changes when busy or when a check fails, and only entries of request/ are removed otherwise; then the period is adopted and the old executor shut down before a new one is created |
| Polling.PollingStorage.Schedule | src/main/java/org/ndgf/endit/PollingEnditNearlineStorage.java:65-69 | a new future with the current period; a missing executor fails with NullPointerException, a shut-down one rejects |
| Polling.PollingStorage.Tick | src/main/java/org/ndgf/endit/PollingEnditNearlineStorage.java:96-116 | one run against the current executor |
| Polling.PollingStorage.CancelRequest | src/main/java/org/ndgf/endit/ListeningNearlineStorage.java:45-51 | cancel(true) on the future stored under the id is its cancel transition; an unknown id changes nothing |
| Polling.PollingStorage.Shutdown | src/main/java/org/ndgf/endit/PollingEnditNearlineStorage.java:71-75 | the executor stops accepting work; a missing one fails with NullPointerException |
| Legacy.LegacyStagePollAgrees | src/main/java/org/ndgf/endit/EnditNearlineStorage.java:234-252 | throwing inside the try (legacy) and throwing after the finally block (standalone) give the same failure and the same tree; the three files are deleted in the finally block either way |
| Legacy.ConfigureAgreesWithChecks | src/main/java/org/ndgf/endit/EnditNearlineStorage.java:119-133 | the legacy checks accept and reject what the current checks do, with the same messages; with no busy check and no purge, the directories move to the new root as soon as the root is a directory, even when a later check fails |
| Legacy.RejectedConfigureMovesDirectories | src/main/java/org/ndgf/endit/EnditNearlineStorage.java:124-129 | a root without subdirectories is rejected and yet the directories move to it |
| Legacy.StageDecisionOrder | src/main/java/org/ndgf/endit/EnditNearlineStorage.java:94-116 | before configure the call throws; then a shut-down executor, activation and allocation decide in that order and leave the tree untouched; a launched stage has written its request file |
| Legacy.FlushDecisionOrder | src/main/java/org/ndgf/endit/EnditNearlineStorage.java:78-91 | before configure the call throws; then a shut-down executor and then activation decide in that order; a launched flush has its out-file in the tree |
| Legacy.RemoveDecisionOutcomes | src/main/java/org/ndgf/endit/EnditNearlineStorage.java:295-304 | a remove is never polled; only a shut-down executor refuses it; before configure it fails; after configure it succeeds exactly when the marker is written |
| Legacy.LegacyStorage.Configure | src/main/java/org/ndgf/endit/EnditNearlineStorage.java:119-133 | the result and the directories are those of the legacy configure; the tree is untouched |
| Legacy.LegacyStorage.Stage | src/main/java/org/ndgf/endit/EnditNearlineStorage.java:94-116 | the stage decision, with a fresh future polling every 5000 ms on a launch |
| Legacy.LegacyStorage.Flush | src/main/java/org/ndgf/endit/EnditNearlineStorage.java:78-91 | the flush decision, with a fresh future polling every 5000 ms on a launch |
| Legacy.LegacyStorage.Remove | src/main/java/org/ndgf/endit/EnditNearlineStorage.java:72-75 | the remove decision, performed on the store |
| Legacy.LegacyStorage.Tick | src/main/java/org/ndgf/endit/EnditNearlineStorage.java:340-359 | one run of the shared timer-driven future, with the fixed 5000 ms period |
| Legacy.LegacyStorage.Shutdown | src/main/java/org/ndgf/endit/EnditNearlineStorage.java:135-139 | the executor stops accepting work; the directories are unchanged |
| Legacy.LegacyStorage.CancelRequest | src/main/java/org/ndgf/endit/EnditNearlineStorage.java:361-377 | the cancel transition of the future stored under the id; an unknown id is a no-op |

## Left out

- Concurrency is not modelled. Threads, the watch service's blocking `take`, the executors, `Thread.sleep(ERROR_GRACE_PERIOD)` and interrupts are all left out. Each `synchronized` body is one atomic step, and the watcher's events arrive as a sequence of keys.
- `getpid()` and `System.currentTimeMillis()` are parameters.
- The file system is a map from paths to entries. Permissions, inode sharing of hard links and partial writes are not modelled, and neither are file attributes other than the contents.
- A file's size in bytes is taken as the number of characters of its contents. Character encodings are not modelled.
- A path is a sequence of name components, and `resolve` appends one component. Relative paths are rendered as absolute ones in messages.
- Parent directories are not checked when a file is written or linked.
- `readAllLines` splits on `'\n'` only.
- `Integer.parseInt` accepts ASCII digits only.
- Guava's `Splitter` is modelled for `&`-separated `key=value` pairs only. URI quoting and encoding are not modelled: a locator is a record with a text rendering.
- `PnfsId.toString()` and `PnfsId.getId()` are taken to be the same text.
- The dCache request objects are inputs. `activate` and `allocate` are given as outcomes. `getFileAttributes` is given as the request's id and size.
- `PollingTask.java` has no logic. It becomes the closed datatype `PollingTasks.Task` with the two implementations.
- The stage, flush and remove of the two current variants, which call `schedule` and `executor()`, are not modelled. Only `schedule`, `configure`, `start`, `shutdown` and the ledger's cancel are modelled for them.
- Listening.Ledger.AddAll: each request's dispatch (`stage`, `flush` or `remove` of the variant) is not called from the batch. Its outcome is an input: the future it returned, or the exception it threw. The dispatch's own effects on the engine are not part of `AddAll`, and an outcome after the first refusal is ignored, standing for a request that is never dispatched.
- Listening.Ledger.Complete: the listener that a future runs once it is done is modelled, but no member calls it. A future's completion is not tied to the ledger: whoever drives the model calls `Complete` with the future's outcome. In Java the listener runs on the calling thread, so a future that is already done when it is added is removed and reported inside the batch loop. Examples are a watching future whose registration clashed, and a legacy dispatch that settled at once. In the model such a future stays in the ledger until `Complete` is called.
- Locators.FlushLocator: exact only for storage types that contain none of ':', '/', '?' and '#'. For other types `java.net.URI` parses the text differently. If '/', '?' or '#' comes before any ':', it parses a relative URI. If a valid scheme comes before a ':', it parses an opaque or shorter-scheme URI. The model rejects both with `URISyntaxException`.
- Watching.WatchingStorage.VisitAll: `ConcurrentHashMap` iteration is weakly consistent, and its order is left open. The model iterates over a snapshot of the registered paths in an order that it returns. Registrations that run concurrently with a pass are not modelled. A future registered on two paths is visited once per path, as `values()` yields it once per entry.
- Watching.WatchingStorage.Configure: the cancel-all of the watcher that reconfiguration interrupts is not run inside `Configure`. The model runs it through `RunWatcher`.
- Polling.PollingStorage.Configure: Java's `IllegalArgumentException` for a negative pool size carries no message, and the model uses the empty message. With a negative size the old executor stays shut down, as it does in the source.
- Polling.PollingFuture.Run: timers the old executor has already scheduled keep firing after a reconfiguration. The model passes only the engine's current executor to each run.
- Legacy.LegacyStorage.Stage: the legacy nested `StageTask`, `FlushTask`, `RemoveTask` and `throwError` have the same bodies as the standalone classes, so they reuse those members. The one structural difference, the legacy error branch's try/finally, is `Legacy.LegacyStagePoll`, proved equal to the standalone poll.
- Legacy.LegacyStorage.CancelRequest: the legacy ledger always holds the output of `Futures.transform`, never the future that polls the task. Cancelling that output completes the request as cancelled even when the task's abort is refused. The model's ledger holds the polling future, so only its cancel transition is modelled.
- `Futures.transform` chaining is modelled through its outcome. The continuation goes to the executor whether or not the input failed, so a shut-down executor fails the output with `RejectedExecutionException` first. Otherwise a failed input fails the output with the same exception. Guava versions that do not propagate the rejection would leave the output incomplete instead, which the model does not follow.
- The provider factories have no logic and are not modelled.
