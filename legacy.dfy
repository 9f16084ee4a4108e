/**
 * EnditNearlineStorage, the original single-class engine: its own stage,
 * flush and remove tasks (the same file protocol as the standalone tasks),
 * its own timer-driven future with a fixed five-second period on one
 * single-threaded executor, a configure that checks the layout without a
 * busy check or a purge, and the order in which stage, flush and remove
 * reach the point of polling.
 */
module Legacy {
  import opened Wrappers
  import opened Fs
  import opened Failures
  import opened Locators
  import opened StageTasks
  import opened FlushTasks
  import opened RemoveTasks
  import opened PollingTasks
  import opened Listening
  import opened AbstractStorage
  import opened Polling
  import Text

  /** POLL_PERIOD, in milliseconds. */
  const PollPeriod: int := 5000

  // --------------------------------------------------------- the stage poll

  /**
   * The legacy StageTask.poll: the error file is read and turned into the
   * CacheException inside the try; the finally block deletes the three files,
   * and a failing delete replaces whatever the try threw. Without an error
   * file the poll is the same code as the standalone task's.
   */
  function LegacyStagePoll(t: StageTask, fs: Tree): PollOutcome<set<Checksum>>
  {
    if t.errorFile in fs then
      var tried: Failure :=
        match ReadAllLines(fs, t.errorFile)
        case Err(e) => IO(e)
        case Ok(lines) => ThrowError(lines);
      var (d, _) := DeleteAll(fs, [t.inFile, t.errorFile, t.requestFile]);
      Threw(if d.Err? then IO(d.error) else tried)
    else StageTasks.PollStep(t, fs).0
  }

  /**
   * Throwing inside the try (legacy) and throwing after the finally block
   * (standalone) report the same exception and leave the same tree: the
   * legacy engine and the standalone task poll alike.
   */
  lemma LegacyStagePollAgrees(t: StageTask, fs: Tree)
    ensures LegacyStagePoll(t, fs) == StageTasks.PollStep(t, fs).0
    ensures t.errorFile in fs ==>
              StageTasks.PollStep(t, fs).1 == DeleteAll(fs, [t.inFile, t.errorFile, t.requestFile]).1
  {
  }

  // -------------------------------------------------------------- configure

  /**
   * The legacy configure on a tree and the directories so far: the result
   * and the directories afterwards. The four directories are assigned as
   * soon as the root is found to be a directory, before its subdirectories
   * are checked.
   */
  function ConfigureStep(fs: Tree, properties: map<string, string>, dirs: Option<Layout>): (Result<(), Failure>, Option<Layout>)
  {
    if "directory" !in properties then (Err(IllegalArgument(MissingDirectoryMessage)), dirs)
    else
      var root := PathOf(properties["directory"]);
      if !IsDirectory(fs, root) then (Err(NotADirectory(root)), dirs)
      else
        var l := LayoutOf(root);
        var dirs' := Some(l);
        if !IsDirectory(fs, l.requestDir) then (Err(NotADirectory(l.requestDir)), dirs')
        else if !IsDirectory(fs, l.outDir) then (Err(NotADirectory(l.outDir)), dirs')
        else if !IsDirectory(fs, l.inDir) then (Err(NotADirectory(l.inDir)), dirs')
        else if !IsDirectory(fs, l.trashDir) then (Err(NotADirectory(l.trashDir)), dirs')
        else (Ok(()), dirs')
  }

  /**
   * The legacy checks accept and reject exactly what the current engines'
   * checks do, with the same message; but the directories move to the new
   * root whenever the root itself is a directory, also when a subdirectory
   * check then fails, and a successful configure adopts the checked layout
   * whatever requests are outstanding.
   */
  lemma ConfigureAgreesWithChecks(fs: Tree, properties: map<string, string>, dirs: Option<Layout>)
    ensures var (r, _) := ConfigureStep(fs, properties, dirs);
            && (r.Ok? <==> CheckLayout(fs, properties).Ok?)
            && (r.Err? ==> r.error == CheckLayout(fs, properties).error)
    ensures var (r, dirs') := ConfigureStep(fs, properties, dirs);
            r.Ok? ==> dirs' == Some(CheckLayout(fs, properties).value)
    ensures var (_, dirs') := ConfigureStep(fs, properties, dirs);
            && ("directory" in properties && IsDirectory(fs, PathOf(properties["directory"])) ==>
                  dirs' == Some(LayoutOf(PathOf(properties["directory"]))))
            && (!("directory" in properties && IsDirectory(fs, PathOf(properties["directory"]))) ==> dirs' == dirs)
  {
    CheckLayoutIff(fs, properties);
  }

  /** A rejected legacy configure can still have moved the directories: a root whose subdirectories are missing. */
  lemma RejectedConfigureMovesDirectories()
    ensures var fs := map[["srv"] := Directory];
            var properties := map["directory" := "/srv"];
            var (r, dirs') := ConfigureStep(fs, properties, None);
            r == Err(NotADirectory(["srv", "request"])) && dirs' == Some(LayoutOf(["srv"]))
  {
    var fs := map[["srv"] := Directory];
    var properties := map["directory" := "/srv"];
    assert PathOf("/srv") == ["srv"] by {
      PathOfSrv();
    }
    assert ["srv", "request"] !in fs;
  }

  lemma PathOfSrv()
    ensures PathOf("/srv") == ["srv"]
  {
    Text.SplitWithoutSeparator("srv", '/');
    assert "/srv"[1..] == "srv";
    assert Text.Split("/srv", '/') == [""] + ["srv"];
    assert Text.NonEmpty(["", "srv"]) == Text.NonEmpty(["srv"]);
    assert ["srv"][1..] == [];
  }

  // ----------------------------------------------------- dispatch decisions

  /** Where a request stands when stage, flush or remove has returned. */
  datatype Decision =
    | Refuse(failure: Failure)     // thrown by the call itself
    | Settle(outcome: FutureState) // the returned future is already complete
    | Launch(task: Task)           // the task was started and a timer-driven future polls it

  function Fail(e: Failure): FutureState { Failed(Thrown(e, [])) }

  /**
   * stage: the task needs request/ and in/ (a NullPointerException before
   * configure). Activation and then allocation complete on the caller's
   * thread, but the outer transform hands its continuation to the executor
   * whatever they gave, so a shut-down executor rejects the request before
   * a failed activation or allocation is looked at; then the executor runs
   * the start, a failed start failing the request; otherwise a future polls
   * the task.
   */
  function StageDecision(dirs: Option<Layout>, live: bool, pid: int, request: StageRequest,
                         activation: Result<(), Failure>, allocation: Result<(), Failure>,
                         nowMillis: nat, fs: Tree): (Decision, Tree)
  {
    if dirs.None? then (Refuse(NullPointer), fs)
    else if !live then (Settle(Fail(RejectedExecution)), fs)
    else if activation.Err? then (Settle(Fail(activation.error)), fs)
    else if allocation.Err? then (Settle(Fail(allocation.error)), fs)
    else
      var task := Stage(NewStageTask(request, dirs.value.requestDir, dirs.value.inDir));
      var (s, fs1) := PollingTasks.StartStep(task, pid, nowMillis, fs);
      if s.Err? then (Settle(Fail(s.error)), fs1) else (Launch(task), fs1)
  }

  /**
   * Nothing touches the tree before the start: each earlier obstacle
   * decides the request on its own in that order; a launched stage has
   * written request/<id> with "<pid> <seconds>", and a start fails only on a
   * request path that is a directory.
   */
  lemma StageDecisionOrder(dirs: Option<Layout>, live: bool, pid: int, request: StageRequest,
                           activation: Result<(), Failure>, allocation: Result<(), Failure>,
                           nowMillis: nat, fs: Tree)
    ensures var (d, fs1) := StageDecision(dirs, live, pid, request, activation, allocation, nowMillis, fs);
            && (d.Refuse? <==> dirs.None?)
            && (dirs.Some? && !live ==> d == Settle(Fail(RejectedExecution)))
            && (dirs.Some? && live && activation.Err? ==> d == Settle(Fail(activation.error)))
            && (dirs.Some? && live && activation.Ok? && allocation.Err? ==> d == Settle(Fail(allocation.error)))
            && (d.Settle? ==> IsDone(d.outcome))
            && (fs1 != fs ==> d.Launch?)
    ensures var (d, fs1) := StageDecision(dirs, live, pid, request, activation, allocation, nowMillis, fs);
            d.Launch? ==>
              var t := NewStageTask(request, dirs.value.requestDir, dirs.value.inDir);
              && d.task == Stage(t)
              && activation.Ok? && allocation.Ok? && live
              && fs1 == fs[t.requestFile := Regular(RequestText(pid, nowMillis))]
    ensures dirs.Some? && activation.Ok? && allocation.Ok? && live ==>
              var t := NewStageTask(request, dirs.value.requestDir, dirs.value.inDir);
              StageDecision(dirs, live, pid, request, activation, allocation, nowMillis, fs).0.Launch?
              <==> !IsDirectory(fs, t.requestFile)
  {
    if dirs.Some? {
      var t := NewStageTask(request, dirs.value.requestDir, dirs.value.inDir);
      StartWritesRequest(t, pid, nowMillis, fs);
    }
  }

  /**
   * flush: the task needs out/ (a NullPointerException before configure);
   * the transform hands its continuation to the executor whatever the
   * activation gave, so a shut-down executor rejects the request first; then
   * a failed activation fails it; then the executor runs the start (the
   * link), a failed start failing the request; otherwise a future polls the
   * task.
   */
  function FlushDecision(dirs: Option<Layout>, live: bool, storageType: string, storageName: string,
                         request: FlushRequest, activation: Result<(), Failure>, fs: Tree): (Decision, Tree)
  {
    if dirs.None? then (Refuse(NullPointer), fs)
    else if !live then (Settle(Fail(RejectedExecution)), fs)
    else if activation.Err? then (Settle(Fail(activation.error)), fs)
    else
      var task := Flush(NewFlushTask(request, dirs.value.outDir, storageType, storageName));
      var (s, fs1) := PollingTasks.StartStep(task, 0, 0, fs);
      if s.Err? then (Settle(Fail(s.error)), fs1) else (Launch(task), fs1)
  }

  /**
   * A flush is refused exactly before configure and otherwise decided by
   * the executor, then activation, then the start; a launched flush has
   * out/<name> in the tree and polls the task built from the request.
   */
  lemma FlushDecisionOrder(dirs: Option<Layout>, live: bool, storageType: string, storageName: string,
                           request: FlushRequest, activation: Result<(), Failure>, fs: Tree)
    ensures var (d, fs1) := FlushDecision(dirs, live, storageType, storageName, request, activation, fs);
            && (d.Refuse? <==> dirs.None?)
            && (dirs.Some? && !live ==> d == Settle(Fail(RejectedExecution)))
            && (dirs.Some? && live && activation.Err? ==> d == Settle(Fail(activation.error)))
            && (d.Settle? ==> IsDone(d.outcome))
            && (fs1 != fs ==> d.Launch?)
    ensures var (d, fs1) := FlushDecision(dirs, live, storageType, storageName, request, activation, fs);
            d.Launch? ==>
              var t := NewFlushTask(request, dirs.value.outDir, storageType, storageName);
              && d.task == Flush(t) && activation.Ok? && live
              && t.outFile in fs1
  {
  }

  /**
   * remove: the call is submitted to the executor, which a shut-down one
   * refuses at once; the submitted call takes the id from the locator,
   * then needs trash/ (a NullPointerException before configure) and writes
   * the marker file.
   */
  function RemoveDecision(dirs: Option<Layout>, live: bool, request: RemoveRequest, fs: Tree): (Decision, Tree)
  {
    if !live then (Refuse(RejectedExecution), fs)
    else if dirs.None? then
      match GetPnfsId(request.uri)
      case Err(e) => (Settle(Fail(e)), fs)
      case Ok(_) => (Settle(Fail(NullPointer)), fs)
    else
      var (c, fs1) := CallStep(dirs.value.trashDir, request, fs);
      if c.Err? then (Settle(Fail(c.error)), fs1) else (Settle(Resolved(NoResult)), fs1)
  }

  /**
   * A remove is refused only by a shut-down executor; before configure a
   * locator with an id fails with a NullPointerException and one without
   * fails as getPnfsId does, and the tree is untouched; after configure it
   * succeeds exactly when the marker is written, with no result.
   */
  lemma RemoveDecisionOutcomes(dirs: Option<Layout>, live: bool, request: RemoveRequest, fs: Tree)
    ensures var (d, fs1) := RemoveDecision(dirs, live, request, fs);
            && !d.Launch?
            && (d.Refuse? <==> !live)
            && (d.Refuse? ==> d.failure == RejectedExecution && fs1 == fs)
            && (live && dirs.None? ==>
                  && fs1 == fs && d.Settle?
                  && d.outcome == Fail(if GetPnfsId(request.uri).Ok? then NullPointer else GetPnfsId(request.uri).error))
            && (live && dirs.Some? ==>
                  && d.Settle? && fs1 == CallStep(dirs.value.trashDir, request, fs).1
                  && (d.outcome == Resolved(NoResult) <==> CallStep(dirs.value.trashDir, request, fs).0.Ok?))
            && (d.Settle? ==> IsDone(d.outcome))
  {
  }

  // ------------------------------------------------------------ the engine

  /** What stage, flush and remove hand back: a thrown exception, a complete future, or a polling future. */
  datatype Dispatch = Refused(failure: Failure) | Settled(outcome: FutureState) | Scheduled(future: PollingFuture)

  class LegacyStorage {
    const storageType: string
    const storageName: string
    /** The engine's process id, read once at construction. */
    const pid: int
    const ledger: Ledger<PollingFuture>
    const store: FileStore
    var directories: Option<Layout>
    /** The single-threaded executor still accepts work. */
    var executorLive: bool

    constructor (storageType: string, storageName: string, pid: int, store: FileStore)
      ensures this.storageType == storageType && this.storageName == storageName && this.pid == pid
      ensures this.store == store && fresh(ledger) && ledger.tasks == map[]
      ensures directories == None && executorLive
    {
      this.storageType := storageType;
      this.storageName := storageName;
      this.pid := pid;
      this.store := store;
      ledger := new Ledger<PollingFuture>();
      directories := None;
      executorLive := true;
    }

    /** configure: the layout checks only; no busy check, no purge, the tree untouched. */
    method Configure(properties: map<string, string>) returns (r: Result<(), Failure>)
      modifies this
      ensures (r, directories) == ConfigureStep(store.entries, properties, old(directories))
      ensures executorLive == old(executorLive)
    {
      if "directory" !in properties {
        return Err(IllegalArgument(MissingDirectoryMessage));
      }
      var root := PathOf(properties["directory"]);
      if !IsDirectory(store.entries, root) {
        return Err(NotADirectory(root));
      }
      var l := LayoutOf(root);
      directories := Some(l);
      if !IsDirectory(store.entries, l.requestDir) {
        return Err(NotADirectory(l.requestDir));
      }
      if !IsDirectory(store.entries, l.outDir) {
        return Err(NotADirectory(l.outDir));
      }
      if !IsDirectory(store.entries, l.inDir) {
        return Err(NotADirectory(l.inDir));
      }
      if !IsDirectory(store.entries, l.trashDir) {
        return Err(NotADirectory(l.trashDir));
      }
      r := Ok(());
    }

    /** A decision made concrete: a launch creates the future, which schedules its first poll. */
    method Realize(d: Decision) returns (r: Dispatch)
      ensures d.Refuse? ==> r == Refused(d.failure)
      ensures d.Settle? ==> r == Settled(d.outcome)
      ensures d.Launch? ==> r.Scheduled? && fresh(r.future) && r.future.Valid()
                            && r.future.task == d.task && r.future.store == store
                            && r.future.state == Pending && r.future.scheduled && r.future.delay == PollPeriod
    {
      match d {
        case Refuse(e) => r := Refused(e);
        case Settle(s) => r := Settled(s);
        case Launch(task) =>
          var f := new PollingFuture(task, store, PollPeriod);
          r := Scheduled(f);
      }
    }

    method Stage(request: StageRequest, activation: Result<(), Failure>, allocation: Result<(), Failure>, nowMillis: nat)
      returns (r: Dispatch)
      modifies store
      ensures var (d, fs) := StageDecision(directories, executorLive, pid, request, activation, allocation, nowMillis,
                                           old(store.entries));
              && store.entries == fs
              && (d.Refuse? ==> r == Refused(d.failure))
              && (d.Settle? ==> r == Settled(d.outcome))
              && (d.Launch? ==> r.Scheduled? && fresh(r.future) && r.future.Valid() && r.future.task == d.task
                                && r.future.store == store && r.future.state == Pending && r.future.delay == PollPeriod)
    {
      if directories.None? {
        return Refused(NullPointer);
      }
      var task := PollingTasks.Stage(NewStageTask(request, directories.value.requestDir, directories.value.inDir));
      if !executorLive {
        return Settled(Fail(RejectedExecution));
      }
      if activation.Err? {
        return Settled(Fail(activation.error));
      }
      if allocation.Err? {
        return Settled(Fail(allocation.error));
      }
      var s := PollingTasks.Start(task, pid, nowMillis, store);
      if s.Err? {
        return Settled(Fail(s.error));
      }
      r := Realize(Launch(task));
    }

    method Flush(request: FlushRequest, activation: Result<(), Failure>) returns (r: Dispatch)
      modifies store
      ensures var (d, fs) := FlushDecision(directories, executorLive, storageType, storageName, request, activation,
                                           old(store.entries));
              && store.entries == fs
              && (d.Refuse? ==> r == Refused(d.failure))
              && (d.Settle? ==> r == Settled(d.outcome))
              && (d.Launch? ==> r.Scheduled? && fresh(r.future) && r.future.Valid() && r.future.task == d.task
                                && r.future.store == store && r.future.state == Pending && r.future.delay == PollPeriod)
    {
      if directories.None? {
        return Refused(NullPointer);
      }
      var task := PollingTasks.Flush(NewFlushTask(request, directories.value.outDir, storageType, storageName));
      if !executorLive {
        return Settled(Fail(RejectedExecution));
      }
      if activation.Err? {
        return Settled(Fail(activation.error));
      }
      var s := PollingTasks.Start(task, 0, 0, store);
      if s.Err? {
        return Settled(Fail(s.error));
      }
      r := Realize(Launch(task));
    }

    method Remove(request: RemoveRequest) returns (r: Dispatch)
      modifies store
      ensures var (d, fs) := RemoveDecision(directories, executorLive, request, old(store.entries));
              store.entries == fs && (d.Refuse? ==> r == Refused(d.failure)) && (d.Settle? ==> r == Settled(d.outcome))
    {
      if !executorLive {
        return Refused(RejectedExecution);
      }
      var id := GetPnfsId(request.uri);
      if id.Err? {
        return Settled(Fail(id.error));
      }
      if directories.None? {
        return Settled(Fail(NullPointer));
      }
      var c := Call(directories.value.trashDir, request, store);
      r := if c.Err? then Settled(Fail(c.error)) else Settled(Resolved(NoResult));
    }

    /** The timer of a future fires: one run with the fixed period on the engine's executor. */
    method Tick(f: PollingFuture)
      requires f.Valid() && f.store == store
      modifies f, store
      ensures f.Valid()
      ensures var (s, again, fs) := RunTransition(f.task, old(f.state), executorLive, old(store.entries));
              && f.state == s && store.entries == fs && f.scheduled == again
              && (again ==> f.delay == PollPeriod)
    {
      f.Run(PollPeriod, executorLive);
    }

    /** cancel(uuid) of the request ledger on a future of this engine. */
    method CancelRequest(id: Uuid) returns (cancelled: Option<bool>)
      requires id in ledger.tasks ==> ledger.tasks[id].Valid() && ledger.tasks[id].store == store
      modifies store, if id in ledger.tasks then {ledger.tasks[id]} else {}
      ensures id !in ledger.tasks <==> cancelled.None?
      ensures id !in ledger.tasks ==> store.entries == old(store.entries)
      ensures id in ledger.tasks ==>
                var f := ledger.tasks[id];
                && f.Valid()
                && (cancelled.value, f.state, store.entries) == CancelTransition(f.task, old(f.state), old(store.entries))
    {
      var target := ledger.Cancel(id);
      if target.Some? {
        var c := target.value.Cancel();
        cancelled := Some(c);
      } else {
        cancelled := None;
      }
    }

    /** shutdown: the executor stops accepting work. */
    method Shutdown()
      modifies this
      ensures !executorLive && directories == old(directories)
    {
      executorLive := false;
    }
  }
}
