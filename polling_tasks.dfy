/**
 * The PollingTask interface as the closed set of its two implementations, and
 * the state machine of a future over such a task that both engine variants
 * share: a poll either leaves the future pending, resolves it, or fails it
 * after attempting an abort; a cancel aborts the task first.
 */
module PollingTasks {
  import opened Wrappers
  import opened Fs
  import opened Failures
  import opened Locators
  import StageTasks
  import FlushTasks

  datatype Task = Stage(stage: StageTasks.StageTask) | Flush(flush: FlushTasks.FlushTask)

  /** The value a finished request hands back to the pool. */
  datatype TaskResult =
    | Checksums(checksums: set<StageTasks.Checksum>)
    | Locations(locations: set<Uri>)
    | NoResult

  function FilesToWatch(task: Task): seq<Path>
  {
    match task
    case Stage(t) => StageTasks.FilesToWatch(t)
    case Flush(t) => FlushTasks.FilesToWatch(t)
  }

  /** start; `pid` and `nowMillis` stand for getpid() and System.currentTimeMillis(). */
  function StartStep(task: Task, pid: int, nowMillis: nat, fs: Tree): (Result<(), Failure>, Tree)
  {
    match task
    case Stage(t) => StageTasks.StartStep(t, pid, nowMillis, fs)
    case Flush(t) => FlushTasks.StartStep(t, fs)
  }

  function PollStep(task: Task, fs: Tree): (PollOutcome<TaskResult>, Tree)
  {
    match task
    case Stage(t) =>
      var (o, fs1) := StageTasks.PollStep(t, fs);
      (match o
       case NotYet => NotYet
       case Done(v) => Done(Checksums(v))
       case Threw(e) => Threw(e), fs1)
    case Flush(t) =>
      var o := FlushTasks.Poll(t, fs);
      (match o
       case NotYet => NotYet
       case Done(v) => Done(Locations(v))
       case Threw(e) => Threw(e), fs)
  }

  function AbortStep(task: Task, fs: Tree): (Result<bool, Failure>, Tree)
  {
    match task
    case Stage(t) => StageTasks.AbortStep(t, fs)
    case Flush(t) => FlushTasks.AbortStep(t, fs)
  }

  /** A poll without a result changes nothing. */
  lemma PendingPollIsReadOnly(task: Task, fs: Tree)
    requires PollStep(task, fs).0.NotYet?
    ensures PollStep(task, fs).1 == fs
  {
  }

  /** Neither task ever fails with an EnditException, whether polled or aborted. */
  lemma NeverEndit(task: Task, fs: Tree)
    ensures PollStep(task, fs).0.Threw? ==> !PollStep(task, fs).0.failure.Endit?
    ensures AbortStep(task, fs).0.Err? ==> !AbortStep(task, fs).0.error.Endit?
  {
    match task
    case Stage(t) => StageTasks.PollNeverEndit(t, fs);
    case Flush(t) => FlushTasks.PollNeverEndit(t, fs);
  }

  // ------------------------------------------------------------ the future

  datatype FutureState = Pending | Resolved(result: TaskResult) | Failed(thrown: Thrown) | Cancelled

  predicate IsDone(s: FutureState) { !s.Pending? }

  /**
   * One synchronized poll of a future: nothing once done; otherwise a result
   * resolves it, and an exception triggers an abort whose own failure is
   * suppressed into the exception the future fails with.
   */
  function PollTransition(task: Task, state: FutureState, fs: Tree): (FutureState, Tree)
  {
    if IsDone(state) then (state, fs)
    else
      var (o, fs1) := PollStep(task, fs);
      match o
      case NotYet => (Pending, fs1)
      case Done(v) => (Resolved(v), fs1)
      case Threw(e) =>
        var (a, fs2) := AbortStep(task, fs1);
        (Failed(Thrown(e, if a.Err? then [a.error] else [])), fs2)
  }

  /**
   * One synchronized cancel: false once done or when the abort is refused
   * (the future stays pending); true when the abort succeeded (cancelled) or
   * raised (failed with that exception).
   */
  function CancelTransition(task: Task, state: FutureState, fs: Tree): (bool, FutureState, Tree)
  {
    if IsDone(state) then (false, state, fs)
    else
      var (a, fs1) := AbortStep(task, fs);
      if a.Err? then (true, Failed(Thrown(a.error, [])), fs1)
      else if !a.value then (false, Pending, fs1)
      else (true, Cancelled, fs1)
  }

  /** Once done, a future never changes again and leaves the tree alone. */
  lemma DoneIsFinal(task: Task, state: FutureState, fs: Tree)
    requires IsDone(state)
    ensures PollTransition(task, state, fs) == (state, fs)
    ensures CancelTransition(task, state, fs) == (false, state, fs)
  {
  }

  /**
   * A poll of a pending future resolves it exactly when the task has a
   * result, leaves it pending with the tree untouched when it has none, and
   * otherwise fails it with the task's own exception, the abort's failure
   * (if any) suppressed into it.
   */
  lemma PollOutcomes(task: Task, fs: Tree)
    ensures var (o, fs1) := PollStep(task, fs);
            var (s, fs2) := PollTransition(task, Pending, fs);
            && (o.NotYet? ==> s == Pending && fs2 == fs)
            && (o.Done? ==> s == Resolved(o.result) && fs2 == fs1)
            && (o.Threw? ==> var (a, fs3) := AbortStep(task, fs1);
                              s == Failed(Thrown(o.failure, if a.Err? then [a.error] else [])) && fs2 == fs3)
  {
    if PollStep(task, fs).0.NotYet? {
      PendingPollIsReadOnly(task, fs);
    }
  }

  /**
   * cancel answers true exactly when the future leaves the pending state;
   * a refused abort leaves it pending, a successful one cancels it and a
   * raising one fails it.
   */
  lemma CancelOutcomes(task: Task, fs: Tree)
    ensures var (a, fs1) := AbortStep(task, fs);
            var (b, s, fs2) := CancelTransition(task, Pending, fs);
            && (b <==> IsDone(s))
            && fs2 == fs1
            && (a == Ok(false) ==> s == Pending)
            && (a == Ok(true) ==> s == Cancelled)
            && (a.Err? ==> s == Failed(Thrown(a.error, [])))
  {
  }

  /** A future over a stage or flush task never fails with EnditException as its cause. */
  lemma FutureNeverEndit(task: Task, state: FutureState, fs: Tree)
    requires !(state.Failed? && state.thrown.cause.Endit?)
    ensures var s := PollTransition(task, state, fs).0; !(s.Failed? && s.thrown.cause.Endit?)
    ensures var s := CancelTransition(task, state, fs).1; !(s.Failed? && s.thrown.cause.Endit?)
  {
    NeverEndit(task, fs);
    NeverEndit(task, PollStep(task, fs).1);
  }

  // -------------------------------------------- the same steps on the store

  method Start(task: Task, pid: int, nowMillis: nat, store: FileStore) returns (r: Result<(), Failure>)
    modifies store
    ensures (r, store.entries) == StartStep(task, pid, nowMillis, old(store.entries))
  {
    match task
    case Stage(t) => r := StageTasks.Start(t, pid, nowMillis, store);
    case Flush(t) => r := FlushTasks.Start(t, store);
  }

  method Poll(task: Task, store: FileStore) returns (r: PollOutcome<TaskResult>)
    modifies store
    ensures (r, store.entries) == PollStep(task, old(store.entries))
  {
    match task
    case Stage(t) =>
      var o := StageTasks.Poll(t, store);
      r := match o
           case NotYet => NotYet
           case Done(v) => Done(Checksums(v))
           case Threw(e) => Threw(e);
    case Flush(t) =>
      var o := FlushTasks.Poll(t, store.entries);
      r := match o
           case NotYet => NotYet
           case Done(v) => Done(Locations(v))
           case Threw(e) => Threw(e);
  }

  method Abort(task: Task, store: FileStore) returns (r: Result<bool, Failure>)
    modifies store
    ensures (r, store.entries) == AbortStep(task, old(store.entries))
  {
    match task
    case Stage(t) => r := StageTasks.Abort(t, store);
    case Flush(t) => r := FlushTasks.Abort(t, store);
  }

  /** One poll of a future, performed on the store: the task's poll, then the abort if it raised. */
  method PollFuture(task: Task, state: FutureState, store: FileStore) returns (next: FutureState)
    modifies store
    ensures (next, store.entries) == PollTransition(task, state, old(store.entries))
  {
    if IsDone(state) {
      return state;
    }
    var o := Poll(task, store);
    match o {
      case NotYet => next := Pending;
      case Done(v) => next := Resolved(v);
      case Threw(e) =>
        var a := Abort(task, store);
        next := Failed(Thrown(e, if a.Err? then [a.error] else []));
    }
  }

  /** One cancel of a future, performed on the store. */
  method CancelFuture(task: Task, state: FutureState, store: FileStore) returns (cancelled: bool, next: FutureState)
    modifies store
    ensures (cancelled, next, store.entries) == CancelTransition(task, state, old(store.entries))
  {
    if IsDone(state) {
      return false, state;
    }
    var a := Abort(task, store);
    if a.Err? {
      cancelled, next := true, Failed(Thrown(a.error, []));
    } else if !a.value {
      cancelled, next := false, Pending;
    } else {
      cancelled, next := true, Cancelled;
    }
  }
}
