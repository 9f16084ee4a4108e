/**
 * PollingEnditNearlineStorage: futures that poll their task on a timer. A
 * future schedules its first poll on construction; a poll without a result
 * schedules the next one; a result or an exception completes the future, and a
 * successful cancel also cancels the pending timer. The timer is modelled as a
 * flag that is set while a poll is scheduled and has not fired yet.
 */
module Polling {
  import opened Wrappers
  import opened Text
  import opened Fs
  import opened Failures
  import opened PollingTasks
  import opened Listening
  import opened AbstractStorage

  const DefaultThreads: string := "1"
  const DefaultPeriod: string := "5000"

  /** Map.getOrDefault. */
  function GetOrDefault(m: map<string, string>, key: string, default: string): (v: string)
    ensures key in m ==> v == m[key]
    ensures key !in m ==> v == default
  {
    if key in m then m[key] else default
  }

  /** The NumberFormatException of Integer.parseInt. */
  function NumberFormat(s: string): Failure
  {
    IllegalArgument("For input string: \"" + s + "\"")
  }

  /** The two integers configure reads before anything else: threads, then period. */
  function ParseSettings(properties: map<string, string>): Result<(int, int), Failure>
  {
    var threads := GetOrDefault(properties, "threads", DefaultThreads);
    var period := GetOrDefault(properties, "period", DefaultPeriod);
    match ParseInt(threads)
    case None => Err(NumberFormat(threads))
    case Some(n) =>
      match ParseInt(period)
      case None => Err(NumberFormat(period))
      case Some(p) => Ok((n, p))
  }

  /** Without the two properties, one thread and a period of 5000 ms. */
  lemma SettingsDefaults(properties: map<string, string>)
    requires "threads" !in properties && "period" !in properties
    ensures ParseSettings(properties) == Ok((1, 5000))
  {
    ParseIntToString(1);
    ParseIntToString(5000);
    assert IntToString(1) == DefaultThreads;
    assert IntToString(5000) == DefaultPeriod by {
      assert NatToString(5000) == NatToString(500) + ['0'];
      assert NatToString(500) == NatToString(50) + ['0'];
      assert NatToString(50) == NatToString(5) + ['0'];
    }
  }

  /**
   * Any 32-bit values written as decimal text are read back; a threads value
   * that is not a number is rejected first, naming its text, whatever the
   * period says.
   */
  lemma SettingsParsed(properties: map<string, string>, threads: int, period: int)
    requires Int32Min <= threads <= Int32Max && Int32Min <= period <= Int32Max
    ensures ParseSettings(properties["threads" := IntToString(threads)]["period" := IntToString(period)])
            == Ok((threads, period))
    ensures "threads" in properties && ParseInt(properties["threads"]).None? ==>
              ParseSettings(properties) == Err(NumberFormat(properties["threads"]))
  {
    ParseIntToString(threads);
    ParseIntToString(period);
  }

  /** A scheduled thread pool: its size and whether it still accepts work. */
  datatype Executor = Executor(threads: nat, live: bool)

  /**
   * One run of the future, when its timer fires: nothing once done; a result
   * resolves it; no result schedules the next poll, which an executor that
   * was shut down rejects; an exception (the rejection included) is followed
   * by an abort whose failure is suppressed into it. The flag says whether
   * the next poll was scheduled.
   */
  function RunTransition(task: Task, state: FutureState, accepting: bool, fs: Tree): (FutureState, bool, Tree)
  {
    if IsDone(state) then (state, false, fs)
    else
      var (o, fs1) := PollStep(task, fs);
      match o
      case Done(v) => (Resolved(v), false, fs1)
      case NotYet =>
        if accepting then (Pending, true, fs1)
        else
          var (a, fs2) := AbortStep(task, fs1);
          (Failed(Thrown(RejectedExecution, if a.Err? then [a.error] else [])), false, fs2)
      case Threw(e) =>
        var (a, fs2) := AbortStep(task, fs1);
        (Failed(Thrown(e, if a.Err? then [a.error] else [])), false, fs2)
  }

  /**
   * With a live executor a run is the shared poll of a future, and it
   * schedules the next poll exactly when the future was pending and stays
   * pending; a done future is left alone and nothing is scheduled.
   */
  lemma RunIsPoll(task: Task, state: FutureState, fs: Tree)
    ensures var (s, again, fs1) := RunTransition(task, state, true, fs);
            && (s, fs1) == PollTransition(task, state, fs)
            && (again <==> state.Pending? && s.Pending?)
    ensures IsDone(state) ==> RunTransition(task, state, false, fs) == (state, false, fs)
  {
    if state.Pending? && PollStep(task, fs).0.NotYet? {
      PendingPollIsReadOnly(task, fs);
    }
  }

  /**
   * A run never leaves a pending future pending without scheduling the next
   * poll, and schedules one only for a pending future: so a future is
   * pending exactly while a poll is scheduled.
   */
  lemma RunKeepsTimer(task: Task, state: FutureState, accepting: bool, fs: Tree)
    ensures var (s, again, _) := RunTransition(task, state, accepting, fs);
            again <==> state.Pending? && s.Pending?
    ensures var (s, again, _) := RunTransition(task, state, accepting, fs);
            state.Pending? && !accepting ==> IsDone(s)
  {
  }

  /** TaskFuture: the task, its completion state and its timer. */
  class PollingFuture {
    const task: Task
    const store: FileStore
    var state: FutureState
    /** A poll is scheduled and has not fired yet. */
    var scheduled: bool
    /** How many polls were scheduled in all. */
    var schedules: nat
    /** The delay of the latest scheduled poll, in milliseconds. */
    var delay: int

    /** A future is pending exactly while its next poll is scheduled. */
    predicate Valid()
      reads this
    {
      scheduled <==> state.Pending?
    }

    /** The constructor schedules exactly one poll after `period`. */
    constructor (task: Task, store: FileStore, period: int)
      ensures Valid()
      ensures this.task == task && this.store == store
      ensures state == Pending && scheduled && schedules == 1 && delay == period
    {
      this.task := task;
      this.store := store;
      state := Pending;
      scheduled := true;
      schedules := 1;
      delay := period;
    }

    /**
     * run, invoked when the timer fires; `period` and `accepting` are the
     * storage's current period and whether its executor accepts work.
     */
    method Run(period: int, accepting: bool)
      requires Valid()
      modifies this, store
      ensures Valid()
      ensures var (s, again, fs) := RunTransition(task, old(state), accepting, old(store.entries));
              && state == s && store.entries == fs
              && scheduled == again
              && schedules == old(schedules) + (if again then 1 else 0)
              && delay == if again then period else old(delay)
    {
      scheduled := false;
      if IsDone(state) {
        return;
      }
      var o := PollingTasks.Poll(task, store);
      match o {
        case Done(v) =>
          state := Resolved(v);
        case NotYet =>
          if accepting {
            scheduled, schedules, delay := true, schedules + 1, period;
          } else {
            var a := Abort(task, store);
            state := Failed(Thrown(RejectedExecution, if a.Err? then [a.error] else []));
          }
        case Threw(e) =>
          var a := Abort(task, store);
          state := Failed(Thrown(e, if a.Err? then [a.error] else []));
      }
    }

    /**
     * cancel: the shared cancel of a future; when it answers true the pending
     * timer is cancelled too, otherwise the timer is left as it was.
     */
    method Cancel() returns (cancelled: bool)
      requires Valid()
      modifies this, store
      ensures Valid()
      ensures (cancelled, state, store.entries) == CancelTransition(task, old(state), old(store.entries))
      ensures scheduled == (old(scheduled) && !cancelled)
      ensures schedules == old(schedules) && delay == old(delay)
    {
      var next;
      cancelled, next := CancelFuture(task, state, store);
      state := next;
      if cancelled {
        scheduled := false;
      }
    }
  }

  class PollingStorage {
    const base: EnditStorage<PollingFuture>
    var period: int
    var executor: Option<Executor>

    constructor (storageType: string, storageName: string, store: FileStore)
      ensures base.storageType == storageType && base.storageName == storageName && base.store == store
      ensures base.ledger.tasks == map[] && base.Directories() == None
      ensures period == 0 && executor == None
    {
      var ledger := new Ledger<PollingFuture>();
      base := new EnditStorage(storageType, storageName, ledger, store);
      period := 0;
      executor := None;
    }

    /**
     * configure: threads and period are parsed first; then the shared
     * configure; then the period is adopted, the old executor shut down, and
     * a new pool of `threads` threads created, which a negative size refuses.
     */
    method Configure(properties: map<string, string>) returns (r: Result<(), Failure>)
      modifies this, base, base.store
      ensures ParseSettings(properties).Err? ==>
                r == Err(ParseSettings(properties).error)
                && period == old(period) && executor == old(executor)
                && base.Directories() == old(base.Directories()) && base.store.entries == old(base.store.entries)
      ensures ParseSettings(properties).Ok? &&
              !ConfigureAccepted(base.ledger.HasTasks(), old(base.store.entries), properties) ==>
                r.Err? && period == old(period) && executor == old(executor)
                && base.Directories() == old(base.Directories())
      ensures ParseSettings(properties).Ok? &&
              ConfigureAccepted(base.ledger.HasTasks(), old(base.store.entries), properties) ==>
                var (threads, p) := ParseSettings(properties).value;
                && period == p
                && base.Directories() == Some(CheckLayout(old(base.store.entries), properties).value)
                && (threads >= 0 ==> r.Ok? && executor == Some(Executor(threads, true)))
                && (threads < 0 ==> r == Err(IllegalArgument(""))
                                    && executor == if old(executor).None? then None
                                                   else Some(old(executor).value.(live := false)))
      ensures ParseSettings(properties).Ok? && base.ledger.HasTasks() ==> r == Err(IllegalState(BusyMessage))
      ensures ParseSettings(properties).Ok? && !base.ledger.HasTasks() &&
              CheckLayout(old(base.store.entries), properties).Err? ==>
                r == Err(CheckLayout(old(base.store.entries), properties).error)
      ensures ParseSettings(properties).Ok? && !base.ledger.HasTasks() &&
              CheckLayout(old(base.store.entries), properties).Ok? &&
              !Purgeable(old(base.store.entries), CheckLayout(old(base.store.entries), properties).value.requestDir) ==>
                r.Err? && r.error.Propagated?
      ensures ParseSettings(properties).Ok? ==>
                ConfigureLeaves(base.ledger.HasTasks(), old(base.store.entries), base.store.entries, properties)
    {
      var settings := ParseSettings(properties);
      if settings.Err? {
        return Err(settings.error);
      }
      var (threads, p) := settings.value;
      r := base.Configure(properties);
      if r.Err? {
        return;
      }
      period := p;
      if executor.Some? {
        executor := Some(executor.value.(live := false));
      }
      if threads < 0 {
        return Err(IllegalArgument(""));
      }
      executor := Some(Executor(threads, true));
    }

    /** schedule(task): a new future; no executor yet is a NullPointerException, a shut-down one a rejection. */
    method Schedule(task: Task) returns (r: Result<PollingFuture, Failure>)
      ensures executor.None? ==> r == Err(NullPointer)
      ensures executor.Some? && !executor.value.live ==> r == Err(RejectedExecution)
      ensures executor.Some? && executor.value.live ==>
                && r.Ok? && fresh(r.value) && r.value.Valid()
                && r.value.task == task && r.value.store == base.store
                && r.value.state == Pending && r.value.scheduled && r.value.schedules == 1 && r.value.delay == period
    {
      if executor.None? {
        return Err(NullPointer);
      }
      if !executor.value.live {
        return Err(RejectedExecution);
      }
      var f := new PollingFuture(task, base.store, period);
      r := Ok(f);
    }

    /** The timer of `f` fires: one run with the storage's current period and executor. */
    method Tick(f: PollingFuture)
      requires f.Valid() && f.store == base.store
      modifies f, base.store
      ensures f.Valid()
      ensures var (s, again, fs) := RunTransition(f.task, old(f.state), executor.Some? && executor.value.live,
                                                  old(base.store.entries));
              f.state == s && base.store.entries == fs && f.scheduled == again
    {
      f.Run(period, executor.Some? && executor.value.live);
    }

    /** cancel(uuid): the future of a known request is cancelled; an unknown one is a no-op. */
    method CancelRequest(id: Uuid) returns (cancelled: Option<bool>)
      requires id in base.ledger.tasks ==> base.ledger.tasks[id].Valid() && base.ledger.tasks[id].store == base.store
      modifies base.store, if id in base.ledger.tasks then {base.ledger.tasks[id]} else {}
      ensures id !in base.ledger.tasks <==> cancelled.None?
      ensures id !in base.ledger.tasks ==> base.store.entries == old(base.store.entries)
      ensures id in base.ledger.tasks ==>
                var f := base.ledger.tasks[id];
                && f.Valid()
                && (cancelled.value, f.state, base.store.entries) == CancelTransition(f.task, old(f.state), old(base.store.entries))
    {
      var target := base.ledger.Cancel(id);
      if target.Some? {
        var c := target.value.Cancel();
        cancelled := Some(c);
      } else {
        cancelled := None;
      }
    }

    /** shutdown: the executor stops accepting work; without one it is a NullPointerException. */
    method Shutdown() returns (r: Result<(), Failure>)
      modifies this
      ensures old(executor).None? ==> r == Err(NullPointer) && executor == None
      ensures old(executor).Some? ==> r.Ok? && executor == Some(old(executor).value.(live := false))
      ensures period == old(period)
    {
      if executor.None? {
        return Err(NullPointer);
      }
      executor := Some(executor.value.(live := false));
      r := Ok(());
    }
  }
}
