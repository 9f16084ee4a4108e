/**
 * ListeningNearlineStorage: the ledger of outstanding requests, keyed by
 * request id, and the completion listener that removes a request from the
 * ledger and then reports the outcome to the pool through exactly one hook.
 */
module Listening {
  import opened Wrappers
  import opened Failures
  import opened PollingTasks

  type Uuid = nat

  /** The hook of the request that a completion calls. */
  datatype Notification =
    | Completed(id: Uuid, result: TaskResult)          // request.completed(result)
    | FailedWithCode(id: Uuid, rc: int, message: string) // request.failed(rc, message)
    | FailedWithError(id: Uuid, error: Thrown)         // request.failed(e)

  /**
   * The listener's routing: a result completes the request; a failure caused
   * by an EnditException reports its code and message; any other failure and
   * a cancellation report the exception itself. For a failure, Java's
   * failed(e) receives the ExecutionException that wraps the cause; the
   * model records the cause, with its suppressed exceptions, in its place.
   */
  function Route(id: Uuid, s: FutureState): (n: Notification)
    requires IsDone(s)
    ensures n.id == id
  {
    match s
    case Resolved(v) => Completed(id, v)
    case Failed(t) =>
      if t.cause.Endit? then FailedWithCode(id, ReturnCode(t.cause), t.cause.message) else FailedWithError(id, t)
    case Cancelled => FailedWithError(id, Thrown(Cancellation, []))
  }

  /** Exactly one hook runs per completion, and which one is decided by the outcome alone. */
  lemma RouteExactlyOne(id: Uuid, s: FutureState)
    requires IsDone(s)
    ensures Route(id, s).Completed? <==> s.Resolved?
    ensures Route(id, s).Completed? ==> Route(id, s).result == s.result
    ensures Route(id, s).FailedWithCode? <==> s.Failed? && s.thrown.cause.Endit?
    ensures Route(id, s).FailedWithCode? ==> Route(id, s).rc == s.thrown.cause.rc
                                              && Route(id, s).message == s.thrown.cause.message
    ensures Route(id, s).FailedWithError? <==> s.Cancelled? || (s.Failed? && !s.thrown.cause.Endit?)
    ensures s.Cancelled? ==> Route(id, s) == FailedWithError(id, Thrown(Cancellation, []))
  {
  }

  /**
   * A daemon error on a stage reaches the pool through the generic failed(e)
   * hook, carrying the CacheException parsed from the error file, because the
   * stage task raises CacheException rather than EnditException.
   */
  lemma StageErrorTakesGenericBranch(id: Uuid, t: StageTasks.StageTask, fs: Fs.Tree)
    requires t.errorFile in fs
    requires t.inFile != t.errorFile && t.inFile != t.requestFile && t.errorFile != t.requestFile
    ensures IsDone(PollTransition(Stage(t), Pending, fs).0)
    ensures Route(id, PollTransition(Stage(t), Pending, fs).0).FailedWithError?
  {
    StageTasks.PollErrorCleansUp(t, fs);
    FutureNeverEndit(Stage(t), Pending, fs);
  }

  /** No outcome of a stage or flush future reaches the failed(rc, message) hook. */
  lemma TaskFuturesNeverReportCodes(id: Uuid, task: Task, s: FutureState, fs: Fs.Tree)
    requires !(s.Failed? && s.thrown.cause.Endit?)
    ensures IsDone(PollTransition(task, s, fs).0) ==> !Route(id, PollTransition(task, s, fs).0).FailedWithCode?
    ensures IsDone(CancelTransition(task, s, fs).1) ==> !Route(id, CancelTransition(task, s, fs).1).FailedWithCode?
  {
    FutureNeverEndit(task, s, fs);
  }

  /** The ledger after put(id, future) for each entry of a batch in turn. */
  function PutAll<F>(m: map<Uuid, F>, batch: seq<(Uuid, F)>): map<Uuid, F>
    decreases |batch|
  {
    if batch == [] then m
    else PutAll(m, batch[..|batch| - 1])[batch[|batch| - 1].0 := batch[|batch| - 1].1]
  }

  /**
   * A batch adds one entry per request: the ids of the ledger are the old ids
   * and the batch's ids, a request's future is the one its id was last put
   * with, and ids outside the batch keep their futures.
   */
  lemma {:induction false} PutAllEntries<F>(m: map<Uuid, F>, batch: seq<(Uuid, F)>)
    ensures PutAll(m, batch).Keys == m.Keys + set i | 0 <= i < |batch| :: batch[i].0
    ensures forall i | 0 <= i < |batch| && (forall j | i < j < |batch| :: batch[j].0 != batch[i].0) ::
              PutAll(m, batch)[batch[i].0] == batch[i].1
    ensures forall id | id in m && (forall i | 0 <= i < |batch| :: batch[i].0 != id) :: PutAll(m, batch)[id] == m[id]
  {
    PutAllKeys(m, batch);
    PutAllLatest(m, batch);
    PutAllOthers(m, batch);
  }

  lemma {:induction false} PutAllKeys<F>(m: map<Uuid, F>, batch: seq<(Uuid, F)>)
    ensures PutAll(m, batch).Keys == m.Keys + set i | 0 <= i < |batch| :: batch[i].0
    decreases |batch|
  {
    if batch != [] {
      var n := |batch| - 1;
      var front := batch[..n];
      PutAllKeys(m, front);
      var all := set i | 0 <= i < |batch| :: batch[i].0;
      assert all == (set i | 0 <= i < |front| :: front[i].0) + {batch[n].0} by {
        forall x | x in all ensures x in (set i | 0 <= i < |front| :: front[i].0) + {batch[n].0} {
          var i :| 0 <= i < |batch| && batch[i].0 == x;
          if i < n { assert front[i] == batch[i]; }
        }
      }
    }
  }

  lemma {:induction false} PutAllLatest<F>(m: map<Uuid, F>, batch: seq<(Uuid, F)>)
    ensures forall i | 0 <= i < |batch| && (forall j | i < j < |batch| :: batch[j].0 != batch[i].0) ::
              batch[i].0 in PutAll(m, batch) && PutAll(m, batch)[batch[i].0] == batch[i].1
    decreases |batch|
  {
    if batch != [] {
      var n := |batch| - 1;
      var front := batch[..n];
      PutAllLatest(m, front);
      forall i | 0 <= i < |batch| && (forall j | i < j < |batch| :: batch[j].0 != batch[i].0)
        ensures batch[i].0 in PutAll(m, batch) && PutAll(m, batch)[batch[i].0] == batch[i].1
      {
        if i < n {
          assert front[i] == batch[i];
          forall j | i < j < |front| ensures front[j].0 != front[i].0 {
            assert front[j] == batch[j];
          }
        }
      }
    }
  }

  lemma {:induction false} PutAllOthers<F>(m: map<Uuid, F>, batch: seq<(Uuid, F)>)
    ensures forall id | id in m && (forall i | 0 <= i < |batch| :: batch[i].0 != id) ::
              id in PutAll(m, batch) && PutAll(m, batch)[id] == m[id]
    decreases |batch|
  {
    if batch != [] {
      var n := |batch| - 1;
      var front := batch[..n];
      PutAllOthers(m, front);
      forall id | id in m && (forall i | 0 <= i < |batch| :: batch[i].0 != id)
        ensures id in PutAll(m, batch) && PutAll(m, batch)[id] == m[id]
      {
        forall i | 0 <= i < |front| ensures front[i].0 != id {
          assert front[i] == batch[i];
        }
      }
    }
  }

  /** How many requests of a batch are dispatched before the first dispatch that throws. */
  function Dispatched<F>(batch: seq<(Uuid, Result<F, Failure>)>): (k: nat)
    ensures k <= |batch|
    ensures forall i | 0 <= i < k :: batch[i].1.Ok?
    ensures k < |batch| ==> batch[k].1.Err?
  {
    if batch == [] || batch[0].1.Err? then 0 else 1 + Dispatched(batch[1..])
  }

  /** The ledger entries of dispatches that all returned a future: each request's id with its future. */
  function Accepted<F>(batch: seq<(Uuid, Result<F, Failure>)>): (e: seq<(Uuid, F)>)
    requires forall i | 0 <= i < |batch| :: batch[i].1.Ok?
    ensures |e| == |batch|
    ensures forall i | 0 <= i < |e| :: e[i] == (batch[i].0, batch[i].1.value)
  {
    if batch == [] then [] else [(batch[0].0, batch[0].1.value)] + Accepted(batch[1..])
  }

  lemma AcceptedStep<F>(batch: seq<(Uuid, Result<F, Failure>)>, i: nat)
    requires i < |batch| && forall j | 0 <= j <= i :: batch[j].1.Ok?
    ensures Accepted(batch[..i + 1]) == Accepted(batch[..i]) + [(batch[i].0, batch[i].1.value)]
  {
    assert Accepted(batch[..i + 1])[..i] == Accepted(batch[..i]);
  }

  /**
   * When a dispatch throws, the ledger holds exactly the old ids and those of
   * the requests before it, each with its future; the refused request and
   * every later one are absent unless the ledger already held them.
   */
  lemma BatchStopsAtRefusal<F>(m: map<Uuid, F>, batch: seq<(Uuid, Result<F, Failure>)>)
    ensures var k := Dispatched(batch);
            PutAll(m, Accepted(batch[..k])).Keys == m.Keys + set i | 0 <= i < k :: batch[i].0
    ensures var k := Dispatched(batch);
            forall i | 0 <= i < k && (forall j | i < j < k :: batch[j].0 != batch[i].0) ::
              PutAll(m, Accepted(batch[..k]))[batch[i].0] == batch[i].1.value
  {
    var k := Dispatched(batch);
    var e := Accepted(batch[..k]);
    assert forall i | 0 <= i < k :: e[i].0 == batch[i].0 && e[i].1 == batch[i].1.value;
    PutAllKeys(m, e);
    PutAllLatest(m, e);
    var ids := set i | 0 <= i < |e| :: e[i].0;
    forall x | x in ids ensures exists i :: 0 <= i < k && batch[i].0 == x {
      var i :| 0 <= i < |e| && e[i].0 == x;
    }
    forall i | 0 <= i < k ensures batch[i].0 in ids {
      assert e[i].0 in ids;
    }
    assert ids == set i | 0 <= i < k :: batch[i].0;
  }

  /** The ledger of one engine instance and the hooks it has called so far. */
  class Ledger<F> {
    var tasks: map<Uuid, F>
    var notifications: seq<Notification>

    constructor ()
      ensures tasks == map[] && notifications == []
    {
      tasks := map[];
      notifications := [];
    }

    /** hasTasks. */
    function HasTasks(): (b: bool)
      reads this
      ensures b <==> exists id :: id in tasks
    {
      tasks.Keys != {}
    }

    /** add, first half: the future is stored under the request's id, replacing any earlier one. */
    method Add(id: Uuid, future: F)
      modifies this
      ensures tasks == old(tasks)[id := future]
      ensures notifications == old(notifications)
    {
      tasks := tasks[id := future];
    }

    /** add, second half: the listener, run once the future is done. */
    method Complete(id: Uuid, outcome: FutureState)
      requires IsDone(outcome)
      modifies this
      ensures tasks == old(tasks) - {id}
      ensures notifications == old(notifications) + [Route(id, outcome)]
    {
      tasks := tasks - {id};
      notifications := notifications + [Route(id, outcome)];
    }

    /** cancel(uuid): the future to cancel, if the id is known; an unknown id is a no-op. */
    method Cancel(id: Uuid) returns (target: Option<F>)
      ensures id in tasks <==> target.Some?
      ensures target.Some? ==> target.value == tasks[id]
    {
      if id in tasks {
        target := Some(tasks[id]);
      } else {
        target := None;
      }
    }

    /**
     * The batch methods: one add per request, in iteration order, of the
     * future its dispatch returned; a dispatch that throws ends the batch,
     * the exception reaches the caller, and the later requests are never
     * dispatched, added or reported on.
     */
    method AddAll(batch: seq<(Uuid, Result<F, Failure>)>) returns (r: Result<(), Failure>)
      modifies this
      ensures var k := Dispatched(batch);
              && tasks == PutAll(old(tasks), Accepted(batch[..k]))
              && (r.Ok? <==> k == |batch|)
              && (k < |batch| ==> r == Err(batch[k].1.error))
      ensures notifications == old(notifications)
    {
      var i := 0;
      while i < |batch| && batch[i].1.Ok?
        invariant 0 <= i <= |batch|
        invariant forall j | 0 <= j < i :: batch[j].1.Ok?
        invariant tasks == PutAll(old(tasks), Accepted(batch[..i]))
        invariant notifications == old(notifications)
      {
        AcceptedStep(batch, i);
        Add(batch[i].0, batch[i].1.value);
        i := i + 1;
      }
      if i < |batch| {
        r := Err(batch[i].1.error);
      } else {
        r := Ok(());
      }
    }
  }
}
