/**
 * WatchingEnditNearlineStorage: futures that are polled when the file system
 * reports a change to one of their files. The registry maps each watched path
 * to the future that owns it; a future claims its paths with putIfAbsent
 * (never overwriting another future's claim) and gives them back with
 * remove(path, this) (never removing another future's claim). A single
 * watcher polls the future of each changed path, every future on an
 * overflow, and cancels all registered futures when it stops.
 */
module Watching {
  import opened Wrappers
  import opened Fs
  import opened Failures
  import opened PollingTasks
  import opened Listening
  import opened AbstractStorage

  function DuplicateMessage(p: Path): string
  {
    "Duplicate nearline requests on " + PathText(p)
  }

  // ------------------------------------------------------------ the registry

  /** Registering paths[i] finds it taken: by another future, or by an earlier path of the same list. */
  predicate Clashes<F>(m: map<Path, F>, paths: seq<Path>, i: nat)
    requires i < |paths|
  {
    paths[i] in m || paths[i] in paths[..i]
  }

  /**
   * putIfAbsent(path, f) for each path in turn: the new registry and the
   * first path that was already taken, whose message the future fails with.
   */
  function PutAllIfAbsent<F>(m: map<Path, F>, paths: seq<Path>, f: F): (map<Path, F>, Option<Path>)
    decreases |paths|
  {
    if paths == [] then (m, None)
    else
      var (m1, clash) := PutAllIfAbsent(m, paths[..|paths| - 1], f);
      var p := paths[|paths| - 1];
      if p in m1 then (m1, if clash.None? then Some(p) else clash)
      else (m1[p := f], clash)
  }

  /**
   * Registration never overwrites: claimed paths keep their futures, the
   * registry gains exactly the paths, each new one owned by `f`; there is a
   * clash exactly when some path was taken, and the reported clash is the
   * first such path.
   */
  lemma {:induction false} PutAllIfAbsentEntries<F>(m: map<Path, F>, paths: seq<Path>, f: F)
    ensures var (r, clash) := PutAllIfAbsent(m, paths, f);
            && r.Keys == m.Keys + (set i | 0 <= i < |paths| :: paths[i])
            && (forall p | p in m :: r[p] == m[p])
            && (forall p | p in r && p !in m :: r[p] == f)
            && (clash.None? <==> forall i | 0 <= i < |paths| :: !Clashes(m, paths, i))
            && (clash.Some? ==> exists i | 0 <= i < |paths| ::
                                  && paths[i] == clash.value && Clashes(m, paths, i)
                                  && forall j | 0 <= j < i :: !Clashes(m, paths, j))
    decreases |paths|
  {
    if paths != [] {
      var n := |paths| - 1;
      var front := paths[..n];
      PutAllIfAbsentEntries(m, front, f);
      var (m1, c1) := PutAllIfAbsent(m, front, f);
      var p := paths[n];
      var all := set i | 0 <= i < |paths| :: paths[i];
      var before := set i | 0 <= i < |front| :: front[i];
      assert all == before + {p} by {
        forall x | x in all ensures x in before + {p} {
          var i :| 0 <= i < |paths| && paths[i] == x;
          if i < n { assert front[i] == paths[i]; }
        }
      }
      forall j | 0 <= j < n ensures Clashes(m, paths, j) == Clashes(m, front, j) {
        assert paths[..j] == front[..j];
      }
      assert paths[..n] == front;
      assert Clashes(m, paths, n) <==> p in m1 by {
        if p in front {
          var i :| 0 <= i < |front| && front[i] == p;
          assert p in before;
        }
        if p in before {
          var i :| 0 <= i < |front| && front[i] == p;
          assert p in front;
        }
      }
    }
  }

  /** remove(path, f) for each path: the entries of the paths that `f` owns go, every other entry stays. */
  function RemoveAllOwned<F(==)>(m: map<Path, F>, paths: seq<Path>, f: F): (r: map<Path, F>)
    ensures forall p | p in r :: p in m && r[p] == m[p]
    ensures forall p | p in m && !(p in paths && m[p] == f) :: p in r
    ensures (forall p | p in m && m[p] == f :: p in paths) ==> forall p | p in r :: r[p] != f
  {
    map p | p in m && !(p in paths && m[p] == f) :: m[p]
  }

  lemma RemoveAllOwnedStep<F>(m: map<Path, F>, paths: seq<Path>, p: Path, f: F)
    ensures RemoveAllOwned(m, paths + [p], f)
            == var u := RemoveAllOwned(m, paths, f); if p in u && u[p] == f then u - {p} else u
  {
    var u := RemoveAllOwned(m, paths, f);
    var v := if p in u && u[p] == f then u - {p} else u;
    forall q ensures q in paths + [p] <==> q in paths || q == p {
      if q in paths + [p] {
        var i :| 0 <= i < |paths + [p]| && (paths + [p])[i] == q;
        if i < |paths| { assert paths[i] == q; }
      }
      if q in paths {
        var i :| 0 <= i < |paths| && paths[i] == q;
        assert (paths + [p])[i] == q;
      }
      if q == p { assert (paths + [p])[|paths|] == q; }
    }
    assert RemoveAllOwned(m, paths + [p], f).Keys == v.Keys;
  }

  /**
   * Unregistering undoes registering: a future that owned nothing before
   * leaves the registry exactly as it found it, whether or not some of its
   * paths were taken.
   */
  lemma RegisterThenUnregister<F>(m: map<Path, F>, paths: seq<Path>, f: F)
    requires forall p | p in m :: m[p] != f
    ensures RemoveAllOwned(PutAllIfAbsent(m, paths, f).0, paths, f) == m
  {
    PutAllIfAbsentEntries(m, paths, f);
    var r := PutAllIfAbsent(m, paths, f).0;
    var u := RemoveAllOwned(r, paths, f);
    forall q | q in r && q !in m ensures q !in u {
      var i :| 0 <= i < |paths| && paths[i] == q;
      assert q in paths;
    }
    assert u.Keys == m.Keys;
  }

  // ------------------------------------------------------------- the engine

  /** The state a registered future can be in: still pending, or failed because a path was taken. */
  predicate Registrable(s: FutureState)
  {
    s.Pending? || (s.Failed? && s.thrown.cause.IllegalState?)
  }

  /** One event of a watch key: OVERFLOW, or a change to the entry of that name. */
  datatype WatchEvent = Overflow | EntryEvent(name: string)

  datatype WatchKey = WatchKey(dir: Path, events: seq<WatchEvent>)

  /** Only the most recently submitted watch task may still be running. */
  predicate OnlyLastRunning(watchers: seq<bool>)
  {
    forall i | 0 <= i < |watchers| - 1 :: !watchers[i]
  }

  function RunningWatchers(watchers: seq<bool>): set<nat>
  {
    set i | 0 <= i < |watchers| && watchers[i]
  }

  /** At most one watcher runs, and it is the latest one. */
  lemma AtMostOneWatcher(watchers: seq<bool>)
    requires OnlyLastRunning(watchers)
    ensures |RunningWatchers(watchers)| <= 1
    ensures RunningWatchers(watchers) <= {|watchers| - 1}
  {
    if watchers != [] && watchers[|watchers| - 1] {
      assert RunningWatchers(watchers) == {|watchers| - 1};
    } else {
      assert RunningWatchers(watchers) == {};
    }
  }

  /** TaskFuture: a task and the state of its completion. */
  class WatchFuture {
    const task: Task
    var state: FutureState

    constructor (task: Task)
      ensures this.task == task && state == Pending
    {
      this.task := task;
      state := Pending;
    }
  }

  /** Each registered path is one of the files its future watches. */
  predicate WatchedBy(reg: map<Path, WatchFuture>)
  {
    forall p | p in reg :: p in FilesToWatch(reg[p].task)
  }

  /** `f` is registered on every file it watches. */
  predicate Owns(reg: map<Path, WatchFuture>, f: WatchFuture)
  {
    forall q | q in FilesToWatch(f.task) :: q in reg && reg[q] == f
  }

  // --------------------------------------------------- the watcher's passes

  /** What a pass of the watcher reads and changes: the registry, the futures' states and the tree. */
  datatype Board = Board(reg: map<Path, WatchFuture>, st: map<WatchFuture, FutureState>, fs: Tree)

  /** Every registered future has a state on the board. */
  predicate Closed(b: Board)
  {
    forall p | p in b.reg :: b.reg[p] in b.st
  }

  /** A pending registered future is registered on every file it watches. */
  predicate Holding(b: Board)
  {
    forall p | p in b.reg && b.reg[p] in b.st && b.st[b.reg[p]].Pending? :: Owns(b.reg, b.reg[p])
  }

  /**
   * One visit of a pass at `p`: poll() or cancel(true) on the future
   * registered there, which gives its paths back when the poll completes it
   * or the cancel answers true; an unregistered path changes nothing.
   */
  function Visit(b: Board, p: Path, cancel: bool): Board
  {
    if p in b.reg && b.reg[p] in b.st then
      var f := b.reg[p];
      var (gone, s, fs) :=
        if cancel then CancelTransition(f.task, b.st[f], b.fs)
        else (var (s, fs) := PollTransition(f.task, b.st[f], b.fs); (b.st[f].Pending? && IsDone(s), s, fs));
      Board(if gone then RemoveAllOwned(b.reg, FilesToWatch(f.task), f) else b.reg, b.st[f := s], fs)
    else b
  }

  /** A pass over `order`: one visit per path, in that order. */
  function Pass(b: Board, order: seq<Path>, cancel: bool): Board
    decreases |order|
  {
    if order == [] then b
    else Visit(Pass(b, order[..|order| - 1], cancel), order[|order| - 1], cancel)
  }

  /** The futures a pass reaches, in order: one per visit at a path that is still registered. */
  function Reached(b: Board, order: seq<Path>, cancel: bool): seq<WatchFuture>
    decreases |order|
  {
    if order == [] then []
    else
      var m := Pass(b, order[..|order| - 1], cancel);
      var p := order[|order| - 1];
      Reached(b, order[..|order| - 1], cancel) + (if p in m.reg && m.reg[p] in m.st then [m.reg[p]] else [])
  }

  /** `order` lists each of `keys` exactly once: an iteration over the registry. */
  predicate Enumerates(order: seq<Path>, keys: set<Path>)
  {
    && (forall i, j | 0 <= i < j < |order| :: order[i] != order[j])
    && (forall i | 0 <= i < |order| :: order[i] in keys)
    && (forall p | p in keys :: p in order)
  }

  /**
   * One visit: the registry only shrinks, and when it does, it loses entries
   * of the visited future only; no other future changes; a done future
   * keeps its paths and its state; and a future that stays registered
   * keeps its state, since a state change always gives the paths back.
   */
  lemma VisitFacts(b: Board, p: Path, cancel: bool)
    requires Closed(b) && WatchedBy(b.reg)
    ensures var e := Visit(b, p, cancel);
            && Closed(e) && WatchedBy(e.reg) && e.st.Keys == b.st.Keys
            && (forall q | q in e.reg :: q in b.reg && e.reg[q] == b.reg[q])
            && (p !in b.reg ==> e == b)
            && (p in b.reg ==> forall q | q in b.reg && q !in e.reg :: b.reg[q] == b.reg[p])
            && (forall f | f in b.st && (p !in b.reg || f != b.reg[p]) :: e.st[f] == b.st[f])
            && (forall q | q in b.reg && IsDone(b.st[b.reg[q]]) :: q in e.reg)
            && (forall q | q in e.reg :: e.st[e.reg[q]] == b.st[e.reg[q]])
  {
    if p in b.reg {
      var f := b.reg[p];
      var e := Visit(b, p, cancel);
      if IsDone(b.st[f]) {
        DoneIsFinal(f.task, b.st[f], b.fs);
      }
      if e.reg != b.reg {
        forall q | q in e.reg ensures e.reg[q] != f {
        }
      }
    }
  }

  /** A pass keeps the board closed and watched, and the registry only shrinks. */
  lemma {:induction false} PassShape(b: Board, order: seq<Path>, cancel: bool)
    requires Closed(b) && WatchedBy(b.reg)
    ensures var e := Pass(b, order, cancel);
            && Closed(e) && WatchedBy(e.reg) && e.st.Keys == b.st.Keys
            && (forall q | q in e.reg :: q in b.reg && e.reg[q] == b.reg[q])
    decreases |order|
  {
    if order != [] {
      var n := |order| - 1;
      PassShape(b, order[..n], cancel);
      VisitFacts(Pass(b, order[..n], cancel), order[n], cancel);
    }
  }

  /**
   * The futures a pass reaches: a path leaves the registry only with a
   * future the pass reached; every visited path that was registered reaches
   * its future; only registered futures are reached; and a future the pass
   * did not reach is unchanged.
   */
  lemma {:induction false} PassLog(b: Board, order: seq<Path>, cancel: bool)
    requires Closed(b) && WatchedBy(b.reg)
    ensures var e := Pass(b, order, cancel);
            var log := Reached(b, order, cancel);
            && (forall q | q in b.reg && q !in e.reg :: b.reg[q] in log)
            && (forall i | 0 <= i < |order| && order[i] in b.reg :: b.reg[order[i]] in log)
    decreases |order|
  {
    if order != [] {
      var n := |order| - 1;
      var front := order[..n];
      var p := order[n];
      PassShape(b, front, cancel);
      PassLog(b, front, cancel);
      var m := Pass(b, front, cancel);
      var logf := Reached(b, front, cancel);
      VisitFacts(m, p, cancel);
      var log := Reached(b, order, cancel);
      assert Pass(b, order, cancel) == Visit(m, p, cancel);
      assert log == logf + (if p in m.reg && m.reg[p] in m.st then [m.reg[p]] else []);
      assert order == front + [p];
      PassLogStep(b, m, Pass(b, order, cancel), front, p, logf, log);
    }
  }

  /** The step of PassLog, on the boards before and after the last visit. */
  lemma PassLogStep(b: Board, m: Board, e: Board, front: seq<Path>, p: Path,
                    logf: seq<WatchFuture>, log: seq<WatchFuture>)
    requires Closed(m) && forall q | q in m.reg :: q in b.reg && m.reg[q] == b.reg[q]
    requires forall q | q in b.reg && q !in m.reg :: b.reg[q] in logf
    requires forall i | 0 <= i < |front| && front[i] in b.reg :: b.reg[front[i]] in logf
    requires forall q | q in e.reg :: q in m.reg && e.reg[q] == m.reg[q]
    requires p !in m.reg ==> e == m
    requires p in m.reg ==> forall q | q in m.reg && q !in e.reg :: m.reg[q] == m.reg[p]
    requires log == logf + (if p in m.reg then [m.reg[p]] else [])
    ensures forall q | q in b.reg && q !in e.reg :: b.reg[q] in log
    ensures forall i | 0 <= i < |front + [p]| && (front + [p])[i] in b.reg :: b.reg[(front + [p])[i]] in log
  {
    forall q | q in b.reg && q !in e.reg ensures b.reg[q] in log {
      if q in m.reg {
        assert m.reg[q] == m.reg[p];
      } else {
        assert b.reg[q] in logf;
      }
    }
    forall i | 0 <= i < |front + [p]| && (front + [p])[i] in b.reg ensures b.reg[(front + [p])[i]] in log {
      if i < |front| {
        assert (front + [p])[i] == front[i];
      } else {
        assert (front + [p])[i] == p;
      }
    }
  }

  /** Only registered futures are reached, and a future the pass did not reach is unchanged. */
  lemma {:induction false} PassReachesOnly(b: Board, order: seq<Path>, cancel: bool)
    requires Closed(b) && WatchedBy(b.reg)
    ensures var e := Pass(b, order, cancel);
            var log := Reached(b, order, cancel);
            && (forall f | f in log :: f in b.reg.Values)
            && (forall f | f in b.st && f !in log :: f in e.st && e.st[f] == b.st[f])
    decreases |order|
  {
    if order != [] {
      var n := |order| - 1;
      var front := order[..n];
      var p := order[n];
      PassShape(b, front, cancel);
      PassReachesOnly(b, front, cancel);
      var m := Pass(b, front, cancel);
      var logf := Reached(b, front, cancel);
      VisitFacts(m, p, cancel);
      var log := Reached(b, order, cancel);
      assert Pass(b, order, cancel) == Visit(m, p, cancel);
      assert log == logf + (if p in m.reg && m.reg[p] in m.st then [m.reg[p]] else []);
      forall f | f in log ensures f in b.reg.Values {
        if f !in logf {
          assert f == m.reg[p] && b.reg[p] == f;
        }
      }
    }
  }

  /**
   * A done future keeps its paths and its state through a pass, and a
   * future still registered afterwards keeps the state it had.
   */
  lemma {:induction false} PassKeeps(b: Board, order: seq<Path>, cancel: bool)
    requires Closed(b) && WatchedBy(b.reg)
    ensures var e := Pass(b, order, cancel);
            && (forall q | q in b.reg && IsDone(b.st[b.reg[q]]) ::
                  q in e.reg && e.reg[q] == b.reg[q] && b.reg[q] in e.st && e.st[b.reg[q]] == b.st[b.reg[q]])
            && (forall q | q in e.reg ::
                  q in b.reg && e.reg[q] == b.reg[q] && e.reg[q] in e.st && e.st[e.reg[q]] == b.st[b.reg[q]])
    decreases |order|
  {
    PassShape(b, order, cancel);
    if order != [] {
      var n := |order| - 1;
      PassShape(b, order[..n], cancel);
      PassKeeps(b, order[..n], cancel);
      VisitFacts(Pass(b, order[..n], cancel), order[n], cancel);
    }
  }

  /** A pass over an iteration of the registry reaches exactly the registered futures. */
  lemma PassReachesEvery(b: Board, order: seq<Path>, cancel: bool)
    requires Closed(b) && WatchedBy(b.reg) && Enumerates(order, b.reg.Keys)
    ensures forall f :: f in Reached(b, order, cancel) <==> f in b.reg.Values
  {
    PassLog(b, order, cancel);
    PassReachesOnly(b, order, cancel);
    forall f | f in b.reg.Values ensures f in Reached(b, order, cancel) {
      var q :| q in b.reg && b.reg[q] == f;
      var i :| 0 <= i < |order| && order[i] == q;
    }
  }

  /**
   * The cancel-all over an iteration of the registry offers cancel(true) to
   * every registered future; a future still registered afterwards is one
   * whose cancel answered false every time, so its state is the one it had:
   * its abort was refused, or it had already failed its registration.
   */
  lemma CancelAllLeaves(b: Board, order: seq<Path>)
    requires Closed(b) && WatchedBy(b.reg) && Enumerates(order, b.reg.Keys)
    ensures forall p | p in b.reg :: b.reg[p] in Reached(b, order, true)
    ensures var e := Pass(b, order, true);
            forall p | p in e.reg :: p in b.reg && e.reg[p] == b.reg[p] && e.reg[p] in e.st && e.st[e.reg[p]] == b.st[b.reg[p]]
  {
    PassReachesEvery(b, order, true);
    PassShape(b, order, true);
    PassKeeps(b, order, true);
  }

  /**
   * A future that failed its registration is never unregistered: a pass,
   * poll or cancel, leaves every one of its paths registered, so a later
   * request on the same file fails as a duplicate.
   */
  lemma ClashedFutureKeepsPaths(b: Board, order: seq<Path>, cancel: bool, p: Path)
    requires Closed(b) && WatchedBy(b.reg)
    requires p in b.reg && IsDone(b.st[b.reg[p]])
    ensures p in Pass(b, order, cancel).reg && Pass(b, order, cancel).reg[p] == b.reg[p]
  {
    PassKeeps(b, order, cancel);
  }

  /** An entry event on any file a pending future watches polls that future. */
  lemma EntryEventPollsOwner(b: Board, dir: Path, name: string, p: Path)
    requires Closed(b) && Holding(b)
    requires p in b.reg && b.st[b.reg[p]].Pending? && Resolve(dir, name) in FilesToWatch(b.reg[p].task)
    ensures OnEvent(b, dir, EntryEvent(name), []) == Visit(b, p, false)
  {
    var q := Resolve(dir, name);
    assert Owns(b.reg, b.reg[p]);
    assert q in b.reg && b.reg[q] == b.reg[p];
  }

  /** One event of a key: an overflow is a pollAll over `order`, any other event polls dir/name. */
  function OnEvent(b: Board, dir: Path, e: WatchEvent, order: seq<Path>): Board
  {
    match e
    case Overflow => Pass(b, order, false)
    case EntryEvent(name) => Visit(b, Resolve(dir, name), false)
  }

  /** The events of one key in turn, `orders[i]` being the iteration of the i-th event's pollAll. */
  function OnEvents(b: Board, dir: Path, events: seq<WatchEvent>, orders: seq<seq<Path>>): Board
    requires |orders| == |events|
    decreases |events|
  {
    if events == [] then b
    else
      var n := |events| - 1;
      OnEvent(OnEvents(b, dir, events[..n], orders[..n]), dir, events[n], orders[n])
  }

  /** Each overflow's pollAll iterates over the registry as that event found it. */
  predicate EventsEnumerated(b: Board, dir: Path, events: seq<WatchEvent>, orders: seq<seq<Path>>)
    requires |orders| == |events|
    decreases |events|
  {
    events == [] ||
    var n := |events| - 1;
    && EventsEnumerated(b, dir, events[..n], orders[..n])
    && (events[n].Overflow? ==> Enumerates(orders[n], OnEvents(b, dir, events[..n], orders[..n]).reg.Keys))
  }

  /** One iteration order per event of each key. */
  predicate KeysFit(keys: seq<WatchKey>, orders: seq<seq<seq<Path>>>)
  {
    |orders| == |keys| && forall i | 0 <= i < |keys| :: |orders[i]| == |keys[i].events|
  }

  /** The keys in turn, each with its events. */
  function OnKeys(b: Board, keys: seq<WatchKey>, orders: seq<seq<seq<Path>>>): Board
    requires KeysFit(keys, orders)
    decreases |keys|
  {
    if keys == [] then b
    else
      var n := |keys| - 1;
      OnEvents(OnKeys(b, keys[..n], orders[..n]), keys[n].dir, keys[n].events, orders[n])
  }

  predicate KeysEnumerated(b: Board, keys: seq<WatchKey>, orders: seq<seq<seq<Path>>>)
    requires KeysFit(keys, orders)
    decreases |keys|
  {
    keys == [] ||
    var n := |keys| - 1;
    && KeysEnumerated(b, keys[..n], orders[..n])
    && EventsEnumerated(OnKeys(b, keys[..n], orders[..n]), keys[n].dir, keys[n].events, orders[n])
  }

  /** The board when the watcher leaves its loop: after the initial pollAll and the keys, if it got that far. */
  function BeforeExit(b: Board, active: bool, keys: seq<WatchKey>, first: seq<Path>, orders: seq<seq<seq<Path>>>): Board
    requires active ==> KeysFit(keys, orders)
  {
    if active then OnKeys(Pass(b, first, false), keys, orders) else b
  }

  /**
   * WatchTask.run on a board: when active, an initial pollAll over `first`
   * and then the keys; in every case the cancel-all over `last` at the end.
   */
  function WatchRun(b: Board, active: bool, keys: seq<WatchKey>, first: seq<Path>,
                    orders: seq<seq<seq<Path>>>, last: seq<Path>): Board
    requires active ==> KeysFit(keys, orders)
  {
    Pass(BeforeExit(b, active, keys, first, orders), last, true)
  }

  /** Every pass of the run iterates over the registry as it found it. */
  predicate RunEnumerated(b: Board, active: bool, keys: seq<WatchKey>, first: seq<Path>,
                          orders: seq<seq<seq<Path>>>, last: seq<Path>)
    requires active ==> KeysFit(keys, orders)
  {
    && (active ==> Enumerates(first, b.reg.Keys) && KeysEnumerated(Pass(b, first, false), keys, orders))
    && Enumerates(last, BeforeExit(b, active, keys, first, orders).reg.Keys)
  }

  /** An iteration over a set of paths: each of them once, in an order the set does not fix. */
  method Enumerate(keys: set<Path>) returns (order: seq<Path>)
    ensures Enumerates(order, keys)
  {
    var rest := keys;
    order := [];
    while rest != {}
      invariant rest <= keys
      invariant forall i | 0 <= i < |order| :: order[i] in keys && order[i] !in rest
      invariant forall i, j | 0 <= i < j < |order| :: order[i] != order[j]
      invariant forall p | p in keys && p !in rest :: p in order
      decreases rest
    {
      var p :| p in rest;
      rest := rest - {p};
      order := order + [p];
    }
  }

  /** The states of the futures of `V`. */
  ghost function StatesOf(V: set<WatchFuture>): map<WatchFuture, FutureState>
    reads V
  {
    map f | f in V :: f.state
  }

  class WatchingStorage {
    const base: EnditStorage<WatchFuture>
    var tasks: map<Path, WatchFuture>
    /** Every watch task submitted so far, in order; true while it has not been cancelled. */
    var watchers: seq<bool>
    var executorLive: bool

    function Futures(): set<WatchFuture>
      reads this
    {
      set p | p in tasks :: tasks[p]
    }

    /**
     * A future is registered only on paths it watches, only while pending or
     * after failing its registration, and while pending on every path it
     * watches; only the latest watcher may run, and only while the executor
     * accepts work.
     */
    predicate Valid()
      reads this, Futures()
    {
      && WatchedBy(tasks)
      && (forall p | p in tasks :: Registrable(tasks[p].state))
      && (forall p | p in tasks && tasks[p].state.Pending? :: Owns(tasks, tasks[p]))
      && OnlyLastRunning(watchers)
      && (|watchers| > 0 && watchers[|watchers| - 1] ==> executorLive)
    }

    /** The board of this engine, with the states of the futures in `V`. */
    ghost function Now(V: set<WatchFuture>): Board
      reads this, V, base.store
    {
      Board(tasks, StatesOf(V), base.store.entries)
    }

    /** The engine's invariant seen on its board. */
    lemma ValidBoard(V: set<WatchFuture>)
      requires Valid() && Futures() <= V
      ensures Closed(Now(V)) && WatchedBy(Now(V).reg) && Holding(Now(V))
    {
      forall p | p in tasks ensures tasks[p] in V {
        assert tasks[p] in Futures();
      }
    }

    constructor (storageType: string, storageName: string, store: FileStore)
      ensures Valid() && tasks == map[] && watchers == [] && executorLive
      ensures base.storageType == storageType && base.storageName == storageName && base.store == store
      ensures base.ledger.tasks == map[] && base.Directories() == None
    {
      var ledger := new Ledger<WatchFuture>();
      base := new EnditStorage(storageType, storageName, ledger, store);
      tasks := map[];
      watchers := [];
      executorLive := true;
    }

    /** schedule(task): a new future that registers itself on the task's files. */
    method Schedule(task: Task) returns (f: WatchFuture)
      requires Valid()
      modifies this
      ensures Valid() && fresh(f) && f.task == task
      ensures var (m, clash) := PutAllIfAbsent(old(tasks), FilesToWatch(task), f);
              && tasks == m
              && f.state == if clash.None? then Pending else Failed(Thrown(IllegalState(DuplicateMessage(clash.value)), []))
      ensures watchers == old(watchers) && executorLive == old(executorLive)
    {
      f := new WatchFuture(task);
      var paths := FilesToWatch(task);
      var clash: Option<Path> := None;
      var i := 0;
      while i < |paths|
        invariant 0 <= i <= |paths|
        invariant (tasks, clash) == PutAllIfAbsent(old(tasks), paths[..i], f)
        invariant f.state == if clash.None? then Pending else Failed(Thrown(IllegalState(DuplicateMessage(clash.value)), []))
        invariant watchers == old(watchers) && executorLive == old(executorLive)
      {
        assert paths[..i + 1][..i] == paths[..i];
        var p := paths[i];
        if p in tasks {
          if clash.None? {
            clash := Some(p);
            f.state := Failed(Thrown(IllegalState(DuplicateMessage(p)), []));
          }
        } else {
          tasks := tasks[p := f];
        }
        i := i + 1;
      }
      assert paths[..i] == paths;
      PutAllIfAbsentEntries(old(tasks), paths, f);
      forall p | p in tasks ensures p in FilesToWatch(tasks[p].task) && Registrable(tasks[p].state) {
        if p !in old(tasks) {
          var j :| 0 <= j < |paths| && paths[j] == p;
        }
      }
      forall p | p in tasks && tasks[p].state.Pending? ensures Owns(tasks, tasks[p]) {
        if p in old(tasks) {
          assert old(tasks)[p] in old(Futures());
          assert Owns(old(tasks), old(tasks)[p]);
        } else {
          forall q | q in paths ensures q in tasks && tasks[q] == f {
            var j :| 0 <= j < |paths| && paths[j] == q;
            assert !Clashes(old(tasks), paths, j);
          }
        }
      }
    }

    /** unregister: remove(path, f) for each path the task watches. */
    method Unregister(f: WatchFuture)
      requires Valid()
      modifies this
      ensures tasks == RemoveAllOwned(old(tasks), FilesToWatch(f.task), f)
      ensures forall p | p in tasks :: tasks[p] != f
      ensures Valid()
      ensures watchers == old(watchers) && executorLive == old(executorLive)
    {
      var paths := FilesToWatch(f.task);
      for i := 0 to |paths|
        invariant tasks == RemoveAllOwned(old(tasks), paths[..i], f)
        invariant watchers == old(watchers) && executorLive == old(executorLive)
      {
        RemoveAllOwnedStep(old(tasks), paths[..i], paths[i], f);
        assert paths[..i + 1] == paths[..i] + [paths[i]];
        if paths[i] in tasks && tasks[paths[i]] == f {
          tasks := tasks - {paths[i]};
        }
      }
      assert paths[..|paths|] == paths;
      forall p | p in tasks && tasks[p].state.Pending? ensures Owns(tasks, tasks[p]) {
        assert old(tasks)[p] in old(Futures());
        assert Owns(old(tasks), old(tasks)[p]);
      }
    }

    /**
     * TaskFuture.poll: nothing once done; a result or an exception completes
     * the future and gives its paths back; no result leaves everything but
     * what the task's poll did to the tree unchanged.
     */
    method Poll(f: WatchFuture)
      requires Valid()
      modifies this, f, base.store
      ensures Valid()
      ensures (f.state, base.store.entries) == PollTransition(f.task, old(f.state), old(base.store.entries))
      ensures tasks == if old(f.state).Pending? && IsDone(f.state)
                       then RemoveAllOwned(old(tasks), FilesToWatch(f.task), f) else old(tasks)
      ensures watchers == old(watchers) && executorLive == old(executorLive)
    {
      var next := PollFuture(f.task, f.state, base.store);
      if f.state.Pending? && IsDone(next) {
        Unregister(f);
      }
      f.state := next;
    }

    /**
     * TaskFuture.cancel: false once done or when the abort is refused (the
     * future stays registered); true when the future was cancelled or failed
     * by its abort, and then its paths are given back.
     */
    method Cancel(f: WatchFuture) returns (cancelled: bool)
      requires Valid()
      modifies this, f, base.store
      ensures Valid()
      ensures (cancelled, f.state, base.store.entries) == CancelTransition(f.task, old(f.state), old(base.store.entries))
      ensures tasks == if cancelled then RemoveAllOwned(old(tasks), FilesToWatch(f.task), f) else old(tasks)
      ensures watchers == old(watchers) && executorLive == old(executorLive)
    {
      var next;
      cancelled, next := CancelFuture(f.task, f.state, base.store);
      if cancelled {
        Unregister(f);
      }
      f.state := next;
    }

    /**
     * poll(path), or one step of the cancel-all: a visit at `p`, polling or
     * cancelling the future registered there; an unregistered path is a
     * no-op. `V` holds every future the enclosing pass may reach.
     */
    method VisitPath(p: Path, cancel: bool, ghost V: set<WatchFuture>)
      requires Valid() && Futures() <= V
      modifies this, base.store, if p in tasks then {tasks[p]} else {}
      ensures Valid() && Futures() <= V
      ensures Now(V) == Visit(old(Now(V)), p, cancel)
      ensures watchers == old(watchers) && executorLive == old(executorLive)
    {
      if p in tasks {
        var f := tasks[p];
        assert f in Futures();
        ghost var b := Now(V);
        if cancel {
          var cancelled := Cancel(f);
        } else {
          Poll(f);
        }
        assert StatesOf(V) == b.st[f := f.state];
        forall q | q in tasks ensures tasks[q] in V {
          assert old(tasks)[q] in old(Futures());
        }
      }
    }

    /**
     * pollAll, or the cancel-all of the watcher's exit: one visit at every
     * registered path, in the registry's iteration order `order`.
     */
    method VisitAll(cancel: bool, ghost V: set<WatchFuture>) returns (ghost order: seq<Path>)
      requires Valid() && Futures() <= V
      modifies this, base.store, V
      ensures Valid() && Futures() <= V
      ensures Enumerates(order, old(tasks).Keys)
      ensures Now(V) == Pass(old(Now(V)), order, cancel)
      ensures watchers == old(watchers) && executorLive == old(executorLive)
    {
      ghost var b0 := Now(V);
      var paths := Enumerate(tasks.Keys);
      for i := 0 to |paths|
        invariant Valid() && Futures() <= V
        invariant Now(V) == Pass(b0, paths[..i], cancel)
        invariant watchers == old(watchers) && executorLive == old(executorLive)
      {
        VisitPath(paths[i], cancel, V);
        assert paths[..i + 1][..i] == paths[..i];
      }
      assert paths[..|paths|] == paths;
      order := paths;
    }

    /** One event of a key: an overflow polls every future, any other event the future of dir/name. */
    method HandleEvent(dir: Path, event: WatchEvent, ghost V: set<WatchFuture>) returns (ghost order: seq<Path>)
      requires Valid() && Futures() <= V
      modifies this, base.store, V
      ensures Valid() && Futures() <= V
      ensures event.Overflow? ==> Enumerates(order, old(tasks).Keys)
      ensures Now(V) == OnEvent(old(Now(V)), dir, event, order)
      ensures watchers == old(watchers) && executorLive == old(executorLive)
    {
      match event
      case Overflow =>
        order := VisitAll(false, V);
      case EntryEvent(name) =>
        order := [];
        VisitPath(Resolve(dir, name), false, V);
    }

    /** The events of one watch key, in order. */
    method HandleKey(key: WatchKey, ghost V: set<WatchFuture>) returns (ghost orders: seq<seq<Path>>)
      requires Valid() && Futures() <= V
      modifies this, base.store, V
      ensures Valid() && Futures() <= V
      ensures |orders| == |key.events|
      ensures EventsEnumerated(old(Now(V)), key.dir, key.events, orders)
      ensures Now(V) == OnEvents(old(Now(V)), key.dir, key.events, orders)
      ensures watchers == old(watchers) && executorLive == old(executorLive)
    {
      ghost var b0 := Now(V);
      orders := [];
      for i := 0 to |key.events|
        invariant Valid() && Futures() <= V
        invariant |orders| == i
        invariant EventsEnumerated(b0, key.dir, key.events[..i], orders)
        invariant Now(V) == OnEvents(b0, key.dir, key.events[..i], orders)
        invariant watchers == old(watchers) && executorLive == old(executorLive)
      {
        var o := HandleEvent(key.dir, key.events[i], V);
        assert key.events[..i + 1][..i] == key.events[..i];
        assert (orders + [o])[..i] == orders;
        orders := orders + [o];
      }
      assert key.events[..|key.events|] == key.events;
    }

    /** The watcher's loop: the keys the watch service delivers, in order. */
    method HandleKeys(keys: seq<WatchKey>, ghost V: set<WatchFuture>) returns (ghost orders: seq<seq<seq<Path>>>)
      requires Valid() && Futures() <= V
      modifies this, base.store, V
      ensures Valid() && Futures() <= V
      ensures KeysFit(keys, orders)
      ensures KeysEnumerated(old(Now(V)), keys, orders)
      ensures Now(V) == OnKeys(old(Now(V)), keys, orders)
      ensures watchers == old(watchers) && executorLive == old(executorLive)
    {
      ghost var b0 := Now(V);
      orders := [];
      for i := 0 to |keys|
        invariant Valid() && Futures() <= V
        invariant KeysFit(keys[..i], orders)
        invariant KeysEnumerated(b0, keys[..i], orders)
        invariant Now(V) == OnKeys(b0, keys[..i], orders)
        invariant watchers == old(watchers) && executorLive == old(executorLive)
      {
        var o := HandleKey(keys[i], V);
        assert keys[..i + 1][..i] == keys[..i];
        assert (orders + [o])[..i] == orders;
        orders := orders + [o];
      }
      assert keys[..|keys|] == keys;
    }

    /**
     * WatchTask.run, with the watch service's keys up to the interrupt given
     * as `keys`: when the three directories are set and could be registered
     * with the watch service, an initial pollAll and then the keys; in every
     * case the cancel-all on exit. `first`, `orders` and `last` are the
     * iteration orders of the passes.
     */
    method RunWatcher(registered: bool, keys: seq<WatchKey>)
      returns (ghost first: seq<Path>, ghost orders: seq<seq<seq<Path>>>, ghost last: seq<Path>)
      requires Valid()
      modifies this, base.store, Futures()
      ensures Valid()
      ensures var active := base.outDir.Some? && base.inDir.Some? && base.requestDir.Some? && registered;
              && (active ==> KeysFit(keys, orders))
              && RunEnumerated(old(Now(Futures())), active, keys, first, orders, last)
              && Now(old(Futures())) == WatchRun(old(Now(Futures())), active, keys, first, orders, last)
      ensures watchers == old(watchers) && executorLive == old(executorLive)
    {
      ghost var V := Futures();
      ghost var b0 := Now(V);
      var active := base.outDir.Some? && base.inDir.Some? && base.requestDir.Some? && registered;
      first, orders := [], [];
      if active {
        first := VisitAll(false, V);
        orders := HandleKeys(keys, V);
      }
      last := VisitAll(true, V);
    }

    /** The listener side of cancel(uuid): the future of a known request is cancelled. */
    method CancelRequest(id: Uuid) returns (cancelled: Option<bool>)
      requires Valid()
      modifies this, base.store, if id in base.ledger.tasks then {base.ledger.tasks[id]} else {}
      ensures Valid()
      ensures id !in base.ledger.tasks <==> cancelled.None?
      ensures id !in base.ledger.tasks ==> tasks == old(tasks) && base.store.entries == old(base.store.entries)
      ensures id in base.ledger.tasks ==>
                var f := base.ledger.tasks[id];
                && (cancelled.value, f.state, base.store.entries) == CancelTransition(f.task, old(f.state), old(base.store.entries))
                && tasks == if cancelled.value then RemoveAllOwned(old(tasks), FilesToWatch(f.task), f) else old(tasks)
      ensures watchers == old(watchers) && executorLive == old(executorLive)
    {
      var target := base.ledger.Cancel(id);
      if target.Some? {
        var c := Cancel(target.value);
        cancelled := Some(c);
      } else {
        cancelled := None;
      }
    }

    /** start: submits the watcher unless one was submitted before. */
    method Start() returns (r: Result<(), Failure>)
      requires Valid()
      modifies this
      ensures Valid()
      ensures old(watchers) != [] ==> r.Ok? && watchers == old(watchers)
      ensures old(watchers) == [] && executorLive ==> r.Ok? && watchers == [true]
      ensures old(watchers) == [] && !executorLive ==> r == Err(RejectedExecution) && watchers == []
      ensures tasks == old(tasks) && executorLive == old(executorLive)
    {
      if watchers == [] {
        if !executorLive {
          return Err(RejectedExecution);
        }
        watchers := [true];
      }
      r := Ok(());
    }

    /** shutdown: cancels the watcher, if any, and stops the executor. */
    method Shutdown()
      requires Valid()
      modifies this
      ensures Valid() && !executorLive && RunningWatchers(watchers) == {}
      ensures |watchers| == |old(watchers)|
      ensures forall i | 0 <= i < |watchers| - 1 :: watchers[i] == old(watchers)[i]
      ensures tasks == old(tasks)
    {
      if watchers != [] {
        watchers := watchers[|watchers| - 1 := false];
      }
      executorLive := false;
      AtMostOneWatcher(watchers);
      assert forall i | i in RunningWatchers(watchers) :: false;
    }

    /**
     * configure: the shared configure, and then, if a watcher was ever
     * submitted, a cancel of it and a fresh submission, which a shut-down
     * executor rejects.
     */
    method Configure(properties: map<string, string>) returns (r: Result<(), Failure>)
      requires Valid()
      modifies this, base, base.store
      ensures Valid()
      ensures !ConfigureAccepted(base.ledger.HasTasks(), old(base.store.entries), properties) ==>
                r.Err? && watchers == old(watchers) && base.Directories() == old(base.Directories())
      ensures ConfigureAccepted(base.ledger.HasTasks(), old(base.store.entries), properties) ==>
                && base.Directories() == Some(CheckLayout(old(base.store.entries), properties).value)
                && (old(watchers) == [] ==> r.Ok? && watchers == [])
                && (old(watchers) != [] && executorLive ==>
                      r.Ok? && watchers == old(watchers)[|old(watchers)| - 1 := false] + [true])
                && (old(watchers) != [] && !executorLive ==>
                      r == Err(RejectedExecution) && watchers == old(watchers)[|old(watchers)| - 1 := false])
      ensures base.ledger.HasTasks() ==> r == Err(IllegalState(BusyMessage))
      ensures !base.ledger.HasTasks() && CheckLayout(old(base.store.entries), properties).Err? ==>
                r == Err(CheckLayout(old(base.store.entries), properties).error)
      ensures !base.ledger.HasTasks() && CheckLayout(old(base.store.entries), properties).Ok? &&
              !Purgeable(old(base.store.entries), CheckLayout(old(base.store.entries), properties).value.requestDir) ==>
                r.Err? && r.error.Propagated?
      ensures ConfigureLeaves(base.ledger.HasTasks(), old(base.store.entries), base.store.entries, properties)
      ensures tasks == old(tasks) && executorLive == old(executorLive)
    {
      r := base.Configure(properties);
      if r.Err? {
        return;
      }
      if watchers != [] {
        watchers := watchers[|watchers| - 1 := false];
        if !executorLive {
          return Err(RejectedExecution);
        }
        watchers := watchers + [true];
      }
    }
  }
}
