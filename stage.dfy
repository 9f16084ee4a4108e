/**
 * StageTask: recalling a file from tape. The engine writes request/<id>; the
 * daemon answers by writing in/<id> (the file's contents) or request/<id>.err
 * (an error report). Each step is a function from the old tree to the outcome
 * and the new tree, and a method on the shared FileStore that performs the
 * same file operations one by one and is proved to agree with the function.
 */
module StageTasks {
  import opened Wrappers
  import opened Text
  import opened Fs
  import opened Failures

  /** A checksum of a staged file; a stage here never reports one. */
  datatype Checksum = Checksum(kind: string, value: string)

  /** What the pool asks for: the destination file, the file's id and its size in bytes. */
  datatype StageRequest = StageRequest(file: Path, pnfsId: string, size: nat)

  datatype StageTask = StageTask(file: Path, inFile: Path, errorFile: Path, requestFile: Path, size: nat)

  /** The StageTask constructor: in/<id>, request/<id>.err and request/<id>. */
  function NewStageTask(request: StageRequest, requestDir: Path, inDir: Path): (t: StageTask)
    ensures t.file == request.file && t.size == request.size
  {
    StageTask(request.file,
              Resolve(inDir, request.pnfsId),
              Resolve(requestDir, request.pnfsId + ".err"),
              Resolve(requestDir, request.pnfsId),
              request.size)
  }

  /** getFilesToWatch. */
  function FilesToWatch(t: StageTask): seq<Path>
  {
    [t.errorFile, t.inFile]
  }

  /** The derived paths are the id inside each directory, and none of them coincide. */
  lemma StagePaths(request: StageRequest, requestDir: Path, inDir: Path)
    requires request.pnfsId != "" && requestDir != inDir
    ensures var t := NewStageTask(request, requestDir, inDir);
            && t.inFile == inDir + [request.pnfsId]
            && t.errorFile == requestDir + [request.pnfsId + ".err"]
            && t.requestFile == requestDir + [request.pnfsId]
            && t.inFile != t.errorFile && t.inFile != t.requestFile && t.errorFile != t.requestFile
            && FilesToWatch(t) == [t.errorFile, t.inFile]
  {
    var t := NewStageTask(request, requestDir, inDir);
    var id := request.pnfsId;
    assert (inDir + [id])[..|inDir|] == inDir;
    assert (requestDir + [id])[..|requestDir|] == requestDir;
    assert (requestDir + [id + ".err"])[..|requestDir|] == requestDir;
    assert (requestDir + [id])[|requestDir|] == id;
    assert (requestDir + [id + ".err"])[|requestDir|] == id + ".err";
    assert |id + ".err"| == |id| + 4;
  }

  // ------------------------------------------------------------------ start

  /** The request file's contents: the engine's process id and the time in whole seconds. */
  function RequestText(pid: int, nowMillis: nat): string
  {
    IntToString(pid) + " " + IntToString(nowMillis / 1000)
  }

  function StartStep(t: StageTask, pid: int, nowMillis: nat, fs: Tree): (r: (Result<(), Failure>, Tree))
  {
    var (w, fs1) := WriteStep(fs, t.requestFile, RequestText(pid, nowMillis));
    if w.Err? then (Err(IO(w.error)), fs1) else (Ok(()), fs1)
  }

  /** start creates or overwrites request/<id> with "<pid> <seconds>" and touches nothing else. */
  lemma StartWritesRequest(t: StageTask, pid: int, nowMillis: nat, fs: Tree)
    ensures StartStep(t, pid, nowMillis, fs).0.Ok? <==> !IsDirectory(fs, t.requestFile)
    ensures StartStep(t, pid, nowMillis, fs).0.Ok? ==>
              StartStep(t, pid, nowMillis, fs).1 == fs[t.requestFile := Regular(RequestText(pid, nowMillis))]
    ensures StartStep(t, pid, nowMillis, fs).0.Err? ==> StartStep(t, pid, nowMillis, fs).1 == fs
  {
  }

  // ------------------------------------------------------------------- poll

  /** throwError: the error file's lines as a CacheException, with dCache's default code. */
  function ThrowError(lines: seq<string>): (e: Failure)
    ensures e.Cache?
  {
    var (code, message) := ParseErrorLines(lines, DefaultErrorCode);
    Cache(code, message)
  }

  /**
   * poll: an existing error file wins; its lines are read, the three files are
   * deleted whatever the read did (the finally block), and the poll fails. A
   * complete in-file is moved to the destination and the request file is
   * deleted. Otherwise there is no result yet.
   */
  function PollStep(t: StageTask, fs: Tree): (r: (PollOutcome<set<Checksum>>, Tree))
  {
    if t.errorFile in fs then
      var read := ReadAllLines(fs, t.errorFile);
      var (d, fs1) := DeleteAll(fs, [t.inFile, t.errorFile, t.requestFile]);
      if d.Err? then (Threw(IO(d.error)), fs1)
      else if read.Err? then (Threw(IO(read.error)), fs1)
      else (Threw(ThrowError(read.value)), fs1)
    else if IsRegularFile(fs, t.inFile) && |fs[t.inFile].data| == t.size then
      var (m, fs1) := MoveStep(fs, t.inFile, t.file);
      if m.Err? then (Threw(IO(m.error)), fs1)
      else
        var (d, fs2) := DeleteStep(fs1, t.requestFile);
        if d.Err? then (Threw(IO(d.error)), fs2) else (Done({}), fs2)
    else (NotYet, fs)
  }

  /** No one of the three files is a directory that still holds entries. */
  predicate Removable(t: StageTask, fs: Tree)
  {
    forall p | p in [t.inFile, t.errorFile, t.requestFile] :: !(IsDirectory(fs, p) && HasChildren(fs, p))
  }

  /** A non-empty directory of a smaller tree is a non-empty directory of the larger one. */
  lemma SubtreeBlocking(small: Tree, big: Tree, p: Path)
    requires forall q | q in small :: q in big && big[q] == small[q]
    ensures IsDirectory(small, p) && HasChildren(small, p) ==> IsDirectory(big, p) && HasChildren(big, p)
  {
    if HasChildren(small, p) {
      var q :| q in small && IsChild(p, q);
      assert q in big;
    }
  }

  lemma {:induction false} DeleteAllRemovable(fs: Tree, ps: seq<Path>)
    requires forall i | 0 <= i < |ps| :: !(IsDirectory(fs, ps[i]) && HasChildren(fs, ps[i]))
    requires forall i, j | 0 <= i < j < |ps| :: ps[i] != ps[j]
    ensures DeleteAll(fs, ps).0.Ok?
    decreases |ps|
  {
    if ps != [] {
      var fs1 := DeleteStep(fs, ps[0]).1;
      assert fs1 == fs - {ps[0]};
      forall i | 0 <= i < |ps[1..]| ensures !(IsDirectory(fs1, ps[1..][i]) && HasChildren(fs1, ps[1..][i])) {
        assert ps[1..][i] == ps[i + 1];
        SubtreeBlocking(fs1, fs, ps[i + 1]);
      }
      DeleteAllRemovable(fs1, ps[1..]);
    }
  }

  /**
   * An existing error file makes the poll fail, even when a complete in-file
   * is there too; when none of the three files is a non-empty directory, all
   * three are gone afterwards, and a readable error file gives the
   * CacheException parsed from its lines.
   */
  lemma PollErrorCleansUp(t: StageTask, fs: Tree)
    requires t.errorFile in fs
    requires t.inFile != t.errorFile && t.inFile != t.requestFile && t.errorFile != t.requestFile
    ensures PollStep(t, fs).0.Threw?
    ensures Removable(t, fs) ==> PollStep(t, fs).1 == fs - {t.inFile, t.errorFile, t.requestFile}
    ensures Removable(t, fs) && IsRegularFile(fs, t.errorFile) ==>
              PollStep(t, fs).0 == Threw(ThrowError(ReadLines(fs[t.errorFile].data)))
    ensures Removable(t, fs) && !IsRegularFile(fs, t.errorFile) ==>
              PollStep(t, fs).0 == Threw(IO(IsADirectory(t.errorFile)))
  {
    var ps := [t.inFile, t.errorFile, t.requestFile];
    if Removable(t, fs) {
      forall i | 0 <= i < |ps| ensures !(IsDirectory(fs, ps[i]) && HasChildren(fs, ps[i])) {
        assert ps[i] in ps;
      }
      DeleteAllRemovable(fs, ps);
      assert (set i | 0 <= i < |ps| :: ps[i]) == {t.inFile, t.errorFile, t.requestFile} by {
        assert ps[0] == t.inFile && ps[1] == t.errorFile && ps[2] == t.requestFile;
      }
    }
  }

  /** A failed poll never reports an EnditException: the standalone task raises CacheException. */
  lemma PollNeverEndit(t: StageTask, fs: Tree)
    ensures PollStep(t, fs).0.Threw? ==> !PollStep(t, fs).0.failure.Endit?
  {
  }

  /**
   * Without an error file, an in-file of exactly the expected size is moved to
   * the destination, the request file is deleted and the result is the empty
   * set of checksums.
   */
  lemma PollDelivers(t: StageTask, fs: Tree)
    requires t.errorFile !in fs && IsRegularFile(fs, t.inFile) && |fs[t.inFile].data| == t.size
    requires t.file != t.inFile && !IsDirectory(fs, t.file)
    requires t.requestFile != t.file && t.requestFile != t.inFile && !IsDirectory(fs, t.requestFile)
    ensures PollStep(t, fs) == (Done({}), ((fs - {t.inFile})[t.file := fs[t.inFile]]) - {t.requestFile})
  {
    var fs1 := (fs - {t.inFile})[t.file := fs[t.inFile]];
    assert MoveStep(fs, t.inFile, t.file) == (Ok(()), fs1);
    assert !IsDirectory(fs1, t.requestFile);
  }

  /** Without an error file and without a complete in-file, the poll has no result and changes nothing. */
  lemma PollPending(t: StageTask, fs: Tree)
    requires t.errorFile !in fs
    requires !IsRegularFile(fs, t.inFile) || |fs[t.inFile].data| != t.size
    ensures PollStep(t, fs) == (NotYet, fs)
  {
  }

  lemma ThrowErrorExample()
    ensures ThrowError(["42", "reason text"]) == Cache(42, "reason text")
  {
    CreateExample();
  }

  /**
   * throwError splits the lines exactly as EnditException.create does; the
   * two differ only in the code used when the first line is not a number.
   */
  lemma ThrowErrorMatchesCreate(lines: seq<string>)
    ensures ThrowError(lines).message == Create(lines).message
    ensures lines != [] && ParseInt(lines[0]).Some? ==> ThrowError(lines).code == Create(lines).rc
    ensures lines == [] || ParseInt(lines[0]).None? ==>
              ThrowError(lines).code == DefaultErrorCode && Create(lines).rc == 1
  {
  }

  // ------------------------------------------------------------------ abort

  /** abort: only when the request file existed are the error file and the in-file deleted too. */
  function AbortStep(t: StageTask, fs: Tree): (r: (Result<bool, Failure>, Tree))
  {
    var (d, fs1) := DeleteStep(fs, t.requestFile);
    if d.Err? then (Err(IO(d.error)), fs1)
    else if !d.value then (Ok(false), fs1)
    else
      var (e, fs2) := DeleteAll(fs1, [t.errorFile, t.inFile]);
      if e.Err? then (Err(IO(e.error)), fs2) else (Ok(true), fs2)
  }

  /**
   * abort answers true exactly when the request file existed; without one it
   * changes nothing, and with one (and no non-empty directory in the way) the
   * three files are gone.
   */
  lemma AbortIff(t: StageTask, fs: Tree)
    requires t.inFile != t.errorFile && t.inFile != t.requestFile && t.errorFile != t.requestFile
    ensures AbortStep(t, fs).0.Ok? ==> (AbortStep(t, fs).0.value <==> t.requestFile in fs)
    ensures t.requestFile !in fs ==> AbortStep(t, fs) == (Ok(false), fs)
    ensures t.requestFile in fs && Removable(t, fs) ==>
              AbortStep(t, fs) == (Ok(true), fs - {t.inFile, t.errorFile, t.requestFile})
  {
    if t.requestFile in fs && Removable(t, fs) {
      assert t.requestFile in [t.inFile, t.errorFile, t.requestFile];
      var fs1 := fs - {t.requestFile};
      assert DeleteStep(fs, t.requestFile) == (Ok(true), fs1);
      var ps := [t.errorFile, t.inFile];
      forall i | 0 <= i < |ps| ensures !(IsDirectory(fs1, ps[i]) && HasChildren(fs1, ps[i])) {
        assert ps[i] in [t.inFile, t.errorFile, t.requestFile];
        SubtreeBlocking(fs1, fs, ps[i]);
      }
      DeleteAllRemovable(fs1, ps);
      assert (set i | 0 <= i < |ps| :: ps[i]) == {t.errorFile, t.inFile} by {
        assert ps[0] == t.errorFile && ps[1] == t.inFile;
      }
      assert fs1 - {t.errorFile, t.inFile} == fs - {t.inFile, t.errorFile, t.requestFile};
    }
  }

  /** A second abort after a successful one answers false and changes nothing. */
  lemma AbortTwice(t: StageTask, fs: Tree)
    requires AbortStep(t, fs).0 == Ok(true)
    ensures AbortStep(t, AbortStep(t, fs).1) == (Ok(false), AbortStep(t, fs).1)
  {
    var fs1 := DeleteStep(fs, t.requestFile).1;
    assert t.requestFile !in fs1;
    var fs2 := AbortStep(t, fs).1;
    assert fs2 == DeleteAll(fs1, [t.errorFile, t.inFile]).1;
    assert fs2 == fs1 - set i | 0 <= i < 2 :: [t.errorFile, t.inFile][i];
  }

  // -------------------------------------------- the same steps on the store

  method Start(t: StageTask, pid: int, nowMillis: nat, store: FileStore) returns (r: Result<(), Failure>)
    modifies store
    ensures (r, store.entries) == StartStep(t, pid, nowMillis, old(store.entries))
  {
    var w := store.Write(t.requestFile, RequestText(pid, nowMillis));
    r := if w.Err? then Err(IO(w.error)) else Ok(());
  }

  method Poll(t: StageTask, store: FileStore) returns (r: PollOutcome<set<Checksum>>)
    modifies store
    ensures (r, store.entries) == PollStep(t, old(store.entries))
  {
    if t.errorFile in store.entries {
      var read := ReadAllLines(store.entries, t.errorFile);
      var d := store.DeleteEach([t.inFile, t.errorFile, t.requestFile]);
      if d.Err? {
        r := Threw(IO(d.error));
      } else if read.Err? {
        r := Threw(IO(read.error));
      } else {
        r := Threw(ThrowError(read.value));
      }
      return;
    }
    if IsRegularFile(store.entries, t.inFile) && |store.entries[t.inFile].data| == t.size {
      var m := store.Move(t.inFile, t.file);
      if m.Err? {
        r := Threw(IO(m.error));
        return;
      }
      var d := store.DeleteIfExists(t.requestFile);
      r := if d.Err? then Threw(IO(d.error)) else Done({});
      return;
    }
    r := NotYet;
  }

  method Abort(t: StageTask, store: FileStore) returns (r: Result<bool, Failure>)
    modifies store
    ensures (r, store.entries) == AbortStep(t, old(store.entries))
  {
    var d := store.DeleteIfExists(t.requestFile);
    if d.Err? {
      r := Err(IO(d.error));
    } else if !d.value {
      r := Ok(false);
    } else {
      var e := store.DeleteEach([t.errorFile, t.inFile]);
      r := if e.Err? then Err(IO(e.error)) else Ok(true);
    }
  }
}
