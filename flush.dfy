/**
 * FlushTask: migrating a file to tape. The engine hard-links the pool file
 * as out/<name>; the daemon deletes that link once the file is on tape, and
 * the flush then reports the file's tape locator.
 */
module FlushTasks {
  import opened Wrappers
  import opened Fs
  import opened Failures
  import opened Locators

  /** What the pool asks for: the pool file and the file's id. */
  datatype FlushRequest = FlushRequest(file: Path, pnfsId: string)

  datatype FlushTask = FlushTask(outFile: Path, file: Path, pnfsId: string, storageType: string, storageName: string)

  /** The FlushTask constructor: the out-file is out/<name of the pool file>. */
  function NewFlushTask(request: FlushRequest, outDir: Path, storageType: string, storageName: string): (t: FlushTask)
    ensures t.file == request.file && t.pnfsId == request.pnfsId
    ensures t.storageType == storageType && t.storageName == storageName
  {
    FlushTask(Resolve(outDir, FileName(request.file)), request.file, request.pnfsId, storageType, storageName)
  }

  /** getFilesToWatch. */
  function FilesToWatch(t: FlushTask): seq<Path>
  {
    [t.outFile]
  }

  /** The out-file sits directly in the out directory under the pool file's own name, and is the only watched path. */
  lemma FlushPaths(request: FlushRequest, outDir: Path, storageType: string, storageName: string)
    requires request.file != [] && FileName(request.file) != ""
    ensures var t := NewFlushTask(request, outDir, storageType, storageName);
            && t.outFile == outDir + [request.file[|request.file| - 1]]
            && IsChild(outDir, t.outFile)
            && FilesToWatch(t) == [t.outFile]
  {
    var t := NewFlushTask(request, outDir, storageType, storageName);
    assert t.outFile[..|outDir|] == outDir;
  }

  /** start: create the link; an out-file that already exists is tolerated. */
  function StartStep(t: FlushTask, fs: Tree): (Result<(), Failure>, Tree)
  {
    var (l, fs1) := LinkStep(fs, t.outFile, t.file);
    if l.Err? && l.error.FileAlreadyExists? then (Ok(()), fs1)
    else if l.Err? then (Err(IO(l.error)), fs1)
    else (Ok(()), fs1)
  }

  /**
   * An existing out-file is left as it is and start succeeds; otherwise the
   * out-file becomes a link to the pool file, or start fails and changes
   * nothing when the pool file is not a regular file.
   */
  lemma StartLinks(t: FlushTask, fs: Tree)
    ensures t.outFile in fs ==> StartStep(t, fs) == (Ok(()), fs)
    ensures t.outFile !in fs && IsRegularFile(fs, t.file) ==> StartStep(t, fs) == (Ok(()), fs[t.outFile := fs[t.file]])
    ensures t.outFile !in fs && !IsRegularFile(fs, t.file) ==> StartStep(t, fs).0.Err? && StartStep(t, fs).1 == fs
  {
  }

  /** poll: only reads the tree; the out-file's disappearance means the file is on tape. */
  function Poll(t: FlushTask, fs: Tree): PollOutcome<set<Uri>>
  {
    if t.outFile !in fs then
      match FlushLocator(t.storageType, t.storageName, t.pnfsId)
      case Ok(u) => Done({u})
      case Err(e) => Threw(e)
    else NotYet
  }

  /**
   * While the out-file exists there is no result; once it is gone the result
   * is the single locator type://name?bfid=id, or a URISyntaxException when
   * the storage type is not a valid scheme.
   */
  lemma PollLocator(t: FlushTask, fs: Tree)
    ensures t.outFile in fs ==> Poll(t, fs) == NotYet
    ensures t.outFile !in fs && ValidScheme(t.storageType) ==>
              Poll(t, fs) == Done({Uri(Some(t.storageType), Some(t.storageName), "", Some("bfid=" + t.pnfsId), None)})
    ensures t.outFile !in fs && ValidScheme(t.storageType) ==>
              forall u | u in Poll(t, fs).result :: ToAscii(u) == t.storageType + "://" + t.storageName + "?bfid=" + t.pnfsId
    ensures t.outFile !in fs && !ValidScheme(t.storageType) ==> Poll(t, fs).Threw? && Poll(t, fs).failure.URISyntax?
  {
    if t.outFile !in fs && ValidScheme(t.storageType) {
      FlushLocatorText(t.storageType, t.storageName, t.pnfsId);
    }
  }

  /** A failed poll never reports an EnditException. */
  lemma PollNeverEndit(t: FlushTask, fs: Tree)
    ensures Poll(t, fs).Threw? ==> !Poll(t, fs).failure.Endit?
  {
  }

  /** abort: delete the out-file, so that the daemon no longer sees the request. */
  function AbortStep(t: FlushTask, fs: Tree): (Result<bool, Failure>, Tree)
  {
    var (d, fs1) := DeleteStep(fs, t.outFile);
    if d.Err? then (Err(IO(d.error)), fs1) else (Ok(d.value), fs1)
  }

  /** abort answers true exactly when the out-file existed, and afterwards it is gone; a repeated abort answers false. */
  lemma AbortIff(t: FlushTask, fs: Tree)
    requires !(IsDirectory(fs, t.outFile) && HasChildren(fs, t.outFile))
    ensures AbortStep(t, fs) == (Ok(t.outFile in fs), fs - {t.outFile})
    ensures AbortStep(t, AbortStep(t, fs).1) == (Ok(false), AbortStep(t, fs).1)
  {
    assert t.outFile !in fs - {t.outFile};
  }

  method Start(t: FlushTask, store: FileStore) returns (r: Result<(), Failure>)
    modifies store
    ensures (r, store.entries) == StartStep(t, old(store.entries))
  {
    var l := store.CreateLink(t.outFile, t.file);
    if l.Err? && l.error.FileAlreadyExists? {
      r := Ok(());
    } else if l.Err? {
      r := Err(IO(l.error));
    } else {
      r := Ok(());
    }
  }

  method Abort(t: FlushTask, store: FileStore) returns (r: Result<bool, Failure>)
    modifies store
    ensures (r, store.entries) == AbortStep(t, old(store.entries))
  {
    var d := store.DeleteIfExists(t.outFile);
    r := if d.Err? then Err(IO(d.error)) else Ok(d.value);
  }
}
