/**
 * AbstractEnditNearlineStorage: the state both current engine variants share
 * (storage type and name, the request ledger, the four directories) and
 * configure, which refuses while requests are outstanding, checks the
 * directory layout, empties request/ and only then adopts the directories.
 */
module AbstractStorage {
  import opened Wrappers
  import opened Fs
  import opened Failures
  import opened Listening

  const BusyMessage: string := "The nearline storage is busy and cannot be reconfigured."
  const MissingDirectoryMessage: string := "conf attribute is required"

  /** The directories below the configured root. */
  datatype Layout = Layout(requestDir: Path, outDir: Path, inDir: Path, trashDir: Path)

  function LayoutOf(root: Path): (l: Layout)
  {
    Layout(Resolve(root, "request"), Resolve(root, "out"), Resolve(root, "in"), Resolve(root, "trash"))
  }

  /** The message of a failed directory check: the path's text and " is not a directory.". */
  function NotADirectory(p: Path): Failure
  {
    IllegalArgument(PathText(p) + " is not a directory.")
  }

  /** The checks of configure before the purge, in the order the source makes them. */
  function CheckLayout(fs: Tree, properties: map<string, string>): Result<Layout, Failure>
  {
    if "directory" !in properties then Err(IllegalArgument(MissingDirectoryMessage))
    else
      var root := PathOf(properties["directory"]);
      var l := LayoutOf(root);
      if !IsDirectory(fs, root) then Err(NotADirectory(root))
      else if !IsDirectory(fs, l.requestDir) then Err(NotADirectory(l.requestDir))
      else if !IsDirectory(fs, l.outDir) then Err(NotADirectory(l.outDir))
      else if !IsDirectory(fs, l.inDir) then Err(NotADirectory(l.inDir))
      else if !IsDirectory(fs, l.trashDir) then Err(NotADirectory(l.trashDir))
      else Ok(l)
  }

  predicate ValidLayout(fs: Tree, root: Path)
  {
    var l := LayoutOf(root);
    IsDirectory(fs, root) && IsDirectory(fs, l.requestDir) && IsDirectory(fs, l.outDir)
    && IsDirectory(fs, l.inDir) && IsDirectory(fs, l.trashDir)
  }

  /**
   * The checks pass exactly when the property is present and the root and
   * its request, out, in and trash directories all exist as directories;
   * the result is then the layout below the root, otherwise the rejection
   * names the first path that is not a directory.
   */
  lemma CheckLayoutIff(fs: Tree, properties: map<string, string>)
    ensures "directory" !in properties ==> CheckLayout(fs, properties) == Err(IllegalArgument(MissingDirectoryMessage))
    ensures CheckLayout(fs, properties).Ok? <==>
              "directory" in properties && ValidLayout(fs, PathOf(properties["directory"]))
    ensures CheckLayout(fs, properties).Ok? ==>
              CheckLayout(fs, properties).value == LayoutOf(PathOf(properties["directory"]))
    ensures CheckLayout(fs, properties).Err? && "directory" in properties ==>
              exists p :: !IsDirectory(fs, p) && CheckLayout(fs, properties).error == NotADirectory(p)
  {
    if "directory" in properties {
      var root := PathOf(properties["directory"]);
      var l := LayoutOf(root);
      if !IsDirectory(fs, root) {
        assert CheckLayout(fs, properties).error == NotADirectory(root);
      } else if !IsDirectory(fs, l.requestDir) {
        assert CheckLayout(fs, properties).error == NotADirectory(l.requestDir);
      } else if !IsDirectory(fs, l.outDir) {
        assert CheckLayout(fs, properties).error == NotADirectory(l.outDir);
      } else if !IsDirectory(fs, l.inDir) {
        assert CheckLayout(fs, properties).error == NotADirectory(l.inDir);
      } else if !IsDirectory(fs, l.trashDir) {
        assert CheckLayout(fs, properties).error == NotADirectory(l.trashDir);
      }
    }
  }

  /** The four directories are distinct children of the root. */
  lemma LayoutDistinct(root: Path)
    ensures var l := LayoutOf(root);
            && IsChild(root, l.requestDir) && IsChild(root, l.outDir) && IsChild(root, l.inDir) && IsChild(root, l.trashDir)
            && l.requestDir != l.outDir && l.requestDir != l.inDir && l.requestDir != l.trashDir
            && l.outDir != l.inDir && l.outDir != l.trashDir && l.inDir != l.trashDir
  {
    var l := LayoutOf(root);
    assert l.requestDir[..|root|] == root && l.outDir[..|root|] == root;
    assert l.inDir[..|root|] == root && l.trashDir[..|root|] == root;
    assert l.requestDir[|root|] == "request" && l.outDir[|root|] == "out";
    assert l.inDir[|root|] == "in" && l.trashDir[|root|] == "trash";
  }

  /** No entry of `dir` is a directory that still holds entries, so that all of them can be deleted. */
  predicate Purgeable(fs: Tree, dir: Path)
  {
    forall c | c in Children(fs, dir) :: !(IsDirectory(fs, c) && HasChildren(fs, c))
  }

  /** configure succeeds: no outstanding requests, a valid layout, and a request directory that can be emptied. */
  predicate ConfigureAccepted(busy: bool, fs: Tree, properties: map<string, string>)
  {
    !busy && CheckLayout(fs, properties).Ok? && Purgeable(fs, CheckLayout(fs, properties).value.requestDir)
  }

  /**
   * What configure leaves of the tree: nothing changes when it is busy or the
   * checks fail; otherwise it removes entries of request/ and nothing else,
   * and all of them when the purge succeeds.
   */
  ghost predicate ConfigureLeaves(busy: bool, before: Tree, after: Tree, properties: map<string, string>)
  {
    if busy || CheckLayout(before, properties).Err? then after == before
    else
      var dir := CheckLayout(before, properties).value.requestDir;
      && (Purgeable(before, dir) ==> after == before - Children(before, dir))
      && exists gone :: gone <= Children(before, dir) && after == before - gone
  }

  /** Removing entries of `dir` does not change which other entries of `dir` hold entries. */
  lemma RemovingSiblings(fs: Tree, dir: Path, gone: set<Path>, c: Path)
    requires forall g | g in gone :: IsChild(dir, g)
    requires IsChild(dir, c)
    ensures HasChildren(fs - gone, c) <==> HasChildren(fs, c)
  {
    if HasChildren(fs, c) {
      var q :| q in fs && IsChild(c, q);
      assert q !in gone;
      assert q in fs - gone;
    }
    if HasChildren(fs - gone, c) {
      var q :| q in fs - gone && IsChild(c, q);
      assert q in fs;
    }
  }

  /** The engine instance: its name, its ledger, the shared tree and the configured directories. */
  class EnditStorage<F> {
    const storageType: string
    const storageName: string
    const ledger: Ledger<F>
    const store: FileStore
    var requestDir: Option<Path>
    var outDir: Option<Path>
    var inDir: Option<Path>
    var trashDir: Option<Path>

    constructor (storageType: string, storageName: string, ledger: Ledger<F>, store: FileStore)
      ensures this.storageType == storageType && this.storageName == storageName
      ensures this.ledger == ledger && this.store == store
      ensures requestDir == None && outDir == None && inDir == None && trashDir == None
    {
      this.storageType := storageType;
      this.storageName := storageName;
      this.ledger := ledger;
      this.store := store;
      requestDir, outDir, inDir, trashDir := None, None, None, None;
    }

    /** The directories as configured so far. */
    function Directories(): Option<Layout>
      reads this
    {
      if requestDir.Some? && outDir.Some? && inDir.Some? && trashDir.Some?
      then Some(Layout(requestDir.value, outDir.value, inDir.value, trashDir.value))
      else None
    }

    /**
     * Deletes every entry of `dir`, in the directory stream's unspecified
     * order, stopping at the first failure; it succeeds exactly when no entry
     * is a non-empty directory, and removes nothing but entries of `dir`.
     */
    method Purge(dir: Path) returns (r: Result<(), IOError>)
      modifies store
      ensures r.Ok? <==> Purgeable(old(store.entries), dir)
      ensures r.Ok? ==> store.entries == old(store.entries) - Children(old(store.entries), dir)
      ensures exists gone :: gone <= Children(old(store.entries), dir) && store.entries == old(store.entries) - gone
    {
      ghost var initial := store.entries;
      var remaining := Children(store.entries, dir);
      ghost var gone: set<Path> := {};
      while remaining != {}
        invariant remaining <= Children(initial, dir) && gone <= Children(initial, dir)
        invariant remaining !! gone && remaining + gone == Children(initial, dir)
        invariant store.entries == initial - gone
        invariant forall g | g in gone :: !(IsDirectory(initial, g) && HasChildren(initial, g))
        decreases remaining
      {
        var p :| p in remaining;
        RemovingSiblings(initial, dir, gone, p);
        var d := store.DeleteIfExists(p);
        if d.Err? {
          assert !Purgeable(initial, dir);
          return Err(d.error);
        }
        remaining := remaining - {p};
        gone := gone + {p};
      }
      r := Ok(());
      assert gone == Children(initial, dir);
    }

    /**
     * configure: busy while the ledger holds requests; then the layout
     * checks; then the purge of request/, whose failure is rethrown
     * unchecked; the directory fields are assigned only after all of them.
     */
    method Configure(properties: map<string, string>) returns (r: Result<(), Failure>)
      modifies this, store
      ensures r.Ok? <==> ConfigureAccepted(ledger.HasTasks(), old(store.entries), properties)
      ensures ledger.HasTasks() ==> r == Err(IllegalState(BusyMessage))
                                    && store.entries == old(store.entries) && Directories() == old(Directories())
      ensures !ledger.HasTasks() && CheckLayout(old(store.entries), properties).Err? ==>
                r == Err(CheckLayout(old(store.entries), properties).error)
                && store.entries == old(store.entries) && Directories() == old(Directories())
      ensures !ledger.HasTasks() && CheckLayout(old(store.entries), properties).Ok? ==>
                var l := CheckLayout(old(store.entries), properties).value;
                && (r.Ok? <==> Purgeable(old(store.entries), l.requestDir))
                && (r.Ok? ==> Directories() == Some(l)
                              && store.entries == old(store.entries) - Children(old(store.entries), l.requestDir))
                && (r.Err? ==> r.error.Propagated? && Directories() == old(Directories())
                               && exists gone :: gone <= Children(old(store.entries), l.requestDir)
                                                 && store.entries == old(store.entries) - gone)
      ensures r.Err? ==> requestDir == old(requestDir) && outDir == old(outDir)
                         && inDir == old(inDir) && trashDir == old(trashDir)
      ensures ConfigureLeaves(ledger.HasTasks(), old(store.entries), store.entries, properties)
    {
      if ledger.HasTasks() {
        return Err(IllegalState(BusyMessage));
      }
      var checked := CheckLayout(store.entries, properties);
      if checked.Err? {
        return Err(checked.error);
      }
      var l := checked.value;
      var purged := Purge(l.requestDir);
      if purged.Err? {
        return Err(Propagated(IO(purged.error)));
      }
      requestDir, outDir, inDir, trashDir := Some(l.requestDir), Some(l.outDir), Some(l.inDir), Some(l.trashDir);
      r := Ok(());
    }
  }
}
