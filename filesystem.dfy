/**
 * The shared directory tree as an abstract map from path to entry, and the
 * java.nio.file.Files operations the tasks use. A path is the sequence of its
 * name components. Each operation exists twice: as a function from the old
 * tree to the outcome and the new tree (used in specifications), and as a
 * method of FileStore, the mutable tree all tasks share, proved to agree with
 * the function.
 */
module Fs {
  import opened Wrappers
  import opened Text

  type Path = seq<string>

  datatype Entry = Regular(data: string) | Directory

  type Tree = map<Path, Entry>

  /** What an I/O operation on the tree can raise. */
  datatype IOError =
    | NoSuchFile(path: Path)
    | FileAlreadyExists(path: Path)
    | DirectoryNotEmpty(path: Path)
    | IsADirectory(path: Path)
    | NotPermitted(path: Path)

  /** Path.resolve with a single name; resolving the empty name yields the directory itself. */
  function Resolve(dir: Path, name: string): Path
  {
    if name == "" then dir else dir + [name]
  }

  /** File.getName: the last component, or "" for the root. */
  function FileName(p: Path): string
  {
    if p == [] then "" else p[|p| - 1]
  }

  /** The text Path.toString renders, for messages. */
  function PathText(p: Path): string
  {
    "/" + Join(p, "/")
  }

  /** FileSystem.getPath for a '/'-separated string. */
  function PathOf(s: string): Path
  {
    Components(s)
  }

  predicate IsRegularFile(t: Tree, p: Path) { p in t && t[p].Regular? }

  predicate IsDirectory(t: Tree, p: Path) { p in t && t[p].Directory? }

  /** `p` is an entry directly inside directory `dir`. */
  predicate IsChild(dir: Path, p: Path)
  {
    |p| == |dir| + 1 && p[..|dir|] == dir
  }

  /** The entries directly inside `dir` (what a DirectoryStream lists). */
  function Children(t: Tree, dir: Path): (r: set<Path>)
    ensures forall p :: p in r <==> p in t && IsChild(dir, p)
  {
    set p | p in t && IsChild(dir, p)
  }

  predicate HasChildren(t: Tree, p: Path)
  {
    exists q :: q in t && IsChild(p, q)
  }

  /**
   * Files.deleteIfExists: true when an entry was removed, false when there
   * was none; a directory that still has entries cannot be removed.
   */
  function DeleteStep(t: Tree, p: Path): (r: (Result<bool, IOError>, Tree))
    ensures r.0.Ok? ==> (r.0.value <==> p in t) && r.1 == t - {p}
    ensures r.0.Err? <==> IsDirectory(t, p) && HasChildren(t, p)
    ensures r.0.Err? ==> r.0.error == DirectoryNotEmpty(p) && r.1 == t
  {
    if p !in t then (Ok(false), t)
    else if t[p].Directory? && HasChildren(t, p) then (Err(DirectoryNotEmpty(p)), t)
    else (Ok(true), t - {p})
  }

  /** Files.write: creates the file or replaces its contents; a directory cannot be written. */
  function WriteStep(t: Tree, p: Path, data: string): (r: (Result<(), IOError>, Tree))
    ensures r.0.Ok? <==> !IsDirectory(t, p)
    ensures r.0.Ok? ==> r.1 == t[p := Regular(data)]
    ensures r.0.Err? ==> r.0.error == IsADirectory(p) && r.1 == t
  {
    if IsDirectory(t, p) then (Err(IsADirectory(p)), t) else (Ok(()), t[p := Regular(data)])
  }

  /**
   * Files.move with ATOMIC_MOVE (a rename): the entry leaves `source` and
   * replaces whatever file was at `target`; a directory target refuses.
   */
  function MoveStep(t: Tree, source: Path, target: Path): (r: (Result<(), IOError>, Tree))
    ensures r.0.Ok? <==> source in t && (source == target || !IsDirectory(t, target))
    ensures r.0.Ok? && source != target ==> r.1 == (t - {source})[target := t[source]]
    ensures r.0.Ok? && source == target ==> r.1 == t
    ensures r.0.Err? ==> r.1 == t
  {
    if source !in t then (Err(NoSuchFile(source)), t)
    else if source == target then (Ok(()), t)
    else if IsDirectory(t, target) then (Err(IsADirectory(target)), t)
    else (Ok(()), (t - {source})[target := t[source]])
  }

  /**
   * Files.createLink: a new entry `link` with the contents of `existing`; it
   * fails when `link` already exists, when `existing` is missing, and for a
   * directory (hard links to directories are not permitted).
   */
  function LinkStep(t: Tree, link: Path, existing: Path): (r: (Result<(), IOError>, Tree))
    ensures r.0.Ok? <==> link !in t && IsRegularFile(t, existing)
    ensures r.0.Ok? ==> r.1 == t[link := t[existing]]
    ensures r.0.Err? ==> r.1 == t
    ensures link in t ==> r.0 == Err(FileAlreadyExists(link))
  {
    if link in t then (Err(FileAlreadyExists(link)), t)
    else if existing !in t then (Err(NoSuchFile(existing)), t)
    else if t[existing].Directory? then (Err(NotPermitted(existing)), t)
    else (Ok(()), t[link := t[existing]])
  }

  /** Files.readAllLines: the lines of a regular file. */
  function ReadAllLines(t: Tree, p: Path): (r: Result<seq<string>, IOError>)
    ensures r.Ok? <==> IsRegularFile(t, p)
    ensures r.Ok? ==> r.value == ReadLines(t[p].data)
  {
    if p !in t then Err(NoSuchFile(p))
    else if t[p].Directory? then Err(IsADirectory(p))
    else Ok(ReadLines(t[p].data))
  }

  /** Files.deleteIfExists on each path in turn; the first failure stops the rest. */
  function DeleteAll(t: Tree, ps: seq<Path>): (r: (Result<(), IOError>, Tree))
    ensures r.0.Ok? ==> r.1 == t - set i | 0 <= i < |ps| :: ps[i]
    decreases |ps|
  {
    if ps == [] then (Ok(()), t)
    else
      var (d, t1) := DeleteStep(t, ps[0]);
      if d.Err? then (Err(d.error), t1)
      else
        var r := DeleteAll(t1, ps[1..]);
        assert r.0.Ok? ==> r.1 == t - set i | 0 <= i < |ps| :: ps[i] by {
          if r.0.Ok? {
            var rest := set i | 0 <= i < |ps[1..]| :: ps[1..][i];
            var all := set i | 0 <= i < |ps| :: ps[i];
            assert all == {ps[0]} + rest by {
              forall q | q in all ensures q in {ps[0]} + rest {
                var i :| 0 <= i < |ps| && ps[i] == q;
                if i > 0 { assert ps[1..][i - 1] == q; }
              }
            }
          }
        }
        r
  }

  /** A failed DeleteAll removed only entries named in the list. */
  lemma {:induction false} DeleteAllOnlyNamed(t: Tree, ps: seq<Path>, q: Path)
    requires q in t && q !in ps
    ensures q in DeleteAll(t, ps).1 && DeleteAll(t, ps).1[q] == t[q]
    decreases |ps|
  {
    if ps != [] {
      var (d, t1) := DeleteStep(t, ps[0]);
      if d.Ok? {
        assert q !in ps[1..];
        DeleteAllOnlyNamed(t1, ps[1..], q);
      }
    }
  }

  /** The mutable directory tree shared by the engine and the archiving daemon. */
  class FileStore {
    var entries: Tree

    constructor (initial: Tree)
      ensures entries == initial
    {
      entries := initial;
    }

    method DeleteIfExists(p: Path) returns (r: Result<bool, IOError>)
      modifies this
      ensures (r, entries) == DeleteStep(old(entries), p)
    {
      var step := DeleteStep(entries, p);
      r, entries := step.0, step.1;
    }

    method Write(p: Path, data: string) returns (r: Result<(), IOError>)
      modifies this
      ensures (r, entries) == WriteStep(old(entries), p, data)
    {
      var step := WriteStep(entries, p, data);
      r, entries := step.0, step.1;
    }

    method Move(source: Path, target: Path) returns (r: Result<(), IOError>)
      modifies this
      ensures (r, entries) == MoveStep(old(entries), source, target)
    {
      var step := MoveStep(entries, source, target);
      r, entries := step.0, step.1;
    }

    method CreateLink(link: Path, existing: Path) returns (r: Result<(), IOError>)
      modifies this
      ensures (r, entries) == LinkStep(old(entries), link, existing)
    {
      var step := LinkStep(entries, link, existing);
      r, entries := step.0, step.1;
    }

    /** Deletes each path in turn, stopping at the first failure. */
    method DeleteEach(ps: seq<Path>) returns (r: Result<(), IOError>)
      modifies this
      ensures (r, entries) == DeleteAll(old(entries), ps)
    {
      var i := 0;
      r := Ok(());
      while i < |ps|
        invariant 0 <= i <= |ps|
        invariant DeleteAll(old(entries), ps) == DeleteAll(entries, ps[i..])
        decreases |ps| - i
      {
        assert ps[i..][1..] == ps[i + 1..];
        var d := DeleteIfExists(ps[i]);
        if d.Err? {
          r := Err(d.error);
          return;
        }
        i := i + 1;
      }
    }
  }
}
