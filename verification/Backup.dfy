/** Backing up the storage files and restoring them with rollback. A listed name may be
    absolute, and then the two ways in which the code makes a path of it differ. */
module Backup {
  import opened Options

  type Name = string
  type Path = string
  type Files = map<Path, string>

  /** The storage directory. */
  type Root = r: Path | |r| >= 2 && r[0] == '/' && r[|r| - 1] != '/' witness "/s"

  const SUFFIX: string := ".bak"

  function Bak(x: Path): Path {
    x + SUFFIX
  }

  predicate Absolute(x: Name) {
    x != "" && x[0] == '/'
  }

  /** The path that QDir makes of a name: an absolute one stays what it is. */
  function Live(root: Root, x: Name): Path {
    if Absolute(x) then x else root + "/" + x
  }

  function Stripped(x: Name): Name {
    if Absolute(x) then Stripped(x[1..]) else x
  }

  /** The path that joining the directory, a slash and a name makes; more slashes in a
      row mean one. */
  function Inside(root: Root, x: Name): Path {
    root + "/" + Stripped(x)
  }

  function Get(files: Files, x: Path): Option<string> {
    if x in files then Some(files[x]) else None
  }

  /** Renaming fails when the target exists. */
  function Renamed(files: Files, from: Path, to: Path): Files {
    if from in files && to !in files then files[to := files[from]] - {from} else files
  }

  /** `moved` and `copied` hold the names as QDir resolves them. */
  datatype Progress = Progress(files: Files, moved: seq<Path>, copied: seq<Path>, ok: bool)

  /** One file of the restore: the old one is moved away from where QDir finds it, the
      new one is copied to the joined path. A copy fails when something is there, or for
      a reason outside, for the names in `failing`. */
  function RestoreOne(root: Root, p: Progress, backup: Files, x: Name, failing: set<Name>): Progress {
    var live, inside := Live(root, x), Inside(root, x);
    var renames := live in p.files && Bak(live) !in p.files;
    var q := if renames then p.(files := Renamed(p.files, live, Bak(live)), moved := p.moved + [live]) else p;
    if Stripped(x) !in backup then q
    else if inside !in q.files && x !in failing then
      q.(files := q.files[inside := backup[Stripped(x)]], copied := q.copied + [live])
    else q.(ok := false)
  }

  function RestoreAll(root: Root, p: Progress, backup: Files, names: seq<Name>, failing: set<Name>): Progress
    decreases |names|
  {
    if names == [] || !p.ok then p
    else RestoreAll(root, RestoreOne(root, p, backup, names[0], failing), backup, names[1..], failing)
  }

  function RenamedBack(files: Files, moved: seq<Path>): Files
    decreases |moved|
  {
    if moved == [] then files else RenamedBack(Renamed(files, Bak(moved[0]), moved[0]), moved[1..])
  }

  function WithoutAll(files: Files, paths: seq<Path>): Files {
    files - set x | x in paths
  }

  function Baks(paths: seq<Path>): seq<Path> {
    if paths == [] then [] else [Bak(paths[0])] + Baks(paths[1..])
  }

  function Recovered(p: Progress): Files {
    RenamedBack(WithoutAll(p.files, p.copied), p.moved)
  }

  function CopyFrom(root: Root, files: Files, backup: Files, names: seq<Name>, failing: set<Name>): (Files, bool) {
    var p := RestoreAll(root, Progress(files, [], [], true), backup, names, failing);
    (if p.ok then WithoutAll(p.files, Baks(p.moved)) else Recovered(p), p.ok)
  }

  /** Missing files are created empty, up to the first one that cannot be. */
  function TreeCreated(root: Root, files: Files, names: seq<Name>, failing: set<Name>): (Files, bool)
    decreases |names|
  {
    if names == [] then (files, true)
    else if Live(root, names[0]) in files then TreeCreated(root, files, names[1..], failing)
    else if names[0] in failing then (files, false)
    else TreeCreated(root, files[Inside(root, names[0]) := ""], names[1..], failing)
  }

  /** The storage and the backup directory. */
  datatype Dirs = Dirs(files: Files, backup: Files)

  /** What is to be replaced in the backup directory goes first; for an absolute name
      that is the live file. */
  function TargetRemoved(d: Dirs, x: Name): Dirs {
    if Absolute(x) then d.(files := d.files - {x}) else d.(backup := d.backup - {x})
  }

  function CopiedOut(root: Root, d: Dirs, names: seq<Name>, failing: set<Name>): (Dirs, bool)
    decreases |names|
  {
    if names == [] then (d, true)
    else
      var x := names[0];
      var removed := TargetRemoved(d, x);
      if Inside(root, x) !in removed.files then CopiedOut(root, removed, names[1..], failing)
      else if x in failing || Stripped(x) in removed.backup then (removed, false)
      else
        var copied := removed.(backup := removed.backup[Stripped(x) := removed.files[Inside(root, x)]]);
        CopiedOut(root, copied, names[1..], failing)
  }

  /** The plain entries of the backup directory: neither in a subdirectory nor hidden. */
  predicate IsEntry(x: Name) {
    '/' !in x && x != "" && x[0] != '.'
  }

  class BackupService {
    const root: Root
    var storage: Files
    // by name in the backup directory; no directory is an empty one
    var backup: Files

    constructor (root: Root, storage: Files)
      ensures this.root == root && this.storage == storage && backup == map[]
    {
      this.root, this.storage, backup := root, storage, map[];
    }

    method EraseBackupDir()
      modifies this`backup
      ensures backup == map x | x in old(backup) && !IsEntry(x) :: old(backup)[x]
    {
      var entries := set x | x in backup && IsEntry(x);
      while entries != {}
        invariant backup == map x | x in old(backup) && (!IsEntry(x) || x in entries) :: old(backup)[x]
        decreases |entries|
      {
        var entry :| entry in entries;
        entries := entries - {entry};
        if IsEntry(entry) { backup := backup - {entry}; }
      }
    }

    method CreateStorageFileTree(names: seq<Name>, failing: set<Name>) returns (ok: bool)
      modifies this`storage
      ensures (storage, ok) == TreeCreated(root, old(storage), names, failing)
    {
      for i := 0 to |names|
        invariant TreeCreated(root, old(storage), names, failing) == TreeCreated(root, storage, names[i..], failing)
      {
        assert names[i..][1..] == names[i + 1..];
        if Live(root, names[i]) in storage { continue; }
        if names[i] in failing { return false; }
        storage := storage[Inside(root, names[i]) := ""];
      }
      return true;
    }

    method CopyToBackupDir(names: seq<Name>, failing: set<Name>) returns (ok: bool)
      modifies this`storage, this`backup
      ensures (Dirs(storage, backup), ok) == CopiedOut(root, old(Dirs(storage, backup)), names, failing)
    {
      for i := 0 to |names|
        invariant CopiedOut(root, old(Dirs(storage, backup)), names, failing)
               == CopiedOut(root, Dirs(storage, backup), names[i..], failing)
      {
        var x := names[i];
        assert names[i..][1..] == names[i + 1..];
        if Absolute(x) { storage := storage - {x}; } else { backup := backup - {x}; }
        if Inside(root, x) !in storage { continue; }
        if x in failing || Stripped(x) in backup { return false; }
        backup := backup[Stripped(x) := storage[Inside(root, x)]];
      }
      return true;
    }

    method RemoveFiles(paths: seq<Path>)
      modifies this`storage
      ensures storage == WithoutAll(old(storage), paths)
    {
      for i := 0 to |paths|
        invariant storage == WithoutAll(old(storage), paths[..i])
      {
        assert paths[..i + 1] == paths[..i] + [paths[i]];
        storage := storage - {paths[i]};
      }
      assert paths[..|paths|] == paths;
    }

    method RenameBack(moved: seq<Path>)
      modifies this`storage
      ensures storage == RenamedBack(old(storage), moved)
    {
      for i := 0 to |moved|
        invariant RenamedBack(old(storage), moved) == RenamedBack(storage, moved[i..])
      {
        assert moved[i..][1..] == moved[i + 1..];
        storage := Renamed(storage, Bak(moved[i]), moved[i]);
      }
    }

    method CopyFromBackupDir(names: seq<Name>, failing: set<Name>) returns (ok: bool)
      modifies this`storage
      ensures (storage, ok) == CopyFrom(root, old(storage), backup, names, failing)
    {
      ok := true;
      var movedFiles: seq<Path>, copiedFiles: seq<Path>, i := [], [], 0;
      ghost var start := Progress(storage, [], [], true);
      while i < |names| && ok
        invariant i <= |names|
        invariant RestoreAll(root, start, backup, names, failing)
               == RestoreAll(root, Progress(storage, movedFiles, copiedFiles, ok), backup, names[i..], failing)
      {
        var x, live := names[i], Live(root, names[i]);
        assert names[i..][1..] == names[i + 1..];
        if live in storage {
          if Bak(live) !in storage {
            storage := storage[Bak(live) := storage[live]] - {live};
            movedFiles := movedFiles + [live];
          }
        }
        i := i + 1;
        if Stripped(x) !in backup { continue; }
        ok := Inside(root, x) !in storage && x !in failing;
        if ok {
          storage := storage[Inside(root, x) := backup[Stripped(x)]];
          copiedFiles := copiedFiles + [live];
        }
      }
      if !ok {
        RemoveFiles(copiedFiles);
        RenameBack(movedFiles);
      } else {
        RemoveFiles(Baks(movedFiles));
      }
    }
  }

  // Paths.

  /** The paths that an operation on one name may touch. */
  function Spots(root: Root, x: Name): set<Path> {
    {Live(root, x), Inside(root, x), Bak(Live(root, x))}
  }

  /** No two listed names share a path, and none has its ".bak" where it is copied to. */
  ghost predicate WellPlaced(root: Root, names: seq<Name>) {
    && (forall i, j :: 0 <= i < j < |names| ==> Spots(root, names[i]) !! Spots(root, names[j]))
    && (forall x :: x in names ==> Bak(Live(root, x)) != Inside(root, x))
  }

  lemma {:induction false} StrippedIsSuffix(x: Name)
    ensures |Stripped(x)| <= |x| && Stripped(x) == x[|x| - |Stripped(x)|..]
    ensures forall i :: 0 <= i < |x| - |Stripped(x)| ==> x[i] == '/'
  {
    if Absolute(x) {
      StrippedIsSuffix(x[1..]);
      assert Stripped(x) == x[1..][|x[1..]| - |Stripped(x)|..];
    }
  }

  /** The two paths agree exactly for relative names. */
  lemma PathsAgree(root: Root, x: Name)
    ensures Live(root, x) == Inside(root, x) <==> !Absolute(x)
    ensures Bak(Live(root, x)) != Live(root, x)
  {
    StrippedIsSuffix(x);
    assert Inside(root, x)[|root| - 1] != '/' && |Inside(root, x)| == |root| + 1 + |Stripped(x)|;
  }

  /** For relative names it is enough that they are distinct and none is another one's
      ".bak" name. */
  lemma RelativeNamesAreWellPlaced(root: Root, names: seq<Name>)
    requires forall x :: x in names ==> !Absolute(x)
    requires forall i, j :: 0 <= i < j < |names| ==> names[i] != names[j]
    requires forall x, y :: x in names && y in names ==> x != Bak(y)
    ensures WellPlaced(root, names)
  {
    forall x, y | x in names && y in names
      ensures Live(root, x) == Live(root, y) ==> x == y
      ensures Bak(Live(root, x)) == Bak(Live(root, y)) ==> x == y
      ensures Live(root, x) != Bak(Live(root, y)) && Live(root, x) == Inside(root, x)
    {
      var prefix := root + "/";
      assert Live(root, x)[|prefix|..] == x && Live(root, y)[|prefix|..] == y;
      assert Bak(Live(root, y)) == prefix + Bak(y) && Bak(Live(root, y))[|prefix|..] == Bak(y);
      assert Bak(Live(root, y))[..|Live(root, y)|] == Live(root, y)
          && Bak(Live(root, x))[..|Live(root, x)|] == Live(root, x);
    }
  }
}
