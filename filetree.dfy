/**
 * The part of the disk the packager touches, as a value, and the three
 * library calls that change it: `Path.mkdir`, `shutil.rmtree` and
 * `shutil.copyfile`. A `FileSystem` object holds the current value and
 * performs the calls in place.
 */
module FileTree {
  import opened Wrappers
  import opened Paths

  type Bytes = seq<bv8>

  /** The regular files of one directory, by name. */
  type Listing = map<string, Bytes>

  /** Every directory on disk with the regular files it holds. */
  datatype Fs = Fs(dirs: map<Path, Listing>)

  /** The exceptions the three library calls raise. */
  datatype IoError =
    | AlreadyExists(path: Path)    // FileExistsError from mkdir
    | NoSuchDirectory(path: Path)  // the parent of a new directory or file is missing
    | NotADirectory(path: Path)    // rmtree of a path that is not a directory
    | NotAFile(path: Path)         // copyfile from a path that is not a regular file
    | IsADirectory(path: Path)     // copyfile onto a directory
    | SameFile(path: Path)         // copyfile of a file onto itself

  predicate IsDir(fs: Fs, p: Path) {
    p in fs.dirs
  }

  predicate IsFile(fs: Fs, p: Path) {
    |p| > 0 && Parent(p) in fs.dirs && Name(p) in fs.dirs[Parent(p)]
  }

  /** `Path.exists()`: true of directories and regular files alike. */
  predicate Exists(fs: Fs, p: Path) {
    IsDir(fs, p) || IsFile(fs, p)
  }

  function Data(fs: Fs, p: Path): Bytes
    requires IsFile(fs, p)
  {
    fs.dirs[Parent(p)][Name(p)]
  }

  /**
   * A well-formed tree: every directory but the root sits in a directory,
   * no name is both a file and a directory, and no entry has an empty name.
   */
  ghost predicate Valid(fs: Fs) {
    && (forall d :: d in fs.dirs && |d| > 0 ==>
          && Parent(d) in fs.dirs
          && Name(d) != ""
          && Name(d) !in fs.dirs[Parent(d)])
    && (forall d, n :: d in fs.dirs && n in fs.dirs[d] ==> n != "")
  }

  /** Nothing outside the tree rooted at `p` differs between `fs` and `fs'`. */
  ghost predicate SameOutside(fs: Fs, fs': Fs, p: Path) {
    forall q :: !Within(q, p) ==>
      && (q in fs.dirs <==> q in fs'.dirs)
      && (q in fs.dirs ==> fs.dirs[q] == fs'.dirs[q])
  }

  /** `Path.mkdir()` with neither `parents` nor `exist_ok`. */
  function Mkdir(fs: Fs, p: Path): (r: Result<Fs, IoError>)
    ensures r.Ok? <==> !Exists(fs, p) && |p| > 0 && IsDir(fs, Parent(p))
    ensures Exists(fs, p) ==> r == Err(AlreadyExists(p))
    ensures r.Ok? ==> IsDir(r.value, p) && r.value.dirs[p] == map[]
  {
    if Exists(fs, p) then Err(AlreadyExists(p))
    else if |p| == 0 || Parent(p) !in fs.dirs then Err(NoSuchDirectory(p))
    else Ok(Fs(fs.dirs[p := map[]]))
  }

  /** A new directory changes nothing outside itself and keeps the tree well formed. */
  lemma MkdirFrame(fs: Fs, p: Path)
    requires Mkdir(fs, p).Ok?
    ensures SameOutside(fs, Mkdir(fs, p).value, p)
    ensures Valid(fs) && Name(p) != "" ==> Valid(Mkdir(fs, p).value)
  {
  }

  /** `shutil.rmtree`: a directory goes, with everything below it. */
  function Rmtree(fs: Fs, p: Path): (r: Result<Fs, IoError>)
    ensures r.Ok? <==> IsDir(fs, p)
    ensures r.Err? ==> r.error == NotADirectory(p)
  {
    if p !in fs.dirs then Err(NotADirectory(p))
    else Ok(Fs(map q | q in fs.dirs && !Within(q, p) :: fs.dirs[q]))
  }

  /**
   * Removing a tree removes exactly that tree: nothing in it is left,
   * nothing outside it changes, and the rest is still a well-formed tree
   * in which the removed path no longer exists.
   */
  lemma RmtreeFrame(fs: Fs, p: Path)
    requires Rmtree(fs, p).Ok?
    ensures var fs' := Rmtree(fs, p).value;
            && SameOutside(fs, fs', p)
            && (forall q :: q in fs'.dirs ==> !Within(q, p))
            && (Valid(fs) ==> Valid(fs') && !Exists(fs', p))
  {
    var fs' := Rmtree(fs, p).value;
    if Valid(fs) {
      forall d | d in fs'.dirs && |d| > 0 ensures Parent(d) in fs'.dirs {
        if Within(Parent(d), p) {
          WithinParent(d, p);
        }
      }
    }
  }

  /**
   * `shutil.copyfile(src, dst)`: `dst` gets the bytes of `src`, replacing
   * a file of that name if there is one.
   */
  function Copyfile(fs: Fs, src: Path, dst: Path): (r: Result<Fs, IoError>)
    ensures r.Ok? <==> IsFile(fs, src) && src != dst && !IsDir(fs, dst) && |dst| > 0 && IsDir(fs, Parent(dst))
    ensures r.Ok? ==> IsFile(r.value, dst) && Data(r.value, dst) == Data(fs, src)
  {
    if !IsFile(fs, src) then Err(NotAFile(src))
    else if src == dst then Err(SameFile(src))
    else if IsDir(fs, dst) then Err(IsADirectory(dst))
    else if |dst| == 0 || Parent(dst) !in fs.dirs then Err(NoSuchDirectory(dst))
    else
      var dir := Parent(dst);
      Ok(Fs(fs.dirs[dir := fs.dirs[dir][Name(dst) := Data(fs, src)]]))
  }

  /**
   * A copy changes one entry of one directory: the directories stay the
   * same, every other file stays as it was, and the tree stays well formed.
   */
  lemma CopyfileFrame(fs: Fs, src: Path, dst: Path)
    requires Copyfile(fs, src, dst).Ok?
    ensures var fs' := Copyfile(fs, src, dst).value;
            && fs'.dirs.Keys == fs.dirs.Keys
            && SameOutside(fs, fs', Parent(dst))
            && (forall q :: q in fs.dirs && q != Parent(dst) ==> fs'.dirs[q] == fs.dirs[q])
            && (forall n :: n in fs.dirs[Parent(dst)] && n != Name(dst) ==>
                  n in fs'.dirs[Parent(dst)] && fs'.dirs[Parent(dst)][n] == fs.dirs[Parent(dst)][n])
            && (Valid(fs) && Name(dst) != "" ==> Valid(fs'))
  {
    var fs' := Copyfile(fs, src, dst).value;
    if Valid(fs) && Name(dst) != "" {
      forall d | d in fs.dirs && |d| > 0 && Parent(d) == Parent(dst) && Name(d) == Name(dst) ensures false {
        ParentAndName(d, dst);
      }
    }
  }

  /** The disk after a call: unchanged when the call raised. */
  function After(fs: Fs, r: Result<Fs, IoError>): Fs {
    if r.Ok? then r.value else fs
  }

  function Status(r: Result<Fs, IoError>): Outcome<IoError> {
    if r.Ok? then Pass else Fail(r.error)
  }

  /** The disk, changed in place by the library calls. */
  class FileSystem {
    var dirs: map<Path, Listing>

    function State(): Fs
      reads this
    {
      Fs(dirs)
    }

    constructor (init: Fs)
      ensures State() == init
    {
      dirs := init.dirs;
    }

    method MakeDir(p: Path) returns (r: Outcome<IoError>)
      modifies this
      ensures r == Status(Mkdir(old(State()), p))
      ensures State() == After(old(State()), Mkdir(old(State()), p))
    {
      if Exists(State(), p) {
        return Fail(AlreadyExists(p));
      }
      if |p| == 0 || Parent(p) !in dirs {
        return Fail(NoSuchDirectory(p));
      }
      dirs := dirs[p := map[]];
      return Pass;
    }

    method RemoveTree(p: Path) returns (r: Outcome<IoError>)
      modifies this
      ensures r == Status(Rmtree(old(State()), p))
      ensures State() == After(old(State()), Rmtree(old(State()), p))
    {
      if p !in dirs {
        return Fail(NotADirectory(p));
      }
      dirs := map q | q in dirs && !Within(q, p) :: dirs[q];
      return Pass;
    }

    method CopyFile(src: Path, dst: Path) returns (r: Outcome<IoError>)
      modifies this
      ensures r == Status(Copyfile(old(State()), src, dst))
      ensures State() == After(old(State()), Copyfile(old(State()), src, dst))
    {
      if !IsFile(State(), src) {
        return Fail(NotAFile(src));
      }
      if src == dst {
        return Fail(SameFile(src));
      }
      if dst in dirs {
        return Fail(IsADirectory(dst));
      }
      if |dst| == 0 || Parent(dst) !in dirs {
        return Fail(NoSuchDirectory(dst));
      }
      var dir := Parent(dst);
      dirs := dirs[dir := dirs[dir][Name(dst) := dirs[Parent(src)][Name(src)]]];
      return Pass;
    }
  }
}
