/**
 * cp_packager itself: its four procedures and its main loop as methods
 * that change the disk and consume the operator's answers in place. Each
 * is proved to do exactly what its function in `PackagerSpec` says.
 */
module Packager {
  import opened Wrappers
  import opened Paths
  import opened FileTree
  import opened Terminal
  import opened Text
  import opened PackagerSpec

  /** `file_exception_handler`: a missing required file ends the run with status 1. */
  method FileExceptionHandler(disk: FileSystem, p: Path, dryRun: bool) returns (r: Outcome<Failure>)
    ensures dryRun ==> r == Pass
    ensures !dryRun ==> (r == Pass <==> Exists(disk.State(), p))
    ensures r.Fail? ==> r.error == Exit(1)
    ensures r == RequiredFile(disk.State(), p, dryRun)
  {
    if !dryRun {
      if !Exists(disk.State(), p) {
        return Fail(Exit(1));
      }
    }
    return Pass;
  }

  /** `dir_exception_handler`, its prompt loop included. */
  method DirExceptionHandler(disk: FileSystem, console: Console, p: Path, dryRun: bool,
                             session: seq<Option<Path>>, overwrite: bool)
    returns (r: Result<Resolution, Failure>)
    modifies disk, console
    ensures Run(r, World(disk.State(), console.answers))
         == Resolve(World(old(disk.State()), old(console.answers)), p, dryRun, session, overwrite)
  {
    if Some(p) in session {
      return Ok(Keep);
    }
    if !Exists(disk.State(), p) {
      return Ok(NeedsCreate);
    }
    if dryRun {
      return Ok(DryRunWarning);
    }
    ghost var script := console.answers;
    ghost var k := 0;
    var answer := Flag(overwrite);
    while !Recognised(answer)
      invariant 0 <= k <= |script| && console.answers == script[k..]
      invariant forall i :: 0 <= i < k - 1 ==> !YesOrNo(script[i])
      invariant answer == if k == 0 then Flag(overwrite) else Typed(script[k - 1])
      invariant k > 0 ==> !overwrite
      invariant disk.State() == old(disk.State())
      decreases |console.answers|
    {
      var line := console.Input();
      if line.None? {
        return Err(EndOfInput);
      }
      answer := Typed(line.value);
      k := k + 1;
    }
    assert !overwrite ==> k > 0 && Ask(script) == Some((Approves(answer), k));
    if Approves(answer) {
      var removed := disk.RemoveTree(p);
      if removed.Fail? {
        return Err(Io(removed.error));
      }
      return Ok(NeedsCreate);
    }
    return Ok(Keep);
  }

  /** `create_directory`. */
  method CreateDirectory(disk: FileSystem, p: Path, dryRun: bool) returns (r: Result<Option<Path>, Failure>)
    modifies disk
    ensures Step(r, disk.State()) == CreateDir(old(disk.State()), p, dryRun)
  {
    if dryRun {
      return Ok(None);
    }
    var made := disk.MakeDir(p);
    if made.Fail? {
      return Err(Io(made.error));
    }
    return Ok(Some(p));
  }

  /** Lines 200-201: every content file is copied into `target` under its own name. */
  method CopyContent(disk: FileSystem, target: Path, s: Setup) returns (r: Result<(), Failure>)
    modifies disk
    ensures Step(r, disk.State()) == CopyContentFrom(old(disk.State()), s, target, 0)
  {
    ghost var total := CopyContentFrom(disk.State(), s, target, 0);
    for j := 0 to |s.content|
      invariant CopyContentFrom(disk.State(), s, target, j) == total
    {
      var name := s.content[j];
      ghost var before := disk.State();
      CopyContentStep(before, s, target, j);
      var copied := disk.CopyFile(Join(s.contentDir, name), Join(target, name));
      if copied.Fail? {
        assert disk.State() == before;
        return Err(Io(copied.error));
      }
      assert disk.State() == Copyfile(before, Join(s.contentDir, name), Join(target, name)).value;
    }
    return Ok(());
  }

  /** Lines 196-201: outside a dry run, the paper and then every content file go into `target`. */
  method CopyPackage(disk: FileSystem, paper: string, target: Path, s: Setup) returns (r: Result<(), Failure>)
    modifies disk
    ensures Step(r, disk.State()) == Populate(old(disk.State()), paper, target, s)
  {
    if s.dryRun {
      return Ok(());
    }
    var copied := disk.CopyFile(Join(s.papers, paper), Join(target, paper));
    if copied.Fail? {
      return Err(Io(copied.error));
    }
    r := CopyContent(disk, target, s);
  }

  /**
   * Lines 187-201 for one non-empty reviewer slot: resolve the directory,
   * create it when told to, then copy into it whatever the answer was.
   */
  method PackageReviewer(disk: FileSystem, console: Console, rs: RowState, target: Path,
                         session: seq<Option<Path>>, s: Setup, force: bool)
    returns (r: Result<RowState, Failure>)
    modifies disk, console
    ensures Run(r, World(disk.State(), console.answers))
         == Reviewer(World(old(disk.State()), old(console.answers)), rs, target, session, s, force)
  {
    var createdDirs := rs.created;
    var res := DirExceptionHandler(disk, console, target, s.dryRun, session, force);
    if res.Err? {
      return Err(res.error);
    }
    if res.value == NeedsCreate {
      var made := CreateDirectory(disk, target, s.dryRun);
      if made.Err? {
        return Err(made.error);
      }
      createdDirs := createdDirs + [made.value];
    }
    var copied := CopyPackage(disk, rs.paper, target, s);
    if copied.Err? {
      return Err(copied.error);
    }
    return Ok(rs.(created := createdDirs));
  }

  /** One pass of the loop at lines 166-201, for the cell in column `i`. */
  method PackageColumn(disk: FileSystem, console: Console, rs: RowState, i: nat, cell: Option<string>,
                       session: seq<Option<Path>>, s: Setup, force: bool)
    returns (r: Result<RowState, Failure>)
    modifies disk, console
    ensures Run(r, World(disk.State(), console.answers))
         == Column(World(old(disk.State()), old(console.answers)), rs, i, cell, session, s, force)
  {
    if cell.None? {
      return Err(MalformedValue);
    }
    var item := Strip(cell.value);
    if i == 0 {
      var found := FileExceptionHandler(disk, Join(s.papers, item), s.dryRun);
      if found.Fail? {
        return Err(found.error);
      }
      return Ok(rs.(paper := item));
    }
    if item == "" {
      return Ok(rs);
    }
    r := PackageReviewer(disk, console, rs, Join(s.out, item), session, s, force);
  }

  /** The loop at lines 166-201 over the cells of one row; the first failure ends it. */
  method PackageCells(disk: FileSystem, console: Console, row: Row, session: seq<Option<Path>>,
                      s: Setup, force: bool)
    returns (r: Result<RowState, Failure>)
    modifies disk, console
    ensures Run(r, World(disk.State(), console.answers))
         == RowFrom(World(old(disk.State()), old(console.answers)), RowState("", []), row, 0, session, s, force)
  {
    ghost var total := RowFrom(World(disk.State(), console.answers), RowState("", []), row, 0, session, s, force);
    var state := RowState("", []);
    for i := 0 to |row|
      invariant RowFrom(World(disk.State(), console.answers), state, row, i, session, s, force) == total
    {
      ghost var wi := World(disk.State(), console.answers);
      var next := PackageColumn(disk, console, state, i, row[i], session, s, force);
      if next.Err? {
        return Err(next.error);
      }
      RowFromStep(wi, state, row, i, session, s, force);
      state := next.value;
    }
    return Ok(state);
  }

  /** `make_package`: one manifest row. */
  method MakePackage(disk: FileSystem, console: Console, row: Row, session: seq<Option<Path>>,
                     s: Setup, force: bool)
    returns (r: Result<seq<Option<Path>>, Failure>)
    modifies disk, console
    ensures Run(r, World(disk.State(), console.answers))
         == Package(World(old(disk.State()), old(console.answers)), row, session, s, force)
  {
    if |row| <= 1 {
      return Err(RowTooShort);
    }
    var state := PackageCells(disk, console, row, session, s, force);
    if state.Err? {
      return Err(state.error);
    }
    return Ok(state.value.created);
  }

  /** Lines 250-253: every entry of the content directory is a required file. */
  method CheckContent(disk: FileSystem, s: Setup) returns (r: Outcome<Failure>)
    ensures r == CheckContentFrom(disk.State(), s, 0)
  {
    for i := 0 to |s.content|
      invariant CheckContentFrom(disk.State(), s, i) == CheckContentFrom(disk.State(), s, 0)
    {
      var found := FileExceptionHandler(disk, Join(s.contentDir, s.content[i]), s.dryRun);
      if found.Fail? {
        return found;
      }
    }
    return Pass;
  }

  /** Lines 271-272: the directories one row created go on the end of the session's list, in order. */
  method AppendAll(acc: seq<Option<Path>>, items: seq<Option<Path>>) returns (r: seq<Option<Path>>)
    ensures r == acc + items
  {
    r := acc;
    for j := 0 to |items|
      invariant r == acc + items[..j]
    {
      r := r + [items[j]];
    }
    assert items[..|items|] == items;
  }

  /**
   * The loop at lines 257-272: each row is packaged against the directories
   * created so far, and what it created is appended to them.
   */
  method PackageRows(disk: FileSystem, console: Console, rows: seq<Row>, s: Setup)
    returns (r: Result<seq<Option<Path>>, Failure>)
    modifies disk, console
    ensures Run(r, World(disk.State(), console.answers))
         == RowsFrom(World(old(disk.State()), old(console.answers)), [], rows, 0, s)
  {
    ghost var total := RowsFrom(World(disk.State(), console.answers), [], rows, 0, s);
    var allCreatedDirs: seq<Option<Path>> := [];
    for i := 0 to |rows|
      invariant RowsFrom(World(disk.State(), console.answers), allCreatedDirs, rows, i, s) == total
    {
      ghost var wi := World(disk.State(), console.answers);
      var newDirs := MakePackage(disk, console, rows[i], allCreatedDirs, s, false);
      if newDirs.Err? {
        return Err(newDirs.error);
      }
      RowsFromStep(wi, allCreatedDirs, rows, i, s);
      allCreatedDirs := AppendAll(allCreatedDirs, newDirs.value);
    }
    return Ok(allCreatedDirs);
  }

  /** Lines 238-253 and the opening of the manifest, before the first row. */
  method PrepareRun(disk: FileSystem, console: Console, table: Path, s: Setup, force: bool)
    returns (r: Result<(), Failure>)
    modifies disk, console
    ensures Run(r, World(disk.State(), console.answers))
         == Prepare(World(old(disk.State()), old(console.answers)), table, s, force)
  {
    var found := FileExceptionHandler(disk, table, s.dryRun);
    if found.Fail? {
      return Err(found.error);
    }
    var root := DirExceptionHandler(disk, console, s.out, s.dryRun, [], force);
    if root.Err? {
      return Err(root.error);
    }
    if root.value == NeedsCreate {
      var made := CreateDirectory(disk, s.out, s.dryRun);
      if made.Err? {
        return Err(made.error);
      }
    }
    found := CheckContent(disk, s);
    if found.Fail? {
      return Err(found.error);
    }
    if !IsFile(disk.State(), table) {
      return Err(Io(NotAFile(table)));
    }
    return Ok(());
  }

  /**
   * `main`, returning the final `all_created_dirs`. The names the content
   * directory lists are given in the order `glob` yields them.
   */
  method RunPackager(disk: FileSystem, console: Console, table: Path, rows: seq<Row>, s: Setup, force: bool)
    returns (r: Result<seq<Option<Path>>, Failure>)
    modifies disk, console
    ensures Run(r, World(disk.State(), console.answers))
         == Main(World(old(disk.State()), old(console.answers)), table, rows, s, force)
  {
    var ready := PrepareRun(disk, console, table, s, force);
    if ready.Err? {
      return Err(ready.error);
    }
    r := PackageRows(disk, console, rows, s);
  }
}
