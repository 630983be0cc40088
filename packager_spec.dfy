/**
 * The reviewer-packaging procedure of cp_packager: each step of the
 * program as a function from the world before it (the disk and the
 * answers the operator has still to type) to what it returns together
 * with the world after it. The world after a failure is kept as well,
 * since nothing is rolled back.
 */
module PackagerSpec {
  import opened Wrappers
  import opened Paths
  import opened FileTree
  import opened Text

  /** The ways a run stops early. */
  datatype Failure =
    | Exit(code: int)     // `sys.exit(1)` for a missing required file
    | RowTooShort         // the assertion that a row names more than its paper
    | MalformedValue      // a cell that is not text, where `strip` raises AttributeError
    | EndOfInput          // `input()` with nothing left to read raises EOFError
    | Io(cause: IoError)  // an exception from mkdir, rmtree, copyfile or open

  /** Everything outside the program that a run reads or changes. */
  datatype World = World(fs: Fs, answers: seq<string>)

  /** What a step returns, or the failure that stopped it, with the world it leaves. */
  datatype Run<T> = Run(result: Result<T, Failure>, world: World)

  /** The same for a step that only touches the disk. */
  datatype Step<T> = Step(result: Result<T, Failure>, fs: Fs)

  /** The three values `dir_exception_handler` returns: True, False and None. */
  datatype Resolution = NeedsCreate | Keep | DryRunWarning

  /** A manifest row: its cells in column order, `None` where the reader had no text. */
  type Row = seq<Option<string>>

  /** What is fixed for a whole run. */
  datatype Setup = Setup(
    content: seq<string>,  // the names in the content directory, listed once
    contentDir: Path,
    papers: Path,
    out: Path,
    dryRun: bool)

  /** The per-row variables of `make_package`: `curr_paper` and `created_dirs_list`. */
  datatype RowState = RowState(paper: string, created: seq<Option<Path>>)

  // ---------------------------------------------------------------------------
  // file_exception_handler

  /** A required file must exist, except in a dry run, where nothing is looked at. */
  function RequiredFile(fs: Fs, p: Path, dryRun: bool): Outcome<Failure> {
    if !dryRun && !Exists(fs, p) then Fail(Exit(1)) else Pass
  }

  // ---------------------------------------------------------------------------
  // dir_exception_handler

  /** The values the variable `overwrite` takes: the flag passed in, then each line typed. */
  datatype Answer = Flag(flag: bool) | Typed(line: string)

  /** The answers that end the prompt loop. */
  predicate Recognised(a: Answer) {
    a == Flag(true) || (a.Typed? && a.line in ["Y", "y", "N", "n"])
  }

  /** `overwrite == True or overwrite.lower() == 'y'`, for an answer that ended the loop. */
  predicate Approves(a: Answer)
    requires Recognised(a)
  {
    a == Flag(true) || a.line in ["Y", "y"]
  }

  predicate YesOrNo(line: string) {
    Recognised(Typed(line))
  }

  /**
   * The prompt loop run on a script of typed lines: whether the operator
   * approved, and how many lines were read; `None` when the lines ran out
   * first. Only an exact Y, y, N or n ends the loop.
   */
  function Ask(answers: seq<string>): (r: Option<(bool, nat)>)
    ensures r.None? <==> forall i :: 0 <= i < |answers| ==> !YesOrNo(answers[i])
    ensures r.Some? ==>
              && 0 < r.value.1 <= |answers|
              && YesOrNo(answers[r.value.1 - 1])
              && (forall i :: 0 <= i < r.value.1 - 1 ==> !YesOrNo(answers[i]))
              && (r.value.0 <==> answers[r.value.1 - 1] in ["Y", "y"])
  {
    if answers == [] then None
    else if YesOrNo(answers[0]) then Some((Approves(Typed(answers[0])), 1))
    else match Ask(answers[1..])
      case None => None
      case Some((yes, k)) => Some((yes, k + 1))
  }

  /** Lines 64-67: the tree at `p` is removed and has to be made again. */
  function Overwrite(w: World, p: Path): Run<Resolution> {
    match Rmtree(w.fs, p)
    case Ok(fs') => Run(Ok(NeedsCreate), w.(fs := fs'))
    case Err(e) => Run(Err(Io(e)), w)
  }

  /**
   * Whether the directory `p` has to be created: the decision table of
   * `dir_exception_handler`, over the session's list of directories,
   * the disk, the dry-run flag and the overwrite flag or the answers.
   */
  function Resolve(w: World, p: Path, dryRun: bool, session: seq<Option<Path>>, overwrite: bool): Run<Resolution>
  {
    if Some(p) in session then Run(Ok(Keep), w)
    else if Exists(w.fs, p) then
      if !dryRun then
        if overwrite then Overwrite(w, p)
        else match Ask(w.answers)
          case None => Run(Err(EndOfInput), w.(answers := []))
          case Some((yes, k)) =>
            var rest := w.(answers := w.answers[k..]);
            if yes then Overwrite(rest, p) else Run(Ok(Keep), rest)
      else Run(Ok(DryRunWarning), w)
    else Run(Ok(NeedsCreate), w)
  }

  // ---------------------------------------------------------------------------
  // create_directory

  /**
   * Makes the directory outside a dry run and returns its path; a dry run
   * makes nothing and returns None. A path that already exists raises.
   */
  function CreateDir(fs: Fs, p: Path, dryRun: bool): (r: Step<Option<Path>>)
    ensures dryRun ==> r == Step(Ok(None), fs)
    ensures !dryRun && Exists(fs, p) ==> r == Step(Err(Io(AlreadyExists(p))), fs)
    ensures !dryRun && r.result.Ok? ==> r.result.value == Some(p) && IsDir(r.fs, p) && r.fs.dirs[p] == map[]
    ensures !dryRun ==> (r.result.Ok? <==> !Exists(fs, p) && |p| > 0 && IsDir(fs, Parent(p)))
    ensures r.result.Err? ==> r.fs == fs
  {
    if dryRun then Step(Ok(None), fs)
    else match Mkdir(fs, p)
      case Ok(fs') => Step(Ok(Some(p)), fs')
      case Err(e) => Step(Err(Io(e)), fs)
  }

  // ---------------------------------------------------------------------------
  // make_package

  /** The stripped text of a cell; a cell without text counts as empty here. */
  function Slot(cell: Option<string>): string {
    if cell.Some? then Strip(cell.value) else ""
  }

  /** Lines 200-201 from the `i`-th content file on: each is copied into `target` under its own name. */
  function CopyContentFrom(fs: Fs, s: Setup, target: Path, i: nat): Step<()>
    requires i <= |s.content|
    decreases |s.content| - i
  {
    if i == |s.content| then Step(Ok(()), fs)
    else
      var name := s.content[i];
      match Copyfile(fs, Join(s.contentDir, name), Join(target, name))
      case Err(e) => Step(Err(Io(e)), fs)
      case Ok(fs') => CopyContentFrom(fs', s, target, i + 1)
  }

  /** One turn of the loop at lines 200-201. */
  lemma CopyContentStep(fs: Fs, s: Setup, target: Path, i: nat)
    requires i < |s.content|
    ensures var name := s.content[i];
            var c := Copyfile(fs, Join(s.contentDir, name), Join(target, name));
            CopyContentFrom(fs, s, target, i)
            == if c.Ok? then CopyContentFrom(c.value, s, target, i + 1) else Step(Err(Io(c.error)), fs)
  {
  }

  /** Lines 196-201: outside a dry run the paper, then every content file, is copied into `target`. */
  function Populate(fs: Fs, paper: string, target: Path, s: Setup): Step<()> {
    if s.dryRun then Step(Ok(()), fs)
    else match Copyfile(fs, Join(s.papers, paper), Join(target, paper))
      case Err(e) => Step(Err(Io(e)), fs)
      case Ok(fs') => CopyContentFrom(fs', s, target, 0)
  }

  /**
   * Lines 187-201 for one non-empty reviewer slot: resolve the reviewer's
   * directory, create it (recording what `create_directory` returned) when
   * the answer was True, and copy into it whatever the answer was.
   */
  function Reviewer(w: World, rs: RowState, target: Path, session: seq<Option<Path>>, s: Setup, force: bool): Run<RowState> {
    var res := Resolve(w, target, s.dryRun, session, force);
    if res.result.Err? then Run(Err(res.result.error), res.world)
    else
      var made := if res.result.value == NeedsCreate then CreateDir(res.world.fs, target, s.dryRun)
                  else Step(Ok(None), res.world.fs);
      if made.result.Err? then Run(Err(made.result.error), res.world.(fs := made.fs))
      else
        var rs' := if res.result.value == NeedsCreate then rs.(created := rs.created + [made.result.value]) else rs;
        var copied := Populate(made.fs, rs.paper, target, s);
        Run(if copied.result.Ok? then Ok(rs') else Err(copied.result.error), res.world.(fs := copied.fs))
  }

  /** One pass of the loop at lines 166-201, for the cell in column `i`. */
  function Column(w: World, rs: RowState, i: nat, cell: Option<string>, session: seq<Option<Path>>, s: Setup, force: bool): Run<RowState> {
    if cell.None? then Run(Err(MalformedValue), w)
    else
      var item := Strip(cell.value);
      if i == 0 then
        match RequiredFile(w.fs, Join(s.papers, item), s.dryRun)
        case Fail(e) => Run(Err(e), w)
        case Pass => Run(Ok(rs.(paper := item)), w)
      else if item == "" then Run(Ok(rs), w)
      else Reviewer(w, rs, Join(s.out, item), session, s, force)
  }

  /** The loop at lines 166-201 from column `i` on; the first failure ends it. */
  function RowFrom(w: World, rs: RowState, row: Row, i: nat, session: seq<Option<Path>>, s: Setup, force: bool): Run<RowState>
    requires i <= |row|
    decreases |row| - i
  {
    if i == |row| then Run(Ok(rs), w)
    else
      var step := Column(w, rs, i, row[i], session, s, force);
      if step.result.Err? then step
      else RowFrom(step.world, step.result.value, row, i + 1, session, s, force)
  }

  /** One turn of the loop at lines 166-201 that did not fail. */
  lemma RowFromStep(w: World, rs: RowState, row: Row, i: nat, session: seq<Option<Path>>, s: Setup, force: bool)
    requires i < |row|
    requires Column(w, rs, i, row[i], session, s, force).result.Ok?
    ensures var step := Column(w, rs, i, row[i], session, s, force);
            RowFrom(w, rs, row, i, session, s, force)
            == RowFrom(step.world, step.result.value, row, i + 1, session, s, force)
  {
  }

  /** A turn of the loop at lines 166-201 that failed ends the row with that failure. */
  lemma RowFromFails(w: World, rs: RowState, row: Row, i: nat, session: seq<Option<Path>>, s: Setup, force: bool)
    requires i < |row|
    requires Column(w, rs, i, row[i], session, s, force).result.Err?
    ensures RowFrom(w, rs, row, i, session, s, force) == Column(w, rs, i, row[i], session, s, force)
  {
  }

  /** `make_package`: the directories created for one row, in column order. */
  function Package(w: World, row: Row, session: seq<Option<Path>>, s: Setup, force: bool): Run<seq<Option<Path>>> {
    if |row| <= 1 then Run(Err(RowTooShort), w)
    else
      var r := RowFrom(w, RowState("", []), row, 0, session, s, force);
      Run(if r.result.Ok? then Ok(r.result.value.created) else Err(r.result.error), r.world)
  }

  // ---------------------------------------------------------------------------
  // main

  /**
   * Lines 250-253 from the `i`-th entry of the content directory on: outside
   * a dry run every entry must exist, and the first missing one ends the run
   * with status 1.
   */
  function CheckContentFrom(fs: Fs, s: Setup, i: nat): (r: Outcome<Failure>)
    requires i <= |s.content|
    ensures r == Pass <==> s.dryRun || forall k :: i <= k < |s.content| ==> Exists(fs, Join(s.contentDir, s.content[k]))
    ensures r.Fail? ==> r == Fail(Exit(1))
    decreases |s.content| - i
  {
    if i == |s.content| then Pass
    else match RequiredFile(fs, Join(s.contentDir, s.content[i]), s.dryRun)
      case Fail(e) => Fail(e)
      case Pass => CheckContentFrom(fs, s, i + 1)
  }

  /**
   * The loop at lines 257-272 from row `i` on: each row is packaged with
   * the session list as it stands, then what it created is appended to it.
   * `make_package` is called without `force_create`, so the force flag never
   * reaches a reviewer directory.
   */
  function RowsFrom(w: World, session: seq<Option<Path>>, rows: seq<Row>, i: nat, s: Setup): Run<seq<Option<Path>>>
    requires i <= |rows|
    decreases |rows| - i
  {
    if i == |rows| then Run(Ok(session), w)
    else
      var p := Package(w, rows[i], session, s, false);
      if p.result.Err? then Run(Err(p.result.error), p.world)
      else RowsFrom(p.world, session + p.result.value, rows, i + 1, s)
  }

  /** One turn of the loop at lines 257-272 that did not fail. */
  lemma RowsFromStep(w: World, session: seq<Option<Path>>, rows: seq<Row>, i: nat, s: Setup)
    requires i < |rows|
    requires Package(w, rows[i], session, s, false).result.Ok?
    ensures var p := Package(w, rows[i], session, s, false);
            RowsFrom(w, session, rows, i, s) == RowsFrom(p.world, session + p.result.value, rows, i + 1, s)
  {
  }

  /**
   * Lines 238-253 and the opening of the manifest: the manifest must exist,
   * the output root is resolved and made when needed, and every content
   * entry must exist. Opening the manifest happens at the first `next`,
   * after the content directory was listed; one that is not a readable file
   * raises then.
   */
  function Prepare(w: World, table: Path, s: Setup, force: bool): Run<()> {
    match RequiredFile(w.fs, table, s.dryRun)
    case Fail(e) => Run(Err(e), w)
    case Pass =>
      var root := Resolve(w, s.out, s.dryRun, [], force);
      if root.result.Err? then Run(Err(root.result.error), root.world)
      else
        var made := if root.result.value == NeedsCreate then CreateDir(root.world.fs, s.out, s.dryRun)
                    else Step(Ok(None), root.world.fs);
        var w' := root.world.(fs := made.fs);
        if made.result.Err? then Run(Err(made.result.error), w')
        else match CheckContentFrom(w'.fs, s, 0)
          case Fail(e) => Run(Err(e), w')
          case Pass =>
            if !IsFile(w'.fs, table) then Run(Err(Io(NotAFile(table))), w')
            else Run(Ok(()), w')
  }

  /** `main`, returning the final `all_created_dirs`. */
  function Main(w: World, table: Path, rows: seq<Row>, s: Setup, force: bool): Run<seq<Option<Path>>> {
    var prep := Prepare(w, table, s, force);
    if prep.result.Err? then Run(Err(prep.result.error), prep.world)
    else RowsFrom(prep.world, [], rows, 0, s)
  }
}
