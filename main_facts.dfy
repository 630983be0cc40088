/**
 * What `main` promises over the whole manifest: the session list only
 * grows, a dry run changes nothing, the force flag matters only for the
 * output root, and outside a dry run every reviewer named anywhere in the
 * manifest ends up with a directory holding every content file and the
 * paper of the last row naming that reviewer.
 */
module MainFacts {
  import opened Wrappers
  import opened Paths
  import opened FileTree
  import opened PackagerSpec
  import opened HandlerFacts
  import opened RowFacts
  import opened FillFacts
  import opened SessionFacts

  /** Lines 271-272: what `main` collects only grows; rows never take entries away. */
  lemma {:induction false} SessionGrows(w: World, session: seq<Option<Path>>, rows: seq<Row>, i: nat, s: Setup)
    requires i <= |rows|
    ensures var r := RowsFrom(w, session, rows, i, s);
            r.result.Ok? ==> session <= r.result.value
    decreases |rows| - i
  {
    if i < |rows| {
      var p := Package(w, rows[i], session, s, false);
      if p.result.Ok? {
        SessionGrows(p.world, session + p.result.value, rows, i + 1, s);
      }
    }
  }

  /** In a dry run the rows touch nothing, ask nothing and add only Nones. */
  lemma {:induction false} DryRunRows(w: World, session: seq<Option<Path>>, rows: seq<Row>, i: nat, s: Setup)
    requires s.dryRun && i <= |rows|
    ensures var r := RowsFrom(w, session, rows, i, s);
            && r.world == w
            && (r.result.Ok? ==> NonesAfter(r.result.value, session))
    decreases |rows| - i
  {
    if i < |rows| {
      DryRunPackage(w, rows[i], session, s, false);
      var p := Package(w, rows[i], session, s, false);
      if p.result.Ok? {
        DryRunRows(w, session + p.result.value, rows, i + 1, s);
        var r := RowsFrom(w, session + p.result.value, rows, i + 1, s);
        if r.result.Ok? {
          forall k | |session| <= k < |r.result.value|
            ensures r.result.value[k] == None
          {
            if k < |session + p.result.value| {
              assert r.result.value[k] == (session + p.result.value)[k] == p.result.value[k - |session|];
            }
          }
        }
      }
    }
  }

  /**
   * A dry run of `main` changes nothing on disk and reads no answer, and
   * the list it collects holds only Nones.
   */
  lemma DryRunMain(w: World, table: Path, rows: seq<Row>, s: Setup, force: bool)
    requires s.dryRun
    ensures var r := Main(w, table, rows, s, force);
            && r.world == w
            && (r.result.Ok? ==> forall k :: 0 <= k < |r.result.value| ==> r.result.value[k] == None)
  {
    PrepareFrame(w, table, s, force);
    DryRunRows(w, [], rows, 0, s);
  }

  /**
   * Lines 242 and 264-269: `force` reaches only the output root. When the
   * output root does not exist yet, the flag changes nothing at all.
   */
  lemma ForceOnlyForRoot(w: World, table: Path, rows: seq<Row>, s: Setup)
    requires !Exists(w.fs, s.out)
    ensures Main(w, table, rows, s, true) == Main(w, table, rows, s, false)
  {
    AbsentNeedsCreate(w, s.out, s.dryRun, [], true);
    AbsentNeedsCreate(w, s.out, s.dryRun, [], false);
  }

  /** On a well-formed disk, a missing output root has no reviewer directory or file under it. */
  lemma AbsentRootHoldsNothing(fs: Fs, out: Path, d: Path)
    requires Valid(fs) && !Exists(fs, out) && IsChild(d, out)
    ensures !Exists(fs, d)
  {
    assert Parent(d) == out;
  }

  /**
   * Lines 242-243 and 66 with the flag set: an output root that exists is
   * removed with everything in it, without reading a line, and made again
   * empty, so before the first row no reviewer directory is left.
   */
  lemma ForceEmptiesRoot(w: World, table: Path, s: Setup, d: Path)
    requires !s.dryRun && IsDir(w.fs, s.out) && IsChild(d, s.out)
    ensures var r := Prepare(w, table, s, true);
            r.result.Ok? ==>
              && r.world.answers == w.answers
              && IsDir(r.world.fs, s.out)
              && r.world.fs.dirs[s.out] == map[]
              && !Exists(r.world.fs, d)
  {
    ForcedOverwrite(w, s.out, []);
    assert Parent(d) == s.out;
  }

  /** Every row a manifest holds names a paper. */
  predicate NamesPapers(rows: seq<Row>) {
    forall k :: 0 <= k < |rows| ==> |rows[k]| > 0 && Slot(rows[k][0]) != ""
  }

  /** No row from `i` on names the directory `d`. */
  predicate NotNamedFrom(rows: seq<Row>, i: nat, d: Path, out: Path) {
    forall k :: i <= k < |rows| ==> Some(d) !in Targets(rows[k], out, 0)
  }

  /** What row `i` and then the later rows leave alone stays as it was. */
  lemma RowsFramesStep(fs0: Fs, fs1: Fs, fs2: Fs, rows: seq<Row>, i: nat, out: Path)
    requires i < |rows|
    requires forall d :: IsChild(d, out) && Some(d) !in Targets(rows[i], out, 0) ==> Unchanged(fs0, fs1, d)
    requires forall d :: IsChild(d, out) && NotNamedFrom(rows, i + 1, d, out) ==> Unchanged(fs1, fs2, d)
    ensures forall d :: IsChild(d, out) && NotNamedFrom(rows, i, d, out) ==> Unchanged(fs0, fs2, d)
  {
  }

  /**
   * Row `i` fills its directories; the later rows refill those they name
   * again and leave the others alone, so the content is everywhere and the
   * paper of row `i` stays where no later row comes back.
   */
  lemma RowsStep(fs1: Fs, fs2: Fs, rows: seq<Row>, i: nat, s: Setup)
    requires Layout(s) && NamesPapers(rows) && i < |rows| && SameOutside(fs1, fs2, s.out)
    requires forall t :: Some(t) in Targets(rows[i], s.out, 0) ==>
               IsChild(t, s.out) && HasContent(fs1, t, s) && HasPaper(fs1, t, Slot(rows[i][0]), s)
    requires forall d :: IsChild(d, s.out) && NotNamedFrom(rows, i + 1, d, s.out) ==> Unchanged(fs1, fs2, d)
    requires forall k, t :: i + 1 <= k < |rows| && Some(t) in Targets(rows[k], s.out, 0) ==> HasContent(fs2, t, s)
    requires forall k, t :: i + 1 <= k < |rows| && Some(t) in Targets(rows[k], s.out, 0) && NotNamedFrom(rows, k + 1, t, s.out) ==>
               HasPaper(fs2, t, Slot(rows[k][0]), s)
    ensures forall k, t :: i <= k < |rows| && Some(t) in Targets(rows[k], s.out, 0) ==> HasContent(fs2, t, s)
    ensures forall k, t :: i <= k < |rows| && Some(t) in Targets(rows[k], s.out, 0) && NotNamedFrom(rows, k + 1, t, s.out) ==>
              HasPaper(fs2, t, Slot(rows[k][0]), s)
  {
    forall t | Some(t) in Targets(rows[i], s.out, 0)
      ensures HasContent(fs2, t, s)
      ensures NotNamedFrom(rows, i + 1, t, s.out) ==> HasPaper(fs2, t, Slot(rows[i][0]), s)
    {
      if NotNamedFrom(rows, i + 1, t, s.out) {
        KeptIsKept(fs1, fs2, t, Slot(rows[i][0]), s);
      }
    }
  }

  /**
   * The loop at lines 257-272 outside a dry run: when it goes through, every
   * reviewer directory the rows name is a directory holding the content,
   * and holds the paper of the last row that names it. Whether or not it
   * goes through, directories under the output root that no row names, the
   * output root's listing and everything outside the output root stay as
   * they were.
   */
  lemma {:induction false} RowsFromFill(w: World, session: seq<Option<Path>>, rows: seq<Row>, i: nat, s: Setup)
    requires Layout(s) && !s.dryRun && i <= |rows| && NamesPapers(rows)
    ensures var r := RowsFrom(w, session, rows, i, s);
            && SameOutside(w.fs, r.world.fs, s.out)
            && Unchanged(w.fs, r.world.fs, s.out)
            && (forall d :: IsChild(d, s.out) && NotNamedFrom(rows, i, d, s.out) ==> Unchanged(w.fs, r.world.fs, d))
            && (r.result.Ok? ==>
                  && (forall k, t :: i <= k < |rows| && Some(t) in Targets(rows[k], s.out, 0) ==> HasContent(r.world.fs, t, s))
                  && (forall k, t :: i <= k < |rows| && Some(t) in Targets(rows[k], s.out, 0) && NotNamedFrom(rows, k + 1, t, s.out) ==>
                        HasPaper(r.world.fs, t, Slot(rows[k][0]), s)))
    decreases |rows| - i
  {
    if i < |rows| {
      PackageFills(w, rows[i], session, s, false);
      var p := Package(w, rows[i], session, s, false);
      if p.result.Ok? {
        RowsFromFill(p.world, session + p.result.value, rows, i + 1, s);
        var r := RowsFrom(p.world, session + p.result.value, rows, i + 1, s);
        SameOutsideTrans(w.fs, p.world.fs, r.world.fs, s.out);
        RowsFramesStep(w.fs, p.world.fs, r.world.fs, rows, i, s.out);
        if r.result.Ok? {
          TargetsAreChildren(rows[i], s.out, 0);
          RowsStep(p.world.fs, r.world.fs, rows, i, s);
        }
      }
    }
  }

  /**
   * `main` outside a dry run: when it goes through, every reviewer named in
   * any row of the manifest has a directory under the output root holding a
   * copy of every content file and the paper of the last row naming that
   * reviewer; and whatever happens, nothing outside the output root changes.
   */
  lemma MainFills(w: World, table: Path, rows: seq<Row>, s: Setup, force: bool)
    requires Layout(s) && !s.dryRun && NamesPapers(rows)
    ensures var r := Main(w, table, rows, s, force);
            && SameOutside(w.fs, r.world.fs, s.out)
            && (r.result.Ok? ==>
                  && (forall k, t :: 0 <= k < |rows| && Some(t) in Targets(rows[k], s.out, 0) ==> HasContent(r.world.fs, t, s))
                  && (forall k, t :: 0 <= k < |rows| && Some(t) in Targets(rows[k], s.out, 0) && NotNamedFrom(rows, k + 1, t, s.out) ==>
                        HasPaper(r.world.fs, t, Slot(rows[k][0]), s)))
  {
    PrepareFrame(w, table, s, force);
    var prep := Prepare(w, table, s, force);
    if prep.result.Ok? {
      RowsFromFill(prep.world, [], rows, 0, s);
      SameOutsideTrans(w.fs, prep.world.fs, RowsFrom(prep.world, [], rows, 0, s).world.fs, s.out);
    }
  }

  /** `t` holds the paper of every row before `i` that names it. */
  ghost predicate HoldsPapers(fs: Fs, t: Path, rows: seq<Row>, i: nat, s: Setup) {
    forall k :: 0 <= k < i && k < |rows| && |rows[k]| > 0 && Some(t) in Targets(rows[k], s.out, 0) ==>
      HasPaper(fs, t, Slot(rows[k][0]), s)
  }

  /** `t` is in the session, or is not on disk. */
  ghost predicate Tracked(fs: Fs, session: seq<Option<Path>>, t: Path) {
    Some(t) in session || !Exists(fs, t)
  }

  /** A directory holding a paper exists. */
  lemma PaperMeansDir(fs: Fs, t: Path, paper: string, s: Setup)
    requires paper != ""
    ensures HasPaper(fs, t, paper, s) ==> IsDir(fs, t)
  {
    assert Parent(Join(t, paper)) == t;
  }

  /** A directory that is not on disk holds no paper, so no row before `i` named it. */
  lemma NotNamedBefore(fs: Fs, t: Path, rows: seq<Row>, i: nat, s: Setup)
    requires NamesPapers(rows) && i <= |rows| && !Exists(fs, t) && HoldsPapers(fs, t, rows, i, s)
    ensures forall k :: 0 <= k < i ==> Some(t) !in Targets(rows[k], s.out, 0)
  {
    forall k | 0 <= k < i
      ensures Some(t) !in Targets(rows[k], s.out, 0)
    {
      PaperMeansDir(fs, t, Slot(rows[k][0]), s);
    }
  }

  /** Row `i` outside a dry run keeps every paper of a directory from the session. */
  lemma SessionKeepsAll(w: World, session: seq<Option<Path>>, rows: seq<Row>, i: nat, s: Setup, t: Path)
    requires Layout(s) && !s.dryRun && i < |rows| && NamesPapers(rows) && IsChild(t, s.out)
    requires Some(t) in session && HoldsPapers(w.fs, t, rows, i, s)
    ensures var p := Package(w, rows[i], session, s, false);
            p.result.Ok? ==> HoldsPapers(p.world.fs, t, rows, i, s)
  {
    var p := Package(w, rows[i], session, s, false);
    forall k | 0 <= k < i && Some(t) in Targets(rows[k], s.out, 0)
      ensures p.result.Ok? ==> HasPaper(p.world.fs, t, Slot(rows[k][0]), s)
    {
      SessionKeeps(w, rows[i], session, s, false, t, Slot(rows[k][0]));
    }
  }

  /**
   * Row `i` outside a dry run, when it names a tracked directory `t`: `t`
   * is in the session afterwards, holds the row's paper and keeps the
   * papers it held.
   */
  lemma NamedKeepsPapers(w: World, session: seq<Option<Path>>, rows: seq<Row>, i: nat, s: Setup, t: Path)
    requires Layout(s) && !s.dryRun && i < |rows| && NamesPapers(rows) && IsChild(t, s.out)
    requires Some(t) in Targets(rows[i], s.out, 0)
    requires Tracked(w.fs, session, t) && HoldsPapers(w.fs, t, rows, i, s)
    ensures var p := Package(w, rows[i], session, s, false);
            p.result.Ok? ==> Some(t) in session + p.result.value && HoldsPapers(p.world.fs, t, rows, i + 1, s)
  {
    PackageFills(w, rows[i], session, s, false);
    if Some(t) in session {
      SessionKeepsAll(w, session, rows, i, s, t);
    } else {
      NotNamedBefore(w.fs, t, rows, i, s);
      NewDirectoryRecorded(w, rows[i], session, s, false, t);
    }
  }

  /**
   * Row `i` outside a dry run, when it does not name `t`: `t` stays
   * tracked and keeps the papers it held.
   */
  lemma UnnamedKeepsPapers(w: World, session: seq<Option<Path>>, rows: seq<Row>, i: nat, s: Setup, t: Path)
    requires Layout(s) && !s.dryRun && i < |rows| && NamesPapers(rows) && IsChild(t, s.out)
    requires Some(t) !in Targets(rows[i], s.out, 0)
    requires Tracked(w.fs, session, t) && HoldsPapers(w.fs, t, rows, i, s)
    ensures var p := Package(w, rows[i], session, s, false);
            p.result.Ok? ==> Tracked(p.world.fs, session + p.result.value, t) && HoldsPapers(p.world.fs, t, rows, i + 1, s)
  {
    var p := Package(w, rows[i], session, s, false);
    PackageFills(w, rows[i], session, s, false);
    if !Exists(w.fs, t) {
      AbsentKept(w.fs, p.world.fs, t, s.out);
    }
    forall k | 0 <= k < i && Some(t) in Targets(rows[k], s.out, 0)
      ensures HasPaper(p.world.fs, t, Slot(rows[k][0]), s)
    {
      KeptIsKept(w.fs, p.world.fs, t, Slot(rows[k][0]), s);
    }
  }

  /**
   * The loop at lines 257-272 outside a dry run, for a directory `t` that
   * is in the session or not on disk: when the loop goes through, `t` holds
   * the paper of every row from `i` on that names it, and still holds those
   * of the rows before `i` that did.
   */
  lemma {:induction false} PapersKeptFrom(w: World, session: seq<Option<Path>>, rows: seq<Row>, i: nat, s: Setup, t: Path)
    requires Layout(s) && !s.dryRun && i <= |rows| && NamesPapers(rows) && IsChild(t, s.out)
    requires Tracked(w.fs, session, t) && HoldsPapers(w.fs, t, rows, i, s)
    ensures var r := RowsFrom(w, session, rows, i, s);
            r.result.Ok? ==> HoldsPapers(r.world.fs, t, rows, |rows|, s)
    decreases |rows| - i
  {
    if i < |rows| {
      var p := Package(w, rows[i], session, s, false);
      if p.result.Ok? {
        RowsFromStep(w, session, rows, i, s);
        if Some(t) in Targets(rows[i], s.out, 0) {
          NamedKeepsPapers(w, session, rows, i, s, t);
        } else {
          UnnamedKeepsPapers(w, session, rows, i, s, t);
        }
        PapersKeptFrom(p.world, session + p.result.value, rows, i + 1, s, t);
      }
    }
  }

  /**
   * `main` outside a dry run, for a reviewer whose directory did not exist
   * when the run started: the directory is made once and recorded, so no
   * later row asks about it, and when the run goes through it holds the
   * paper of every row that names the reviewer, not only of the last.
   */
  lemma PapersOfNewReviewer(w: World, table: Path, rows: seq<Row>, s: Setup, force: bool, t: Path)
    requires Layout(s) && !s.dryRun && NamesPapers(rows) && IsChild(t, s.out) && !Exists(w.fs, t)
    ensures var r := Main(w, table, rows, s, force);
            r.result.Ok? ==>
              forall k :: 0 <= k < |rows| && Some(t) in Targets(rows[k], s.out, 0) ==> HasPaper(r.world.fs, t, Slot(rows[k][0]), s)
  {
    PrepareAddsNoChild(w, table, s, force, t);
    var prep := Prepare(w, table, s, force);
    if prep.result.Ok? {
      PapersKeptFrom(prep.world, [], rows, 0, s, t);
    }
  }

  /** Resolving the output root adds nothing under it: the root is kept or removed whole. */
  lemma RootResolveAddsNoChild(w: World, out: Path, dryRun: bool, force: bool, t: Path)
    requires IsChild(t, out) && !Exists(w.fs, t)
    ensures !Exists(Resolve(w, out, dryRun, [], force).world.fs, t)
  {
    assert Parent(t) == out;
    if Exists(w.fs, out) && !dryRun && IsDir(w.fs, out) {
      RmtreeFrame(w.fs, out);
    }
  }

  /** Making the output root adds nothing under it. */
  lemma RootCreateAddsNoChild(fs: Fs, out: Path, dryRun: bool, t: Path)
    requires IsChild(t, out) && !Exists(fs, t)
    ensures !Exists(CreateDir(fs, out, dryRun).fs, t)
  {
    assert Parent(t) == out;
  }

  /** Getting ready adds nothing under the output root. */
  lemma PrepareAddsNoChild(w: World, table: Path, s: Setup, force: bool, t: Path)
    requires IsChild(t, s.out) && !Exists(w.fs, t)
    ensures !Exists(Prepare(w, table, s, force).world.fs, t)
  {
    RootResolveAddsNoChild(w, s.out, s.dryRun, force, t);
    var root := Resolve(w, s.out, s.dryRun, [], force);
    RootCreateAddsNoChild(root.world.fs, s.out, s.dryRun, t);
  }

  /** Getting ready changes nothing outside the output root, and nothing at all in a dry run. */
  lemma PrepareFrame(w: World, table: Path, s: Setup, force: bool)
    ensures var r := Prepare(w, table, s, force);
            && SameOutside(w.fs, r.world.fs, s.out)
            && (s.dryRun ==> r.world == w)
  {
    if RequiredFile(w.fs, table, s.dryRun).Pass? {
      ResolveFrame(w, s.out, s.dryRun, [], force);
      var root := Resolve(w, s.out, s.dryRun, [], force);
      if root.result.Ok? {
        var made := if root.result.value == NeedsCreate then CreateDir(root.world.fs, s.out, s.dryRun)
                    else Step(Ok(None), root.world.fs);
        CreateDirFrame(root.world.fs, s.out, s.dryRun);
        SameOutsideTrans(w.fs, root.world.fs, made.fs, s.out);
      }
    }
  }

  /**
   * Lines 227-228 and 241-243: outside a dry run, once getting ready went
   * through, the output root exists, whether it was there, was kept, or was
   * removed and made again.
   */
  lemma PrepareMakesRoot(w: World, table: Path, s: Setup, force: bool)
    requires !s.dryRun
    ensures var r := Prepare(w, table, s, force);
            r.result.Ok? ==> Exists(r.world.fs, s.out)
  {
  }

  /**
   * Line 239: outside a dry run a missing manifest ends the run with status
   * 1 before anything is touched or asked.
   */
  lemma MissingManifest(w: World, table: Path, rows: seq<Row>, s: Setup, force: bool)
    requires !s.dryRun && !Exists(w.fs, table)
    ensures Main(w, table, rows, s, force) == Run(Err(Exit(1)), w)
  {
  }
}
