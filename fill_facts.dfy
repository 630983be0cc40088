/**
 * What the copies at lines 196-201 leave on disk. Outside a dry run, once a
 * row went through, every reviewer directory it names holds a copy of the
 * paper and of every content file, whatever the operator answered, and
 * nothing outside the output root has changed. A copy replaces a file of the
 * same name (the doc comment at line 150 says otherwise; `copyfile` is what
 * runs), so where the paper and a content file share a name the content
 * file's bytes are the ones left.
 */
module FillFacts {
  import opened Wrappers
  import opened Paths
  import opened FileTree
  import opened PackagerSpec
  import opened Text
  import opened HandlerFacts
  import opened RowFacts

  /**
   * How the directories are laid out: neither the content nor the papers
   * directory lies under the output root, and the content directory lists no
   * entry with an empty name. The program sets them up as siblings.
   */
  predicate Layout(s: Setup) {
    && !Within(s.contentDir, s.out)
    && !Within(s.papers, s.out)
    && forall n :: n in s.content ==> n != ""
  }

  /** `dst` is a regular file holding the same bytes as the regular file `src`. */
  ghost predicate CopyOf(fs: Fs, dst: Path, src: Path) {
    IsFile(fs, dst) && IsFile(fs, src) && Data(fs, dst) == Data(fs, src)
  }

  /** `dir` is a directory holding a copy of every content file under its own name. */
  ghost predicate HasContent(fs: Fs, dir: Path, s: Setup) {
    && IsDir(fs, dir)
    && forall n :: n in s.content ==> CopyOf(fs, Join(dir, n), Join(s.contentDir, n))
  }

  /**
   * `dir` holds a file named after the paper: a copy of the paper, unless a
   * content file of the same name replaced it.
   */
  ghost predicate HasPaper(fs: Fs, dir: Path, paper: string, s: Setup) {
    && IsFile(fs, Join(dir, paper))
    && (paper !in s.content ==> CopyOf(fs, Join(dir, paper), Join(s.papers, paper)))
  }

  /** The directory `d` exists in both or in neither, listing the same entries. */
  ghost predicate Unchanged(fs: Fs, fs': Fs, d: Path) {
    && (d in fs.dirs <==> d in fs'.dirs)
    && (d in fs.dirs ==> fs.dirs[d] == fs'.dirs[d])
  }

  // ---------------------------------------------------------------------------
  // Paths and frames

  lemma JoinChild(out: Path, item: string)
    requires item != ""
    ensures IsChild(Join(out, item), out)
  {
    assert Join(out, item)[..|out|] == out;
  }

  /** What lies outside the output root lies outside each directory straight under it. */
  lemma OutsideChild(q: Path, out: Path, t: Path)
    requires IsChild(t, out) && !Within(q, out)
    ensures !Within(q, t)
  {
    WithinTrans(q, t, out);
  }

  lemma WithinTrans(q: Path, t: Path, out: Path)
    ensures Within(q, t) && Within(t, out) ==> Within(q, out)
  {
    if Within(q, t) && Within(t, out) {
      assert q[..|out|] == t[..|out|];
    }
  }

  /** Two different directories straight under the output root lie outside each other's trees. */
  lemma ChildrenApart(d: Path, t: Path, out: Path)
    requires IsChild(d, out) && IsChild(t, out) && d != t
    ensures !Within(d, t) && !Within(Parent(d), t)
  {
    WithinSameLength(d, t);
  }

  lemma WithinSameLength(d: Path, t: Path)
    ensures Within(d, t) && |d| == |t| ==> d == t
  {
    if Within(d, t) && |d| == |t| {
      assert d == d[..|t|];
    }
  }

  lemma FileKept(fs: Fs, fs': Fs, t: Path, q: Path)
    requires SameOutside(fs, fs', t) && IsFile(fs, q) && !Within(Parent(q), t)
    ensures IsFile(fs', q) && Data(fs', q) == Data(fs, q)
  {
  }

  lemma SameOutsideTrans(a: Fs, b: Fs, c: Fs, t: Path)
    requires SameOutside(a, b, t) && SameOutside(b, c, t)
    ensures SameOutside(a, c, t)
  {
  }

  lemma SameOutsideWiden(fs: Fs, fs': Fs, t: Path, out: Path)
    requires IsChild(t, out) && SameOutside(fs, fs', t)
    ensures SameOutside(fs, fs', out)
  {
    forall q | !Within(q, out)
      ensures (q in fs.dirs <==> q in fs'.dirs) && (q in fs.dirs ==> fs.dirs[q] == fs'.dirs[q])
    {
      OutsideChild(q, out, t);
    }
  }

  // ---------------------------------------------------------------------------
  // One reviewer directory

  /** Lines 200-201 from the `i`-th content file on touch nothing outside `t`. */
  lemma {:induction false} CopyContentFrame(fs: Fs, s: Setup, t: Path, i: nat)
    requires Layout(s) && i <= |s.content|
    ensures SameOutside(fs, CopyContentFrom(fs, s, t, i).fs, t)
    decreases |s.content| - i
  {
    if i < |s.content| {
      var n := s.content[i];
      assert n in s.content;
      var c := Copyfile(fs, Join(s.contentDir, n), Join(t, n));
      CopyContentStep(fs, s, t, i);
      if c.Ok? {
        CopyfileFrame(fs, Join(s.contentDir, n), Join(t, n));
        CopyContentFrame(c.value, s, t, i + 1);
        SameOutsideTrans(fs, c.value, CopyContentFrom(c.value, s, t, i + 1).fs, t);
      }
    }
  }

  /** Lines 200-201 make and remove no directory. */
  lemma {:induction false} CopyContentDirs(fs: Fs, s: Setup, t: Path, i: nat)
    requires i <= |s.content|
    ensures CopyContentFrom(fs, s, t, i).fs.dirs.Keys == fs.dirs.Keys
    decreases |s.content| - i
  {
    if i < |s.content| {
      var n := s.content[i];
      var c := Copyfile(fs, Join(s.contentDir, n), Join(t, n));
      CopyContentStep(fs, s, t, i);
      if c.Ok? {
        CopyfileFrame(fs, Join(s.contentDir, n), Join(t, n));
        CopyContentDirs(c.value, s, t, i + 1);
      }
    }
  }

  /** Copying to `t`/`n` leaves every other file of `t` as it was. */
  lemma CopyKeepsOther(fs: Fs, src: Path, t: Path, n: string, x: string)
    requires Copyfile(fs, src, Join(t, n)).Ok?
    requires n != "" && x != "" && x != n && IsFile(fs, Join(t, x))
    ensures var fs' := Copyfile(fs, src, Join(t, n)).value;
            IsFile(fs', Join(t, x)) && Data(fs', Join(t, x)) == Data(fs, Join(t, x))
  {
    CopyfileFrame(fs, src, Join(t, n));
  }

  /**
   * Lines 200-201 from the `i`-th content file on: a file of `t` whose name
   * is not among those content files is left as it was.
   */
  lemma {:induction false} CopyContentKeeps(fs: Fs, s: Setup, t: Path, i: nat, x: string)
    requires Layout(s) && i <= |s.content|
    requires x != "" && x !in s.content[i..] && IsFile(fs, Join(t, x))
    ensures var r := CopyContentFrom(fs, s, t, i);
            IsFile(r.fs, Join(t, x)) && Data(r.fs, Join(t, x)) == Data(fs, Join(t, x))
    decreases |s.content| - i
  {
    if i < |s.content| {
      var n := s.content[i];
      assert n in s.content;
      assert s.content[i..] == [n] + s.content[i + 1..];
      var c := Copyfile(fs, Join(s.contentDir, n), Join(t, n));
      CopyContentStep(fs, s, t, i);
      if c.Ok? {
        CopyKeepsOther(fs, Join(s.contentDir, n), t, n, x);
        CopyContentKeeps(c.value, s, t, i + 1, x);
      }
    }
  }

  /**
   * Lines 200-201 from the `i`-th content file on: when no copy fails, each
   * content file lands in `t` with the content file's bytes.
   */
  lemma {:induction false} CopyContentFills(fs: Fs, s: Setup, t: Path, i: nat)
    requires Layout(s) && IsChild(t, s.out) && i <= |s.content|
    ensures var r := CopyContentFrom(fs, s, t, i);
            r.result.Ok? ==> forall n :: n in s.content[i..] ==> CopyOf(r.fs, Join(t, n), Join(s.contentDir, n))
    decreases |s.content| - i
  {
    if i < |s.content| {
      var n := s.content[i];
      assert n in s.content;
      assert s.content[i..] == [n] + s.content[i + 1..];
      var src := Join(s.contentDir, n);
      var dst := Join(t, n);
      var c := Copyfile(fs, src, dst);
      CopyContentStep(fs, s, t, i);
      if c.Ok? {
        var fs1 := c.value;
        CopyfileFrame(fs, src, dst);
        CopyContentFills(fs1, s, t, i + 1);
        var r := CopyContentFrom(fs1, s, t, i + 1);
        if r.result.Ok? {
          OutsideChild(s.contentDir, s.out, t);
          FileKept(fs, fs1, t, src);
          if n !in s.content[i + 1..] {
            CopyContentKeeps(fs1, s, t, i + 1, n);
            CopyContentFrame(fs1, s, t, i + 1);
            FileKept(fs1, r.fs, t, src);
            assert CopyOf(r.fs, dst, src);
          }
        }
      }
    }
  }

  /** Lines 196-201 outside a dry run: the paper, then every content file, lands in `t`. */
  lemma PopulateFills(fs: Fs, paper: string, t: Path, s: Setup)
    requires Layout(s) && IsChild(t, s.out) && !s.dryRun && paper != ""
    ensures var r := Populate(fs, paper, t, s);
            && SameOutside(fs, r.fs, t)
            && (r.result.Ok? ==> HasContent(r.fs, t, s) && HasPaper(r.fs, t, paper, s))
  {
    var src := Join(s.papers, paper);
    var dst := Join(t, paper);
    var c := Copyfile(fs, src, dst);
    if c.Ok? {
      CopyfileFrame(fs, src, dst);
      CopyContentFrame(c.value, s, t, 0);
      CopyContentFills(c.value, s, t, 0);
      CopyContentDirs(c.value, s, t, 0);
      var r := CopyContentFrom(c.value, s, t, 0);
      if paper !in s.content {
        assert s.content[0..] == s.content;
        CopyContentKeeps(c.value, s, t, 0, paper);
      }
      SameOutsideTrans(fs, c.value, r.fs, t);
      if r.result.Ok? {
        assert s.content[0..] == s.content;
        if paper !in s.content {
          OutsideChild(s.papers, s.out, t);
          FileKept(fs, c.value, t, src);
          FileKept(c.value, r.fs, t, src);
        }
      }
    }
  }

  /**
   * Lines 187-201 for one reviewer outside a dry run: whatever
   * `dir_exception_handler` answered, a run that goes through leaves the
   * paper and the content in the reviewer's directory, and nothing outside
   * that directory changes.
   */
  lemma ReviewerFills(w: World, rs: RowState, t: Path, session: seq<Option<Path>>, s: Setup, force: bool)
    requires Layout(s) && IsChild(t, s.out) && !s.dryRun && rs.paper != ""
    ensures var r := Reviewer(w, rs, t, session, s, force);
            && SameOutside(w.fs, r.world.fs, t)
            && (r.result.Ok? ==> HasContent(r.world.fs, t, s) && HasPaper(r.world.fs, t, rs.paper, s))
  {
    ResolveFrame(w, t, false, session, force);
    var res := Resolve(w, t, false, session, force);
    if res.result.Ok? {
      var made := if res.result.value == NeedsCreate then CreateDir(res.world.fs, t, false)
                  else Step(Ok(None), res.world.fs);
      CreateDirFrame(res.world.fs, t, false);
      SameOutsideTrans(w.fs, res.world.fs, made.fs, t);
      if made.result.Ok? {
        PopulateFills(made.fs, rs.paper, t, s);
        SameOutsideTrans(w.fs, made.fs, Populate(made.fs, rs.paper, t, s).fs, t);
      }
    }
  }

  /** A file whose directory is unchanged is unchanged. */
  lemma FileUnchanged(fs: Fs, fs': Fs, q: Path)
    requires |q| > 0 && Unchanged(fs, fs', Parent(q)) && IsFile(fs, q)
    ensures IsFile(fs', q) && Data(fs', q) == Data(fs, q)
  {
  }

  /**
   * A directory under the output root that is unchanged, while nothing
   * outside the output root changed, keeps the content and any paper it held.
   */
  lemma KeptIsKept(fs: Fs, fs': Fs, d: Path, paper: string, s: Setup)
    requires Layout(s) && IsChild(d, s.out) && paper != ""
    requires SameOutside(fs, fs', s.out) && Unchanged(fs, fs', d)
    ensures HasContent(fs, d, s) ==> HasContent(fs', d, s)
    ensures HasPaper(fs, d, paper, s) ==> HasPaper(fs', d, paper, s)
  {
    if HasContent(fs, d, s) {
      forall n | n in s.content
        ensures CopyOf(fs', Join(d, n), Join(s.contentDir, n))
      {
        FileUnchanged(fs, fs', Join(d, n));
        FileKept(fs, fs', s.out, Join(s.contentDir, n));
      }
    }
    if HasPaper(fs, d, paper, s) {
      FileUnchanged(fs, fs', Join(d, paper));
      if paper !in s.content {
        FileKept(fs, fs', s.out, Join(s.papers, paper));
      }
    }
  }

  // ---------------------------------------------------------------------------
  // One row

  /** The reviewer directory column `cell` names, if any. */
  function Named(cell: Option<string>, out: Path): Option<Path> {
    if Slot(cell) != "" then Some(Join(out, Slot(cell))) else None
  }

  /** Every entry of `Targets` is a directory straight under the output root. */
  lemma {:induction false} TargetsAreChildren(row: Row, out: Path, i: nat)
    requires i <= |row|
    ensures forall x :: x in Targets(row, out, i) ==> x.Some? && IsChild(x.value, out)
    decreases |row| - i
  {
    if i < |row| {
      TargetsAreChildren(row, out, i + 1);
      if i > 0 && Slot(row[i]) != "" {
        JoinChild(out, Slot(row[i]));
      }
    }
  }

  /**
   * One reviewer column outside a dry run: the directory it names is filled
   * when the column goes through; whether or not it does, every other
   * directory straight under the output root, the output root's own listing
   * and everything outside the output root stay as they were.
   */
  lemma ColumnFills(w: World, rs: RowState, i: nat, cell: Option<string>, session: seq<Option<Path>>, s: Setup, force: bool)
    requires Layout(s) && !s.dryRun && i > 0 && rs.paper != ""
    ensures var r := Column(w, rs, i, cell, session, s, force);
            var named := Named(cell, s.out);
            && SameOutside(w.fs, r.world.fs, s.out)
            && Unchanged(w.fs, r.world.fs, s.out)
            && (forall d :: IsChild(d, s.out) && Some(d) != named ==> Unchanged(w.fs, r.world.fs, d))
            && (r.result.Ok? ==>
                  && r.result.value.paper == rs.paper
                  && (named.Some? ==>
                        && IsChild(named.value, s.out)
                        && HasContent(r.world.fs, named.value, s)
                        && HasPaper(r.world.fs, named.value, rs.paper, s)))
  {
    if cell.Some? && Strip(cell.value) != "" {
      var t := Join(s.out, Strip(cell.value));
      JoinChild(s.out, Strip(cell.value));
      ReviewerFills(w, rs, t, session, s, force);
      var r := Reviewer(w, rs, t, session, s, force);
      SameOutsideWiden(w.fs, r.world.fs, t, s.out);
      forall d | IsChild(d, s.out) && d != t
        ensures Unchanged(w.fs, r.world.fs, d)
      {
        ChildrenApart(d, t, s.out);
      }
    }
  }

  /** What the first column and then the later ones leave alone stays as it was. */
  lemma FramesStep(fs0: Fs, fs1: Fs, fs2: Fs, x: Option<Path>, tail: seq<Option<Path>>, out: Path)
    requires forall d :: IsChild(d, out) && Some(d) != x ==> Unchanged(fs0, fs1, d)
    requires forall d :: IsChild(d, out) && Some(d) !in tail ==> Unchanged(fs1, fs2, d)
    ensures var all := if x.Some? then [x] + tail else tail;
            forall d :: IsChild(d, out) && Some(d) !in all ==> Unchanged(fs0, fs2, d)
  {
  }

  /** What the first column fills and the later ones keep or refill, `fs2` holds. */
  lemma FillsStep(fs1: Fs, fs2: Fs, x: Option<Path>, tail: seq<Option<Path>>, paper: string, s: Setup)
    requires Layout(s) && paper != "" && SameOutside(fs1, fs2, s.out)
    requires x.Some? ==> IsChild(x.value, s.out) && HasContent(fs1, x.value, s) && HasPaper(fs1, x.value, paper, s)
    requires forall t :: Some(t) in tail ==> HasContent(fs2, t, s) && HasPaper(fs2, t, paper, s)
    requires forall d :: IsChild(d, s.out) && Some(d) !in tail ==> Unchanged(fs1, fs2, d)
    ensures var all := if x.Some? then [x] + tail else tail;
            forall t :: Some(t) in all ==> HasContent(fs2, t, s) && HasPaper(fs2, t, paper, s)
  {
    if x.Some? && x !in tail {
      KeptIsKept(fs1, fs2, x.value, paper, s);
    }
  }

  /**
   * The reviewer columns from `i` on, outside a dry run: every directory
   * they name is filled with the row's paper and the content when they go
   * through; whether or not they do, every directory under the output root
   * they do not name, the output root's listing and everything outside the
   * output root stay as they were.
   */
  lemma {:induction false} RowFromFills(w: World, rs: RowState, row: Row, i: nat, session: seq<Option<Path>>, s: Setup, force: bool)
    requires Layout(s) && !s.dryRun && 0 < i <= |row| && rs.paper != ""
    ensures var r := RowFrom(w, rs, row, i, session, s, force);
            && SameOutside(w.fs, r.world.fs, s.out)
            && Unchanged(w.fs, r.world.fs, s.out)
            && (forall d :: IsChild(d, s.out) && Some(d) !in Targets(row, s.out, i) ==> Unchanged(w.fs, r.world.fs, d))
            && (r.result.Ok? ==>
                  && r.result.value.paper == rs.paper
                  && forall t :: Some(t) in Targets(row, s.out, i) ==>
                       HasContent(r.world.fs, t, s) && HasPaper(r.world.fs, t, rs.paper, s))
    decreases |row| - i
  {
    if i < |row| {
      ColumnFills(w, rs, i, row[i], session, s, force);
      var step := Column(w, rs, i, row[i], session, s, force);
      if step.result.Err? {
        RowFromFails(w, rs, row, i, session, s, force);
      } else {
        RowFromStep(w, rs, row, i, session, s, force);
        RowFromFills(step.world, step.result.value, row, i + 1, session, s, force);
        var r := RowFrom(step.world, step.result.value, row, i + 1, session, s, force);
        SameOutsideTrans(w.fs, step.world.fs, r.world.fs, s.out);
        FramesStep(w.fs, step.world.fs, r.world.fs, Named(row[i], s.out), Targets(row, s.out, i + 1), s.out);
        if r.result.Ok? {
          FillsStep(step.world.fs, r.world.fs, Named(row[i], s.out), Targets(row, s.out, i + 1), rs.paper, s);
        }
      }
    }
  }

  /**
   * Lines 189-203 outside a dry run: after `make_package` went through,
   * every reviewer directory the row names holds the paper named in its
   * first column and every content file, whether it was made afresh or an
   * overwrite was declined; even when the call fails, directories under the
   * output root that the row does not name, the output root's listing and
   * everything outside the output root stay as they were.
   */
  lemma PackageFills(w: World, row: Row, session: seq<Option<Path>>, s: Setup, force: bool)
    requires Layout(s) && !s.dryRun && |row| > 0 && Slot(row[0]) != ""
    ensures var r := Package(w, row, session, s, force);
            && SameOutside(w.fs, r.world.fs, s.out)
            && Unchanged(w.fs, r.world.fs, s.out)
            && (forall d :: IsChild(d, s.out) && Some(d) !in Targets(row, s.out, 0) ==> Unchanged(w.fs, r.world.fs, d))
            && (r.result.Ok? ==>
                  forall t :: Some(t) in Targets(row, s.out, 0) ==>
                    HasContent(r.world.fs, t, s) && HasPaper(r.world.fs, t, Slot(row[0]), s))
  {
    if |row| > 1 {
      var rs0 := RowState("", []);
      var step := Column(w, rs0, 0, row[0], session, s, force);
      if step.result.Ok? {
        RowFromStep(w, rs0, row, 0, session, s, force);
        RowFromFills(step.world, step.result.value, row, 1, session, s, force);
      }
    }
  }
}
