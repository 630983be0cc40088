/**
 * A reviewer directory whose overwrite the operator declined. Line 193
 * records only what `create_directory` returned, so such a directory is
 * filled (lines 196-201) but never enters the session list. A later row
 * naming the same reviewer then asks about it again, and if the operator
 * approves this time, line 66 removes it together with the papers the
 * earlier rows left there. This contradicts lines 144-146, by which each
 * reviewer directory should hold all of its reviewer's papers.
 *
 * `SecondPromptLosesPaper` shows the loss in the code as written.
 * `RecordingReviewer` records a kept directory as well, and
 * `RecordedKeepsPaper` proves that then nothing is lost.
 */
module DeclinedOverwrite {
  import opened Wrappers
  import opened Paths
  import opened FileTree
  import opened PackagerSpec
  import opened HandlerFacts
  import opened RowFacts
  import opened FillFacts
  import opened SessionFacts

  /** A copy to `t`/`n` adds no other file to `t`. */
  lemma CopyAddsOnly(fs: Fs, src: Path, t: Path, n: string, x: string)
    requires Copyfile(fs, src, Join(t, n)).Ok?
    requires n != "" && x != "" && x != n
    ensures IsFile(Copyfile(fs, src, Join(t, n)).value, Join(t, x)) ==> IsFile(fs, Join(t, x))
  {
  }

  /** Lines 200-201 from the `i`-th content file on add to `t` no file whose name is not among them. */
  lemma {:induction false} CopyContentAddsOnly(fs: Fs, s: Setup, t: Path, i: nat, x: string)
    requires Layout(s) && i <= |s.content| && x != "" && x !in s.content[i..]
    ensures IsFile(CopyContentFrom(fs, s, t, i).fs, Join(t, x)) ==> IsFile(fs, Join(t, x))
    decreases |s.content| - i
  {
    if i < |s.content| {
      var n := s.content[i];
      assert n in s.content;
      assert s.content[i..] == [n] + s.content[i + 1..];
      var c := Copyfile(fs, Join(s.contentDir, n), Join(t, n));
      CopyContentStep(fs, s, t, i);
      if c.Ok? {
        CopyAddsOnly(fs, Join(s.contentDir, n), t, n, x);
        CopyContentAddsOnly(c.value, s, t, i + 1, x);
      }
    }
  }

  /** Lines 196-201 add to `t` only the paper and the content files. */
  lemma PopulateAddsOnly(fs: Fs, paper: string, t: Path, s: Setup, x: string)
    requires Layout(s) && !s.dryRun && paper != "" && x != "" && x != paper && x !in s.content
    ensures IsFile(Populate(fs, paper, t, s).fs, Join(t, x)) ==> IsFile(fs, Join(t, x))
  {
    var c := Copyfile(fs, Join(s.papers, paper), Join(t, paper));
    if c.Ok? {
      CopyAddsOnly(fs, Join(s.papers, paper), t, paper, x);
      assert s.content[0..] == s.content;
      CopyContentAddsOnly(c.value, s, t, 0, x);
    }
  }

  /**
   * The code as written: a reviewer directory on disk and outside the
   * session, a first row (paper `first`) where the operator answers no and
   * a second row (paper `second`) where the operator answers yes. The first
   * row keeps and fills the directory but records nothing, so the second
   * row, given the session the loop at lines 271-272 built, asks again; its
   * yes removes the directory, and when that row goes through the
   * directory holds `second` and no longer holds `first`.
   */
  lemma SecondPromptLosesPaper(w: World, first: string, second: string, t: Path, session: seq<Option<Path>>, s: Setup)
    requires Layout(s) && !s.dryRun && IsChild(t, s.out)
    requires first != "" && second != "" && first != second && first !in s.content
    requires Some(t) !in session && IsDir(w.fs, t)
    requires Ask(w.answers).Some? && !Ask(w.answers).value.0
    requires var rest := w.answers[Ask(w.answers).value.1..]; Ask(rest).Some? && Ask(rest).value.0
    ensures var a := Reviewer(w, RowState(first, []), t, session, s, false);
            a.result.Ok? ==>
              && a.result.value.created == []
              && HasPaper(a.world.fs, t, first, s)
              && var b := Reviewer(a.world, RowState(second, []), t, session + a.result.value.created, s, false);
                 b.result.Ok? ==> HasPaper(b.world.fs, t, second, s) && !IsFile(b.world.fs, Join(t, first))
  {
    PromptDecides(w, t, session);
    ReviewerFills(w, RowState(first, []), t, session, s, false);
    var a := Reviewer(w, RowState(first, []), t, session, s, false);
    if a.result.Ok? {
      assert session + a.result.value.created == session;
      PromptDecides(a.world, t, session);
      ReviewerFills(a.world, RowState(second, []), t, session, s, false);
      var res := Resolve(a.world, t, false, session, false);
      var made := CreateDir(res.world.fs, t, false);
      PopulateAddsOnly(made.fs, second, t, s, first);
      assert !IsFile(made.fs, Join(t, first)) by {
        assert Parent(Join(t, first)) == t;
      }
    }
  }

  /**
   * Lines 187-201 as evidently intended: a directory the operator chose to
   * keep is recorded like one that was made, so the session list holds every
   * directory the run has filled.
   */
  function RecordingReviewer(w: World, rs: RowState, target: Path, session: seq<Option<Path>>, s: Setup, force: bool): Run<RowState> {
    var r := Reviewer(w, rs, target, session, s, force);
    if r.result.Ok? && !s.dryRun && Some(target) !in session && Resolve(w, target, false, session, force).result == Ok(Keep)
    then Run(Ok(r.result.value.(created := r.result.value.created + [Some(target)])), r.world)
    else r
  }

  /**
   * With kept directories recorded, whatever the operator answers: after a
   * first row fills the reviewer's directory it is in the session, so a
   * second row neither asks nor removes, and the directory ends up holding
   * both rows' papers.
   */
  lemma RecordedKeepsPaper(w: World, first: string, second: string, t: Path, session: seq<Option<Path>>, s: Setup)
    requires Layout(s) && !s.dryRun && IsChild(t, s.out) && first != "" && second != ""
    ensures var a := RecordingReviewer(w, RowState(first, []), t, session, s, false);
            a.result.Ok? ==>
              && Some(t) in session + a.result.value.created
              && HasPaper(a.world.fs, t, first, s)
              && var b := RecordingReviewer(a.world, RowState(second, []), t, session + a.result.value.created, s, false);
                 b.result.Ok? ==>
                   && b.world.answers == a.world.answers
                   && HasPaper(b.world.fs, t, first, s)
                   && HasPaper(b.world.fs, t, second, s)
  {
    ReviewerFills(w, RowState(first, []), t, session, s, false);
    var a := RecordingReviewer(w, RowState(first, []), t, session, s, false);
    if a.result.Ok? {
      var session' := session + a.result.value.created;
      SessionSkips(a.world, t, false, session', false);
      ReviewerFills(a.world, RowState(second, []), t, session', s, false);
      PopulateKeepsPaper(a.world.fs, second, t, s, first);
    }
  }
}
