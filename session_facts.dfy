/**
 * What the session list (`all_created_dirs`) means for one call of
 * `make_package` outside a dry run: the list it returns holds exactly the
 * directories it made, each of them filled; a reviewer directory that was
 * neither on disk nor in the session is always among them; and a directory
 * already in the session is never asked about, removed or emptied, only
 * added to.
 */
module SessionFacts {
  import opened Wrappers
  import opened Paths
  import opened FileTree
  import opened PackagerSpec
  import opened HandlerFacts
  import opened RowFacts
  import opened FillFacts

  /** No element occurs twice. */
  predicate Distinct<T(==)>(xs: seq<T>) {
    forall a, b :: 0 <= a < b < |xs| ==> xs[a] != xs[b]
  }

  lemma DistinctCons<T>(x: T, tail: seq<T>)
    requires Distinct([x] + tail)
    ensures x !in tail && Distinct(tail)
  {
    forall j | 0 <= j < |tail|
      ensures tail[j] != x
    {
      assert ([x] + tail)[0] == x && tail[j] == ([x] + tail)[j + 1];
    }
    forall a, b | 0 <= a < b < |tail|
      ensures tail[a] != tail[b]
    {
      assert tail[a] == ([x] + tail)[a + 1] && tail[b] == ([x] + tail)[b + 1];
    }
  }

  /** A subsequence holds nothing its sequence does not. */
  lemma {:induction false} SubsequenceMembers<T>(a: seq<T>, b: seq<T>)
    requires Subsequence(a, b)
    ensures forall x :: x in a ==> x in b
    decreases |b|
  {
    if b != [] {
      assert b == [b[0]] + b[1..];
      if a != [] && a[0] == b[0] && Subsequence(a[1..], b[1..]) {
        SubsequenceMembers(a[1..], b[1..]);
        assert a == [a[0]] + a[1..];
      } else {
        SubsequenceMembers(a, b[1..]);
      }
    }
  }

  /** A directory under the output root that was absent stays absent while it and the root's listing are unchanged. */
  lemma AbsentKept(fs: Fs, fs': Fs, d: Path, out: Path)
    requires IsChild(d, out) && Unchanged(fs, fs', d) && Unchanged(fs, fs', out) && !Exists(fs, d)
    ensures !Exists(fs', d)
  {
    assert Parent(d) == out;
  }

  // ---------------------------------------------------------------------------
  // What the returned list holds

  /**
   * Lines 189-203 outside a dry run: every entry `make_package` returns is a
   * reviewer directory of the row, from outside the session, that now holds
   * the row's paper and every content file.
   */
  lemma CreatedAreFilled(w: World, row: Row, session: seq<Option<Path>>, s: Setup, force: bool)
    requires Layout(s) && !s.dryRun && |row| > 0 && Slot(row[0]) != ""
    ensures var r := Package(w, row, session, s, force);
            r.result.Ok? ==> forall k :: 0 <= k < |r.result.value| ==>
              && r.result.value[k].Some?
              && IsChild(r.result.value[k].value, s.out)
              && r.result.value[k] !in session
              && HasContent(r.world.fs, r.result.value[k].value, s)
              && HasPaper(r.world.fs, r.result.value[k].value, Slot(row[0]), s)
  {
    CreatedInOrder(w, row, session, s, force);
    PackageFills(w, row, session, s, force);
    TargetsAreChildren(row, s.out, 0);
    var r := Package(w, row, session, s, force);
    if r.result.Ok? {
      SubsequenceMembers(r.result.value, Targets(row, s.out, 0));
    }
  }

  /**
   * Outside a dry run a reviewer column whose directory is neither on disk
   * nor in the session records that directory and keeps the row's paper.
   */
  lemma NewColumnRecorded(w: World, rs: RowState, i: nat, cell: Option<string>, session: seq<Option<Path>>, s: Setup, force: bool)
    requires Layout(s) && !s.dryRun && i > 0 && rs.paper != ""
    requires Named(cell, s.out).Some? ==> !Exists(w.fs, Named(cell, s.out).value) && Named(cell, s.out) !in session
    ensures var r := Column(w, rs, i, cell, session, s, force);
            var named := Named(cell, s.out);
            r.result.Ok? ==> r.result.value == rs.(created := rs.created + if named.Some? then [named] else [])
  {
    if Named(cell, s.out).Some? {
      AbsentNeedsCreate(w, Named(cell, s.out).value, false, session, force);
    }
    CreatedByColumn(w, rs, i, cell, session, s, force);
    ColumnFills(w, rs, i, cell, session, s, force);
  }

  /** After a column that touched only its own directory, the other new directories are still new. */
  lemma StillNew(fs: Fs, fs': Fs, named: Option<Path>, tail: seq<Option<Path>>, session: seq<Option<Path>>, out: Path)
    requires var all := if named.Some? then [named] + tail else tail;
             && Distinct(all)
             && forall t :: Some(t) in all ==> !Exists(fs, t) && Some(t) !in session
    requires forall x :: x in tail ==> x.Some? && IsChild(x.value, out)
    requires Unchanged(fs, fs', out)
    requires forall d :: IsChild(d, out) && Some(d) != named ==> Unchanged(fs, fs', d)
    ensures Distinct(tail)
    ensures forall t :: Some(t) in tail ==> !Exists(fs', t) && Some(t) !in session
  {
    if named.Some? {
      DistinctCons(named, tail);
    }
    forall t | Some(t) in tail
      ensures !Exists(fs', t)
    {
      AbsentKept(fs, fs', t, out);
    }
  }

  /** Directories that are all different, absent from the disk and not in the session. */
  ghost predicate AllNew(fs: Fs, targets: seq<Option<Path>>, session: seq<Option<Path>>) {
    && Distinct(targets)
    && forall t :: Some(t) in targets ==> !Exists(fs, t) && Some(t) !in session
  }

  /** The same for one column outside a dry run. */
  lemma StillNewAfter(w: World, rs: RowState, i: nat, cell: Option<string>, session: seq<Option<Path>>, s: Setup, force: bool,
                      tail: seq<Option<Path>>)
    requires Layout(s) && !s.dryRun && i > 0 && rs.paper != ""
    requires var named := Named(cell, s.out);
             AllNew(w.fs, if named.Some? then [named] + tail else tail, session)
    requires forall x :: x in tail ==> x.Some? && IsChild(x.value, s.out)
    ensures AllNew(Column(w, rs, i, cell, session, s, force).world.fs, tail, session)
  {
    ColumnFills(w, rs, i, cell, session, s, force);
    StillNew(w.fs, Column(w, rs, i, cell, session, s, force).world.fs, Named(cell, s.out), tail, session, s.out);
  }

  /** The first directory of new ones is new, and the list is it followed by the rest. */
  lemma AllNewHead(fs: Fs, row: Row, out: Path, i: nat, session: seq<Option<Path>>)
    requires 0 < i < |row| && AllNew(fs, Targets(row, out, i), session)
    ensures var named := Named(row[i], out);
            && Targets(row, out, i) == (if named.Some? then [named] + Targets(row, out, i + 1) else Targets(row, out, i + 1))
            && (named.Some? ==> !Exists(fs, named.value) && named !in session)
  {
    var named := Named(row[i], out);
    if named.Some? {
      assert Some(named.value) in Targets(row, out, i);
    }
  }

  /** Recording the head before the rest is recording the whole list. */
  lemma CreatedConcat(before: seq<Option<Path>>, named: Option<Path>, tail: seq<Option<Path>>, after: seq<Option<Path>>)
    requires after == before + if named.Some? then [named] else []
    ensures after + tail == before + if named.Some? then [named] + tail else tail
  {
    if named.Some? {
      assert before + [named] + tail == before + ([named] + tail);
    }
  }

  /** One column of `CreatedExactlyFrom` leaves the later directories new. */
  lemma StillNewStep(w: World, rs: RowState, row: Row, i: nat, session: seq<Option<Path>>, s: Setup, force: bool)
    requires Layout(s) && !s.dryRun && 0 < i < |row| && rs.paper != ""
    requires AllNew(w.fs, Targets(row, s.out, i), session)
    ensures AllNew(Column(w, rs, i, row[i], session, s, force).world.fs, Targets(row, s.out, i + 1), session)
  {
    var named := Named(row[i], s.out);
    var tail := Targets(row, s.out, i + 1);
    assert Targets(row, s.out, i) == if named.Some? then [named] + tail else tail;
    TargetsAreChildren(row, s.out, i + 1);
    StillNewAfter(w, rs, i, row[i], session, s, force, tail);
  }

  /**
   * Outside a dry run, the columns from `i` on, when the directories they
   * name are all different, absent and not in the session, record every one
   * of them in column order.
   */
  lemma {:induction false} CreatedExactlyFrom(w: World, rs: RowState, row: Row, i: nat, session: seq<Option<Path>>, s: Setup, force: bool)
    requires Layout(s) && !s.dryRun && 0 < i <= |row| && rs.paper != ""
    requires AllNew(w.fs, Targets(row, s.out, i), session)
    ensures var r := RowFrom(w, rs, row, i, session, s, force);
            r.result.Ok? ==> r.result.value.created == rs.created + Targets(row, s.out, i)
    decreases |row| - i
  {
    if i < |row| {
      var step := Column(w, rs, i, row[i], session, s, force);
      if step.result.Err? {
        RowFromFails(w, rs, row, i, session, s, force);
      } else {
        AllNewHead(w.fs, row, s.out, i, session);
        NewColumnRecorded(w, rs, i, row[i], session, s, force);
        CreatedConcat(rs.created, Named(row[i], s.out), Targets(row, s.out, i + 1), step.result.value.created);
        StillNewStep(w, rs, row, i, session, s, force);
        RowFromStep(w, rs, row, i, session, s, force);
        CreatedExactlyFrom(step.world, step.result.value, row, i + 1, session, s, force);
      }
    }
  }

  /**
   * Lines 189-203 outside a dry run: for a row whose reviewer directories
   * are all different, absent and not in the session, `make_package`
   * returns exactly those directories, in column order.
   */
  lemma CreatedExactly(w: World, row: Row, session: seq<Option<Path>>, s: Setup, force: bool)
    requires Layout(s) && !s.dryRun && |row| > 0 && Slot(row[0]) != ""
    requires Distinct(Targets(row, s.out, 0))
    requires forall t :: Some(t) in Targets(row, s.out, 0) ==> !Exists(w.fs, t) && Some(t) !in session
    ensures var r := Package(w, row, session, s, force);
            r.result.Ok? ==> r.result.value == Targets(row, s.out, 0)
  {
    if |row| > 1 {
      var rs0 := RowState("", []);
      var step := Column(w, rs0, 0, row[0], session, s, force);
      if step.result.Ok? {
        RowFromStep(w, rs0, row, 0, session, s, force);
        assert AllNew(step.world.fs, Targets(row, s.out, 1), session);
        CreatedExactlyFrom(step.world, step.result.value, row, 1, session, s, force);
      }
    }
  }

  /**
   * Outside a dry run, the columns from `i` on record a directory they name
   * that is neither on disk nor in the session.
   */
  lemma {:induction false} RecordedFrom(w: World, rs: RowState, row: Row, i: nat, session: seq<Option<Path>>, s: Setup, force: bool, t: Path)
    requires Layout(s) && !s.dryRun && 0 < i <= |row| && rs.paper != ""
    requires Some(t) in Targets(row, s.out, i) && !Exists(w.fs, t) && Some(t) !in session
    ensures var r := RowFrom(w, rs, row, i, session, s, force);
            r.result.Ok? ==> Some(t) in r.result.value.created
    decreases |row| - i
  {
    assert i < |row|;
    TargetsAreChildren(row, s.out, i);
    var step := Column(w, rs, i, row[i], session, s, force);
    if step.result.Err? {
      RowFromFails(w, rs, row, i, session, s, force);
    } else {
      RowFromStep(w, rs, row, i, session, s, force);
      CreatedByColumn(w, rs, i, row[i], session, s, force);
      var r := RowFrom(step.world, step.result.value, row, i + 1, session, s, force);
      if Named(row[i], s.out) == Some(t) {
        AbsentNeedsCreate(w, t, false, session, force);
        CreatedOutsideSessionFrom(step.world, step.result.value, row, i + 1, session, s, force);
        if r.result.Ok? {
          assert r.result.value.created[|rs.created|] == Some(t);
        }
      } else {
        ColumnFills(w, rs, i, row[i], session, s, force);
        AbsentKept(w.fs, step.world.fs, t, s.out);
        RecordedFrom(step.world, step.result.value, row, i + 1, session, s, force, t);
      }
    }
  }

  /**
   * Lines 74-75 and 193-194 outside a dry run: a reviewer directory the row
   * names that is neither on disk nor in the session is in the list
   * `make_package` returns.
   */
  lemma NewDirectoryRecorded(w: World, row: Row, session: seq<Option<Path>>, s: Setup, force: bool, t: Path)
    requires Layout(s) && !s.dryRun && |row| > 0 && Slot(row[0]) != ""
    requires Some(t) in Targets(row, s.out, 0) && !Exists(w.fs, t) && Some(t) !in session
    ensures var r := Package(w, row, session, s, force);
            r.result.Ok? ==> Some(t) in r.result.value
  {
    if |row| > 1 {
      var rs0 := RowState("", []);
      var step := Column(w, rs0, 0, row[0], session, s, force);
      if step.result.Ok? {
        RowFromStep(w, rs0, row, 0, session, s, force);
        RecordedFrom(step.world, step.result.value, row, 1, session, s, force, t);
      }
    }
  }

  // ---------------------------------------------------------------------------
  // Directories already in the session

  /** Lines 196-201 only add to a directory: a paper it held is still there afterwards. */
  lemma PopulateKeepsPaper(fs: Fs, paper: string, t: Path, s: Setup, other: string)
    requires Layout(s) && IsChild(t, s.out) && !s.dryRun && paper != "" && other != ""
    requires HasPaper(fs, t, other, s)
    ensures var r := Populate(fs, paper, t, s);
            r.result.Ok? ==> HasPaper(r.fs, t, other, s)
  {
    PopulateFills(fs, paper, t, s);
    var r := Populate(fs, paper, t, s);
    if r.result.Ok? && other != paper && other !in s.content {
      var src := Join(s.papers, paper);
      var c := Copyfile(fs, src, Join(t, paper));
      CopyKeepsOther(fs, src, t, paper, other);
      assert s.content[0..] == s.content;
      CopyContentKeeps(c.value, s, t, 0, other);
      OutsideChild(s.papers, s.out, t);
      FileKept(fs, r.fs, t, Join(s.papers, other));
    }
  }

  /** One column outside a dry run keeps every paper of a directory from the session. */
  lemma SessionColumnKeeps(w: World, rs: RowState, i: nat, cell: Option<string>, session: seq<Option<Path>>, s: Setup, force: bool,
                           t: Path, other: string)
    requires Layout(s) && !s.dryRun && i > 0 && rs.paper != "" && other != ""
    requires IsChild(t, s.out) && Some(t) in session && HasPaper(w.fs, t, other, s)
    ensures var r := Column(w, rs, i, cell, session, s, force);
            r.result.Ok? ==> HasPaper(r.world.fs, t, other, s)
  {
    ColumnFills(w, rs, i, cell, session, s, force);
    if Named(cell, s.out) == Some(t) {
      SessionSkips(w, t, false, session, force);
      PopulateKeepsPaper(w.fs, rs.paper, t, s, other);
    } else {
      KeptIsKept(w.fs, Column(w, rs, i, cell, session, s, force).world.fs, t, other, s);
    }
  }

  /** The columns from `i` on, outside a dry run, keep every paper of a directory from the session. */
  lemma {:induction false} SessionKeepsFrom(w: World, rs: RowState, row: Row, i: nat, session: seq<Option<Path>>, s: Setup, force: bool,
                                            t: Path, other: string)
    requires Layout(s) && !s.dryRun && 0 < i <= |row| && rs.paper != "" && other != ""
    requires IsChild(t, s.out) && Some(t) in session && HasPaper(w.fs, t, other, s)
    ensures var r := RowFrom(w, rs, row, i, session, s, force);
            r.result.Ok? ==> HasPaper(r.world.fs, t, other, s)
    decreases |row| - i
  {
    if i < |row| {
      var step := Column(w, rs, i, row[i], session, s, force);
      if step.result.Err? {
        RowFromFails(w, rs, row, i, session, s, force);
      } else {
        RowFromStep(w, rs, row, i, session, s, force);
        ColumnFills(w, rs, i, row[i], session, s, force);
        SessionColumnKeeps(w, rs, i, row[i], session, s, force, t, other);
        SessionKeepsFrom(step.world, step.result.value, row, i + 1, session, s, force, t, other);
      }
    }
  }

  /**
   * Lines 55-57 and 196-201 outside a dry run: a directory in the session
   * is neither asked about nor removed, so every paper it held is still
   * there after `make_package`.
   */
  lemma SessionKeeps(w: World, row: Row, session: seq<Option<Path>>, s: Setup, force: bool, t: Path, other: string)
    requires Layout(s) && !s.dryRun && |row| > 0 && Slot(row[0]) != "" && other != ""
    requires IsChild(t, s.out) && Some(t) in session && HasPaper(w.fs, t, other, s)
    ensures var r := Package(w, row, session, s, force);
            r.result.Ok? ==> HasPaper(r.world.fs, t, other, s)
  {
    if |row| > 1 {
      var rs0 := RowState("", []);
      var step := Column(w, rs0, 0, row[0], session, s, force);
      if step.result.Ok? {
        RowFromStep(w, rs0, row, 0, session, s, force);
        SessionKeepsFrom(step.world, step.result.value, row, 1, session, s, force, t, other);
      }
    }
  }
}
