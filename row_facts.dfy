/**
 * What one call of `make_package` does to the disk and what it returns:
 * a dry run changes nothing and records only Nones; otherwise the returned
 * list holds the directories it made, in column order, none of them from
 * the session, and every reviewer directory the row names ends up holding
 * the paper and every content file, whether or not an overwrite was
 * declined.
 */
module RowFacts {
  import opened Wrappers
  import opened Paths
  import opened FileTree
  import opened PackagerSpec
  import opened Text
  import opened HandlerFacts

  // ---------------------------------------------------------------------------
  // Reviewer directories of a row

  /**
   * The reviewer directories a row names from column `i` on, in column order
   * (lines 183-187): every column after the paper whose stripped value is not
   * empty, as `create_directory` returns it outside a dry run.
   */
  function Targets(row: Row, out: Path, i: nat): seq<Option<Path>>
    requires i <= |row|
    decreases |row| - i
  {
    if i == |row| then []
    else if i > 0 && Slot(row[i]) != "" then [Some(Join(out, Slot(row[i])))] + Targets(row, out, i + 1)
    else Targets(row, out, i + 1)
  }

  /** `a` is `b` with some elements left out, the rest kept in order. */
  predicate Subsequence<T(==)>(a: seq<T>, b: seq<T>)
    decreases |b|
  {
    if b == [] then a == []
    else (a != [] && a[0] == b[0] && Subsequence(a[1..], b[1..])) || Subsequence(a, b[1..])
  }

  /** Putting the same element in front of both keeps a subsequence one. */
  lemma SubsequenceCons<T>(x: T, a: seq<T>, b: seq<T>)
    requires Subsequence(a, b)
    ensures Subsequence([x] + a, [x] + b)
  {
    assert ([x] + a)[1..] == a;
    assert ([x] + b)[1..] == b;
  }

  /** Putting an element in front of the longer one keeps a subsequence one. */
  lemma SubsequenceSkip<T>(a: seq<T>, x: T, b: seq<T>)
    requires Subsequence(a, b)
    ensures Subsequence(a, [x] + b)
  {
    assert ([x] + b)[1..] == b;
  }

  /** A directory straight under the output root with a non-empty name. */
  predicate IsChild(d: Path, out: Path) {
    |d| == |out| + 1 && out <= d && Name(d) != ""
  }

  // ---------------------------------------------------------------------------
  // Dry run

  /** The entries of `created` after `prefix` are all None, and `prefix` is kept. */
  predicate NonesAfter(created: seq<Option<Path>>, prefix: seq<Option<Path>>) {
    prefix <= created && forall k :: |prefix| <= k < |created| ==> created[k] == None
  }

  /**
   * In a dry run one column touches nothing and asks nothing; a column with
   * text always goes through; and it records a None exactly when it is a
   * reviewer column whose directory is neither in the session nor on disk
   * (`create_directory` returns None in a dry run, and line 194 appends it
   * all the same).
   */
  lemma DryRunColumn(w: World, rs: RowState, i: nat, cell: Option<string>, session: seq<Option<Path>>, s: Setup, force: bool)
    requires s.dryRun
    ensures var r := Column(w, rs, i, cell, session, s, force);
            var t := Join(s.out, Slot(cell));
            && r.world == w
            && (cell.Some? ==> r.result.Ok?)
            && (r.result.Ok? ==>
                  if i > 0 && Slot(cell) != "" && Some(t) !in session && !Exists(w.fs, t)
                  then r.result.value.created == rs.created + [None]
                  else r.result.value.created == rs.created)
  {
    if cell.Some? && i > 0 && Strip(cell.value) != "" {
      ResolveFrame(w, Join(s.out, Strip(cell.value)), true, session, force);
    }
  }

  /** Appending at most a None, then only Nones, appends only Nones. */
  lemma NonesStep(prev: seq<Option<Path>>, mid: seq<Option<Path>>, fin: seq<Option<Path>>)
    requires mid in {prev, prev + [None]} && NonesAfter(fin, mid)
    ensures NonesAfter(fin, prev)
  {
    if mid != prev {
      assert fin[|prev|] == mid[|prev|];
    }
  }

  /** In a dry run the rest of a row touches nothing and only Nones are recorded. */
  lemma {:induction false} DryRunRowFrom(w: World, rs: RowState, row: Row, i: nat, session: seq<Option<Path>>, s: Setup, force: bool)
    requires s.dryRun && i <= |row|
    ensures var r := RowFrom(w, rs, row, i, session, s, force);
            && r.world == w
            && (r.result.Ok? ==> NonesAfter(r.result.value.created, rs.created))
    decreases |row| - i
  {
    if i < |row| {
      DryRunColumn(w, rs, i, row[i], session, s, force);
      var step := Column(w, rs, i, row[i], session, s, force);
      if step.result.Ok? {
        DryRunRowFrom(step.world, step.result.value, row, i + 1, session, s, force);
        var r := RowFrom(step.world, step.result.value, row, i + 1, session, s, force);
        if r.result.Ok? {
          NonesStep(rs.created, step.result.value.created, r.result.value.created);
        }
      }
    }
  }

  /** Lines 193-194 in a dry run: `make_package` changes nothing and returns only Nones. */
  lemma DryRunPackage(w: World, row: Row, session: seq<Option<Path>>, s: Setup, force: bool)
    requires s.dryRun
    ensures var r := Package(w, row, session, s, force);
            && r.world == w
            && (r.result.Ok? ==> forall k :: 0 <= k < |r.result.value| ==> r.result.value[k] == None)
  {
    if |row| > 1 {
      DryRunRowFrom(w, RowState("", []), row, 0, session, s, force);
    }
  }

  /** `n` Nones. */
  function Nones(n: nat): (r: seq<Option<Path>>)
    ensures |r| == n && forall k :: 0 <= k < n ==> r[k] == None
  {
    seq(n, _ => None)
  }

  /**
   * How many reviewer columns from `i` on name a directory that is neither in
   * the session nor on disk: those `dir_exception_handler` answers True for
   * in a dry run, repeats counted each time.
   */
  function Unseen(row: Row, out: Path, i: nat, session: seq<Option<Path>>, fs: Fs): nat
    requires i <= |row|
    decreases |row| - i
  {
    if i == |row| then 0
    else
      var t := Join(out, Slot(row[i]));
      (if i > 0 && Slot(row[i]) != "" && Some(t) !in session && !Exists(fs, t) then 1 else 0)
      + Unseen(row, out, i + 1, session, fs)
  }

  /** Appending one None or none before `n` more is appending their count. */
  lemma NonesConcat(before: seq<Option<Path>>, after: seq<Option<Path>>, added: bool, n: nat)
    requires after == before + if added then [None] else []
    ensures after + Nones(n) == before + Nones((if added then 1 else 0) + n)
  {
    if added {
      assert [None] + Nones(n) == Nones(n + 1);
      assert before + [None] + Nones(n) == before + ([None] + Nones(n));
    }
  }

  /** One text cell of a dry run: it goes through, touches nothing, and appends a None exactly when it counts as unseen. */
  lemma DryRunCountStep(w: World, rs: RowState, row: Row, i: nat, session: seq<Option<Path>>, s: Setup, force: bool)
    requires s.dryRun && i < |row| && row[i].Some?
    ensures var step := Column(w, rs, i, row[i], session, s, force);
            var t := Join(s.out, Slot(row[i]));
            var added := i > 0 && Slot(row[i]) != "" && Some(t) !in session && !Exists(w.fs, t);
            && step.result.Ok?
            && step.world == w
            && step.result.value.created == rs.created + (if added then [None] else [])
            && Unseen(row, s.out, i, session, w.fs) == (if added then 1 else 0) + Unseen(row, s.out, i + 1, session, w.fs)
  {
    DryRunColumn(w, rs, i, row[i], session, s, force);
  }

  /** Every cell from `i` on has text. */
  predicate TextFrom(row: Row, i: nat) {
    forall k :: i <= k < |row| ==> row[k].Some?
  }

  /** What `DryRunCountFrom` states about the columns from `i` on. */
  predicate CountedFrom(w: World, rs: RowState, row: Row, i: nat, session: seq<Option<Path>>, s: Setup, force: bool)
    requires i <= |row|
  {
    var r := RowFrom(w, rs, row, i, session, s, force);
    r.result.Ok? && r.result.value.created == rs.created + Nones(Unseen(row, s.out, i, session, w.fs))
  }

  /** A text cell of a dry run followed by a counted rest gives a counted rest from that cell. */
  lemma DryRunCountCombine(w: World, rs: RowState, row: Row, i: nat, session: seq<Option<Path>>, s: Setup, force: bool)
    requires s.dryRun && i < |row| && row[i].Some?
    requires var step := Column(w, rs, i, row[i], session, s, force);
             step.result.Ok? ==> CountedFrom(step.world, step.result.value, row, i + 1, session, s, force)
    ensures CountedFrom(w, rs, row, i, session, s, force)
  {
    DryRunCountStep(w, rs, row, i, session, s, force);
    var step := Column(w, rs, i, row[i], session, s, force);
    var t := Join(s.out, Slot(row[i]));
    var added := i > 0 && Slot(row[i]) != "" && Some(t) !in session && !Exists(w.fs, t);
    RowFromStep(w, rs, row, i, session, s, force);
    NonesConcat(rs.created, step.result.value.created, added, Unseen(row, s.out, i + 1, session, w.fs));
  }

  /** In a dry run the rest of a row with text in every cell goes through and appends one None per unseen directory. */
  lemma {:induction false} DryRunCountFrom(w: World, rs: RowState, row: Row, i: nat, session: seq<Option<Path>>, s: Setup, force: bool)
    requires s.dryRun && i <= |row| && TextFrom(row, i)
    ensures CountedFrom(w, rs, row, i, session, s, force)
    decreases |row| - i
  {
    if i == |row| {
      assert rs.created + Nones(0) == rs.created;
    } else {
      var step := Column(w, rs, i, row[i], session, s, force);
      if step.result.Ok? {
        DryRunCountFrom(step.world, step.result.value, row, i + 1, session, s, force);
      }
      DryRunCountCombine(w, rs, row, i, session, s, force);
    }
  }

  /**
   * Lines 189-194 in a dry run: a row of two or more cells, all with text,
   * goes through, touches nothing, and `make_package` returns one None for
   * each reviewer column whose directory is neither in the session nor on
   * disk, though nothing was created.
   */
  lemma DryRunCount(w: World, row: Row, session: seq<Option<Path>>, s: Setup, force: bool)
    requires s.dryRun && |row| > 1 && forall k :: 0 <= k < |row| ==> row[k].Some?
    ensures Package(w, row, session, s, force) == Run(Ok(Nones(Unseen(row, s.out, 0, session, w.fs))), w)
  {
    DryRunCountFrom(w, RowState("", []), row, 0, session, s, force);
    DryRunRowFrom(w, RowState("", []), row, 0, session, s, force);
    var n := Unseen(row, s.out, 0, session, w.fs);
    assert [] + Nones(n) == Nones(n);
  }

  // ---------------------------------------------------------------------------
  // What make_package returns

  /** Lines 189-194 outside a dry run: a reviewer records its directory exactly when the handler said to create it. */
  lemma ReviewerRecords(w: World, rs: RowState, t: Path, session: seq<Option<Path>>, s: Setup, force: bool)
    requires !s.dryRun
    ensures var r := Reviewer(w, rs, t, session, s, force);
            r.result.Ok? ==>
              if Resolve(w, t, false, session, force).result == Ok(NeedsCreate)
              then Some(t) !in session && r.result.value.created == rs.created + [Some(t)]
              else r.result.value.created == rs.created
  {
    if Some(t) in session {
      SessionSkips(w, t, false, session, force);
    }
  }

  /**
   * Outside a dry run a column that does not fail records the directory it
   * names exactly when `dir_exception_handler` answered True for it (line
   * 193), and records nothing otherwise: not for the paper column, an empty
   * slot, a directory from the session, or an overwrite that was declined.
   */
  lemma CreatedByColumn(w: World, rs: RowState, i: nat, cell: Option<string>, session: seq<Option<Path>>, s: Setup, force: bool)
    requires !s.dryRun
    ensures var r := Column(w, rs, i, cell, session, s, force);
            var t := Join(s.out, Slot(cell));
            r.result.Ok? ==>
              if i > 0 && Slot(cell) != "" && Resolve(w, t, false, session, force).result == Ok(NeedsCreate)
              then Some(t) !in session && r.result.value.created == rs.created + [Some(t)]
              else r.result.value.created == rs.created
  {
    if cell.Some? && i > 0 && Strip(cell.value) != "" {
      ReviewerRecords(w, rs, Join(s.out, Strip(cell.value)), session, s, force);
    }
  }

  /**
   * Appending at most the next directory named, then a subsequence of the
   * rest, gives a subsequence of all of them.
   */
  lemma SubsequenceStep(prev: seq<Option<Path>>, mid: seq<Option<Path>>, fin: seq<Option<Path>>,
                        x: Option<Path>, named: bool, tail: seq<Option<Path>>)
    requires mid == prev || (named && mid == prev + [x])
    requires mid <= fin && Subsequence(fin[|mid|..], tail)
    ensures prev <= fin
    ensures Subsequence(fin[|prev|..], if named then [x] + tail else tail)
  {
    var rest := fin[|mid|..];
    if mid == prev {
      if named {
        SubsequenceSkip(rest, x, tail);
      }
    } else {
      assert fin[|prev|..] == [x] + rest;
      SubsequenceCons(x, rest, tail);
    }
  }

  /**
   * Appending at most one directory from outside the session, then only
   * directories from outside it, appends only directories from outside it.
   */
  lemma OutsideSessionStep(prev: seq<Option<Path>>, mid: seq<Option<Path>>, fin: seq<Option<Path>>,
                           x: Option<Path>, session: seq<Option<Path>>)
    requires mid == prev || (x !in session && mid == prev + [x])
    requires mid <= fin && forall k :: |mid| <= k < |fin| ==> fin[k] !in session
    ensures prev <= fin && forall k :: |prev| <= k < |fin| ==> fin[k] !in session
  {
    if mid != prev {
      assert fin[|prev|] == mid[|prev|] == x;
    }
  }

  /** Outside a dry run the rest of a row appends only directories that are not in the session. */
  lemma {:induction false} CreatedOutsideSessionFrom(w: World, rs: RowState, row: Row, i: nat, session: seq<Option<Path>>, s: Setup, force: bool)
    requires !s.dryRun && i <= |row|
    ensures var r := RowFrom(w, rs, row, i, session, s, force);
            r.result.Ok? ==>
              && rs.created <= r.result.value.created
              && forall k :: |rs.created| <= k < |r.result.value.created| ==> r.result.value.created[k] !in session
    decreases |row| - i
  {
    if i < |row| {
      CreatedByColumn(w, rs, i, row[i], session, s, force);
      var step := Column(w, rs, i, row[i], session, s, force);
      if step.result.Ok? {
        RowFromStep(w, rs, row, i, session, s, force);
        CreatedOutsideSessionFrom(step.world, step.result.value, row, i + 1, session, s, force);
        var r := RowFrom(step.world, step.result.value, row, i + 1, session, s, force);
        if r.result.Ok? {
          OutsideSessionStep(rs.created, step.result.value.created, r.result.value.created,
                             Some(Join(s.out, Slot(row[i]))), session);
        }
      }
    }
  }

  /**
   * Outside a dry run the rest of a row appends a subsequence of the
   * directories it names, in column order.
   */
  lemma {:induction false} CreatedInOrderFrom(w: World, rs: RowState, row: Row, i: nat, session: seq<Option<Path>>, s: Setup, force: bool)
    requires !s.dryRun && i <= |row|
    ensures var r := RowFrom(w, rs, row, i, session, s, force);
            r.result.Ok? ==>
              && rs.created <= r.result.value.created
              && Subsequence(r.result.value.created[|rs.created|..], Targets(row, s.out, i))
    decreases |row| - i
  {
    if i < |row| {
      CreatedByColumn(w, rs, i, row[i], session, s, force);
      var step := Column(w, rs, i, row[i], session, s, force);
      if step.result.Ok? {
        RowFromStep(w, rs, row, i, session, s, force);
        CreatedInOrderFrom(step.world, step.result.value, row, i + 1, session, s, force);
        var r := RowFrom(step.world, step.result.value, row, i + 1, session, s, force);
        if r.result.Ok? {
          SubsequenceStep(rs.created, step.result.value.created, r.result.value.created,
                          Some(Join(s.out, Slot(row[i]))), i > 0 && Slot(row[i]) != "", Targets(row, s.out, i + 1));
        }
      }
    }
  }

  /**
   * Lines 189-203 outside a dry run: the returned list is the directories
   * this call made, in column order (a subsequence of the reviewer
   * directories the row names), and none of them was in the session.
   */
  lemma CreatedInOrder(w: World, row: Row, session: seq<Option<Path>>, s: Setup, force: bool)
    requires !s.dryRun
    ensures var r := Package(w, row, session, s, force);
            r.result.Ok? ==>
              && Subsequence(r.result.value, Targets(row, s.out, 0))
              && forall k :: 0 <= k < |r.result.value| ==> r.result.value[k] !in session
  {
    if |row| > 1 {
      CreatedInOrderFrom(w, RowState("", []), row, 0, session, s, force);
      CreatedOutsideSessionFrom(w, RowState("", []), row, 0, session, s, force);
      var r := RowFrom(w, RowState("", []), row, 0, session, s, force);
      if r.result.Ok? {
        assert r.result.value.created[0..] == r.result.value.created;
      }
    }
  }

  // ---------------------------------------------------------------------------
  // Rows that are rejected

  /** Line 160: a row that names no more than its paper is rejected before anything is done. */
  lemma ShortRowRejected(w: World, row: Row, session: seq<Option<Path>>, s: Setup, force: bool)
    requires |row| <= 1
    ensures Package(w, row, session, s, force) == Run(Err(RowTooShort), w)
  {
  }

  /** Lines 168-173 from column `i` on: a cell without text stops the rest of the row with an error. */
  lemma {:induction false} MalformedFrom(w: World, rs: RowState, row: Row, i: nat, j: nat,
                                         session: seq<Option<Path>>, s: Setup, force: bool)
    requires i <= j < |row| && row[j].None?
    ensures RowFrom(w, rs, row, i, session, s, force).result.Err?
    decreases j - i
  {
    var step := Column(w, rs, i, row[i], session, s, force);
    if step.result.Err? {
      RowFromFails(w, rs, row, i, session, s, force);
    } else {
      assert i < j;
      RowFromStep(w, rs, row, i, session, s, force);
      MalformedFrom(step.world, step.result.value, row, i + 1, j, session, s, force);
    }
  }

  /** Lines 168-173: a row holding a cell without text never goes through. */
  lemma MalformedRowRejected(w: World, row: Row, j: nat, session: seq<Option<Path>>, s: Setup, force: bool)
    requires j < |row| && row[j].None?
    ensures Package(w, row, session, s, force).result.Err?
  {
    if |row| > 1 {
      MalformedFrom(w, RowState("", []), row, 0, j, session, s, force);
    }
  }

  /**
   * Lines 178-182: outside a dry run a paper missing from the papers
   * directory ends the run with status 1 before any directory of the row is
   * looked at, made or filled.
   */
  lemma MissingPaperRejected(w: World, row: Row, session: seq<Option<Path>>, s: Setup, force: bool)
    requires !s.dryRun && |row| > 1 && row[0].Some? && !Exists(w.fs, Join(s.papers, Strip(row[0].value)))
    ensures Package(w, row, session, s, force) == Run(Err(Exit(1)), w)
  {
  }
}
