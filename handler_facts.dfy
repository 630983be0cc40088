/**
 * What `dir_exception_handler` and `create_directory` promise, case by
 * case, and the frame every step of the packager keeps: a step aimed at a
 * directory changes nothing outside that directory's tree.
 */
module HandlerFacts {
  import opened Wrappers
  import opened Paths
  import opened FileTree
  import opened PackagerSpec

  /** Lines 57-58: a directory this session already created is left alone and nothing is asked. */
  lemma SessionSkips(w: World, p: Path, dryRun: bool, session: seq<Option<Path>>, overwrite: bool)
    requires Some(p) in session
    ensures Resolve(w, p, dryRun, session, overwrite) == Run(Ok(Keep), w)
  {
  }

  /** Lines 74-75: a path that does not exist has to be created; nothing is touched or asked. */
  lemma AbsentNeedsCreate(w: World, p: Path, dryRun: bool, session: seq<Option<Path>>, overwrite: bool)
    requires Some(p) !in session && !Exists(w.fs, p)
    ensures Resolve(w, p, dryRun, session, overwrite) == Run(Ok(NeedsCreate), w)
  {
  }

  /** Lines 71-73: in a dry run an existing path only draws a warning; nothing is removed or asked. */
  lemma DryRunWarns(w: World, p: Path, session: seq<Option<Path>>, overwrite: bool)
    requires Some(p) !in session && Exists(w.fs, p)
    ensures Resolve(w, p, true, session, overwrite) == Run(Ok(DryRunWarning), w)
  {
  }

  /**
   * Lines 62-70 with the overwrite flag set: no question is asked, and an
   * existing directory goes with everything below it, so that it can be
   * made afresh; a regular file in its place makes `rmtree` raise.
   */
  lemma ForcedOverwrite(w: World, p: Path, session: seq<Option<Path>>)
    requires Some(p) !in session && Exists(w.fs, p)
    ensures var r := Resolve(w, p, false, session, true);
            && r.world.answers == w.answers
            && (IsDir(w.fs, p) ==> r.result == Ok(NeedsCreate) && SameOutside(w.fs, r.world.fs, p)
                                   && forall q :: q in r.world.fs.dirs ==> !Within(q, p))
            && (!IsDir(w.fs, p) ==> r == Run(Err(Io(NotADirectory(p))), w))
  {
    if IsDir(w.fs, p) {
      RmtreeFrame(w.fs, p);
    }
  }

  /**
   * Lines 62-70 without the flag: lines are read until one is exactly Y, y,
   * N or n. Y or y removes the directory and asks for it to be made again,
   * N or n keeps it; every line up to the deciding one is consumed, and
   * running out of lines raises.
   */
  lemma PromptDecides(w: World, p: Path, session: seq<Option<Path>>)
    requires Some(p) !in session && IsDir(w.fs, p)
    ensures var r := Resolve(w, p, false, session, false);
            && (Ask(w.answers).None? <==> r == Run(Err(EndOfInput), w.(answers := [])))
            && (forall k :: Ask(w.answers) == Some((false, k)) ==> r == Run(Ok(Keep), w.(answers := w.answers[k..])))
            && (forall k :: Ask(w.answers) == Some((true, k)) ==>
                  && r.result == Ok(NeedsCreate)
                  && r.world.answers == w.answers[k..]
                  && SameOutside(w.fs, r.world.fs, p)
                  && forall q :: q in r.world.fs.dirs ==> !Within(q, p))
  {
    match Ask(w.answers)
    case None =>
    case Some((yes, k)) =>
      if yes {
        RmtreeFrame(w.fs, p);
      }
  }

  /**
   * The frame of lines 36-75: the disk changes only inside `p`'s tree, and
   * a dry run changes nothing and reads no answer.
   */
  lemma ResolveFrame(w: World, p: Path, dryRun: bool, session: seq<Option<Path>>, overwrite: bool)
    ensures var r := Resolve(w, p, dryRun, session, overwrite);
            && SameOutside(w.fs, r.world.fs, p)
            && (dryRun ==> r.world == w)
  {
    if Some(p) !in session && Exists(w.fs, p) && !dryRun && IsDir(w.fs, p) {
      RmtreeFrame(w.fs, p);
    }
  }

  /**
   * The whole table at once: answers are only ever consumed from the front,
   * the disk changes only inside `p`'s tree and only when the directory was
   * there and the flag or the operator approved, a failure is either
   * running out of answers or `rmtree` of a non-directory, and a True
   * answer on a well-formed disk leaves `p` free to be created.
   */
  lemma ResolveSound(w: World, p: Path, dryRun: bool, session: seq<Option<Path>>, overwrite: bool)
    ensures var r := Resolve(w, p, dryRun, session, overwrite);
            && (exists k :: 0 <= k <= |w.answers| && r.world.answers == w.answers[k..])
            && SameOutside(w.fs, r.world.fs, p)
            && (r.world.fs != w.fs ==>
                  && Some(p) !in session && !dryRun && IsDir(w.fs, p)
                  && (overwrite || (Ask(w.answers).Some? && Ask(w.answers).value.0)))
            && (r.result.Err? ==> r.result.error in {EndOfInput, Io(NotADirectory(p))})
            && (dryRun ==> r.world == w && r.result.Ok?)
            && (r.result == Ok(NeedsCreate) && Valid(w.fs) ==> !Exists(r.world.fs, p) && Valid(r.world.fs))
  {
    var r := Resolve(w, p, dryRun, session, overwrite);
    if Some(p) in session || !Exists(w.fs, p) || dryRun {
      assert r.world.answers == w.answers[0..];
    } else if overwrite {
      assert r.world.answers == w.answers[0..];
      if IsDir(w.fs, p) {
        RmtreeFrame(w.fs, p);
      }
    } else {
      match Ask(w.answers)
      case None =>
        assert r.world.answers == w.answers[|w.answers|..];
      case Some((yes, k)) =>
        assert r.world.answers == w.answers[k..];
        if yes && IsDir(w.fs, p) {
          RmtreeFrame(w.fs, p);
        }
    }
  }

  /**
   * Lines 92-99: a directory is made only outside a dry run, nothing
   * outside it changes, and a well-formed disk stays well formed.
   */
  lemma CreateDirFrame(fs: Fs, p: Path, dryRun: bool)
    ensures var r := CreateDir(fs, p, dryRun);
            && SameOutside(fs, r.fs, p)
            && (Valid(fs) && (|p| > 0 ==> Name(p) != "") ==> Valid(r.fs))
  {
    if !dryRun && Mkdir(fs, p).Ok? {
      MkdirFrame(fs, p);
    }
  }

  /**
   * After a True from `dir_exception_handler`, `create_directory` on a
   * well-formed disk cannot fail because the path exists: outside a dry run,
   * with the parent directory in place, it makes an empty directory there.
   */
  lemma CreateAfterResolve(w: World, p: Path, session: seq<Option<Path>>, overwrite: bool)
    requires Valid(w.fs) && |p| > 0 && IsDir(w.fs, Parent(p))
    requires Resolve(w, p, false, session, overwrite).result == Ok(NeedsCreate)
    ensures var r := Resolve(w, p, false, session, overwrite);
            CreateDir(r.world.fs, p, false) == Step(Ok(Some(p)), r.world.fs.(dirs := r.world.fs.dirs[p := map[]]))
  {
    ResolveSound(w, p, false, session, overwrite);
  }
}
