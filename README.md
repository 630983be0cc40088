# cp_packager, modelled in Dafny

cp_packager builds review packages for the Coyote Papers journal. It reads
a manifest table whose rows name a paper file and then its reviewers. For
every reviewer it makes a directory under the output root, copies in that
row's paper, and copies in every file of the content directory. A reviewer
directory that already exists is either removed and made again or kept,
as the operator answers Y/N at a prompt; the force flag skips that prompt
only for the output root. A dry run changes nothing and only warns. The
directories that `create_directory` made go into the session list once
their row is done, and later rows pass over them without asking.

The model covers the four procedures of `cp_packager/src/cp_packager.py`
(`file_exception_handler`, `dir_exception_handler`, `create_directory`,
`make_package`) and the row loop of `main`.

- **Disk.** The disk is a value, `FileTree.Fs`: a map from each directory
  path to the files it holds. `FileTree.FileSystem` is the object that holds
  that value and changes it in place through `mkdir`, `shutil.rmtree` and
  `shutil.copyfile`.
- **Operator.** Standard input is `Terminal.Console`, a script of the lines
  the operator will type.
- **Specification.** `PackagerSpec` gives each step as a function from the
  world before it (the disk plus the answers still unread) to its result
  and the world after it. A failure keeps the world it leaves, because
  nothing is rolled back.
- **Code.** `Packager` holds the procedures as methods with the source's
  loops. Each method is proved to do exactly what its function says.
- **Properties.** `HandlerFacts`, `RowFacts`, `FillFacts`, `SessionFacts`
  and `MainFacts` prove what those functions promise. `DeclinedOverwrite`
  shows the one place where the code loses work (see Findings).

Failures are values of `PackagerSpec.Failure`:

| Failure | Source behaviour |
|---|---|
| `Exit(1)` | `sys.exit(1)` for a missing required file |
| `RowTooShort` | the row-length check at line 160. Its message evaluates `dict_row[0]`, so Python raises `KeyError` there rather than `AssertionError`. |
| `MalformedValue` | a cell without text, where `strip` raises `AttributeError` |
| `EndOfInput` | `input()` at end of input (EOFError) |
| `Io(...)` | an exception from `mkdir`, `rmtree`, `copyfile` or opening the manifest |

Where the program's own documentation and its code disagree, the model
follows the code:

- **Force flag.** The help text of `--force` (line 288) says it overwrites
  folders without prompting. In the code, `main` passes the flag only when
  resolving the output root (line 242), and `make_package` is called without
  `force_create` (lines 264-269). An output root that exists is therefore
  removed without asking, with every reviewer directory and file in it, and
  made again empty before the first row (`MainFacts.ForceEmptiesRoot`). When
  the output root does not exist, the flag changes nothing at all
  (`MainFacts.ForceOnlyForRoot`), and on a well-formed disk no reviewer
  directory exists then either (`MainFacts.AbsentRootHoldsNothing`). With
  the flag set, the only reviewer directory a run still asks about is one
  named twice in the same row.
- **Copy overwrites.** The docstring of `make_package` says homonymous files
  in the output are skipped (line 150). `shutil.copyfile` replaces them, and
  `FileTree.Copyfile` does the same.
- **Session list holds only created directories.** Only directories that
  `create_directory` returned go into the session list (lines 193-194 and
  271-272). An existing directory the operator chose to keep is asked about
  again on every later row that names it, and a yes there removes the
  papers earlier rows left in it (see Findings). The rows are merged into the
  session only after each row, so outside a dry run a reviewer named twice
  in one row, whose directory is not in the session from an earlier row,
  is asked about on the second occurrence too. In a dry run nothing is
  made, so the second occurrence finds the directory absent again.
  `HandlerFacts.PromptDecides` covers this case: the path is not in the
  session and it is a directory on disk.
- **Declined directories are filled.** Whatever the answer at the prompt,
  the reviewer directory is filled with the paper and the content (lines
  196-201). A declined overwrite therefore still gets its files replaced.

## Model

| member | source | states |
|---|---|---|
| Packager.FileExceptionHandler | cp_packager/src/cp_packager.py:25-33 | outside a dry run the result is a pass exactly when the path exists, and otherwise exit status 1; a dry run always passes without looking at the disk |
| Packager.DirExceptionHandler | cp_packager/src/cp_packager.py:36-75 | the answer and the disk and input afterwards are exactly `PackagerSpec.Resolve` of the world before: the session list, existence, the dry-run flag, then the flag or the prompt loop (lines 62-63) reading lines until one is exactly Y, y, N or n, and `rmtree` on a yes |
| Packager.CreateDirectory | cp_packager/src/cp_packager.py:78-99 | the disk afterwards and the result are `PackagerSpec.CreateDir`: a dry run makes nothing and returns None, otherwise `mkdir` and the path it made, or the error `mkdir` raised |
| PackagerSpec.CreateDir | cp_packager/src/cp_packager.py:92-99 | a dry run leaves the disk as it is and returns None; an existing path raises FileExistsError with nothing changed; success exactly when the path is absent and its parent is a directory, and then the new directory is empty and its path is returned |
| PackagerSpec.Ask | cp_packager/src/cp_packager.py:62-64 | the prompt loop on a script of lines: None exactly when no line is Y, y, N or n; otherwise the count of lines read ends at the first such line, and the answer is yes exactly when that line is Y or y |
| Terminal.Console.Input | cp_packager/src/cp_packager.py:63 | `input()` returns the next scripted line and consumes it, or signals end of input when none is left |
| Text.Strip | cp_packager/src/cp_packager.py:169 | `str.strip()`: the result is a slice of the cell, everything cut off at either end is whitespace as `str.isspace` defines it, and the result neither starts nor ends with whitespace |
| Text.StripRecovers | cp_packager/src/cp_packager.py:169 | stripping any whitespace surrounding a string that neither starts nor ends with whitespace gives that string back |
| Text.StripIdempotent | cp_packager/src/cp_packager.py:169 | stripping a stripped cell changes nothing |
| Paths.Join | cp_packager/src/cp_packager.py:187 | `joinpath` of a single name adds it as the last component, so the result lies straight under the path and two different names give two different paths; an empty name leaves the path as it is |
| FileTree.Mkdir | cp_packager/src/cp_packager.py:94 | `Path.mkdir()` succeeds exactly when the path does not exist and its parent is a directory, raises FileExistsError for an existing path, and makes an empty directory |
| FileTree.MkdirFrame | cp_packager/src/cp_packager.py:94 | a new directory changes nothing outside itself and keeps the tree well formed |
| FileTree.Rmtree | cp_packager/src/cp_packager.py:66 | `shutil.rmtree` succeeds exactly on a directory, and otherwise raises for that path |
| FileTree.RmtreeFrame | cp_packager/src/cp_packager.py:66 | `rmtree` removes everything within the path and nothing outside it; on a well-formed tree the rest stays well formed and the path no longer exists |
| FileTree.Copyfile | cp_packager/src/cp_packager.py:198 | `shutil.copyfile` succeeds exactly when the source is a regular file, the target differs from it, is not a directory and has a parent directory; the target then holds the source's bytes |
| FileTree.CopyfileFrame | cp_packager/src/cp_packager.py:201 | a copy changes one entry of one directory: the same directories exist, every other file is as it was, and a well-formed tree stays well formed |
| FileTree.FileSystem.MakeDir | cp_packager/src/cp_packager.py:94 | changes the disk in place exactly as `Mkdir` says, and reports its error |
| FileTree.FileSystem.RemoveTree | cp_packager/src/cp_packager.py:66 | changes the disk in place exactly as `Rmtree` says, and reports its error |
| FileTree.FileSystem.CopyFile | cp_packager/src/cp_packager.py:198 | changes the disk in place exactly as `Copyfile` says, and reports its error |
| HandlerFacts.SessionSkips | cp_packager/src/cp_packager.py:56-58 | a directory already in the session list is kept, and nothing is touched or asked |
| HandlerFacts.AbsentNeedsCreate | cp_packager/src/cp_packager.py:74-75 | a path that does not exist has to be created, and nothing is touched or asked |
| HandlerFacts.DryRunWarns | cp_packager/src/cp_packager.py:71-73 | in a dry run an existing path only draws the warning (the None return), and nothing is touched or asked |
| HandlerFacts.ForcedOverwrite | cp_packager/src/cp_packager.py:62-67 | with the flag set no line is read; an existing directory is removed with its whole tree and has to be made again, and a regular file in its place makes `rmtree` raise with nothing changed |
| HandlerFacts.PromptDecides | cp_packager/src/cp_packager.py:62-70 | without the flag, running out of input raises after consuming every line; a deciding N or n keeps the directory; a deciding Y or y removes its tree; in both cases exactly the lines up to the deciding one are consumed |
| HandlerFacts.ResolveFrame | cp_packager/src/cp_packager.py:36-75 | the handler changes the disk only within the directory's own tree, and a dry run changes nothing and reads nothing |
| HandlerFacts.ResolveSound | cp_packager/src/cp_packager.py:36-75 | lines are consumed only from the front; the disk changes only for a directory outside the session, outside a dry run, with the flag set or a yes typed; a failure is end of input or `rmtree` of a non-directory; after "create it" on a well-formed tree the path is free and the tree well formed |
| HandlerFacts.CreateDirFrame | cp_packager/src/cp_packager.py:92-99 | `create_directory` changes nothing outside the new directory and keeps a well-formed tree well formed |
| HandlerFacts.CreateAfterResolve | cp_packager/src/cp_packager.py:83 | when the handler said to create a directory whose parent exists, `create_directory` cannot raise: it makes the empty directory and returns its path |
| Packager.CopyContent | cp_packager/src/cp_packager.py:200-201 | the loop copies every content file into the target under its own name and stops at the first failing copy; disk and result are `PackagerSpec.CopyContentFrom` |
| Packager.CopyPackage | cp_packager/src/cp_packager.py:196-201 | outside a dry run the paper, then every content file, is copied in; disk and result are `PackagerSpec.Populate` |
| Packager.PackageReviewer | cp_packager/src/cp_packager.py:186-201 | one reviewer: resolve, create when told to and record what `create_directory` returned, then copy whatever the answer was; equal to `PackagerSpec.Reviewer` |
| Packager.PackageColumn | cp_packager/src/cp_packager.py:166-201 | one cell: a cell without text raises, the first column names the paper and must exist, an empty stripped cell is skipped, any other names a reviewer; equal to `PackagerSpec.Column` |
| Packager.PackageCells | cp_packager/src/cp_packager.py:166-201 | the loop over a row's cells in order, ending at the first failure; equal to `PackagerSpec.RowFrom` from the first column |
| Packager.MakePackage | cp_packager/src/cp_packager.py:110-203 | equal to `PackagerSpec.Package`: a row of at most one cell is rejected (RowFacts.ShortRowRejected), a cell without text or a missing paper fails (RowFacts.MalformedRowRejected, RowFacts.MissingPaperRejected), and otherwise the directories made are returned in column order (RowFacts.CreatedInOrder, SessionFacts.CreatedExactly) and filled (SessionFacts.CreatedAreFilled) |
| FillFacts.CopyContentFrame | cp_packager/src/cp_packager.py:200-201 | copying the content into a directory changes nothing outside it |
| FillFacts.CopyContentKeeps | cp_packager/src/cp_packager.py:200-201 | a file of the directory whose name is no content file's name is left as it was |
| FillFacts.CopyContentFills | cp_packager/src/cp_packager.py:200-201 | when no copy fails, every content file is in the directory with the content file's bytes |
| FillFacts.PopulateFills | cp_packager/src/cp_packager.py:196-201 | outside a dry run, after the copies went through, the directory holds every content file and the paper; the paper is a copy of the original unless a content file of the same name replaced it |
| FillFacts.ReviewerFills | cp_packager/src/cp_packager.py:187-201 | whether the directory was kept, made afresh or overwritten, a reviewer that goes through ends up with the paper and the content, and nothing outside that directory changes |
| FillFacts.ColumnFills | cp_packager/src/cp_packager.py:184-201 | one reviewer column changes nothing outside the output root, nothing in the output root's own file list, and nothing in any directory under it but the one the cell names; when it goes through, that directory holds every content file and the row's paper |
| FillFacts.RowFromFills | cp_packager/src/cp_packager.py:166-201 | the remaining columns of a row change nothing outside the output root or in any directory the row does not name, even on failure; when they go through, every directory they name holds every content file and the row's paper |
| FillFacts.PackageFills | cp_packager/src/cp_packager.py:189-203 | outside a dry run a row changes nothing outside the output root or in a directory it does not name, even on failure; when it goes through, every reviewer directory it names is a directory holding every content file and the row's paper |
| RowFacts.DryRunColumn | cp_packager/src/cp_packager.py:186-196 | in a dry run one cell touches nothing and reads nothing, fails only for a cell without text, and records a None exactly for a reviewer directory that is neither in the session list nor on disk (`create_directory` of a dry run returns None), otherwise nothing |
| RowFacts.DryRunRowFrom | cp_packager/src/cp_packager.py:166-201 | in a dry run the rest of a row touches nothing and records only Nones |
| RowFacts.DryRunPackage | cp_packager/src/cp_packager.py:189-196 | in a dry run `make_package` changes nothing on disk, reads no answer and returns only Nones |
| RowFacts.ReviewerRecords | cp_packager/src/cp_packager.py:189-194 | outside a dry run a reviewer that goes through records its directory exactly when the handler said to create it, and such a directory is never in the session list; otherwise it records nothing |
| RowFacts.CreatedByColumn | cp_packager/src/cp_packager.py:186-194 | outside a dry run a cell records its directory exactly when it is a reviewer column and the handler said to create that directory; such a directory is never in the session list; every other cell records nothing |
| RowFacts.CreatedOutsideSessionFrom | cp_packager/src/cp_packager.py:166-201 | the rest of a row only appends directories that are not in the session list |
| RowFacts.CreatedInOrderFrom | cp_packager/src/cp_packager.py:166-201 | the rest of a row appends a subsequence of the directories it names, in column order |
| RowFacts.CreatedInOrder | cp_packager/src/cp_packager.py:186-203 | outside a dry run the returned list is a subsequence, in column order, of the reviewer directories the row names, and none of them was in the session list (SessionFacts.CreatedExactly gives the whole list when the names are distinct and new) |
| RowFacts.ShortRowRejected | cp_packager/src/cp_packager.py:160 | a row of at most one cell fails before anything on disk changes or any line is read |
| RowFacts.MalformedRowRejected | cp_packager/src/cp_packager.py:166-172 | a row holding a cell without text fails |
| RowFacts.MissingPaperRejected | cp_packager/src/cp_packager.py:177-182 | outside a dry run a row whose paper file does not exist ends with status 1 before anything changes |
| RowFacts.DryRunCount | cp_packager/src/cp_packager.py:186-196 | in a dry run a row of text cells changes nothing, reads nothing and returns one None for each reviewer column whose directory is neither in the session list nor on disk |
| SessionFacts.CreatedAreFilled | cp_packager/src/cp_packager.py:189-203 | outside a dry run every entry a row returns is a directory it made straight under the output root, was not in the session list, and holds every content file and the row's paper |
| SessionFacts.CreatedExactly | cp_packager/src/cp_packager.py:186-203 | outside a dry run, when the reviewer directories a row names are distinct, absent and not in the session list, the row returns exactly those directories in column order |
| SessionFacts.NewDirectoryRecorded | cp_packager/src/cp_packager.py:186-194 | outside a dry run a reviewer directory that the row names and that is neither on disk nor in the session list is among those the row returns |
| SessionFacts.PopulateKeepsPaper | cp_packager/src/cp_packager.py:196-201 | filling a directory with another paper and the content keeps a paper it already held, unless a copied file has that name |
| SessionFacts.SessionKeeps | cp_packager/src/cp_packager.py:56-58 | a directory in the session list keeps the papers it holds through a later row that names it |
| FillFacts.KeptIsKept | cp_packager/src/cp_packager.py:196-201 | a directory under the output root whose files a step left alone still holds the content and the paper it held |
| Packager.CheckContent | cp_packager/src/cp_packager.py:249-253 | equal to `PackagerSpec.CheckContentFrom` from the first entry: the run goes on exactly when it is a dry run or every entry of the content directory exists, and otherwise stops with status 1 |
| PackagerSpec.CheckContentFrom | cp_packager/src/cp_packager.py:249-253 | from a given entry on, the check passes exactly when it is a dry run or every remaining content entry exists; any failure is exit status 1 |
| Packager.AppendAll | cp_packager/src/cp_packager.py:271-272 | the session list afterwards is the old list followed by the row's new directories, in order |
| Packager.PackageRows | cp_packager/src/cp_packager.py:256-272 | the rows in order, each packaged against the session list as it stands, with what it made appended; equal to `PackagerSpec.RowsFrom` |
| Packager.PrepareRun | cp_packager/src/cp_packager.py:238-253 | equal to `PackagerSpec.Prepare`: the manifest must exist (MainFacts.MissingManifest), the output root is resolved with the force flag and made when needed (MainFacts.PrepareMakesRoot), every content entry must exist, and a manifest that is not a readable file raises |
| MainFacts.MissingManifest | cp_packager/src/cp_packager.py:238-239 | outside a dry run a missing manifest ends the run with status 1 before anything on disk changes or any line is read |
| MainFacts.PrepareMakesRoot | cp_packager/src/cp_packager.py:241-243 | outside a dry run, once the run is ready the output root exists |
| MainFacts.PrepareAddsNoChild | cp_packager/src/cp_packager.py:241-253 | getting ready makes no directory under the output root: one absent before is absent afterwards |
| Packager.RunPackager | cp_packager/src/cp_packager.py:206-272 | `main`, returning the final session list; equal to `PackagerSpec.Main` |
| MainFacts.SessionGrows | cp_packager/src/cp_packager.py:271-272 | the session list only grows across the rows |
| MainFacts.DryRunRows | cp_packager/src/cp_packager.py:257-272 | in a dry run the rows touch nothing, read nothing and add only Nones to the session list |
| MainFacts.DryRunMain | cp_packager/src/cp_packager.py:206-272 | a dry run of `main` leaves the disk as it was, reads no answer, and collects only Nones |
| MainFacts.ForceOnlyForRoot | cp_packager/src/cp_packager.py:242-269 | when the output root does not exist, a run with the force flag is identical to one without |
| MainFacts.AbsentRootHoldsNothing | cp_packager/src/cp_packager.py:242-243 | on a well-formed disk, a missing output root has no reviewer directory or file under it |
| MainFacts.ForceEmptiesRoot | cp_packager/src/cp_packager.py:242-243 | outside a dry run, with the force flag and an existing output root, a run that gets ready has read no line and left the output root an empty directory: no reviewer directory or file under it is left |
| FillFacts.TargetsAreChildren | cp_packager/src/cp_packager.py:186-187 | every directory a row names lies straight under the output root |
| MainFacts.RowsFromFill | cp_packager/src/cp_packager.py:257-272 | outside a dry run the remaining rows change nothing outside the output root, nor in a directory no remaining row names, even on failure; when they go through, every reviewer directory they name holds every content file, and the paper of the last row naming it |
| MainFacts.PrepareFrame | cp_packager/src/cp_packager.py:238-253 | getting ready changes nothing outside the output root, and nothing at all in a dry run |
| MainFacts.MainFills | cp_packager/src/cp_packager.py:206-272 | outside a dry run nothing outside the output root changes, whatever happens; a run that goes through leaves every reviewer named in any row with a directory holding every content file and the paper of the last row naming that reviewer |
| MainFacts.PapersKeptFrom | cp_packager/src/cp_packager.py:256-272 | a reviewer directory that is in the session list, or not on disk, keeps through the remaining rows every paper of the rows naming it |
| MainFacts.PapersOfNewReviewer | cp_packager/src/cp_packager.py:206-272 | outside a dry run, for a reviewer whose directory did not exist when the run started, a run that goes through leaves that directory with the paper of every row naming the reviewer |
| DeclinedOverwrite.SecondPromptLosesPaper | cp_packager/src/cp_packager.py:57-70 | the code as written: a kept directory is filled but recorded nowhere, so a second row naming it asks again, and a yes removes the first row's paper |
| DeclinedOverwrite.RecordedKeepsPaper | cp_packager/src/cp_packager.py:187-201 | with kept directories recorded as well, a second row naming the same reviewer reads no line and the directory holds both rows' papers |

## Left out

- Messages printed to the console, the `argparse` command line and the
  `__main__` block (lines 275-316) are not modelled. That block fixes the
  four root paths as siblings under the parent of the working directory.
  `FillFacts.Layout` states what the fill lemmas need from that: the
  content and paper directories lie outside the output root.
- `read_tsv` and `DictReader` (lines 102-107) are not modelled: the
  manifest arrives as a sequence of rows of cells. A cell the reader fills
  with `None`, or with a list of surplus values, is a cell without text.
  Opening the manifest is modelled only as the check that it is a regular
  file.
- `content_path.glob('*')` (line 250) is not modelled. The entries it lists
  are a parameter (`Setup.content`), in the order the directory yields them,
  because that order is up to the operating system.
- Paths are modelled as sequences of single components. A reviewer name
  holding a path separator, `..` or an absolute path would reach elsewhere
  through `joinpath`; the model treats every name as one component.
- File contents are opaque byte strings. Permissions, symbolic links, disk
  space and the other errors a real disk can raise are not modelled.
- `sys.exit(1)` is modelled as a failure value, and end of input as
  `EndOfInput`. Exceptions end the run with the disk as it was when they
  were raised.
- FillFacts.PackageFills: assumes the row's paper cell is not blank after
  stripping. A blank paper makes the source copy the papers directory
  itself, which fails, so there is nothing to fill.
- Paths.Join: a name of "." is taken as a directory of that name. pathlib's
  `joinpath('.')` returns the output root itself, so a reviewer cell holding
  only "." would be resolved and filled as the output root.
- MainFacts.MainFills: assumes every row names a paper (`NamesPapers`) and
  the directory layout above (`Layout`). It promises only the paper of the
  last row naming a reviewer, because in the code as written an earlier
  row's paper can be lost (see Findings).
- MainFacts.RowsFromFill: assumes the same as MainFacts.MainFills and
  promises the paper on the same terms.
- MainFacts.PapersOfNewReviewer: promises every row's paper only for a
  reviewer whose directory did not exist when the run started; for one that
  existed, see Findings.
- SessionFacts.CreatedExactly: gives the returned list exactly only when the
  reviewer directories of the row are distinct, absent and not in the
  session list; otherwise RowFacts.CreatedInOrder bounds it as a
  subsequence.
- FillFacts.RowFromFills: states only what the reviewer columns do, for a
  row whose paper cell was already read and not blank.
- `DeclinedOverwrite.RecordingReviewer`, the corrected behaviour, is used
  only by the lemma about it; the rest of the model follows the code as
  written.
- A reviewer directory made afresh and then filled holds exactly the paper
  and the content. The lemmas state that those files are present with the
  right bytes, and that filling adds no file of another name
  (`DeclinedOverwrite.PopulateAddsOnly`), but not the combined statement
  that nothing else is there.

## Findings

| source | as written | input that shows it | evidently intended | confidence | as-written member | corrected member |
|---|---|---|---|---|---|---|
| cp_packager/src/cp_packager.py:57-70 | a reviewer directory kept after a declined overwrite is filled (lines 196-201) but not recorded (lines 193-194, 271-272), so a later row naming the same reviewer asks again and a yes removes the papers the earlier rows put there | `out` and `out/R` exist, and so do `papers/A` and `papers/B`; the manifest is a header line `paper<TAB>reviewer` followed by the rows `A<TAB>R` and `B<TAB>R`; no `--force`; the operator answers `n` (keep the output root, line 242), `n` (keep `out/R` on row A) and `y` (overwrite `out/R` on row B); `out/R` ends holding `B` but not `A` | a directory the run has filled is passed over by later rows, like one it made, so it keeps every paper of its reviewer | medium, not executed | DeclinedOverwrite.SecondPromptLosesPaper | DeclinedOverwrite.RecordedKeepsPaper |
