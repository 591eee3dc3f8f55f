# File organiser placement engine, in Dafny

This project models the per-file decision logic of `arrange-files-ui-2.py`, a
small Tk tool that sorts the photos and videos of one folder into
`<folder>/<Year>/<MonthName>-<MM>/<Images|Videos>`. Files without a date go to
`<folder>/Others[/Images|/Videos]`. Images whose perceptual hash was already
seen in the run go to `<folder>/Duplicates`. Five parts are modelled, each
as pure functions over immutable data:

- the folder-name sanitiser `sanitize_folder_name` (module `Sanitize`);
- the filename branch of `get_file_date`, a `DDDD-DD-DD` prefix checked as a
  Gregorian date (module `Dates`, which also holds the `strftime` folder
  names);
- the case-insensitive extension classifier (module `Classify`);
- the folder paths of `create_folder_structure`, `create_others_folder`,
  `create_duplicates_folder` and `os.makedirs` (module `Folders`);
- the loop of `arrange_files_by_date`, as a left fold of one `Step` over the
  directory listing (module `Arrange`).

The state carried from file to file holds three things: the set of seen hash
strings, the set of folders that exist, and four counters (images, videos,
folders created, duplicates). A run produces the list of moves it made and
whether an exception ended it early.

The outside world is handled as follows:

- Each listing entry carries what the outside world would report about it:
  - whether it is a regular file;
  - its creation date, used in creation-date mode (`None` when the file
    vanished before `os.path.getctime` could read it);
  - its perceptual hash (`None` when the image could not be opened).
- Paths are sequences of non-empty segments. `os.path.join` followed by
  `os.path.normpath` appends a segment, and a fragment that sanitises to the
  empty string adds none.
- `os.makedirs` adds a path and all its ancestors to the set of existing
  folders.

`ArrangeProperties` and `ArrangeRuns` state what a run does against
independent reference definitions over the listing:

- the hashes recorded;
- which files are duplicates;
- the expected value of each counter;
- the folder each file is planned to land in;
- the date folders aimed at;
- when `Others` exists.

`Scenarios` works through two complete runs.

### Behaviour of the code worth knowing

- **Others is not created up front.** Only `Duplicates` is created before
  the loop (lines 63-64). `create_others_folder` only computes a path. The
  bare `Others` folder therefore exists only if it existed already, or if an
  earlier undated image or video created it as the parent of `Others/Images`
  or `Others/Videos`. Otherwise, moving an undated file of unknown type into
  it raises: `shutil.move` falls back to a copy whose destination directory
  is missing.
- **Nothing catches that exception.** It ends the whole run, and the summary
  is never logged. The model has a `Raised` step result and a sticky
  `raised` flag. `ArrangeRuns.RaisesIff` characterises exactly when a run
  raises.
- **A vanished file ends the run.** In creation-date mode,
  `get_file_date` turns a `FileNotFoundError` into "no date" (lines 56-59),
  so a file that disappeared after its own `os.path.isfile` check (line 74)
  takes the undated branch.
  Its `shutil.move` cannot find it either and raises (lines 80, 86, 90).
  The model's `Step` raises for such an entry rather than moving it.
- **Dated files of unknown type count as videos.** A dated file whose
  extension is neither an image nor a video extension is not sent to
  `Others`. It goes to the `Videos` date folder and is counted as a video
  (line 96).
- **The image counter excludes duplicates.** It counts images that were not
  duplicates, both dated and undated. Duplicates are counted only in the
  duplicate counter.

## Model

| member | source | states |
|---|---|---|
| Sanitize.Filter | arrange-files-ui-2.py:13 | every character kept is a letter, digit, space, `-` or `_`, and the result is never longer than the input |
| Sanitize.FilterCounts | arrange-files-ui-2.py:13 | each allowed character is kept exactly as often as it occurs, every other character is dropped |
| Sanitize.FilterAppend | arrange-files-ui-2.py:13 | the character filter distributes over concatenation |
| Sanitize.TrimStart | arrange-files-ui-2.py:13 | the result is a suffix of the input with no leading whitespace, and everything dropped was whitespace |
| Sanitize.Strip | arrange-files-ui-2.py:13 | `str.strip()`: the result has no surrounding whitespace, is no longer than the input, and keeps a name of allowed characters allowed; `Sanitize.TrimStart` and `Sanitize.TrimEnd` state which characters go |
| Sanitize.TrimEnd | arrange-files-ui-2.py:13 | the result is a prefix of the input with no trailing whitespace, and everything dropped was whitespace |
| Sanitize.SanitizeFolderName | arrange-files-ui-2.py:12-13 | the sanitised name has only letters, digits, spaces, `-` and `_`, and no leading or trailing whitespace |
| Sanitize.SanitizeFixpoint | arrange-files-ui-2.py:12-13 | a name is left unchanged exactly when it has only allowed characters and no surrounding whitespace |
| Sanitize.SanitizeIdempotent | arrange-files-ui-2.py:12-13 | sanitising twice gives the same as sanitising once |
| Dates.Pad | arrange-files-ui-2.py:94-95 | a `%Y`/`%m` field is exactly the requested number of decimal digits |
| Dates.PadValue | arrange-files-ui-2.py:49 | reading a padded number back as digits gives the number when it fits the width |
| Dates.PadOfValue | arrange-files-ui-2.py:49 | padding the value of a digit string to its width gives the string back |
| Dates.MonthName | arrange-files-ui-2.py:95 | the English `%B` name of a month; `Folders.MonthNamesAlphabetic` states it is non-empty letters starting with a capital |
| Dates.YearFolderName | arrange-files-ui-2.py:94 | `strftime('%Y')`; `Folders.YearNameSanitized` states the sanitiser keeps it and `Folders.YearFolderNameDeterminesYear` that it determines the year |
| Dates.MonthFolderName | arrange-files-ui-2.py:95 | `strftime('%B-%m')`; `Folders.MonthNameSanitized` states the sanitiser keeps it and `Folders.MonthFolderNameDeterminesMonth` that it determines the month |
| Folders.YearFolderNameDeterminesYear | arrange-files-ui-2.py:94 | equal year folder names mean equal years |
| Folders.MonthFolderNameDeterminesMonth | arrange-files-ui-2.py:95 | equal month folder names mean equal months |
| Folders.MonthNamesAlphabetic | arrange-files-ui-2.py:95 | every month name is a non-empty run of allowed letters starting with a capital |
| Dates.ParseFilenameDate | arrange-files-ui-2.py:47-54 | the filename branch of `get_file_date`; its contract is `Dates.ParseFilenameDateIff`, with the round trip `Dates.ParseFormatted` |
| Dates.ParseFilenameDateIff | arrange-files-ui-2.py:43-54 | the parser returns date `d` exactly when the name's first ten characters are `d` written `YYYY-MM-DD`; later characters do not matter |
| Dates.ParsedDateIsPrefix | arrange-files-ui-2.py:47-49 | a returned date is the one the name starts with |
| Dates.PrefixDateIsParsed | arrange-files-ui-2.py:47-49 | a name starting with a valid formatted date yields that date |
| Dates.ParseFormatted | arrange-files-ui-2.py:47-49 | round trip: a formatted date followed by any text parses back to the date |
| Dates.LeapDay | arrange-files-ui-2.py:49 | a `YYYY-02-29` name has a date exactly when the year is a Gregorian leap year |
| Dates.MalformedNamesRejected | arrange-files-ui-2.py:47-51 | a short name, wrong separators, a prefix before the date and a one-digit month give no date |
| Dates.MonthThirteenRejected | arrange-files-ui-2.py:49-54 | month 13 gives no date; the `strptime` error becomes `None` |
| Dates.FebruaryThirtiethRejected | arrange-files-ui-2.py:49-54 | 30 February gives no date |
| Dates.YearZeroRejected | arrange-files-ui-2.py:49-54 | year 0000 gives no date |
| Classify.Lower | arrange-files-ui-2.py:77 | `str.lower()` leaves no upper-case letter, keeps the length, changes each character at most in its case and leaves every other character alone |
| Classify.LowerIdempotent | arrange-files-ui-2.py:77 | lower-casing an already lower-cased name changes nothing |
| Classify.LowerEqualIff | arrange-files-ui-2.py:77 | two names lower-case to the same string exactly when they differ only in the case of their letters |
| Classify.CaseInsensitive | arrange-files-ui-2.py:77-96 | names that differ only in letter case are both images, both videos or both neither |
| Classify.IsImage | arrange-files-ui-2.py:77 | the image-extension test; `Classify.KindOf`, `Classify.ImageAndVideoDisjoint` and `Classify.ClassifyBySuffix` state its meaning |
| Classify.IsVideo | arrange-files-ui-2.py:83 | the video-extension test; stated by the same three lemmas |
| Classify.KindOf | arrange-files-ui-2.py:77-92 | a name is an Image exactly when its lower-cased form ends in an image extension, a Video exactly when it ends in a video extension, Other exactly when neither |
| Classify.ImageAndVideoDisjoint | arrange-files-ui-2.py:77-83 | no name ends in both an image and a video extension |
| Classify.ClassifyBySuffix | arrange-files-ui-2.py:77-83 | being an image or a video depends only on the name's last characters, lower-cased |
| Classify.UpperCaseImage | arrange-files-ui-2.py:77 | `HOLIDAY.JPG` is an image |
| Classify.MixedCaseVideo | arrange-files-ui-2.py:83 | `clip.Mp4` is a video |
| Classify.InnerExtensionIgnored | arrange-files-ui-2.py:77-90 | `archive.jpg.zip` is neither |
| Folders.MakeDirs | arrange-files-ui-2.py:101 | after `os.makedirs` the path and every intermediate folder above it exist, nothing that existed is lost, and everything new is an ancestor of the path |
| Folders.OthersFolder | arrange-files-ui-2.py:22-25 | `<base>/Others`, only computed; `ArrangeProperties.StepOthers` and `ArrangeRuns.OthersExisting` state when it exists, `ArrangeProperties.DateFolderAvoidsOthers` that no date folder is inside it |
| Folders.CreateDuplicatesFolder | arrange-files-ui-2.py:28-31 | the returned path is `<base>/Duplicates`; it and every folder above it exist afterwards, nothing that existed is lost, and every new folder is one of its ancestors |
| Folders.NonEmpty | arrange-files-ui-2.py:17-19 | the fragments that `os.path.normpath` keeps: every kept fragment is non-empty and every non-empty one is kept; `Folders.NonEmptySingle` and `Folders.NonEmptyAppend` fix the order and number |
| Folders.NonEmptySingle | arrange-files-ui-2.py:17-19 | a single fragment is dropped exactly when it is empty |
| Folders.NonEmptyAppend | arrange-files-ui-2.py:17-19 | filtering distributes over concatenation, so kept fragments stay in order and keep their multiplicity |
| Folders.JoinThree | arrange-files-ui-2.py:17-19 | three joins give exactly `base` followed by the non-empty fragments in order; so the base stays a prefix, at most three segments are added, and all three are added exactly when none is empty |
| Folders.CreateFolderStructure | arrange-files-ui-2.py:16-20 | the path is exactly `base` followed by the non-empty ones of the sanitised year, the sanitised month and the file type, in that order; it is `<base>/<year>/<month>/<type>` exactly when none of them is empty, and its last segment is a non-empty file type |
| Folders.DateFolder | arrange-files-ui-2.py:94-98 | the folder a dated file aims at; `Folders.DateFolderSegments` equates it with `create_folder_structure` and `Folders.DateFolderInjective` states that year, month and type determine it |
| Folders.YearNameSanitized | arrange-files-ui-2.py:17 | the sanitiser leaves a `%Y` year name unchanged |
| Folders.MonthNameSanitized | arrange-files-ui-2.py:18 | the sanitiser leaves a `%B-%m` month name unchanged |
| Folders.DateFolderSegments | arrange-files-ui-2.py:16-20 | `create_folder_structure` on a date's year and month names and a file type gives exactly `<base>/<year>/<month>/<type>`, so the date folder the planner uses is the one the source builds |
| Folders.DateFolderInjective | arrange-files-ui-2.py:16-20 | two files share a date folder exactly when they share year, month and file type |
| Arrange.FileDate | arrange-files-ui-2.py:43-59 | the date `get_file_date` returns in either mode; `ArrangeProperties.DatedStepFolder` and `ArrangeProperties.DatelessStepFolder` state how it routes a file |
| Arrange.Truthy | arrange-files-ui-2.py:105-111 | a hash counts only when present and non-empty; `ArrangeProperties.StepSeen` and `ArrangeProperties.DuplicateIffEarlierSameHash` state its effect |
| Arrange.Vanished | arrange-files-ui-2.py:56-59 | a regular file whose creation time could not be read in creation-date mode; `Arrange.Step` and `ArrangeProperties.StepRaises` state that it raises |
| Arrange.FileTypeOf | arrange-files-ui-2.py:96 | the `file_type` choice; `ArrangeProperties.DatedStepFolder` and `ArrangeProperties.StepCounters` state its effect: a dated file with an unknown extension goes to the `Videos` date folder and counts as a video |
| Arrange.DatelessStep | arrange-files-ui-2.py:76-92 | an undated file raises exactly when it is of no known kind and `Others` is missing; otherwise it keeps its name, lands under `Others` in a folder that exists, and leaves hashes, folder and duplicate counters alone |
| Arrange.DatedStep | arrange-files-ui-2.py:94-117 | a dated file is always moved under its own name into an existing folder; its date folder exists afterwards; the folder counter rises by one exactly when that folder was missing |
| Arrange.Step | arrange-files-ui-2.py:71-117 | an entry is skipped exactly when it is not a regular file; a vanished file raises; a move keeps the file name and never removes folders |
| Arrange.Begin | arrange-files-ui-2.py:63-69 | before the loop `Duplicates` exists, no hash is seen, all counters are zero, nothing has moved |
| Arrange.Advance | arrange-files-ui-2.py:71-117 | after an exception nothing changes; each entry adds at most one move at the end |
| Arrange.ArrangeFilesByDate | arrange-files-ui-2.py:62-123 | the whole run; `Arrange.ArrangeLoop` equates it with the source's loop, and `ArrangeRuns.CountersMatchReference`, `ArrangeProperties.MovesFollowListing` and `ArrangeRuns.RaisesIff` state what it computes |
| Arrange.Summary | arrange-files-ui-2.py:119-123 | the four counters, present only when the loop finished; `Scenarios.DirectoriesOnly` and `Scenarios.PhotoScenario` give concrete values |
| Arrange.ArrangeLoop | arrange-files-ui-2.py:62-123 | the loop, stopped at the first exception, computes the fold over the listing |
| Arrange.StaysRaised | arrange-files-ui-2.py:90 | once a move has raised, the rest of the listing changes nothing |
| ArrangeProperties.StepSeen | arrange-files-ui-2.py:103-111 | a moved file's hash joins the seen set exactly when it is a dated image with a non-empty hash |
| ArrangeProperties.StepFolder | arrange-files-ui-2.py:76-117 | each moved file goes, under its own name, to its planned folder |
| ArrangeProperties.DatelessStepFolder | arrange-files-ui-2.py:76-92 | undated images go to `Others/Images`, videos to `Others/Videos`, anything else to `Others` |
| ArrangeProperties.DatedStepFolder | arrange-files-ui-2.py:94-113 | a dated image with a seen non-empty hash goes to `Duplicates`, every other dated file to `<YYYY>/<Month>-<MM>/<Images or Videos>` |
| ArrangeProperties.StepCounters | arrange-files-ui-2.py:76-117 | how each counter changes for one file, including that the folder counter rises for a missing date folder even when the file is a duplicate |
| ArrangeProperties.StepExisting | arrange-files-ui-2.py:79-101 | the folders a step creates are ancestors of the file's date folder, or of `Others/Images` or `Others/Videos` |
| ArrangeProperties.StepRaises | arrange-files-ui-2.py:56-90 | a step raises exactly on a vanished file, or on an undated file of no known kind while `Others` is missing |
| ArrangeProperties.StepIncrementsOneCounter | arrange-files-ui-2.py:76-117 | each moved file adds one to exactly one of images, videos and duplicates, except an undated file of no known kind, which adds to none |
| ArrangeProperties.StepDateDepth | arrange-files-ui-2.py:98-101 | a date-depth folder exists after a step exactly when it existed before or is the file's date folder |
| ArrangeProperties.StepOthers | arrange-files-ui-2.py:78-90 | `Others` exists after a step exactly when it existed before or the step made `Others/Images` or `Others/Videos` |
| ArrangeProperties.DateFolderAvoidsOthers | arrange-files-ui-2.py:16-25 | no date folder lies inside `Others` |
| ArrangeProperties.SeenIsHashesOf | arrange-files-ui-2.py:103-111 | the seen set of a run is exactly the hashes of the dated images with non-empty hashes so far |
| ArrangeProperties.HashesOfIff | arrange-files-ui-2.py:110-111 | a hash is recorded exactly when some hashed file of the listing has it |
| ArrangeProperties.DuplicateIffEarlierSameHash | arrange-files-ui-2.py:103-111 | a file is a duplicate exactly when it is a hashed dated image and an earlier hashed file had the same hash, so among equal hashes only the first escapes |
| ArrangeProperties.LastStep | arrange-files-ui-2.py:71-117 | the moves of a run grow by the last entry, into its planned folder, exactly when it is a regular file |
| ArrangeProperties.LastFileRouting | arrange-files-ui-2.py:71-117 | a file appended to a listing is moved last, under its name, into the folder planned from the hashes before it |
| ArrangeProperties.NonFileIgnored | arrange-files-ui-2.py:74 | a directory entry that is not a regular file changes nothing |
| ArrangeProperties.MovesFollowListing | arrange-files-ui-2.py:71-117 | a finished run moved each regular file once, in listing order, under its own name |
| ArrangeProperties.MovesOfPrefix | arrange-files-ui-2.py:71-117 | the moves made while going through the first `k` entries are the first moves of the whole run; the loop never undoes a move |
| ArrangeProperties.PrefixRunNotRaised | arrange-files-ui-2.py:71-117 | a run that finished did not raise on any prefix of the listing |
| ArrangeProperties.FileRouting | arrange-files-ui-2.py:71-117 | in a finished run, every regular file, not only the last, is moved right after the files before it, under its own name, into the folder planned from the hashes of the files before it |
| ArrangeProperties.PlannedDuplicatesIff | arrange-files-ui-2.py:103-106 | a file is planned for `Duplicates` exactly when it is dated and a hashed file whose hash was already seen |
| ArrangeProperties.DuplicateRouting | arrange-files-ui-2.py:103-111 | in a finished run, the j-th regular file is moved to `Duplicates` exactly when it is a hashed file and an earlier hashed file has the same hash |
| ArrangeRuns.CountersMatchReference | arrange-files-ui-2.py:66-117 | the image, video and duplicate counters equal independent counts over the listing |
| ArrangeRuns.EveryFileCountedOnce | arrange-files-ui-2.py:76-117 | images plus videos plus duplicates plus undated files of no known kind equals the number of regular files |
| ArrangeRuns.DateDepthExisting | arrange-files-ui-2.py:98-101 | after a run, a date-depth folder exists exactly when it existed before or some dated file aimed at it |
| ArrangeRuns.FolderCount | arrange-files-ui-2.py:98-101 | the folder counter equals the number of distinct date folders aimed at that did not exist at the start, duplicates' folders included |
| ArrangeRuns.FolderCountBound | arrange-files-ui-2.py:98-101 | each distinct date folder is counted at most once |
| ArrangeRuns.OthersExisting | arrange-files-ui-2.py:78-90 | `Others` exists after a run exactly when it existed before or an undated image or video was moved |
| ArrangeRuns.RaisesIff | arrange-files-ui-2.py:56-90 | a run raises exactly when some file has vanished, or some undated file of no known kind comes while `Others` neither existed nor was made by an earlier file |
| Scenarios.DirectoriesOnly | arrange-files-ui-2.py:71-74 | a folder holding no regular files, such as an arranged one, finishes with no moves and all counters zero |
| Scenarios.SameMonthCopies | arrange-files-ui-2.py:94-117 | two same-hash photos of one month and an undated image: first to the date folder, second to `Duplicates`, third to `Others/Images`, counters 2, 0, 1, 1 |
| Scenarios.PhotoScenario | arrange-files-ui-2.py:62-123 | `2023-05-01-photo.jpg`, an identical `2023-05-02-photo.jpg` and `random.jpg` land in `2023/May-05/Images`, `Duplicates` and `Others/Images`; two images, no video, one folder, one duplicate |

## Left out

- The Tk user interface is not modelled: `browse_folder`, `run_arrangement`, `update_treeview`, `open_folder` and the widget setup (lines 125-208). They are event glue and I/O.
- `compute_image_hash` (lines 34-40) depends on PIL and `imagehash.phash`. The hash is an opaque per-entry `Option<string>`, and `None` stands for the caught exception.
- Creation-date mode (lines 56-59) reads `os.path.getctime` and converts it in the local time zone. The resulting date is an input on each entry.
- Filesystem effects are abstracted:
  - `shutil.move` is recorded as a move and not performed;
  - a name collision in the destination is not modelled;
  - separators disappear because paths are segment sequences, and `os.path.normpath` is modelled only for the fragments joined here, which hold no separator, `.` or `..`;
  - `os.listdir` order is the order of the input sequence.
- A move into an existing folder is assumed to succeed. Only the missing `Others` folder and a vanished file are modelled as raising. Permission errors and other I/O failures are not.
- The folders left behind by a raising step are not modelled: a vanished image or video has `Others/Images` or `Others/Videos` made before its move raises, but a raised run keeps the state from before that entry, and no property is stated about the state of a raised run.
- A file that disappears after its own `os.path.isfile` check (line 74) but before its `shutil.move` is not modelled, except for the creation-date case above; such a move raises in the source. A file that disappears before line 74 is modelled: `Entry.isFile` is that check, so the file is skipped.
- Paths compare case-sensitively: a folder counts as existing only when its segments match exactly. On a case-insensitive filesystem such as the Windows one the tool targets (line 153 calls `explorer`), an existing `others` or `2023/may-05/Images` would count as existing, which would change `ArrangeRuns.RaisesIff` and `ArrangeRuns.FolderCount`.
- Month names are the English `%B` names. Other locales are not modelled.
- Python's Unicode `str.isalnum`, `str.isspace`, regex `\d` and `str.lower` are restricted to ASCII.
- The log messages (lines 81, 87, 91, 107, 113, 119-123) are not modelled. Only the counters and the move list are. `Summary` is `None` when the run raised, because the summary lines are then never written.
- Dates.YearFolderName: always writes four zero-padded digits. That is what Windows `strftime('%Y')` does, and it matches every year a filename can carry. glibc writes years below 1000 without padding, and that difference is not modelled.
