/** The per-file placement engine of `arrange_files_by_date`
    (arrange-files-ui-2.py:62-123). The directory listing is an input
    sequence of entries; what the filesystem, the image library and the
    clock would tell the program about each entry is carried on the entry:
    whether it is a regular file, its creation date and its perceptual hash.
    One run is a left fold of `Step` over the listing. */
module Arrange {
  import opened Wrappers
  import opened Dates
  import opened Classify
  import opened Folders

  /** The radio button choice: date from the filename, or creation date. */
  datatype DateMode = FilenameDate | CreationDate

  /** One name from `os.listdir`, with the answers of the outside world:
      `os.path.isfile`, `datetime.fromtimestamp(os.path.getctime(...))`
      (`None` when the file vanished) and `compute_image_hash` (`None` when
      the image could not be opened or hashed). */
  datatype Entry = Entry(name: string, isFile: bool, created: Option<CalendarDate>, hash: Option<string>)

  /** The four counters of the summary. */
  datatype Counters = Counters(images: nat, videos: nat, folders: nat, duplicates: nat)

  /** Everything the loop carries from one file to the next: the seen hashes,
      the folders that exist on disk, and the counters. */
  datatype State = State(seen: set<string>, existing: set<Path>, counters: Counters)

  /** `shutil.move(file_path, os.path.join(folder, filename))`. */
  datatype Move = Move(name: string, folder: Path)

  /** What one iteration does: skip a non-file, move a file, or raise
      (the move into a folder that does not exist). */
  datatype StepResult = Moved(state: State, move: Move) | Skipped | Raised

  /** The outcome of a run so far: the state, the moves in order, and whether
      an exception has ended the run. */
  datatype Run = Run(state: State, moves: seq<Move>, raised: bool)

  /** `get_file_date`. */
  function FileDate(mode: DateMode, e: Entry): Option<CalendarDate> {
    match mode
    case FilenameDate => ParseFilenameDate(e.name)
    case CreationDate => e.created
  }

  /** Python truthiness of `file_hash`: `None` and the empty string are false. */
  predicate Truthy(h: Option<string>) {
    h.Some? && h.value != ""
  }

  /** `file_type`: images go to `Images`, every other dated file to `Videos`. */
  function FileTypeOf(name: string): (t: FileType)
    ensures t == Images <==> IsImage(name)
  {
    if IsImage(name) then Images else Videos
  }

  function OthersImagesFolder(base: Path): Path {
    OthersFolder(base) + ["Images"]
  }

  function OthersVideosFolder(base: Path): Path {
    OthersFolder(base) + ["Videos"]
  }

  /** The `if not file_date` branch (arrange-files-ui-2.py:76-92). Images and
      videos go to `Others/Images` and `Others/Videos`, which are created on
      demand; anything else goes to `Others` itself, which nothing creates, so
      that move raises when the folder is missing. No hash is computed and
      the folder counter is untouched. */
  function DatelessStep(base: Path, st: State, name: string): (r: StepResult)
    ensures r.Raised? <==> KindOf(name) == Other && OthersFolder(base) !in st.existing
    ensures r.Moved? ==> r.move.name == name && |r.move.folder| > |base| && r.move.folder[..|base| + 1] == OthersFolder(base)
    ensures r.Moved? ==> r.move.folder in r.state.existing
    ensures r.Moved? ==> r.state.seen == st.seen && r.state.counters.folders == st.counters.folders
                         && r.state.counters.duplicates == st.counters.duplicates
  {
    match KindOf(name)
    case Image =>
      var folder := OthersImagesFolder(base);
      Moved(st.(existing := MakeDirs(st.existing, folder),
                counters := st.counters.(images := st.counters.images + 1)),
            Move(name, folder))
    case Video =>
      var folder := OthersVideosFolder(base);
      Moved(st.(existing := MakeDirs(st.existing, folder),
                counters := st.counters.(videos := st.counters.videos + 1)),
            Move(name, folder))
    case Other =>
      if OthersFolder(base) in st.existing then Moved(st, Move(name, OthersFolder(base)))
      else Raised
  }

  /** The dated branch (arrange-files-ui-2.py:94-117). The target folder is
      counted when it did not exist, then created; only an image is hashed;
      a truthy hash already seen sends the file to `Duplicates`, otherwise
      the hash is recorded and the file goes to its date folder. */
  function DatedStep(base: Path, st: State, e: Entry, d: CalendarDate): (r: StepResult)
    requires DuplicatesFolder(base) in st.existing
    ensures r.Moved? && r.move.name == e.name
    ensures r.move.folder in r.state.existing
    ensures r.state.counters.folders == st.counters.folders + (if DateFolder(base, d, FileTypeOf(e.name)) in st.existing then 0 else 1)
    ensures DateFolder(base, d, FileTypeOf(e.name)) in r.state.existing
  {
    var fileType := FileTypeOf(e.name);
    var target := DateFolder(base, d, fileType);
    var folders := if target in st.existing then st.counters.folders else st.counters.folders + 1;
    var existing := MakeDirs(st.existing, target);
    var fileHash := if fileType == Images then e.hash else None;
    if Truthy(fileHash) && fileHash.value in st.seen then
      Moved(State(st.seen, existing, st.counters.(folders := folders, duplicates := st.counters.duplicates + 1)),
            Move(e.name, DuplicatesFolder(base)))
    else
      var seen := if Truthy(fileHash) then st.seen + {fileHash.value} else st.seen;
      var counters :=
        if fileType == Images then st.counters.(images := st.counters.images + 1)
        else st.counters.(videos := st.counters.videos + 1);
      Moved(State(seen, existing, counters.(folders := folders)), Move(e.name, target))
  }

  /** A regular file that was gone when creation-date mode asked for its
      creation time (`get_file_date` caught the `FileNotFoundError`): the
      `shutil.move` of its branch cannot find it either, and raises. */
  predicate Vanished(mode: DateMode, e: Entry) {
    mode == CreationDate && e.created.None?
  }

  /** One iteration of the loop over `os.listdir(folder_path)`. */
  function Step(base: Path, mode: DateMode, st: State, e: Entry): (r: StepResult)
    requires DuplicatesFolder(base) in st.existing
    ensures r.Skipped? <==> !e.isFile
    ensures e.isFile && Vanished(mode, e) ==> r.Raised?
    ensures r.Moved? ==> r.move.name == e.name && st.existing <= r.state.existing
  {
    if !e.isFile then Skipped
    else if Vanished(mode, e) then Raised
    else match FileDate(mode, e)
      case None => DatelessStep(base, st, e.name)
      case Some(d) => DatedStep(base, st, e, d)
  }

  /** The state before the loop: no hashes, zero counters, and the
      `Duplicates` folder created (arrange-files-ui-2.py:63-69). */
  function Begin(base: Path, existing: set<Path>): (r: Run)
    ensures DuplicatesFolder(base) in r.state.existing && existing <= r.state.existing
    ensures r.state.seen == {} && r.state.counters == Counters(0, 0, 0, 0)
    ensures r.moves == [] && !r.raised
  {
    var (created, _) := CreateDuplicatesFolder(existing, base);
    Run(State({}, created, Counters(0, 0, 0, 0)), [], false)
  }

  /** Feed one entry to a run; once an exception has escaped nothing happens. */
  function Advance(base: Path, mode: DateMode, r: Run, e: Entry): (r': Run)
    requires DuplicatesFolder(base) in r.state.existing
    ensures DuplicatesFolder(base) in r'.state.existing
    ensures r.raised ==> r' == r
    ensures |r.moves| <= |r'.moves| <= |r.moves| + 1 && r'.moves[..|r.moves|] == r.moves
  {
    if r.raised then r
    else match Step(base, mode, r.state, e)
      case Skipped => r
      case Raised => r.(raised := true)
      case Moved(st, m) => Run(st, r.moves + [m], false)
  }

  /** The loop over the listing, from a given starting run. */
  function ArrangeFrom(base: Path, mode: DateMode, r0: Run, entries: seq<Entry>): (r: Run)
    requires DuplicatesFolder(base) in r0.state.existing
    ensures DuplicatesFolder(base) in r.state.existing
    decreases |entries|
  {
    if entries == [] then r0
    else Advance(base, mode, ArrangeFrom(base, mode, r0, entries[..|entries| - 1]), entries[|entries| - 1])
  }

  /** `arrange_files_by_date(folder_path, log_text, use_filename)`, with the
      folders that already exist and the listing as inputs. */
  function ArrangeFilesByDate(base: Path, mode: DateMode, existing: set<Path>, entries: seq<Entry>): Run {
    ArrangeFrom(base, mode, Begin(base, existing), entries)
  }

  /** The summary lines are printed only when the loop finished. */
  function Summary(r: Run): Option<Counters> {
    if r.raised then None else Some(r.state.counters)
  }

  /** The same run, written as the source's loop. */
  method ArrangeLoop(base: Path, mode: DateMode, existing: set<Path>, entries: seq<Entry>) returns (r: Run)
    ensures r == ArrangeFilesByDate(base, mode, existing, entries)
  {
    var r0 := Begin(base, existing);
    r := r0;
    var i := 0;
    while i < |entries| && !r.raised
      invariant 0 <= i <= |entries|
      invariant DuplicatesFolder(base) in r.state.existing
      invariant r == ArrangeFrom(base, mode, r0, entries[..i])
    {
      ArrangeFromPrefix(base, mode, r0, entries, i);
      r := Advance(base, mode, r, entries[i]);
      i := i + 1;
    }
    StaysRaised(base, mode, r0, entries, i);
  }

  /** Extending the listing prefix by one entry advances the run by one step. */
  lemma ArrangeFromPrefix(base: Path, mode: DateMode, r0: Run, entries: seq<Entry>, i: nat)
    requires DuplicatesFolder(base) in r0.state.existing
    requires i < |entries|
    ensures ArrangeFrom(base, mode, r0, entries[..i + 1])
         == Advance(base, mode, ArrangeFrom(base, mode, r0, entries[..i]), entries[i])
  {
    var prefix := entries[..i + 1];
    assert prefix[..i] == entries[..i] && prefix[i] == entries[i];
  }

  /** Once raised, the rest of the listing changes nothing. */
  lemma {:induction false} StaysRaised(base: Path, mode: DateMode, r0: Run, entries: seq<Entry>, i: nat)
    requires DuplicatesFolder(base) in r0.state.existing
    requires i <= |entries|
    requires i < |entries| ==> ArrangeFrom(base, mode, r0, entries[..i]).raised
    ensures ArrangeFrom(base, mode, r0, entries) == ArrangeFrom(base, mode, r0, entries[..i])
    decreases |entries| - i
  {
    if i < |entries| {
      var j := i + 1;
      assert entries[..j][..i] == entries[..i];
      StaysRaised(base, mode, r0, entries, j);
    } else {
      assert entries[..i] == entries;
    }
  }
}
