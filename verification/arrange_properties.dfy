/** Properties of the placement engine, stated against reference definitions
    over the listing: which hashes a run records, which files are duplicates,
    what each counter ends at, which folder each file lands in, and when a
    run raises. */
module ArrangeProperties {
  import opened Wrappers
  import opened Dates
  import opened Classify
  import opened Folders
  import opened Arrange

  // ---------------------------------------------------------------- reference definitions

  /** A file whose perceptual hash is looked up and recorded: a dated image
      with a non-empty hash. Videos and dateless files are never hashed. */
  predicate Hashed(mode: DateMode, e: Entry) {
    e.isFile && FileDate(mode, e).Some? && IsImage(e.name) && Truthy(e.hash)
  }

  /** The hashes of the hashed files of a listing. */
  function HashesOf(mode: DateMode, entries: seq<Entry>): set<string>
    decreases |entries|
  {
    if entries == [] then {}
    else
      var e := entries[|entries| - 1];
      HashesOf(mode, entries[..|entries| - 1]) + (if Hashed(mode, e) then {e.hash.value} else {})
  }

  /** A hashed file whose hash is already in `seen`. */
  predicate DuplicateOf(mode: DateMode, seen: set<string>, e: Entry) {
    Hashed(mode, e) && e.hash.value in seen
  }

  /** A duplicate: a hashed file whose hash some earlier file already had. */
  predicate IsDuplicate(mode: DateMode, earlier: seq<Entry>, e: Entry) {
    DuplicateOf(mode, HashesOf(mode, earlier), e)
  }

  /** A dateless file of no known kind that is still there: it goes to the
      bare `Others` folder. */
  predicate UnsortedOther(mode: DateMode, e: Entry) {
    e.isFile && !Vanished(mode, e) && FileDate(mode, e).None? && KindOf(e.name) == Other
  }

  /** A dateless image or video that is still there: moving it creates
      `Others/Images` or `Others/Videos`, and with it `Others`. */
  predicate MakesOthers(mode: DateMode, e: Entry) {
    e.isFile && !Vanished(mode, e) && FileDate(mode, e).None? && KindOf(e.name) != Other
  }

  /** Some file of the listing creates `Others` as a side effect. */
  predicate OthersMade(mode: DateMode, entries: seq<Entry>) {
    exists i :: 0 <= i < |entries| && MakesOthers(mode, entries[i])
  }

  /** The folder a file should land in, given the hashes seen before it: dateless
      files by kind under `Others`; dated duplicates in `Duplicates`; other
      dated files under year, month name and number, then `Images` for
      images and `Videos` for everything else. */
  function PlannedFolder(base: Path, mode: DateMode, seen: set<string>, e: Entry): Path {
    match FileDate(mode, e)
    case None =>
      if IsImage(e.name) then base + ["Others", "Images"]
      else if IsVideo(e.name) then base + ["Others", "Videos"]
      else base + ["Others"]
    case Some(d) =>
      if DuplicateOf(mode, seen, e) then base + ["Duplicates"]
      else base + [YearFolderName(d), MonthFolderName(d), if IsImage(e.name) then "Images" else "Videos"]
  }

  function CountIf(b: bool): nat {
    if b then 1 else 0
  }

  /** Images moved: image files that are not duplicates, dated or not. */
  function ImageCount(mode: DateMode, entries: seq<Entry>): nat
    decreases |entries|
  {
    if entries == [] then 0
    else
      var earlier, e := entries[..|entries| - 1], entries[|entries| - 1];
      ImageCount(mode, earlier) + CountIf(e.isFile && IsImage(e.name) && !IsDuplicate(mode, earlier, e))
  }

  /** Videos moved: dateless videos, and every dated file that is not an image. */
  function VideoCount(mode: DateMode, entries: seq<Entry>): nat
    decreases |entries|
  {
    if entries == [] then 0
    else
      var earlier, e := entries[..|entries| - 1], entries[|entries| - 1];
      VideoCount(mode, earlier)
        + CountIf(e.isFile && !IsImage(e.name) && (FileDate(mode, e).Some? || IsVideo(e.name)))
  }

  function DuplicateCount(mode: DateMode, entries: seq<Entry>): nat
    decreases |entries|
  {
    if entries == [] then 0
    else
      var earlier, e := entries[..|entries| - 1], entries[|entries| - 1];
      DuplicateCount(mode, earlier) + CountIf(IsDuplicate(mode, earlier, e))
  }

  /** The date folders the files of a listing aim at, duplicates included. */
  function Targets(base: Path, mode: DateMode, entries: seq<Entry>): set<Path>
    decreases |entries|
  {
    if entries == [] then {}
    else
      var e := entries[|entries| - 1];
      Targets(base, mode, entries[..|entries| - 1])
        + (if e.isFile && FileDate(mode, e).Some? then {DateFolder(base, FileDate(mode, e).value, FileTypeOf(e.name))} else {})
  }

  /** The names of the regular files of a listing, in order. */
  function FileNames(entries: seq<Entry>): seq<string>
    decreases |entries|
  {
    if entries == [] then []
    else
      var e := entries[|entries| - 1];
      FileNames(entries[..|entries| - 1]) + (if e.isFile then [e.name] else [])
  }

  function MovedNames(moves: seq<Move>): (names: seq<string>)
    ensures |names| == |moves|
    ensures forall i :: 0 <= i < |moves| ==> names[i] == moves[i].name
  {
    seq(|moves|, i requires 0 <= i < |moves| => moves[i].name)
  }

  // ---------------------------------------------------------------- one step

  /** A moved file's hash joins the seen set exactly when it is hashed. */
  lemma StepSeen(base: Path, mode: DateMode, st: State, e: Entry)
    requires DuplicatesFolder(base) in st.existing
    requires Step(base, mode, st, e).Moved?
    ensures Step(base, mode, st, e).state.seen == st.seen + (if Hashed(mode, e) then {e.hash.value} else {})
  {
  }

  /** Where a moved file goes. */
  lemma StepFolder(base: Path, mode: DateMode, st: State, e: Entry)
    requires DuplicatesFolder(base) in st.existing
    requires Step(base, mode, st, e).Moved?
    ensures Step(base, mode, st, e).move == Move(e.name, PlannedFolder(base, mode, st.seen, e))
  {
    match FileDate(mode, e)
    case Some(d) =>
      StepIsDated(base, mode, st, e, d);
      DatedStepFolder(base, st, e, d);
    case None =>
      StepIsDateless(base, mode, st, e);
      DatelessStepFolder(base, st, e.name);
  }

  lemma StepIsDated(base: Path, mode: DateMode, st: State, e: Entry, d: CalendarDate)
    requires DuplicatesFolder(base) in st.existing
    requires e.isFile && FileDate(mode, e) == Some(d)
    ensures Step(base, mode, st, e) == DatedStep(base, st, e, d)
  {
  }

  lemma StepIsDateless(base: Path, mode: DateMode, st: State, e: Entry)
    requires DuplicatesFolder(base) in st.existing
    requires e.isFile && !Vanished(mode, e) && FileDate(mode, e) == None
    ensures Step(base, mode, st, e) == DatelessStep(base, st, e.name)
  {
  }

  lemma DatelessStepFolder(base: Path, st: State, name: string)
    requires DatelessStep(base, st, name).Moved?
    ensures DatelessStep(base, st, name).move.folder
         == if IsImage(name) then base + ["Others", "Images"]
            else if IsVideo(name) then base + ["Others", "Videos"]
            else base + ["Others"]
  {
    assert OthersImagesFolder(base) == base + ["Others", "Images"];
    assert OthersVideosFolder(base) == base + ["Others", "Videos"];
  }

  lemma DatedStepFolder(base: Path, st: State, e: Entry, d: CalendarDate)
    requires DuplicatesFolder(base) in st.existing
    ensures DatedStep(base, st, e, d).move.folder
         == if IsImage(e.name) && Truthy(e.hash) && e.hash.value in st.seen then base + ["Duplicates"]
            else base + [YearFolderName(d), MonthFolderName(d), if IsImage(e.name) then "Images" else "Videos"]
  {
  }

  /** How the counters of a moved file change. */
  lemma StepCounters(base: Path, mode: DateMode, st: State, e: Entry)
    requires DuplicatesFolder(base) in st.existing
    requires Step(base, mode, st, e).Moved?
    ensures var c, c' := st.counters, Step(base, mode, st, e).state.counters;
            && c'.images == c.images + CountIf(IsImage(e.name) && !DuplicateOf(mode, st.seen, e))
            && c'.videos == c.videos + CountIf(!IsImage(e.name) && (FileDate(mode, e).Some? || IsVideo(e.name)))
            && c'.duplicates == c.duplicates + CountIf(DuplicateOf(mode, st.seen, e))
            && c'.folders == c.folders
                 + CountIf(FileDate(mode, e).Some? && DateFolder(base, FileDate(mode, e).value, FileTypeOf(e.name)) !in st.existing)
  {
    match FileDate(mode, e)
    case Some(d) => StepIsDated(base, mode, st, e, d);
    case None => StepIsDateless(base, mode, st, e);
  }

  /** The folders a moved file causes to be created: ancestors of its date
      folder when it is dated, ancestors of an `Others` sub-folder otherwise. */
  lemma StepExisting(base: Path, mode: DateMode, st: State, e: Entry)
    requires DuplicatesFolder(base) in st.existing
    requires Step(base, mode, st, e).Moved?
    ensures forall q :: q in Step(base, mode, st, e).state.existing && q !in st.existing ==>
              if FileDate(mode, e).Some? then
                q == DateFolder(base, FileDate(mode, e).value, FileTypeOf(e.name))[..|q|]
              else
                |q| <= |base| + 2 && KindOf(e.name) != Other
                && q == (base + ["Others", if IsImage(e.name) then "Images" else "Videos"])[..|q|]
    ensures FileDate(mode, e).Some? ==> DateFolder(base, FileDate(mode, e).value, FileTypeOf(e.name)) in Step(base, mode, st, e).state.existing
    ensures FileDate(mode, e).None? && KindOf(e.name) != Other ==> OthersFolder(base) in Step(base, mode, st, e).state.existing
  {
    var r := Step(base, mode, st, e);
    if FileDate(mode, e).Some? {
      var d := FileDate(mode, e).value;
      StepIsDated(base, mode, st, e, d);
      DatedStepExisting(base, st, e, d);
    } else {
      StepIsDateless(base, mode, st, e);
      if KindOf(e.name) != Other {
        var sub := base + ["Others", if IsImage(e.name) then "Images" else "Videos"];
        assert sub == (if IsImage(e.name) then OthersImagesFolder(base) else OthersVideosFolder(base));
        assert r.state.existing == MakeDirs(st.existing, sub);
        assert sub[..|base| + 1] == OthersFolder(base);
      }
    }
  }

  /** A step raises exactly on a file that vanished before its creation time
      was read, or on a dateless file of no known kind while the `Others`
      folder is missing. */
  lemma StepRaises(base: Path, mode: DateMode, st: State, e: Entry)
    requires DuplicatesFolder(base) in st.existing
    ensures Step(base, mode, st, e).Raised?
            <==> (e.isFile && Vanished(mode, e)) || (UnsortedOther(mode, e) && OthersFolder(base) !in st.existing)
  {
    if e.isFile && !Vanished(mode, e) {
      match FileDate(mode, e)
      case Some(d) => StepIsDated(base, mode, st, e, d);
      case None => StepIsDateless(base, mode, st, e);
    }
  }

  /** Every moved file bumps exactly one of the image, video and duplicate
      counters, except a dateless file of no known kind, which bumps none. */
  lemma StepIncrementsOneCounter(base: Path, mode: DateMode, st: State, e: Entry)
    requires DuplicatesFolder(base) in st.existing
    requires Step(base, mode, st, e).Moved?
    ensures var c, c' := st.counters, Step(base, mode, st, e).state.counters;
            c'.images + c'.videos + c'.duplicates == c.images + c.videos + c.duplicates + CountIf(!UnsortedOther(mode, e))
  {
    StepCounters(base, mode, st, e);
    ImageAndVideoDisjoint(e.name);
  }

  /** A folder at date-folder depth exists after a step exactly when it
      existed before or is the moved file's date folder. */
  lemma StepDateDepth(base: Path, mode: DateMode, st: State, e: Entry, p: Path)
    requires DuplicatesFolder(base) in st.existing
    requires Step(base, mode, st, e).Moved?
    requires |p| == |base| + 3
    ensures p in Step(base, mode, st, e).state.existing
            <==> p in st.existing || (FileDate(mode, e).Some? && p == DateFolder(base, FileDate(mode, e).value, FileTypeOf(e.name)))
  {
    StepExisting(base, mode, st, e);
  }

  /** `Others` exists after a step exactly when it existed before or the step
      made `Others/Images` or `Others/Videos`. */
  lemma StepOthers(base: Path, mode: DateMode, st: State, e: Entry)
    requires DuplicatesFolder(base) in st.existing
    requires Step(base, mode, st, e).Moved?
    ensures OthersFolder(base) in Step(base, mode, st, e).state.existing
            <==> OthersFolder(base) in st.existing || MakesOthers(mode, e)
  {
    match FileDate(mode, e)
    case Some(d) =>
      StepIsDated(base, mode, st, e, d);
      DatedStepExisting(base, st, e, d);
      DateFolderAvoidsOthers(base, d, FileTypeOf(e.name));
    case None =>
      StepIsDateless(base, mode, st, e);
      assert OthersImagesFolder(base)[..|base| + 1] == OthersFolder(base);
      assert OthersVideosFolder(base)[..|base| + 1] == OthersFolder(base);
  }

  /** A date folder and its ancestors below the base never include `Others`. */
  lemma DateFolderAvoidsOthers(base: Path, d: CalendarDate, t: FileType)
    ensures OthersFolder(base) != DateFolder(base, d, t)[..|base| + 1]
  {
    var f := DateFolder(base, d, t);
    assert f[|base|] == YearFolderName(d);
    assert AllDigits(YearFolderName(d));
    assert !IsDigit("Others"[0]);
  }

  lemma DatedStepExisting(base: Path, st: State, e: Entry, d: CalendarDate)
    requires DuplicatesFolder(base) in st.existing
    ensures DatedStep(base, st, e, d).state.existing == MakeDirs(st.existing, DateFolder(base, d, FileTypeOf(e.name)))
  {
  }

  // ---------------------------------------------------------------- the run

  /** A run over a listing is the run over all but the last entry, advanced
      by the last entry; an unraised run had an unraised prefix. */
  lemma RunSnoc(base: Path, mode: DateMode, existing: set<Path>, entries: seq<Entry>)
    requires entries != []
    ensures ArrangeFilesByDate(base, mode, existing, entries)
         == Advance(base, mode, ArrangeFilesByDate(base, mode, existing, entries[..|entries| - 1]), entries[|entries| - 1])
    ensures !ArrangeFilesByDate(base, mode, existing, entries).raised
         ==> !ArrangeFilesByDate(base, mode, existing, entries[..|entries| - 1]).raised
  {
  }

  /** The state of an unraised run is the state its last step produced; a
      skipped entry leaves it as it was. */
  lemma LastState(base: Path, mode: DateMode, existing: set<Path>, entries: seq<Entry>)
    requires entries != []
    requires !ArrangeFilesByDate(base, mode, existing, entries).raised
    ensures var earlier, e := entries[..|entries| - 1], entries[|entries| - 1];
            var r := ArrangeFilesByDate(base, mode, existing, earlier);
            && !r.raised && DuplicatesFolder(base) in r.state.existing
            && (e.isFile ==> Step(base, mode, r.state, e).Moved?
                             && ArrangeFilesByDate(base, mode, existing, entries).state == Step(base, mode, r.state, e).state)
            && (!e.isFile ==> ArrangeFilesByDate(base, mode, existing, entries).state == r.state)
  {
    RunSnoc(base, mode, existing, entries);
  }

  /** Once a run has raised, it stays raised. */
  lemma PrefixNotRaised(base: Path, mode: DateMode, existing: set<Path>, entries: seq<Entry>)
    requires entries != []
    requires !ArrangeFilesByDate(base, mode, existing, entries).raised
    ensures !ArrangeFilesByDate(base, mode, existing, entries[..|entries| - 1]).raised
  {
    RunSnoc(base, mode, existing, entries);
  }

  /** The seen set of a run is exactly the hashes of its hashed files. */
  lemma {:induction false} SeenIsHashesOf(base: Path, mode: DateMode, existing: set<Path>, entries: seq<Entry>)
    requires !ArrangeFilesByDate(base, mode, existing, entries).raised
    ensures ArrangeFilesByDate(base, mode, existing, entries).state.seen == HashesOf(mode, entries)
    decreases |entries|
  {
    if entries != [] {
      var earlier, e := entries[..|entries| - 1], entries[|entries| - 1];
      RunSnoc(base, mode, existing, entries);
      SeenIsHashesOf(base, mode, existing, earlier);
      var r := ArrangeFilesByDate(base, mode, existing, earlier);
      if e.isFile {
        StepSeen(base, mode, r.state, e);
      }
    }
  }

  /** Every hashed file's hash is recorded. */
  lemma {:induction false} HashesOfComplete(mode: DateMode, entries: seq<Entry>, i: int)
    requires 0 <= i < |entries| && Hashed(mode, entries[i])
    ensures entries[i].hash.value in HashesOf(mode, entries)
    decreases |entries|
  {
    var earlier := entries[..|entries| - 1];
    if i < |earlier| {
      assert earlier[i] == entries[i];
      HashesOfComplete(mode, earlier, i);
    }
  }

  /** Every recorded hash comes from a hashed file. */
  lemma {:induction false} HashesOfSound(mode: DateMode, entries: seq<Entry>, h: string) returns (i: int)
    requires h in HashesOf(mode, entries)
    ensures 0 <= i < |entries| && Hashed(mode, entries[i]) && entries[i].hash.value == h
    decreases |entries|
  {
    var earlier, e := entries[..|entries| - 1], entries[|entries| - 1];
    if h in HashesOf(mode, earlier) {
      i := HashesOfSound(mode, earlier, h);
      assert entries[i] == earlier[i];
    } else {
      i := |entries| - 1;
    }
  }

  /** A hash is recorded exactly when some hashed file of the listing has it. */
  lemma HashesOfIff(mode: DateMode, entries: seq<Entry>, h: string)
    ensures h in HashesOf(mode, entries)
            <==> exists i :: 0 <= i < |entries| && Hashed(mode, entries[i]) && entries[i].hash.value == h
  {
    if h in HashesOf(mode, entries) {
      var i := HashesOfSound(mode, entries, h);
    }
    if exists i :: 0 <= i < |entries| && Hashed(mode, entries[i]) && entries[i].hash.value == h {
      var i :| 0 <= i < |entries| && Hashed(mode, entries[i]) && entries[i].hash.value == h;
      HashesOfComplete(mode, entries, i);
    }
  }

  /** The j-th entry is a duplicate exactly when it is a hashed file and an
      earlier hashed file has the same hash: among files with one hash only
      the first escapes `Duplicates`, and an unhashed file never is one. */
  lemma DuplicateIffEarlierSameHash(mode: DateMode, entries: seq<Entry>, j: int)
    requires 0 <= j < |entries|
    ensures IsDuplicate(mode, entries[..j], entries[j])
            <==> Hashed(mode, entries[j])
                 && exists i :: 0 <= i < j && Hashed(mode, entries[i]) && entries[i].hash.value == entries[j].hash.value
  {
    var earlier := entries[..j];
    if Hashed(mode, entries[j]) {
      HashesOfIff(mode, earlier, entries[j].hash.value);
      assert forall i :: 0 <= i < j ==> earlier[i] == entries[i];
    }
  }

  /** The run's last step, for a listing taken as a whole. */
  lemma LastStep(base: Path, mode: DateMode, existing: set<Path>, entries: seq<Entry>)
    requires entries != []
    requires !ArrangeFilesByDate(base, mode, existing, entries).raised
    ensures var earlier, e := entries[..|entries| - 1], entries[|entries| - 1];
            ArrangeFilesByDate(base, mode, existing, entries).moves
            == ArrangeFilesByDate(base, mode, existing, earlier).moves
               + (if e.isFile then [Move(e.name, PlannedFolder(base, mode, HashesOf(mode, earlier), e))] else [])
  {
    var earlier, e := entries[..|entries| - 1], entries[|entries| - 1];
    RunSnoc(base, mode, existing, entries);
    SeenIsHashesOf(base, mode, existing, earlier);
    var r := ArrangeFilesByDate(base, mode, existing, earlier);
    if e.isFile {
      StepFolder(base, mode, r.state, e);
    }
  }

  /** Where the last file of a listing goes: the move list grows by that
      file, under its own name, into its planned folder. */
  lemma LastFileRouting(base: Path, mode: DateMode, existing: set<Path>, earlier: seq<Entry>, e: Entry)
    requires e.isFile
    requires !ArrangeFilesByDate(base, mode, existing, earlier + [e]).raised
    ensures ArrangeFilesByDate(base, mode, existing, earlier + [e]).moves
         == ArrangeFilesByDate(base, mode, existing, earlier).moves + [Move(e.name, PlannedFolder(base, mode, HashesOf(mode, earlier), e))]
  {
    var entries := earlier + [e];
    assert entries[..|entries| - 1] == earlier && entries[|entries| - 1] == e;
    LastStep(base, mode, existing, entries);
  }

  /** Directory entries that are not regular files are skipped without a
      trace: no move, no state change. */
  lemma NonFileIgnored(base: Path, mode: DateMode, existing: set<Path>, earlier: seq<Entry>, e: Entry)
    requires !e.isFile
    ensures ArrangeFilesByDate(base, mode, existing, earlier + [e]) == ArrangeFilesByDate(base, mode, existing, earlier)
  {
    var entries := earlier + [e];
    assert entries[..|entries| - 1] == earlier && entries[|entries| - 1] == e;
    RunSnoc(base, mode, existing, entries);
  }

  lemma MovedNamesSnoc(moves: seq<Move>, m: Move)
    ensures MovedNames(moves + [m]) == MovedNames(moves) + [m.name]
  {
  }

  /** The names moved by a run grow by the last entry's name when it is a file. */
  lemma MovedNamesStep(base: Path, mode: DateMode, existing: set<Path>, entries: seq<Entry>)
    requires entries != []
    requires !ArrangeFilesByDate(base, mode, existing, entries).raised
    ensures var e := entries[|entries| - 1];
            MovedNames(ArrangeFilesByDate(base, mode, existing, entries).moves)
            == MovedNames(ArrangeFilesByDate(base, mode, existing, entries[..|entries| - 1]).moves) + (if e.isFile then [e.name] else [])
  {
    var earlier, e := entries[..|entries| - 1], entries[|entries| - 1];
    LastStep(base, mode, existing, entries);
    if e.isFile {
      MovedNamesSnoc(ArrangeFilesByDate(base, mode, existing, earlier).moves, Move(e.name, PlannedFolder(base, mode, HashesOf(mode, earlier), e)));
    }
  }

  /** Each regular file of the listing is moved once, in listing order,
      under its own name. */
  lemma {:induction false} MovesFollowListing(base: Path, mode: DateMode, existing: set<Path>, entries: seq<Entry>)
    requires !ArrangeFilesByDate(base, mode, existing, entries).raised
    ensures MovedNames(ArrangeFilesByDate(base, mode, existing, entries).moves) == FileNames(entries)
    decreases |entries|
  {
    if entries != [] {
      PrefixNotRaised(base, mode, existing, entries);
      MovesFollowListing(base, mode, existing, entries[..|entries| - 1]);
      MovedNamesStep(base, mode, existing, entries);
    }
  }

  /** The moves of a run over a prefix of the listing begin the moves of the
      run over the whole listing. */
  lemma {:induction false} MovesOfPrefix(base: Path, mode: DateMode, existing: set<Path>, entries: seq<Entry>, k: int)
    requires 0 <= k <= |entries|
    ensures var p := ArrangeFilesByDate(base, mode, existing, entries[..k]).moves;
            var m := ArrangeFilesByDate(base, mode, existing, entries).moves;
            |p| <= |m| && m[..|p|] == p
    decreases |entries|
  {
    if k < |entries| {
      var earlier := entries[..|entries| - 1];
      assert earlier[..k] == entries[..k];
      MovesOfPrefix(base, mode, existing, earlier, k);
      RunSnoc(base, mode, existing, entries);
    } else {
      assert entries[..k] == entries;
    }
  }

  /** A run that did not raise did not raise on any prefix either. */
  lemma PrefixRunNotRaised(base: Path, mode: DateMode, existing: set<Path>, entries: seq<Entry>, k: int)
    requires 0 <= k <= |entries|
    requires !ArrangeFilesByDate(base, mode, existing, entries).raised
    ensures !ArrangeFilesByDate(base, mode, existing, entries[..k]).raised
  {
    if k == |entries| {
      assert entries[..k] == entries;
    } else if ArrangeFilesByDate(base, mode, existing, entries[..k]).raised {
      StaysRaised(base, mode, Begin(base, existing), entries, k);
    }
  }

  /** Where any regular file of a finished run goes: its move comes right
      after the moves of the files before it, keeps its name, and lands in
      the folder planned from the hashes of the files before it. */
  lemma FileRouting(base: Path, mode: DateMode, existing: set<Path>, entries: seq<Entry>, j: int)
    requires 0 <= j < |entries| && entries[j].isFile
    requires !ArrangeFilesByDate(base, mode, existing, entries).raised
    ensures var n := |ArrangeFilesByDate(base, mode, existing, entries[..j]).moves|;
            var m := ArrangeFilesByDate(base, mode, existing, entries).moves;
            n < |m| && m[n] == Move(entries[j].name, PlannedFolder(base, mode, HashesOf(mode, entries[..j]), entries[j]))
  {
    PrefixRunNotRaised(base, mode, existing, entries, j + 1);
    PrefixLastMove(base, mode, existing, entries, j);
    MovesOfPrefix(base, mode, existing, entries, j + 1);
    var p := ArrangeFilesByDate(base, mode, existing, entries[..j + 1]).moves;
    var m := ArrangeFilesByDate(base, mode, existing, entries).moves;
    var n := |ArrangeFilesByDate(base, mode, existing, entries[..j]).moves|;
    assert m[n] == m[..|p|][n];
  }

  /** The run over the first `j + 1` entries ends with the move of entry `j`. */
  lemma PrefixLastMove(base: Path, mode: DateMode, existing: set<Path>, entries: seq<Entry>, j: int)
    requires 0 <= j < |entries| && entries[j].isFile
    requires !ArrangeFilesByDate(base, mode, existing, entries[..j + 1]).raised
    ensures var n := |ArrangeFilesByDate(base, mode, existing, entries[..j]).moves|;
            var p := ArrangeFilesByDate(base, mode, existing, entries[..j + 1]).moves;
            |p| == n + 1 && p[n] == Move(entries[j].name, PlannedFolder(base, mode, HashesOf(mode, entries[..j]), entries[j]))
  {
    var q := entries[..j + 1];
    assert q[..|q| - 1] == entries[..j] && q[|q| - 1] == entries[j];
    LastStep(base, mode, existing, q);
  }

  /** Only a duplicate is planned for `Duplicates`. */
  lemma PlannedDuplicatesIff(base: Path, mode: DateMode, seen: set<string>, e: Entry)
    ensures PlannedFolder(base, mode, seen, e) == base + ["Duplicates"]
            <==> FileDate(mode, e).Some? && DuplicateOf(mode, seen, e)
  {
    var f := PlannedFolder(base, mode, seen, e);
    if f == base + ["Duplicates"] {
      assert f[|base|] == "Duplicates";
    }
  }

  /** Over a whole finished run, the j-th entry, a regular file, is moved to
      `Duplicates` exactly when it is a hashed file and an earlier hashed
      file has the same hash. */
  lemma DuplicateRouting(base: Path, mode: DateMode, existing: set<Path>, entries: seq<Entry>, j: int)
    requires 0 <= j < |entries| && entries[j].isFile
    requires !ArrangeFilesByDate(base, mode, existing, entries).raised
    ensures var n := |ArrangeFilesByDate(base, mode, existing, entries[..j]).moves|;
            var m := ArrangeFilesByDate(base, mode, existing, entries).moves;
            n < |m|
            && (m[n].folder == base + ["Duplicates"]
                <==> Hashed(mode, entries[j])
                     && exists i :: 0 <= i < j && Hashed(mode, entries[i]) && entries[i].hash.value == entries[j].hash.value)
  {
    FileRouting(base, mode, existing, entries, j);
    PlannedDuplicatesIff(base, mode, HashesOf(mode, entries[..j]), entries[j]);
    DuplicateIffEarlierSameHash(mode, entries, j);
  }
}
