/** Invariants of a whole run: the counters against the reference counts,
    the date folders that exist afterwards, the `Others` folder, and
    exactly when a run ends in an exception. */
module ArrangeRuns {
  import opened Dates
  import opened Classify
  import opened Folders
  import opened Arrange
  import opened ArrangeProperties

  /** The dateless files of no known kind in a listing. */
  function UnsortedCount(mode: DateMode, entries: seq<Entry>): nat
    decreases |entries|
  {
    if entries == [] then 0
    else UnsortedCount(mode, entries[..|entries| - 1]) + CountIf(UnsortedOther(mode, entries[|entries| - 1]))
  }

  /** The image, video and duplicate counters of a finished run are the
      reference counts of its listing. */
  lemma CountersMatchReference(base: Path, mode: DateMode, existing: set<Path>, entries: seq<Entry>)
    requires !ArrangeFilesByDate(base, mode, existing, entries).raised
    ensures var c := ArrangeFilesByDate(base, mode, existing, entries).state.counters;
            && c.images == ImageCount(mode, entries)
            && c.videos == VideoCount(mode, entries)
            && c.duplicates == DuplicateCount(mode, entries)
  {
    ImagesMatchReference(base, mode, existing, entries);
    VideosMatchReference(base, mode, existing, entries);
    DuplicatesMatchReference(base, mode, existing, entries);
  }

  lemma {:induction false} ImagesMatchReference(base: Path, mode: DateMode, existing: set<Path>, entries: seq<Entry>)
    requires !ArrangeFilesByDate(base, mode, existing, entries).raised
    ensures ArrangeFilesByDate(base, mode, existing, entries).state.counters.images == ImageCount(mode, entries)
    decreases |entries|
  {
    if entries != [] {
      var earlier := entries[..|entries| - 1];
      CountersSnoc(base, mode, existing, entries);
      ImagesMatchReference(base, mode, existing, earlier);
    }
  }

  lemma {:induction false} VideosMatchReference(base: Path, mode: DateMode, existing: set<Path>, entries: seq<Entry>)
    requires !ArrangeFilesByDate(base, mode, existing, entries).raised
    ensures ArrangeFilesByDate(base, mode, existing, entries).state.counters.videos == VideoCount(mode, entries)
    decreases |entries|
  {
    if entries != [] {
      var earlier := entries[..|entries| - 1];
      CountersSnoc(base, mode, existing, entries);
      VideosMatchReference(base, mode, existing, earlier);
    }
  }

  lemma {:induction false} DuplicatesMatchReference(base: Path, mode: DateMode, existing: set<Path>, entries: seq<Entry>)
    requires !ArrangeFilesByDate(base, mode, existing, entries).raised
    ensures ArrangeFilesByDate(base, mode, existing, entries).state.counters.duplicates == DuplicateCount(mode, entries)
    decreases |entries|
  {
    if entries != [] {
      var earlier := entries[..|entries| - 1];
      CountersSnoc(base, mode, existing, entries);
      DuplicatesMatchReference(base, mode, existing, earlier);
    }
  }

  /** How the counters of an unraised run change with its last entry. */
  lemma CountersSnoc(base: Path, mode: DateMode, existing: set<Path>, entries: seq<Entry>)
    requires entries != []
    requires !ArrangeFilesByDate(base, mode, existing, entries).raised
    ensures var earlier, e := entries[..|entries| - 1], entries[|entries| - 1];
            var c, c' := ArrangeFilesByDate(base, mode, existing, earlier).state.counters,
                         ArrangeFilesByDate(base, mode, existing, entries).state.counters;
            && !ArrangeFilesByDate(base, mode, existing, earlier).raised
            && c'.images == c.images + CountIf(e.isFile && IsImage(e.name) && !IsDuplicate(mode, earlier, e))
            && c'.videos == c.videos + CountIf(e.isFile && !IsImage(e.name) && (FileDate(mode, e).Some? || IsVideo(e.name)))
            && c'.duplicates == c.duplicates + CountIf(IsDuplicate(mode, earlier, e))
  {
    var earlier, e := entries[..|entries| - 1], entries[|entries| - 1];
    LastState(base, mode, existing, entries);
    if e.isFile {
      SeenIsHashesOf(base, mode, existing, earlier);
      StepCountsReference(base, mode, ArrangeFilesByDate(base, mode, existing, earlier).state, earlier, e);
    }
  }

  /** One step's counters, against the reference counts' increments. */
  lemma StepCountsReference(base: Path, mode: DateMode, st: State, earlier: seq<Entry>, e: Entry)
    requires DuplicatesFolder(base) in st.existing
    requires Step(base, mode, st, e).Moved?
    requires st.seen == HashesOf(mode, earlier)
    ensures var c, c' := st.counters, Step(base, mode, st, e).state.counters;
            && c'.images == c.images + CountIf(e.isFile && IsImage(e.name) && !IsDuplicate(mode, earlier, e))
            && c'.videos == c.videos + CountIf(e.isFile && !IsImage(e.name) && (FileDate(mode, e).Some? || IsVideo(e.name)))
            && c'.duplicates == c.duplicates + CountIf(IsDuplicate(mode, earlier, e))
  {
    StepCounters(base, mode, st, e);
  }

  /** Every regular file is accounted for exactly once: as an image, a video
      or a duplicate, or as a dateless file of no known kind. */
  lemma {:induction false} EveryFileCountedOnce(base: Path, mode: DateMode, existing: set<Path>, entries: seq<Entry>)
    requires !ArrangeFilesByDate(base, mode, existing, entries).raised
    ensures var c := ArrangeFilesByDate(base, mode, existing, entries).state.counters;
            c.images + c.videos + c.duplicates + UnsortedCount(mode, entries) == |FileNames(entries)|
    decreases |entries|
  {
    if entries != [] {
      var earlier, e := entries[..|entries| - 1], entries[|entries| - 1];
      LastState(base, mode, existing, entries);
      EveryFileCountedOnce(base, mode, existing, earlier);
      if e.isFile {
        StepIncrementsOneCounter(base, mode, ArrangeFilesByDate(base, mode, existing, earlier).state, e);
      }
    }
  }

  /** A folder at date-folder depth exists after a run exactly when it
      existed before or is the date folder of some dated file. */
  lemma {:induction false} DateDepthExisting(base: Path, mode: DateMode, existing: set<Path>, entries: seq<Entry>, p: Path)
    requires !ArrangeFilesByDate(base, mode, existing, entries).raised
    requires |p| == |base| + 3
    ensures p in ArrangeFilesByDate(base, mode, existing, entries).state.existing <==> p in existing || p in Targets(base, mode, entries)
    decreases |entries|
  {
    if entries == [] {
      assert ArrangeFilesByDate(base, mode, existing, entries).state.existing == MakeDirs(existing, DuplicatesFolder(base));
    } else {
      var earlier, e := entries[..|entries| - 1], entries[|entries| - 1];
      LastState(base, mode, existing, entries);
      DateDepthExisting(base, mode, existing, earlier, p);
      if e.isFile {
        StepDateDepth(base, mode, ArrangeFilesByDate(base, mode, existing, earlier).state, e, p);
      }
    }
  }

  /** `folder_count` is the number of distinct date folders the run aimed at
      that did not exist beforehand, duplicates' folders included. */
  lemma {:induction false} FolderCount(base: Path, mode: DateMode, existing: set<Path>, entries: seq<Entry>)
    requires !ArrangeFilesByDate(base, mode, existing, entries).raised
    ensures ArrangeFilesByDate(base, mode, existing, entries).state.counters.folders == |Targets(base, mode, entries) - existing|
    decreases |entries|
  {
    if entries != [] {
      var earlier, e := entries[..|entries| - 1], entries[|entries| - 1];
      LastState(base, mode, existing, entries);
      FolderCount(base, mode, existing, earlier);
      if e.isFile {
        StepCounters(base, mode, ArrangeFilesByDate(base, mode, existing, earlier).state, e);
        if FileDate(mode, e).Some? {
          var t := DateFolder(base, FileDate(mode, e).value, FileTypeOf(e.name));
          DateDepthExisting(base, mode, existing, earlier, t);
          AddOneMinus(Targets(base, mode, earlier), existing, t);
        }
      }
    }
  }

  /** Adding one element to a set adds one to its part outside `b` exactly
      when the element is new and outside `b`. */
  lemma AddOneMinus<T>(a: set<T>, b: set<T>, t: T)
    ensures |(a + {t}) - b| == |a - b| + CountIf(t !in b && t !in a)
  {
    if t in b || t in a {
      assert (a + {t}) - b == a - b;
    } else {
      assert (a + {t}) - b == (a - b) + {t};
    }
  }

  /** Each distinct date folder is counted at most once. */
  lemma FolderCountBound(base: Path, mode: DateMode, existing: set<Path>, entries: seq<Entry>)
    requires !ArrangeFilesByDate(base, mode, existing, entries).raised
    ensures ArrangeFilesByDate(base, mode, existing, entries).state.counters.folders <= |Targets(base, mode, entries)|
  {
    FolderCount(base, mode, existing, entries);
    SubsetCardinality(Targets(base, mode, entries) - existing, Targets(base, mode, entries));
  }

  lemma {:induction false} SubsetCardinality<T>(a: set<T>, b: set<T>)
    requires a <= b
    ensures |a| <= |b|
    decreases |b|
  {
    if a != {} {
      var x :| x in a;
      SubsetCardinality(a - {x}, b - {x});
    }
  }

  /** Making `Others/Images` or `Others/Videos` is the only way `Others` comes
      to exist: the run never creates it on its own. */
  lemma {:induction false} OthersExisting(base: Path, mode: DateMode, existing: set<Path>, entries: seq<Entry>)
    requires !ArrangeFilesByDate(base, mode, existing, entries).raised
    ensures OthersFolder(base) in ArrangeFilesByDate(base, mode, existing, entries).state.existing
            <==> OthersFolder(base) in existing || OthersMade(mode, entries)
    decreases |entries|
  {
    var others := OthersFolder(base);
    if entries == [] {
      assert ArrangeFilesByDate(base, mode, existing, entries).state.existing == MakeDirs(existing, DuplicatesFolder(base));
      assert others != DuplicatesFolder(base) by {
        assert others[|base|] != DuplicatesFolder(base)[|base|];
      }
    } else {
      var earlier, e := entries[..|entries| - 1], entries[|entries| - 1];
      LastState(base, mode, existing, entries);
      OthersExisting(base, mode, existing, earlier);
      OthersMadeSnoc(mode, entries);
      if e.isFile {
        StepOthers(base, mode, ArrangeFilesByDate(base, mode, existing, earlier).state, e);
      }
    }
  }

  lemma OthersMadeSnoc(mode: DateMode, entries: seq<Entry>)
    requires entries != []
    ensures var earlier, e := entries[..|entries| - 1], entries[|entries| - 1];
            OthersMade(mode, entries)
            <==> OthersMade(mode, earlier) || MakesOthers(mode, e)
  {
    var earlier := entries[..|entries| - 1];
    if OthersMade(mode, entries) {
      var i :| 0 <= i < |entries| && MakesOthers(mode, entries[i]);
      if i < |earlier| {
        assert earlier[i] == entries[i];
      }
    }
    if OthersMade(mode, earlier) {
      var i :| 0 <= i < |earlier| && MakesOthers(mode, earlier[i]);
      assert entries[i] == earlier[i];
    }
  }

  /** Whether `e`, coming after `earlier`, raises if the run gets to it: a
      file that vanished, or a dateless file of no known kind with `Others`
      absent at the start and not made by any earlier file. */
  predicate RaisesOn(base: Path, mode: DateMode, existing: set<Path>, earlier: seq<Entry>, e: Entry) {
    (e.isFile && Vanished(mode, e))
    || (UnsortedOther(mode, e) && OthersFolder(base) !in existing && !OthersMade(mode, earlier))
  }

  /** The entry at `j` is where a run raises if it gets there. */
  predicate RaisesAt(base: Path, mode: DateMode, existing: set<Path>, entries: seq<Entry>, j: int)
    requires 0 <= j < |entries|
  {
    RaisesOn(base, mode, existing, entries[..j], entries[j])
  }

  /** Some entry of the listing is one where the run raises. */
  predicate RaisesSomewhere(base: Path, mode: DateMode, existing: set<Path>, entries: seq<Entry>) {
    exists j :: 0 <= j < |entries| && RaisesAt(base, mode, existing, entries, j)
  }

  /** Extending a listing by one entry adds at most that entry as a place to raise. */
  lemma RaisesSomewhereSnoc(base: Path, mode: DateMode, existing: set<Path>, entries: seq<Entry>)
    requires entries != []
    ensures var earlier, e := entries[..|entries| - 1], entries[|entries| - 1];
            RaisesSomewhere(base, mode, existing, entries)
            <==> RaisesSomewhere(base, mode, existing, earlier)
                 || RaisesOn(base, mode, existing, earlier, e)
  {
    var earlier, last := entries[..|entries| - 1], |entries| - 1;
    assert entries[..last] == earlier;
    if RaisesSomewhere(base, mode, existing, entries) {
      var j :| 0 <= j < |entries| && RaisesAt(base, mode, existing, entries, j);
      if j < last {
        assert entries[..j] == earlier[..j] && entries[j] == earlier[j];
        assert RaisesAt(base, mode, existing, earlier, j);
      }
    }
    if RaisesSomewhere(base, mode, existing, earlier) {
      var j :| 0 <= j < |earlier| && RaisesAt(base, mode, existing, earlier, j);
      assert entries[..j] == earlier[..j] && entries[j] == earlier[j];
      assert RaisesAt(base, mode, existing, entries, j);
    }
    if RaisesOn(base, mode, existing, earlier, entries[last]) {
      assert RaisesAt(base, mode, existing, entries, last);
    }
  }

  /** Whether a run raised, one entry at a time. */
  lemma RaisedSnoc(base: Path, mode: DateMode, existing: set<Path>, entries: seq<Entry>)
    requires entries != []
    ensures var earlier, e := entries[..|entries| - 1], entries[|entries| - 1];
            var r := ArrangeFilesByDate(base, mode, existing, earlier);
            ArrangeFilesByDate(base, mode, existing, entries).raised <==> r.raised || Step(base, mode, r.state, e).Raised?
  {
    RunSnoc(base, mode, existing, entries);
  }

  /** A run ends in an exception exactly when some file vanished before its
      creation time was read, or some entry is a dateless file of no known
      kind while `Others` does not exist. */
  lemma {:induction false} RaisesIff(base: Path, mode: DateMode, existing: set<Path>, entries: seq<Entry>)
    ensures ArrangeFilesByDate(base, mode, existing, entries).raised <==> RaisesSomewhere(base, mode, existing, entries)
    decreases |entries|
  {
    if entries != [] {
      var earlier, e := entries[..|entries| - 1], entries[|entries| - 1];
      RaisesIff(base, mode, existing, earlier);
      RaisedSnoc(base, mode, existing, entries);
      RaisesSomewhereSnoc(base, mode, existing, entries);
      var r := ArrangeFilesByDate(base, mode, existing, earlier);
      StepRaises(base, mode, r.state, e);
      if !r.raised {
        OthersExisting(base, mode, existing, earlier);
      }
    }
  }
}
