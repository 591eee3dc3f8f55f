/** Worked runs: a folder holding only sub-folders, and a folder with two
    identical dated photos and one undated photo. */
module Scenarios {
  import opened Wrappers
  import opened Dates
  import opened Classify
  import opened Folders
  import opened Arrange
  import opened ArrangeProperties

  /** A folder with no regular files in it, such as one already arranged:
      the run ends normally, moves nothing and reports zero everywhere. */
  lemma {:induction false} DirectoriesOnly(base: Path, mode: DateMode, existing: set<Path>, entries: seq<Entry>)
    requires forall i :: 0 <= i < |entries| ==> !entries[i].isFile
    ensures var r := ArrangeFilesByDate(base, mode, existing, entries);
            && Summary(r) == Some(Counters(0, 0, 0, 0))
            && r.moves == [] && r.state.seen == {}
    decreases |entries|
  {
    if entries != [] {
      var earlier := entries[..|entries| - 1];
      assert forall i :: 0 <= i < |earlier| ==> earlier[i] == entries[i];
      DirectoriesOnly(base, mode, existing, earlier);
      RunSnoc(base, mode, existing, entries);
    }
  }

  const Photo1: Entry := Entry("2023-05-01-photo.jpg", true, None, Some("e1c3"))
  const Photo2: Entry := Entry("2023-05-02-photo.jpg", true, None, Some("e1c3"))
  const Random: Entry := Entry("random.jpg", true, None, Some("7b20"))

  /** Two pixel-identical dated photos and an undated one, by filename date:
      the first photo lands in `2023/May-05/Images`, the second in
      `Duplicates`, the undated one in `Others/Images`; two images, no video,
      one folder made and one duplicate are reported. */
  lemma PhotoScenario(base: Path)
    ensures var r := ArrangeFilesByDate(base, FilenameDate, {}, [Photo1, Photo2, Random]);
            && Summary(r) == Some(Counters(2, 0, 1, 1))
            && r.moves == [Move(Photo1.name, base + ["2023", "May-05", "Images"]),
                           Move(Photo2.name, base + ["Duplicates"]),
                           Move(Random.name, base + ["Others", "Images"])]
  {
    var d1, d2 := Date(2023, 5, 1), Date(2023, 5, 2);
    PhotoDates();
    RandomUndated();
    ScenarioImages();
    May2023Names();
    SameMonthCopies(base, Photo1, Photo2, Random, d1, d2);
  }

  /** The same run for any two same-hash photos dated in one month followed
      by an undated image. */
  lemma SameMonthCopies(base: Path, a: Entry, b: Entry, c: Entry, d1: CalendarDate, d2: CalendarDate)
    requires a.isFile && b.isFile && c.isFile
    requires ParseFilenameDate(a.name) == Some(d1) && ParseFilenameDate(b.name) == Some(d2)
    requires ParseFilenameDate(c.name) == None
    requires d1.year == d2.year && d1.month == d2.month
    requires IsImage(a.name) && IsImage(b.name) && IsImage(c.name)
    requires Truthy(a.hash) && b.hash == a.hash
    ensures var r := ArrangeFilesByDate(base, FilenameDate, {}, [a, b, c]);
            && Summary(r) == Some(Counters(2, 0, 1, 1))
            && r.moves == [Move(a.name, DateFolder(base, d1, Images)),
                           Move(b.name, base + ["Duplicates"]),
                           Move(c.name, base + ["Others", "Images"])]
  {
    var folder := DateFolder(base, d1, Images);
    DateFolderIgnoresDay(base, d1, d2, Images);
    var m1, m2, m3 := Move(a.name, folder), Move(b.name, base + ["Duplicates"]), Move(c.name, base + ["Others", "Images"]);
    var r0 := Begin(base, {});
    assert folder !in r0.state.existing;
    var r1 := FirstCopyAdvance(base, r0, a, d1);
    var r2 := SecondCopyAdvance(base, r1, b, d2, a.hash.value);
    var r3 := UndatedImageAdvance(base, r2, c);
    ThreeMoves(m1, m2, m3);
    ThreeEntries(base, FilenameDate, {}, a, b, c);
  }

  /** Three one-move appends make the three-move list. Kept apart from
      `SameMonthCopies`, whose context is large. */
  lemma ThreeMoves(m1: Move, m2: Move, m3: Move)
    ensures [m1] + [m2] + [m3] == [m1, m2, m3]
  {
  }

  /** The first photo of a month, hash unseen, makes its date folder. */
  lemma FirstCopyAdvance(base: Path, r: Run, a: Entry, d: CalendarDate) returns (r': Run)
    requires DuplicatesFolder(base) in r.state.existing && !r.raised
    requires a.isFile && ParseFilenameDate(a.name) == Some(d) && IsImage(a.name) && Truthy(a.hash)
    requires r.state.seen == {} && r.state.counters == Counters(0, 0, 0, 0) && r.moves == []
    requires DateFolder(base, d, Images) !in r.state.existing
    ensures r' == Advance(base, FilenameDate, r, a) && !r'.raised
    ensures r'.moves == [Move(a.name, DateFolder(base, d, Images))]
    ensures r'.state.counters == Counters(1, 0, 1, 0) && r'.state.seen == {a.hash.value}
    ensures DateFolder(base, d, Images) in r'.state.existing && DuplicatesFolder(base) in r'.state.existing
  {
    StepIsDated(base, FilenameDate, r.state, a, d);
    r' := Advance(base, FilenameDate, r, a);
  }

  /** A second photo with a seen hash goes to `Duplicates`; its date folder
      already exists, so no folder is counted. */
  lemma SecondCopyAdvance(base: Path, r: Run, b: Entry, d: CalendarDate, h: string) returns (r': Run)
    requires DuplicatesFolder(base) in r.state.existing && !r.raised
    requires b.isFile && ParseFilenameDate(b.name) == Some(d) && IsImage(b.name) && b.hash == Some(h) && h != ""
    requires h in r.state.seen && r.state.counters == Counters(1, 0, 1, 0) && DateFolder(base, d, Images) in r.state.existing
    ensures r' == Advance(base, FilenameDate, r, b) && !r'.raised
    ensures r'.moves == r.moves + [Move(b.name, base + ["Duplicates"])]
    ensures r'.state.counters == Counters(1, 0, 1, 1) && DuplicatesFolder(base) in r'.state.existing
  {
    StepIsDated(base, FilenameDate, r.state, b, d);
    r' := Advance(base, FilenameDate, r, b);
  }

  /** An undated image goes to `Others/Images` and counts as an image. */
  lemma UndatedImageAdvance(base: Path, r: Run, c: Entry) returns (r': Run)
    requires DuplicatesFolder(base) in r.state.existing && !r.raised
    requires c.isFile && ParseFilenameDate(c.name) == None && IsImage(c.name)
    requires r.state.counters == Counters(1, 0, 1, 1)
    ensures r' == Advance(base, FilenameDate, r, c) && !r'.raised
    ensures r'.moves == r.moves + [Move(c.name, base + ["Others", "Images"])]
    ensures r'.state.counters == Counters(2, 0, 1, 1)
  {
    StepIsDateless(base, FilenameDate, r.state, c);
    assert OthersImagesFolder(base) == base + ["Others", "Images"];
    r' := Advance(base, FilenameDate, r, c);
  }

  /** The photos' names start with their dates. */
  lemma PhotoDates()
    ensures ParseFilenameDate(Photo1.name) == Some(Date(2023, 5, 1))
    ensures ParseFilenameDate(Photo2.name) == Some(Date(2023, 5, 2))
  {
    Photo1Date();
    Photo2Date();
  }

  /** Each photo gets its own lemma: with both name literals in one proof
      context the solver's cost varies widely from seed to seed. */
  lemma Photo1Date()
    ensures ParseFilenameDate(Photo1.name) == Some(Date(2023, 5, 1))
  {
    PhotoDate(Date(2023, 5, 1), Photo1.name);
  }

  lemma Photo2Date()
    ensures ParseFilenameDate(Photo2.name) == Some(Date(2023, 5, 2))
  {
    PhotoDate(Date(2023, 5, 2), Photo2.name);
  }

  lemma PhotoDate(d: CalendarDate, name: string)
    requires d.year == 2023 && d.month == 5 && 1 <= d.day <= 9
    requires name == "2023-05-0" + [DigitChar(d.day)] + "-photo.jpg"
    ensures ParseFilenameDate(name) == Some(d)
  {
    May2023Pads();
    PadOneDigit(d.day);
    ParseFormatted(d, "-photo.jpg");
    assert FormatDate(d) + "-photo.jpg" == name;
  }

  /** The zero-padded year and month of May 2023. */
  lemma May2023Pads()
    ensures Pad(2023, 4) == "2023" && Pad(5, 2) == "05"
  {
    assert Pad(2, 2) == "02";
  }

  lemma PadOneDigit(n: nat)
    requires n < 10
    ensures Pad(n, 2) == "0" + [DigitChar(n)]
  {
    assert n / 10 == 0 && n % 10 == n;
    assert Pad(0, 1) == "0" by {
      assert Pad(0, 1) == Pad(0, 0) + [DigitChar(0)];
    }
  }

  /** The undated photo's name has no date in front. */
  lemma RandomUndated()
    ensures ParseFilenameDate(Random.name) == None
  {
    assert !IsDigit(Random.name[0]);
  }

  /** All three names carry the `.jpg` extension. */
  lemma ScenarioImages()
    ensures IsImage(Photo1.name) && IsImage(Photo2.name) && IsImage(Random.name)
  {
    JpgIsImage("2023-05-01-photo");
    assert "2023-05-01-photo" + ".jpg" == Photo1.name;
    JpgIsImage("2023-05-02-photo");
    assert "2023-05-02-photo" + ".jpg" == Photo2.name;
    JpgIsImage("random");
    assert "random" + ".jpg" == Random.name;
  }

  lemma JpgIsImage(stem: string)
    ensures IsImage(stem + ".jpg")
  {
    var name := stem + ".jpg";
    LowerSuffix(name, |stem|);
    assert name[|stem|..] == ".jpg";
    assert Lower(".jpg") == ".jpg";
    assert EndsWith(Lower(name), ImageExtensions[1]);
  }

  /** The date folder segments of May 2023. */
  lemma May2023Names()
    ensures YearFolderName(Date(2023, 5, 1)) == "2023" && MonthFolderName(Date(2023, 5, 1)) == "May-05"
  {
    May2023Pads();
  }

  /** A run over a three-entry listing is three advances. */
  lemma ThreeEntries(base: Path, mode: DateMode, existing: set<Path>, a: Entry, b: Entry, c: Entry)
    ensures ArrangeFilesByDate(base, mode, existing, [a, b, c])
         == Advance(base, mode, Advance(base, mode, Advance(base, mode, Begin(base, existing), a), b), c)
  {
    var s, r0 := [a, b, c], Begin(base, existing);
    ArrangeFromPrefix(base, mode, r0, s, 0);
    ArrangeFromPrefix(base, mode, r0, s, 1);
    ArrangeFromPrefix(base, mode, r0, s, 2);
    assert s[..0] == [] && s[..3] == s;
  }
}
