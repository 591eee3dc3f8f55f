/** Folder paths (arrange-files-ui-2.py:15-31): `create_folder_structure`,
    `create_others_folder`, `create_duplicates_folder`, and `os.makedirs`.
    A path is a sequence of non-empty segments. `os.path.join` appends a
    segment; joining an empty fragment only adds a trailing separator, which
    `os.path.normpath` then removes, so an empty fragment adds nothing. The
    fragments joined here never hold a separator, `.` or `..`. */
module Folders {
  import opened Sanitize
  import opened Dates

  type Path = seq<string>

  /** A path and every folder above it. */
  function Ancestors(p: Path): (r: set<Path>)
    ensures p in r
    ensures forall k :: 0 <= k <= |p| ==> p[..k] in r
    ensures forall q :: q in r ==> |q| <= |p| && q == p[..|q|]
  {
    assert p[..|p|] == p;
    set k | 0 <= k <= |p| :: p[..k]
  }

  /** `os.makedirs(p, exist_ok=True)`: afterwards `p` and all its ancestors
      exist, and nothing else was created. */
  function MakeDirs(existing: set<Path>, p: Path): (r: set<Path>)
    ensures existing <= r && p in r
    ensures forall k :: 0 <= k <= |p| ==> p[..k] in r
    ensures forall q :: q in r && q !in existing ==> |q| <= |p| && q == p[..|q|]
  {
    existing + Ancestors(p)
  }

  /** `create_others_folder`: only computes the path; nothing is created. */
  function OthersFolder(base: Path): Path {
    base + ["Others"]
  }

  /** The path `create_duplicates_folder` returns (it also creates it). */
  function DuplicatesFolder(base: Path): Path {
    base + ["Duplicates"]
  }

  /** `create_duplicates_folder`: the folder set after the call, and the path. */
  function CreateDuplicatesFolder(existing: set<Path>, base: Path): (r: (set<Path>, Path))
    ensures r.1 == base + ["Duplicates"]
    ensures r.1 in r.0 && existing <= r.0
    ensures forall k :: 0 <= k <= |r.1| ==> r.1[..k] in r.0
    ensures forall q :: q in r.0 && q !in existing ==> |q| <= |r.1| && q == r.1[..|q|]
  {
    (MakeDirs(existing, DuplicatesFolder(base)), DuplicatesFolder(base))
  }

  datatype FileType = Images | Videos

  function FileTypeName(t: FileType): string {
    match t
    case Images => "Images"
    case Videos => "Videos"
  }

  /** `os.path.normpath(os.path.join(p, fragment))` for a fragment with no
      separator and no dot segment. */
  function Join(p: Path, fragment: string): Path {
    if fragment == "" then p else p + [fragment]
  }

  /** The non-empty fragments of a list, in order. */
  function NonEmpty(fragments: seq<string>): (r: seq<string>)
    ensures |r| <= |fragments|
    ensures forall i :: 0 <= i < |r| ==> r[i] != ""
    ensures forall x :: x in r <==> x in fragments && x != ""
  {
    if fragments == [] then []
    else
      var rest := NonEmpty(fragments[..|fragments| - 1]);
      var last := fragments[|fragments| - 1];
      assert forall x :: x in fragments <==> x in fragments[..|fragments| - 1] || x == last;
      if last == "" then rest else rest + [last]
  }

  /** Only the empty fragment is dropped. */
  lemma NonEmptySingle(x: string)
    ensures NonEmpty([x]) == (if x == "" then [] else [x])
  {
    assert [x][..0] == [];
  }

  /** Filtering distributes over concatenation, so the kept fragments keep
      their order and their number. */
  lemma {:induction false} NonEmptyAppend(a: seq<string>, b: seq<string>)
    ensures NonEmpty(a + b) == NonEmpty(a) + NonEmpty(b)
    decreases |b|
  {
    if b == [] {
      assert a + b == a;
    } else {
      var c := b[..|b| - 1];
      assert (a + b)[..|a + b| - 1] == a + c && (a + b)[|a + b| - 1] == b[|b| - 1];
      NonEmptyAppend(a, c);
    }
  }

  /** Three fragments joined in turn below `base`. */
  function JoinThree(base: Path, a: string, b: string, c: string): (r: Path)
    ensures |base| <= |r| <= |base| + 3 && r[..|base|] == base
    ensures (forall i :: 0 <= i < |base| ==> base[i] != "") ==> forall i :: 0 <= i < |r| ==> r[i] != ""
    ensures |r| == |base| + 3 <==> a != "" && b != "" && c != ""
    ensures |r| == |base| + 3 ==> r == base + [a, b, c]
    ensures c != "" ==> |r| > |base| && r[|r| - 1] == c
    ensures r == base + NonEmpty([a, b, c])
  {
    NonEmptyThree(base, a, b, c);
    Join(Join(Join(base, a), b), c)
  }

  lemma NonEmptyThree(base: Path, a: string, b: string, c: string)
    ensures Join(Join(Join(base, a), b), c) == base + NonEmpty([a, b, c])
  {
    var s: seq<string> := [a, b, c];
    assert s[..2][..1] == [a] && s[..2] == [a, b] && s[..1] == [a];
    assert NonEmpty([a]) == (if a == "" then [] else [a]) by {
      assert [a][..0] == [];
    }
  }

  /** `create_folder_structure`: the year and month fragments are sanitised,
      the file type is joined as given, and a fragment left empty adds no
      segment. It only computes the path. */
  function CreateFolderStructure(base: Path, year: string, month: string, fileType: string): (r: Path)
    ensures |base| <= |r| <= |base| + 3 && r[..|base|] == base
    ensures (forall i :: 0 <= i < |base| ==> base[i] != "") ==> forall i :: 0 <= i < |r| ==> r[i] != ""
    ensures |r| == |base| + 3
            <==> SanitizeFolderName(year) != "" && SanitizeFolderName(month) != "" && fileType != ""
    ensures |r| == |base| + 3 ==> r == base + [SanitizeFolderName(year), SanitizeFolderName(month), fileType]
    ensures fileType != "" ==> |r| > |base| && r[|r| - 1] == fileType
    ensures r == base + NonEmpty([SanitizeFolderName(year), SanitizeFolderName(month), fileType])
  {
    JoinThree(base, SanitizeFolderName(year), SanitizeFolderName(month), fileType)
  }

  /** The date folder of a file: `<base>/<YYYY>/<MonthName>-<MM>/<Images|Videos>`.
      The source builds it with `create_folder_structure`, which sanitises the
      year and month names; `DateFolderSegments` shows that this changes
      nothing, so the segments are written here as they are. */
  function DateFolder(base: Path, d: CalendarDate, t: FileType): Path {
    base + [YearFolderName(d), MonthFolderName(d), FileTypeName(t)]
  }

  /** Every month name is made of letters. */
  lemma MonthNamesAlphabetic(m: int)
    requires 1 <= m <= 12
    ensures AllAllowed(MonthName(m)) && |MonthName(m)| > 0
    ensures 'A' <= MonthName(m)[0] <= 'Z'
  {
  }

  /** Digits are allowed characters, and none is whitespace. */
  lemma DigitsAllowed(s: string)
    requires AllDigits(s)
    ensures AllAllowed(s) && Trimmed(s)
  {
    assert forall i :: 0 <= i < |s| ==> IsDigit(s[i]) && !IsSpace(s[i]);
  }

  /** The sanitiser leaves the year folder name unchanged. */
  lemma YearNameSanitized(d: CalendarDate)
    ensures SanitizeFolderName(YearFolderName(d)) == YearFolderName(d)
  {
    DigitsAllowed(YearFolderName(d));
    SanitizeKeeps(YearFolderName(d));
  }

  /** The sanitiser leaves the month folder name unchanged. */
  lemma MonthNameSanitized(d: CalendarDate)
    ensures SanitizeFolderName(MonthFolderName(d)) == MonthFolderName(d)
  {
    var name := MonthName(d.month);
    MonthNamesAlphabetic(d.month);
    var p := Pad(d.month, 2);
    DigitsAllowed(p);
    AllowedConcat(name, "-");
    AllowedConcat(name + "-", p);
    var s := MonthFolderName(d);
    assert s == name + "-" + p;
    assert s[0] == name[0] && s[|s| - 1] == p[1];
    SanitizeKeeps(s);
  }

  /** `create_folder_structure` applied to a date's year and month names and
      a file type gives exactly the date folder: the sanitiser has nothing to
      remove from them. */
  lemma DateFolderSegments(base: Path, d: CalendarDate, t: FileType)
    ensures CreateFolderStructure(base, YearFolderName(d), MonthFolderName(d), FileTypeName(t)) == DateFolder(base, d, t)
  {
    YearNameSanitized(d);
    MonthNameSanitized(d);
  }

  /** The month folder name determines the month. */
  lemma MonthFolderNameDeterminesMonth(d1: CalendarDate, d2: CalendarDate)
    requires MonthFolderName(d1) == MonthFolderName(d2)
    ensures d1.month == d2.month
  {
    var m1, m2 := MonthFolderName(d1), MonthFolderName(d2);
    assert m1[|m1| - 2..] == Pad(d1.month, 2);
    assert m2[|m2| - 2..] == Pad(d2.month, 2);
    PadValue(d1.month, 2);
    PadValue(d2.month, 2);
  }

  /** The year folder name determines the year. */
  lemma YearFolderNameDeterminesYear(d1: CalendarDate, d2: CalendarDate)
    requires YearFolderName(d1) == YearFolderName(d2)
    ensures d1.year == d2.year
  {
    PadValue(d1.year, 4);
    PadValue(d2.year, 4);
  }

  /** Two files share a date folder exactly when they share year, month and
      file type; the day does not matter. */
  lemma DateFolderInjective(base: Path, d1: CalendarDate, t1: FileType, d2: CalendarDate, t2: FileType)
    ensures DateFolder(base, d1, t1) == DateFolder(base, d2, t2)
            <==> d1.year == d2.year && d1.month == d2.month && t1 == t2
  {
    if DateFolder(base, d1, t1) == DateFolder(base, d2, t2) {
      SameFolderSameParts(base, d1, t1, d2, t2);
    }
    if d1.year == d2.year && d1.month == d2.month && t1 == t2 {
      DateFolderIgnoresDay(base, d1, d2, t1);
    }
  }

  lemma DateFolderIgnoresDay(base: Path, d1: CalendarDate, d2: CalendarDate, t: FileType)
    requires d1.year == d2.year && d1.month == d2.month
    ensures DateFolder(base, d1, t) == DateFolder(base, d2, t)
  {
    assert YearFolderName(d1) == YearFolderName(d2);
    assert MonthFolderName(d1) == MonthFolderName(d2);
  }

  lemma SameFolderSameParts(base: Path, d1: CalendarDate, t1: FileType, d2: CalendarDate, t2: FileType)
    requires base + [YearFolderName(d1), MonthFolderName(d1), FileTypeName(t1)]
          == base + [YearFolderName(d2), MonthFolderName(d2), FileTypeName(t2)]
    ensures d1.year == d2.year && d1.month == d2.month && t1 == t2
  {
    var s1: seq<string> := [YearFolderName(d1), MonthFolderName(d1), FileTypeName(t1)];
    var s2: seq<string> := [YearFolderName(d2), MonthFolderName(d2), FileTypeName(t2)];
    assert s1 == (base + s1)[|base|..];
    assert s2 == (base + s2)[|base|..];
    assert s1[0] == s2[0] && s1[1] == s2[1] && s1[2] == s2[2];
    YearFolderNameDeterminesYear(d1, d2);
    MonthFolderNameDeterminesMonth(d1, d2);
    assert FileTypeName(t1) == FileTypeName(t2);
  }
}
