/** The extension classifier (arrange-files-ui-2.py:77, :83, :96): a name is
    tested with `filename.lower().endswith(tuple)` against the image and the
    video extension tuples. Lower-casing is restricted to ASCII letters. */
module Classify {

  function LowerChar(c: char): char {
    if 'A' <= c <= 'Z' then (c as int + 32) as char else c
  }

  predicate IsUpper(c: char) {
    'A' <= c <= 'Z'
  }

  /** Two characters that are equal, or the same ASCII letter in the two cases. */
  predicate SameLetterIgnoringCase(x: char, y: char) {
    x == y
    || (IsUpper(x) && y as int == x as int + 32)
    || (IsUpper(y) && x as int == y as int + 32)
  }

  /** Two names that differ at most in the case of ASCII letters. */
  predicate EqualIgnoringCase(a: string, b: string) {
    |a| == |b| && forall i :: 0 <= i < |a| ==> SameLetterIgnoringCase(a[i], b[i])
  }

  /** `str.lower()` on ASCII: no upper-case letter is left, every character
      stays the same up to case, and lower-casing again changes nothing. */
  function Lower(s: string): (r: string)
    ensures |r| == |s|
    ensures forall i :: 0 <= i < |r| ==> !IsUpper(r[i])
    ensures EqualIgnoringCase(s, r)
    ensures forall i :: 0 <= i < |s| && !IsUpper(s[i]) ==> r[i] == s[i]
    ensures forall i :: 0 <= i < |s| ==> r[i] == LowerChar(s[i])
  {
    seq(|s|, i requires 0 <= i < |s| => LowerChar(s[i]))
  }

  /** Lower-casing twice is lower-casing once. */
  lemma LowerIdempotent(s: string)
    ensures Lower(Lower(s)) == Lower(s)
  {
    var r := Lower(s);
    assert forall i :: 0 <= i < |r| ==> Lower(r)[i] == r[i];
  }

  lemma LowerCharIff(x: char, y: char)
    ensures LowerChar(x) == LowerChar(y) <==> SameLetterIgnoringCase(x, y)
  {
  }

  /** Two names lower-case alike exactly when they differ only in letter case. */
  lemma {:induction false} LowerEqualIff(a: string, b: string)
    ensures Lower(a) == Lower(b) <==> EqualIgnoringCase(a, b)
  {
    if |a| == |b| {
      forall i | 0 <= i < |a|
        ensures Lower(a)[i] == Lower(b)[i] <==> SameLetterIgnoringCase(a[i], b[i])
      {
        LowerCharIff(a[i], b[i]);
      }
      if EqualIgnoringCase(a, b) {
        assert forall i :: 0 <= i < |a| ==> Lower(a)[i] == Lower(b)[i];
      }
    } else {
      assert |Lower(a)| != |Lower(b)|;
    }
  }

  predicate EndsWith(s: string, suffix: string) {
    |suffix| <= |s| && s[|s| - |suffix|..] == suffix
  }

  /** `str.endswith` given a tuple: true when any element is a suffix. */
  predicate EndsWithAny(s: string, suffixes: seq<string>) {
    exists i :: 0 <= i < |suffixes| && EndsWith(s, suffixes[i])
  }

  const ImageExtensions: seq<string> := [".png", ".jpg", ".jpeg", ".bmp", ".gif"]
  const VideoExtensions: seq<string> := [".mp4", ".mkv", ".avi", ".mov", ".wmv", ".3gp"]

  predicate IsImage(name: string) {
    EndsWithAny(Lower(name), ImageExtensions)
  }

  predicate IsVideo(name: string) {
    EndsWithAny(Lower(name), VideoExtensions)
  }

  datatype Kind = Image | Video | Other

  /** Two suffixes of one string: the shorter is a suffix of the longer. */
  lemma SuffixOfSuffix(s: string, a: string, b: string)
    requires EndsWith(s, a) && EndsWith(s, b) && |b| <= |a|
    ensures EndsWith(a, b)
  {
    assert a[|a| - |b|..] == s[|s| - |b|..];
  }

  /** No image extension ends with a video extension, and the other way round. */
  lemma ExtensionsUnrelated(i: int, j: int)
    requires 0 <= i < |ImageExtensions| && 0 <= j < |VideoExtensions|
    ensures !EndsWith(ImageExtensions[i], VideoExtensions[j])
    ensures !EndsWith(VideoExtensions[j], ImageExtensions[i])
  {
    var a, b := ImageExtensions[i], VideoExtensions[j];
    assert |a| == 4 || a == ".jpeg";
    assert |b| == 4;
    if |a| == 4 {
      assert a[1..] != b[1..];
    } else {
      assert a[|a| - |b|..] == "jpeg";
    }
  }

  /** No name is both an image and a video. */
  lemma ImageAndVideoDisjoint(name: string)
    ensures !(IsImage(name) && IsVideo(name))
  {
    if IsImage(name) && IsVideo(name) {
      var s := Lower(name);
      var i :| 0 <= i < |ImageExtensions| && EndsWith(s, ImageExtensions[i]);
      var j :| 0 <= j < |VideoExtensions| && EndsWith(s, VideoExtensions[j]);
      ExtensionsUnrelated(i, j);
      if |VideoExtensions[j]| <= |ImageExtensions[i]| {
        SuffixOfSuffix(s, ImageExtensions[i], VideoExtensions[j]);
      } else {
        SuffixOfSuffix(s, VideoExtensions[j], ImageExtensions[i]);
      }
    }
  }

  /** The media kind of a name, as the dateless branch decides it: the
      image test first, then the video test, otherwise neither. */
  function KindOf(name: string): (k: Kind)
    ensures k == Image <==> IsImage(name)
    ensures k == Video <==> IsVideo(name)
    ensures k == Other <==> !IsImage(name) && !IsVideo(name)
  {
    ImageAndVideoDisjoint(name);
    if IsImage(name) then Image else if IsVideo(name) then Video else Other
  }

  /** The classifier ignores letter case: names that differ only in the case
      of their letters are of the same kind. */
  lemma CaseInsensitive(a: string, b: string)
    requires EqualIgnoringCase(a, b)
    ensures IsImage(a) == IsImage(b) && IsVideo(a) == IsVideo(b) && KindOf(a) == KindOf(b)
  {
    LowerEqualIff(a, b);
  }

  /** Lower-casing commutes with taking a suffix. */
  lemma LowerSuffix(s: string, k: nat)
    requires k <= |s|
    ensures Lower(s)[k..] == Lower(s[k..])
  {
  }

  /** Case-insensitivity, stated on the raw name: a name is an image exactly
      when its last few characters, lower-cased, spell one of the image
      extensions; likewise for videos. */
  lemma ClassifyBySuffix(name: string)
    ensures IsImage(name) <==> exists i :: 0 <= i < |ImageExtensions| && LowerTailIs(name, ImageExtensions[i])
    ensures IsVideo(name) <==> exists i :: 0 <= i < |VideoExtensions| && LowerTailIs(name, VideoExtensions[i])
  {
    forall ext: string | |ext| <= |name|
      ensures EndsWith(Lower(name), ext) <==> LowerTailIs(name, ext)
    {
      LowerSuffix(name, |name| - |ext|);
    }
  }

  /** The last `|ext|` characters of `name`, lower-cased, are `ext`. */
  predicate LowerTailIs(name: string, ext: string) {
    |ext| <= |name| && Lower(name[|name| - |ext|..]) == ext
  }

  /** An upper-case image extension still makes an image. */
  lemma UpperCaseImage()
    ensures KindOf("HOLIDAY.JPG") == Image
  {
    assert Lower("HOLIDAY.JPG")[7..] == ".jpg";
    assert EndsWith(Lower("HOLIDAY.JPG"), ImageExtensions[1]);
  }

  /** A mixed-case video extension still makes a video. */
  lemma MixedCaseVideo()
    ensures KindOf("clip.Mp4") == Video
  {
    assert Lower("clip.Mp4")[4..] == ".mp4";
    assert EndsWith(Lower("clip.Mp4"), VideoExtensions[0]);
  }

  /** Only the final extension matters. */
  lemma InnerExtensionIgnored()
    ensures KindOf("archive.jpg.zip") == Other
  {
    var s := Lower("archive.jpg.zip");
    assert s[11..] == ".zip" && s[10..] == "g.zip";
    assert forall i :: 0 <= i < |ImageExtensions| ==> !EndsWith(s, ImageExtensions[i]);
    assert forall i :: 0 <= i < |VideoExtensions| ==> !EndsWith(s, VideoExtensions[i]);
  }
}
