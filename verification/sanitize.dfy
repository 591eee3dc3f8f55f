/** The folder-name sanitiser (`sanitize_folder_name`, arrange-files-ui-2.py:12-13):
    keep only letters, digits, spaces, hyphens and underscores, then strip
    surrounding whitespace. Python's Unicode `str.isalnum` and `str.isspace`
    are restricted to ASCII. */
module Sanitize {

  /** ASCII letters and digits. */
  predicate IsAlnum(c: char) {
    'a' <= c <= 'z' || 'A' <= c <= 'Z' || '0' <= c <= '9'
  }

  /** The ASCII characters that Python's argument-less `str.strip()` removes:
      space, tab through carriage return, and the four separators 0x1C-0x1F. */
  predicate IsSpace(c: char) {
    c == ' ' || 9 <= c as int <= 13 || 28 <= c as int <= 31
  }

  /** The characters the sanitiser keeps. */
  predicate Allowed(c: char) {
    IsAlnum(c) || c == ' ' || c == '-' || c == '_'
  }

  predicate AllAllowed(s: string) {
    forall i :: 0 <= i < |s| ==> Allowed(s[i])
  }

  /** No whitespace at either end. */
  predicate Trimmed(s: string) {
    s == [] || (!IsSpace(s[0]) && !IsSpace(s[|s| - 1]))
  }

  /** The generator `c for c in name if c.isalnum() or c in (' ', '-', '_')`. */
  function Filter(s: string): (r: string)
    ensures AllAllowed(r)
    ensures |r| <= |s|
  {
    if s == [] then [] else (if Allowed(s[0]) then [s[0]] else []) + Filter(s[1..])
  }

  /** The number of whitespace characters `s` starts with. */
  function LeadingSpaces(s: string): (n: nat)
    ensures n <= |s| && (n == |s| || !IsSpace(s[n]))
    ensures forall i :: 0 <= i < n ==> IsSpace(s[i])
  {
    if s != [] && IsSpace(s[0]) then 1 + LeadingSpaces(s[1..]) else 0
  }

  /** `lstrip()`: drops the leading whitespace and nothing else. */
  function TrimStart(s: string): (r: string)
    ensures |r| <= |s| && forall i :: 0 <= i < |r| ==> r[i] == s[i + (|s| - |r|)]
    ensures r == [] || !IsSpace(r[0])
    ensures forall i :: 0 <= i < |s| - |r| ==> IsSpace(s[i])
  {
    s[LeadingSpaces(s)..]
  }

  /** `rstrip()`: drops the trailing whitespace and nothing else. */
  function TrimEnd(s: string): (r: string)
    ensures |r| <= |s| && r == s[..|r|]
    ensures r == [] || !IsSpace(r[|r| - 1])
    ensures forall i :: |r| <= i < |s| ==> IsSpace(s[i])
  {
    if s != [] && IsSpace(s[|s| - 1]) then TrimEnd(s[..|s| - 1]) else s
  }

  /** `str.strip()`: leading and trailing whitespace removed. */
  function Strip(s: string): (r: string)
    ensures Trimmed(r)
    ensures |r| <= |s|
    ensures AllAllowed(s) ==> AllAllowed(r)
  {
    var t := TrimStart(s);
    var r := TrimEnd(t);
    assert r != [] ==> r[0] == t[0];
    r
  }

  function SanitizeFolderName(name: string): (r: string)
    ensures AllAllowed(r)
    ensures Trimmed(r)
  {
    Strip(Filter(name))
  }

  /** Filtering works character by character: it distributes over concatenation. */
  lemma {:induction false} FilterAppend(a: string, b: string)
    ensures Filter(a + b) == Filter(a) + Filter(b)
    decreases |a|
  {
    if a == [] {
      assert a + b == b;
    } else {
      var head := if Allowed(a[0]) then [a[0]] else [];
      assert (a + b)[0] == a[0];
      assert (a + b)[1..] == a[1..] + b;
      FilterAppend(a[1..], b);
      calc {
        Filter(a + b);
        head + Filter(a[1..] + b);
        head + (Filter(a[1..]) + Filter(b));
        (head + Filter(a[1..])) + Filter(b);
        Filter(a) + Filter(b);
      }
    }
  }

  /** Filtering keeps every allowed character as often as it occurs and drops
      every other character. */
  lemma {:induction false} FilterCounts(s: string, c: char)
    ensures multiset(Filter(s))[c] == if Allowed(c) then multiset(s)[c] else 0
    decreases |s|
  {
    if s != [] {
      FilterCounts(s[1..], c);
      assert s == [s[0]] + s[1..];
      assert multiset(s) == multiset([s[0]]) + multiset(s[1..]);
    }
  }

  /** A string made only of allowed characters passes the filter unchanged. */
  lemma {:induction false} FilterIdentity(s: string)
    requires AllAllowed(s)
    ensures Filter(s) == s
    decreases |s|
  {
    if s != [] {
      FilterIdentity(s[1..]);
      assert s == [s[0]] + s[1..];
    }
  }

  /** The sanitiser's fixed points are exactly the strings of allowed
      characters with no surrounding whitespace. */
  lemma SanitizeFixpoint(s: string)
    ensures SanitizeFolderName(s) == s <==> AllAllowed(s) && Trimmed(s)
  {
    if AllAllowed(s) && Trimmed(s) {
      SanitizeKeeps(s);
    }
  }

  /** A string of allowed characters without surrounding whitespace is left alone. */
  lemma SanitizeKeeps(s: string)
    requires AllAllowed(s) && Trimmed(s)
    ensures SanitizeFolderName(s) == s
  {
    FilterIdentity(s);
    assert TrimStart(s) == s;
    assert TrimEnd(s) == s;
  }

  /** Concatenating strings of allowed characters gives one. */
  lemma AllowedConcat(a: string, b: string)
    requires AllAllowed(a) && AllAllowed(b)
    ensures AllAllowed(a + b)
  {
    assert forall i :: 0 <= i < |a + b| ==> (a + b)[i] == if i < |a| then a[i] else b[i - |a|];
  }

  /** Sanitising twice is the same as sanitising once. */
  lemma SanitizeIdempotent(s: string)
    ensures SanitizeFolderName(SanitizeFolderName(s)) == SanitizeFolderName(s)
  {
    SanitizeFixpoint(SanitizeFolderName(s));
  }
}
