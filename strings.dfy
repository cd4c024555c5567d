/** The handful of Python string operations the BOSCH page relies on:
    `str.isspace`, `str.strip()`, `str.replace(' ', '')`, `str.lower()` on
    ASCII letters, `str.startswith` and a case-insensitive `in` test. */
module Strings {
  import opened Sequences

  /** The characters Python's `str.isspace` accepts, the ones `str.strip()`
      with no argument removes from both ends. */
  predicate IsSpace(c: char) {
    var n := c as int;
    (0x09 <= n <= 0x0D) || (0x1C <= n <= 0x20) || n == 0x85 || n == 0xA0 || n == 0x1680
    || (0x2000 <= n <= 0x200A) || n == 0x2028 || n == 0x2029 || n == 0x202F
    || n == 0x205F || n == 0x3000
  }

  ghost predicate AllSpace(s: string) {
    forall i :: 0 <= i < |s| ==> IsSpace(s[i])
  }

  /** `s` has no whitespace at either end (what `strip()` leaves behind). */
  predicate Trimmed(s: string) {
    s == [] || (!IsSpace(s[0]) && !IsSpace(s[|s| - 1]))
  }

  /** `s.lstrip()`: the longest suffix of `s` that does not start with whitespace. */
  function TrimStart(s: string): (r: string)
    ensures |r| <= |s| && r == s[|s| - |r|..]
    ensures r != [] ==> !IsSpace(r[0])
  {
    if |s| > 0 && IsSpace(s[0]) then TrimStart(s[1..]) else s
  }

  /** What `lstrip()` removes is whitespace. */
  lemma {:induction false} TrimStartRemovesSpace(s: string)
    ensures AllSpace(s[..|s| - |TrimStart(s)|])
  {
    if |s| > 0 && IsSpace(s[0]) {
      TrimStartRemovesSpace(s[1..]);
      var n := |s| - |TrimStart(s)|;
      assert s[..n] == [s[0]] + s[1..][..n - 1];
    }
  }

  /** `s.rstrip()`: the longest prefix of `s` that does not end with whitespace. */
  function TrimEnd(s: string): (r: string)
    ensures |r| <= |s| && r == s[..|r|]
    ensures r != [] ==> !IsSpace(r[|r| - 1])
  {
    if |s| > 0 && IsSpace(s[|s| - 1]) then TrimEnd(s[..|s| - 1]) else s
  }

  /** What `rstrip()` removes is whitespace. */
  lemma {:induction false} TrimEndRemovesSpace(s: string)
    ensures AllSpace(s[|TrimEnd(s)|..])
  {
    if |s| > 0 && IsSpace(s[|s| - 1]) {
      var p := s[..|s| - 1];
      TrimEndRemovesSpace(p);
      SpaceSuffixSnoc(s, |TrimEnd(s)|);
    }
  }

  lemma SpaceSuffixSnoc(s: string, n: nat)
    requires n < |s| && AllSpace(s[..|s| - 1][n..]) && IsSpace(s[|s| - 1])
    ensures AllSpace(s[n..])
  {
    assert s[n..] == s[..|s| - 1][n..] + [s[|s| - 1]];
  }

  /** `s.strip()`: `s` without its leading and trailing whitespace. */
  function Strip(s: string): (r: string)
    ensures |r| <= |s| && Trimmed(r)
  {
    TrimEnd(TrimStart(s))
  }

  /** `r` is the slice of `s` at `i` and everything around it is whitespace. */
  ghost predicate StrippedAt(s: string, r: string, i: int) {
    0 <= i <= |s| - |r| && r == s[i..i + |r|] && AllSpace(s[..i]) && AllSpace(s[i + |r|..])
  }

  /** What `strip()` removes is whitespace, and it removes it only at the ends. */
  lemma StripIsSlice(s: string)
    ensures StrippedAt(s, Strip(s), |s| - |TrimStart(s)|)
  {
    var t := TrimStart(s);
    TrimStartRemovesSpace(s);
    TrimEndRemovesSpace(t);
    SpaceAroundSlice(s, t, TrimEnd(t), |s| - |t|);
  }

  lemma SpaceAroundSlice(s: string, t: string, r: string, i: int)
    requires 0 <= i <= |s| && t == s[i..] && |r| <= |t| && r == t[..|r|]
    requires AllSpace(s[..i]) && AllSpace(t[|r|..])
    ensures StrippedAt(s, r, i)
  {
    assert s[i + |r|..] == t[|r|..];
  }

  /** Stripping a string that has no whitespace at its ends gives it back. */
  lemma StripTrimmed(s: string)
    requires Trimmed(s)
    ensures Strip(s) == s
  {
  }

  lemma StripIdempotent(s: string)
    ensures Strip(Strip(s)) == Strip(s)
  {
    StripTrimmed(Strip(s));
  }

  /** `s.replace(' ', '')`: every U+0020 deleted, every other character kept in order. */
  function RemoveSpaces(s: string): (r: string)
    ensures ' ' !in r && |r| <= |s|
  {
    FilterMembers(s, NotSpace);
    Filter(s, NotSpace)
  }

  predicate NotSpace(c: char) {
    c != ' '
  }

  /** Deleting spaces from a concatenation deletes them from each part. */
  lemma RemoveSpacesConcat(a: string, b: string)
    ensures RemoveSpaces(a + b) == RemoveSpaces(a) + RemoveSpaces(b)
  {
    FilterConcat(a, b, NotSpace);
  }

  /** A string without spaces is left as it is. */
  lemma RemoveSpacesNoSpace(s: string)
    requires ' ' !in s
    ensures RemoveSpaces(s) == s
  {
    assert forall i :: 0 <= i < |s| ==> NotSpace(s[i]);
    FilterAll(s, NotSpace);
  }

  lemma RemoveSpacesIdempotent(s: string)
    ensures RemoveSpaces(RemoveSpaces(s)) == RemoveSpaces(s)
  {
    RemoveSpacesNoSpace(RemoveSpaces(s));
  }

  /** A string that does not start with a space keeps its first character. */
  lemma RemoveSpacesKeepsFirst(s: string)
    requires s != [] && s[0] != ' '
    ensures RemoveSpaces(s) != [] && RemoveSpaces(s)[0] == s[0]
  {
    FilterKeepsFirst(s, NotSpace);
  }

  /** A string that does not end in a space keeps its last character. */
  lemma RemoveSpacesKeepsLast(s: string)
    requires s != [] && s[|s| - 1] != ' '
    ensures RemoveSpaces(s) != [] && RemoveSpaces(s)[|RemoveSpaces(s)| - 1] == s[|s| - 1]
  {
    FilterKeepsLast(s, NotSpace);
  }

  /** ASCII `lower()` of one character. */
  function LowerChar(c: char): (d: char)
    ensures 'A' <= c <= 'Z' ==> d as int == c as int + 32
    ensures !('A' <= c <= 'Z') ==> d == c
  {
    if 'A' <= c <= 'Z' then (c as int + 32) as char else c
  }

  /** `s.lower()` restricted to ASCII letters. */
  function Lower(s: string): (r: string)
    ensures |r| == |s|
    ensures forall i :: 0 <= i < |s| ==> r[i] == LowerChar(s[i])
  {
    if s == [] then [] else [LowerChar(s[0])] + Lower(s[1..])
  }

  /** Lowercasing commutes with taking a prefix. */
  lemma LowerPrefix(s: string, n: nat)
    requires n <= |s|
    ensures Lower(s)[..n] == Lower(s[..n])
  {
  }

  /** `s.startswith(p)`. */
  predicate StartsWith(s: string, p: string) {
    |p| <= |s| && s[..|p|] == p
  }

  /** `needle` occurs in `s` at index `i`, ignoring ASCII case. */
  predicate OccursAt(s: string, needle: string, i: int) {
    0 <= i && i + |needle| <= |s| && Lower(s[i..i + |needle|]) == Lower(needle)
  }

  /** A case-insensitive substring test: `needle.lower() in s.lower()` for ASCII. */
  function ContainsIgnoringCase(s: string, needle: string): (b: bool)
    ensures b <==> exists i :: OccursAt(s, needle, i)
    decreases |s|
  {
    if |needle| > |s| then
      assert forall i :: !OccursAt(s, needle, i);
      false
    else if Lower(s[..|needle|]) == Lower(needle) then
      assert OccursAt(s, needle, 0);
      true
    else
      var b := ContainsIgnoringCase(s[1..], needle);
      assert forall i: nat :: OccursAt(s, needle, i + 1) <==> OccursAt(s[1..], needle, i) by {
        forall i: nat ensures OccursAt(s, needle, i + 1) <==> OccursAt(s[1..], needle, i) {
          OccursAtShift(s, needle, i);
        }
      }
      assert !OccursAt(s, needle, 0);
      assert b ==> exists i :: OccursAt(s, needle, i) by {
        if b {
          var i :| OccursAt(s[1..], needle, i);
          assert OccursAt(s, needle, i + 1);
        }
      }
      assert (exists i :: OccursAt(s, needle, i)) ==> b by {
        if exists i :: OccursAt(s, needle, i) {
          var i :| OccursAt(s, needle, i);
          assert i != 0;
          assert OccursAt(s[1..], needle, i - 1);
        }
      }
      b
  }

  /** An occurrence one past the start of `s` is an occurrence in its tail. */
  lemma OccursAtShift(s: string, needle: string, i: nat)
    requires s != []
    ensures OccursAt(s, needle, i + 1) <==> OccursAt(s[1..], needle, i)
  {
    if 0 <= i && i + 1 + |needle| <= |s| {
      assert s[i + 1..i + 1 + |needle|] == s[1..][i..i + |needle|];
    }
  }
}
