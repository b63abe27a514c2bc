/**
 Text helpers with the meaning Python gives them: which characters `str.strip()`
 removes, searching for a character, splitting newline-terminated text into lines,
 and "occurs as a substring".
 */
module Strings {

  import opened Wrappers

  /** Python's `str.isspace` for one character: exactly the characters that a
      bare `str.strip()` removes from either end. */
  predicate IsSpace(c: char) {
    || ('\t' <= c <= '\r')
    || ('\U{1C}' <= c <= '\U{1F}')
    || c == ' '
    || c == '\U{85}'
    || c == '\U{A0}'
    || c == '\U{1680}'
    || ('\U{2000}' <= c <= '\U{200A}')
    || c == '\U{2028}'
    || c == '\U{2029}'
    || c == '\U{202F}'
    || c == '\U{205F}'
    || c == '\U{3000}'
  }

  /** Every character of `s` is whitespace (true of the empty string). */
  predicate Blank(s: string) {
    forall i :: 0 <= i < |s| ==> IsSpace(s[i])
  }

  /** `str.lstrip()`: drop leading whitespace. */
  function StripLeft(s: string): (r: string)
    ensures |r| <= |s| && r == s[|s| - |r|..]
    ensures Blank(s[..|s| - |r|])
    ensures r == [] || !IsSpace(r[0])
  {
    if |s| > 0 && IsSpace(s[0]) then
      var t := s[1..];
      var r := StripLeft(t);
      assert s[..|s| - |r|] == [s[0]] + t[..|t| - |r|];
      r
    else s
  }

  /** `str.rstrip()`: drop trailing whitespace. */
  function StripRight(s: string): (r: string)
    ensures |r| <= |s| && r == s[..|r|]
    ensures Blank(s[|r|..])
    ensures r == [] || !IsSpace(r[|r| - 1])
  {
    if |s| > 0 && IsSpace(s[|s| - 1]) then
      var t := s[..|s| - 1];
      var r := StripRight(t);
      assert t[..|r|] == s[..|r|];
      assert s[|r|..] == t[|r|..] + [s[|s| - 1]];
      r
    else s
  }

  /** `str.strip()`: the part of `s` left once the whitespace at both ends is
      cut off. */
  function Strip(s: string): (r: string)
    ensures exists i :: 0 <= i <= |s| - |r| && OccursAt(r, s, i) && Blank(s[..i]) && Blank(s[i + |r|..])
    ensures r == [] || (!IsSpace(r[0]) && !IsSpace(r[|r| - 1]))
  {
    var l := StripLeft(s);
    var r := StripRight(l);
    StripParts(s, l, r);
    r
  }

  /** Cutting blank text off the front of `s` and then off the back leaves an
      occurrence of the rest with blank text on either side. */
  lemma StripParts(s: string, l: string, r: string)
    requires |l| <= |s| && l == s[|s| - |l|..] && Blank(s[..|s| - |l|])
    requires |r| <= |l| && r == l[..|r|] && Blank(l[|r|..])
    ensures exists i :: 0 <= i <= |s| - |r| && OccursAt(r, s, i) && Blank(s[..i]) && Blank(s[i + |r|..])
    ensures r != [] ==> r[0] == l[0]
  {
    var i := |s| - |l|;
    assert s[i..i + |r|] == l[..|r|];
    assert s[i + |r|..] == l[|r|..];
    assert OccursAt(r, s, i) && Blank(s[..i]) && Blank(s[i + |r|..]);
  }

  /** Stripping leaves nothing exactly when the text is all whitespace. */
  lemma StripEmptyIffBlank(s: string)
    ensures Strip(s) == [] <==> Blank(s)
  {
    var l := StripLeft(s);
    if l == [] {
      assert s[..|s|] == s;
    } else {
      assert l[0] == s[|s| - |l|];
    }
  }

  /** `needle` occurs in `hay` at some position. */
  predicate IsInfix(needle: string, hay: string) {
    exists i :: 0 <= i <= |hay| - |needle| && OccursAt(needle, hay, i)
  }

  /** `needle` occurs in `hay` starting at index `i`. */
  predicate OccursAt(needle: string, hay: string, i: int) {
    0 <= i <= |hay| - |needle| && hay[i..i + |needle|] == needle
  }

  /** An occurrence inside an occurrence is an occurrence. */
  lemma InfixTransitive(a: string, b: string, c: string)
    requires IsInfix(a, b) && IsInfix(b, c)
    ensures IsInfix(a, c)
  {
    var i :| 0 <= i <= |b| - |a| && OccursAt(a, b, i);
    var j :| 0 <= j <= |c| - |b| && OccursAt(b, c, j);
    assert c[j..j + |b|] == b;
    forall k | 0 <= k < |a|
      ensures c[j + i + k] == a[k]
    {
      assert c[j + i + k] == b[i + k];
    }
    assert OccursAt(a, c, j + i);
  }

  /** Cutting a text at two points and joining the pieces gives the text back. */
  lemma SplitThree(t: string, a: nat, b: nat)
    requires a <= b <= |t|
    ensures t == t[..a] + t[a..b] + t[b..]
  {
  }

  /** Index of the first `c` in `s`, or `|s|` when there is none. */
  function IndexOf(s: string, c: char): (r: nat)
    ensures r <= |s|
    ensures forall k :: 0 <= k < r ==> s[k] != c
    ensures r < |s| ==> s[r] == c
  {
    if |s| == 0 then 0
    else if s[0] == c then 0
    else 1 + IndexOf(s[1..], c)
  }

  /** Index of the last `c` in `s`, if any. */
  function LastIndexOf(s: string, c: char): (r: Option<nat>)
    ensures r.None? ==> c !in s
    ensures r.Some? ==> r.value < |s| && s[r.value] == c
    ensures r.Some? ==> forall k :: r.value < k < |s| ==> s[k] != c
  {
    if |s| == 0 then None
    else if s[|s| - 1] == c then Some(|s| - 1)
    else LastIndexOf(s[..|s| - 1], c)
  }

  /** Splits text into its lines at each `'\n'`; the newline itself belongs to
      no line, and a final line without a terminator is still a line. */
  function Lines(t: string): seq<string>
    decreases |t|
  {
    if |t| == 0 then []
    else
      var i := IndexOf(t, '\n');
      if i == |t| then [t] else [t[..i]] + Lines(t[i + 1..])
  }

  /** A line without a newline followed by a terminator is split off whole. */
  lemma {:induction false} LinesCons(line: string, rest: string)
    requires '\n' !in line
    ensures Lines(line + "\n" + rest) == [line] + Lines(rest)
  {
    var t := line + "\n" + rest;
    assert t[|line|] == '\n';
    var i := IndexOf(t, '\n');
    assert forall k :: 0 <= k < |line| ==> t[k] == line[k];
    assert i == |line|;
    assert t[..i] == line;
    assert t[i + 1..] == rest;
  }
}
