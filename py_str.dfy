/**
 * The behaviour of Python 3's `str` methods that the core relies on, with a
 * string modelled as a sequence of Unicode code points (which is what a
 * Python `str` is, and what `len` counts).
 */
module PyStr {

  type String = seq<char>

  /**
   * The code points Python 3 treats as whitespace, as inclusive ranges:
   * tab to carriage return, the four information separators, the space,
   * NEXT LINE, NO-BREAK SPACE, OGHAM SPACE MARK, EN QUAD to HAIR SPACE, the
   * line and paragraph separators, NARROW NO-BREAK SPACE, MEDIUM
   * MATHEMATICAL SPACE and IDEOGRAPHIC SPACE.
   */
  const SpaceRanges: seq<(char, char)> := [
    ('\t', '\r'), ('\U{1C}', '\U{1F}'), (' ', ' '), ('\U{85}', '\U{85}'), ('\U{A0}', '\U{A0}'),
    ('\U{1680}', '\U{1680}'), ('\U{2000}', '\U{200A}'), ('\U{2028}', '\U{2029}'),
    ('\U{202F}', '\U{202F}'), ('\U{205F}', '\U{205F}'), ('\U{3000}', '\U{3000}')
  ]

  /** Whether `c` lies in one of the inclusive `ranges`. */
  predicate InRanges(c: char, ranges: seq<(char, char)>)
  {
    ranges != [] && (ranges[0].0 <= c <= ranges[0].1 || InRanges(c, ranges[1..]))
  }

  /** `c.isspace()`: the code points `str.strip()` with no argument removes. */
  predicate IsSpace(c: char)
  {
    InRanges(c, SpaceRanges)
  }

  /**
   * Below code point 128 the whitespace is exactly tab, line feed, vertical
   * tab, form feed, carriage return, the four information separators and
   * the space.
   */
  lemma AsciiSpace(c: char)
    requires c < '\U{80}'
    ensures IsSpace(c) <==> '\t' <= c <= '\r' || '\U{1C}' <= c <= ' '
  {
    var r1 := SpaceRanges[1..];
    var r2 := r1[1..];
    var rest := r2[1..];
    assert SpaceRanges[0] == ('\t', '\r') && r1[0] == ('\U{1C}', '\U{1F}') && r2[0] == (' ', ' ');
    assert IsSpace(c) <==> '\t' <= c <= '\r' || InRanges(c, r1);
    assert InRanges(c, r1) <==> '\U{1C}' <= c <= '\U{1F}' || InRanges(c, r2);
    assert InRanges(c, r2) <==> c == ' ' || InRanges(c, rest);
    assert forall i :: 0 <= i < |rest| ==> rest[i] == SpaceRanges[i + 3];
    assert forall i :: 3 <= i < |SpaceRanges| ==> SpaceRanges[i].0 >= '\U{85}';
    HighRanges(c, rest);
  }

  /** A code point below 128 lies in none of a list of ranges that all start at 133 or above. */
  lemma {:induction false} HighRanges(c: char, ranges: seq<(char, char)>)
    requires c < '\U{80}'
    requires forall i :: 0 <= i < |ranges| ==> ranges[i].0 >= '\U{85}'
    ensures !InRanges(c, ranges)
  {
    if ranges != [] {
      HighRanges(c, ranges[1..]);
    }
  }

  predicate AllSpace(s: String)
  {
    forall k :: 0 <= k < |s| ==> IsSpace(s[k])
  }

  /** Every code point of `s` from index `i` up to (not including) `j` is whitespace. */
  predicate SpaceBetween(s: String, i: int, j: int)
  {
    0 <= i && j <= |s| && forall k :: i <= k < j ==> IsSpace(s[k])
  }

  /** The length of the whitespace run of `s` that starts at index `i`. */
  function SpaceRunFrom(s: String, i: nat): (n: nat)
    requires i <= |s|
    ensures i + n <= |s| && SpaceBetween(s, i, i + n)
    ensures i + n < |s| ==> !IsSpace(s[i + n])
    decreases |s| - i
  {
    if i < |s| && IsSpace(s[i]) then 1 + SpaceRunFrom(s, i + 1) else 0
  }

  /** The length of the whitespace run of `s` that ends just before index `j`. */
  function SpaceRunTo(s: String, j: nat): (n: nat)
    requires j <= |s|
    ensures n <= j && SpaceBetween(s, j - n, j)
    ensures n < j ==> !IsSpace(s[j - n - 1])
  {
    if j > 0 && IsSpace(s[j - 1]) then 1 + SpaceRunTo(s, j - 1) else 0
  }

  /** How much whitespace `s` begins with: what `s.lstrip()` removes. */
  function LeadingSpace(s: String): (n: nat)
    ensures n <= |s| && SpaceBetween(s, 0, n)
    ensures n < |s| ==> !IsSpace(s[n])
  {
    SpaceRunFrom(s, 0)
  }

  /** How much whitespace `s` ends with: what `s.rstrip()` removes. */
  function TrailingSpace(s: String): (n: nat)
    ensures n <= |s| && SpaceBetween(s, |s| - n, |s|)
    ensures n < |s| ==> !IsSpace(s[|s| - n - 1])
  {
    SpaceRunTo(s, |s|)
  }

  /** `s` is whitespace, then `r` from index `lead` on, then whitespace. */
  predicate StripsTo(s: String, lead: int, r: String)
  {
    && 0 <= lead && lead + |r| <= |s|
    && (forall j :: 0 <= j < |r| ==> r[j] == s[lead + j])
    && SpaceBetween(s, 0, lead)
    && SpaceBetween(s, lead + |r|, |s|)
  }

  /** `s.strip()`: the infix of `s` between its leading and its trailing whitespace. */
  function Strip(s: String): (r: String)
    ensures |r| <= |s|
  {
    var lead := LeadingSpace(s);
    if lead == |s| then []
    else
      var trail := TrailingSpace(s);
      assert !IsSpace(s[lead]);
      s[lead..|s| - trail]
  }

  /** The line break and the space are whitespace. */
  lemma NewlineIsSpace()
    ensures IsSpace('\n') && IsSpace(' ')
  {
    AsciiSpace('\n');
    AsciiSpace(' ');
  }

  /** The full stop is not whitespace. */
  lemma PeriodIsNotSpace()
    ensures !IsSpace('.')
  {
    AsciiSpace('.');
  }

  /**
   * What `s.strip()` leaves: whitespace, then the result, then whitespace
   * make up `s`. The result is empty exactly when `s` is all whitespace, and
   * otherwise begins and ends with a code point that is not whitespace.
   */
  lemma StripShape(s: String)
    ensures var r := Strip(s);
      && (r == [] <==> AllSpace(s))
      && (r == [] || (!IsSpace(r[0]) && !IsSpace(r[|r| - 1])))
      && StripsTo(s, LeadingSpace(s), r)
  {
    if LeadingSpace(s) == |s| {
      StripBlank(s);
    } else {
      StripNonBlank(s);
    }
  }

  /** A string of whitespace strips to nothing. */
  lemma StripBlank(s: String)
    requires LeadingSpace(s) == |s|
    ensures Strip(s) == [] && AllSpace(s) && StripsTo(s, |s|, [])
  {
    assert SpaceBetween(s, 0, |s|);
    assert s[|s|..|s|] == [];
  }

  /** Any other string strips to its non-empty middle, which neither begins nor ends in whitespace. */
  lemma StripNonBlank(s: String)
    requires LeadingSpace(s) < |s|
    ensures var r := Strip(s);
      && r != [] && !AllSpace(s)
      && !IsSpace(r[0]) && !IsSpace(r[|r| - 1])
      && StripsTo(s, LeadingSpace(s), r)
  {
    StripInterior(s);
    var lead, trail := LeadingSpace(s), TrailingSpace(s);
    assert Strip(s) == s[lead..|s| - trail];
    StripMiddle(s, lead, |s| - trail);
  }

  /** The slice between two whitespace runs, when it neither begins nor ends in whitespace. */
  lemma StripMiddle(s: String, i: nat, j: nat)
    requires i < j <= |s| && SpaceBetween(s, 0, i) && SpaceBetween(s, j, |s|)
    requires !IsSpace(s[i]) && !IsSpace(s[j - 1])
    ensures var r := s[i..j];
      && r != [] && !IsSpace(r[0]) && !IsSpace(r[|r| - 1])
      && StripsTo(s, i, r)
  {
    SliceFacts(s, i, j);
  }

  /** A non-empty slice: its length, its ends, and each of its code points. */
  lemma SliceFacts(s: String, i: nat, j: nat)
    requires i < j <= |s|
    ensures var r := s[i..j];
      && |r| == j - i && r[0] == s[i] && r[|r| - 1] == s[j - 1]
      && forall k :: 0 <= k < |r| ==> r[k] == s[i + k]
  {
  }

  /** Unless `s` is all whitespace, its leading and trailing whitespace runs leave something between them. */
  lemma StripInterior(s: String)
    requires LeadingSpace(s) < |s|
    ensures LeadingSpace(s) < |s| - TrailingSpace(s)
    ensures !AllSpace(s)
  {
    assert !IsSpace(s[LeadingSpace(s)]);
  }

  /** `d in s` for a one-character string `d`: the index of its first occurrence. */
  function IndexOf(s: String, d: char): (i: nat)
    requires d in s
    ensures i < |s| && s[i] == d && d !in s[..i]
  {
    if s[0] == d then 0 else 1 + IndexOf(s[1..], d)
  }

  /**
   * `s.split(d)` for a one-character separator: the pieces between the
   * occurrences of `d`, in order. There is always at least one piece
   * (`"".split("\n") == [""]`), and no piece contains `d`.
   */
  function Split(s: String, d: char): (r: seq<String>)
    ensures |r| >= 1
    ensures forall k :: 0 <= k < |r| ==> d !in r[k]
    decreases |s|
  {
    if d !in s then [s]
    else
      var i := IndexOf(s, d);
      [s[..i]] + Split(s[i + 1..], d)
  }

  /** Concatenation is associative. */
  lemma AppendAssoc<T>(x: seq<T>, y: seq<T>, z: seq<T>)
    ensures x + (y + z) == (x + y) + z
  {
  }

  /** `sep.join(parts)`. */
  function Join(sep: String, parts: seq<String>): (r: String)
    ensures parts == [] ==> r == []
    ensures parts != [] ==> parts[0] <= r
  {
    if |parts| == 0 then []
    else if |parts| == 1 then parts[0]
    else parts[0] + sep + Join(sep, parts[1..])
  }

  /** A single part joins to itself. */
  lemma JoinOne(sep: String, x: String)
    ensures Join(sep, [x]) == x
  {
  }

  /** Joining a part in front of further parts puts the separator between it and their join. */
  lemma JoinCons(sep: String, x: String, rest: seq<String>)
    requires rest != []
    ensures Join(sep, [x] + rest) == x + sep + Join(sep, rest)
  {
    assert ([x] + rest)[1..] == rest;
  }

  /** The sum of the lengths of `parts`. */
  function TotalLength(parts: seq<String>): nat
  {
    if parts == [] then 0 else |parts[0]| + TotalLength(parts[1..])
  }

  /** Splitting and re-joining with the same separator gives back the string. */
  lemma {:induction false} SplitJoin(s: String, d: char)
    ensures Join([d], Split(s, d)) == s
    decreases |s|
  {
    if d in s {
      var i := IndexOf(s, d);
      var tail := s[i + 1..];
      SplitJoin(tail, d);
      assert Split(s, d) == [s[..i]] + Split(tail, d);
      JoinCons([d], s[..i], Split(tail, d));
      assert s == s[..i] + [d] + tail;
    }
  }

  /** `s.split(d)` has one more piece than `s` has occurrences of `d`. */
  lemma {:induction false} SplitCount(s: String, d: char)
    ensures |Split(s, d)| == multiset(s)[d] + 1
    decreases |s|
  {
    if d in s {
      var i := IndexOf(s, d);
      SplitCount(s[i + 1..], d);
      FirstOccurrenceCount(s, i);
    } else {
      assert multiset(s)[d] == 0;
    }
  }

  /** Cutting a sequence at the first occurrence of an element removes exactly one occurrence of it. */
  lemma FirstOccurrenceCount<T>(s: seq<T>, i: nat)
    requires i < |s| && s[i] !in s[..i]
    ensures multiset(s)[s[i]] == multiset(s[i + 1..])[s[i]] + 1
  {
    assert s == s[..i] + [s[i]] + s[i + 1..];
    assert multiset(s) == multiset(s[..i]) + multiset{s[i]} + multiset(s[i + 1..]);
  }

  /**
   * A joined string is as long as its parts together plus one separator
   * between each two consecutive parts.
   */
  lemma {:induction false} JoinLength(sep: String, parts: seq<String>)
    requires |parts| > 0
    ensures |Join(sep, parts)| == TotalLength(parts) + |sep| * (|parts| - 1)
  {
    if |parts| > 1 {
      JoinLength(sep, parts[1..]);
    } else {
      assert parts[1..] == [];
    }
  }

  /** A joined string ends with its last part. */
  lemma {:induction false} JoinEndsWithLast(sep: String, parts: seq<String>)
    requires parts != []
    ensures var r := Join(sep, parts); var last := parts[|parts| - 1];
      |last| <= |r| && r[|r| - |last|..] == last
  {
    if |parts| > 1 {
      JoinEndsWithLast(sep, parts[1..]);
      assert parts[1..][|parts[1..]| - 1] == parts[|parts| - 1];
    }
  }

  /** A code point found neither in the separator nor in any part is not in the joined string. */
  lemma {:induction false} JoinExcludes(sep: String, parts: seq<String>, c: char)
    requires c !in sep
    requires forall k :: 0 <= k < |parts| ==> c !in parts[k]
    ensures c !in Join(sep, parts)
  {
    if |parts| > 1 {
      JoinExcludes(sep, parts[1..], c);
    }
  }

  /** `c.lower()` where it decides the outcome of a comparison with lower-case ASCII text. */
  function LowerChar(c: char): char
  {
    if 'A' <= c <= 'Z' then (c as int + 32) as char
    else if c == '\U{212A}' then 'k'   // KELVIN SIGN lowercases to an ASCII letter too
    else c
  }

  /**
   * `s.lower()`, code point by code point. Upper-case letters outside ASCII
   * are kept as they are: they lowercase to code points outside ASCII, so
   * no test of `s.lower()` against ASCII text can tell the difference.
   */
  function Lower(s: String): (r: String)
    ensures |r| == |s|
    ensures forall k :: 0 <= k < |s| ==> r[k] == LowerChar(s[k])
  {
    if s == [] then [] else [LowerChar(s[0])] + Lower(s[1..])
  }

  /** `needle` occurs in `hay` starting at index `i`. */
  predicate OccursAt(hay: String, needle: String, i: int)
  {
    0 <= i && i + |needle| <= |hay| && hay[i..i + |needle|] == needle
  }

  /** `needle in hay` for two strings: whether `needle` occurs anywhere in `hay`. */
  function Contains(hay: String, needle: String): (b: bool)
    ensures b <==> exists i :: OccursAt(hay, needle, i)
    decreases |hay|
  {
    if |hay| < |needle| then false
    else if hay[..|needle|] == needle then
      assert OccursAt(hay, needle, 0);
      true
    else
      var b := Contains(hay[1..], needle);
      if b then
        var i :| OccursAt(hay[1..], needle, i);
        OccursShift(hay, needle, i + 1);
        true
      else
        NoOccurrence(hay, needle);
        false
  }

  /** Dropping the first code point of `hay` moves each later occurrence one place to the left. */
  lemma OccursShift(hay: String, needle: String, i: int)
    requires 0 < i && 0 < |hay|
    ensures OccursAt(hay, needle, i) <==> OccursAt(hay[1..], needle, i - 1)
  {
    if i + |needle| <= |hay| {
      assert hay[1..][i - 1..i - 1 + |needle|] == hay[i..i + |needle|];
    }
  }

  /** `needle` occurs nowhere in `hay` when it neither starts `hay` nor occurs after its first code point. */
  lemma NoOccurrence(hay: String, needle: String)
    requires |needle| <= |hay| && 0 < |hay| && hay[..|needle|] != needle
    requires !exists i :: OccursAt(hay[1..], needle, i)
    ensures !exists i :: OccursAt(hay, needle, i)
  {
    forall i | OccursAt(hay, needle, i)
      ensures false
    {
      if i > 0 {
        OccursShift(hay, needle, i);
      }
    }
  }

  /** `s.endswith(tuple_of_chars)`: `s` is non-empty and ends in one of `ends`. */
  predicate EndsWithAny(s: String, ends: set<char>): (r: bool)
    ensures r <==> exists e :: e in ends && |s| > 0 && s == s[..|s| - 1] + [e]
  {
    |s| > 0 && s[|s| - 1] in ends
  }
}
