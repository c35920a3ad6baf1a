/**
 * The text handling of the singing-voice generator: how lyrics are turned
 * into the single line of text sent to the text-to-speech service, and how
 * the list of voices the service returns is narrowed to singing voices.
 */
module SingingGenerator {

  import opened Wrappers
  import opened PyStr

  // ---------------------------------------------------------------------
  // Lyrics formatting
  // ---------------------------------------------------------------------

  /** The endings after which a line is left as it is: a phrase is already closed. */
  const PhraseEnds: set<char> := {'.', '!', '?', ','}

  /** A line longer than this many code points that is not closed gets a period. */
  const ShortLine := 10

  /** One stripped, non-blank line as it is sent. */
  function FormatLine(line: String): (r: String)
    ensures r == line || r == line + "."
  {
    if !EndsWithAny(line, PhraseEnds) && |line| > ShortLine then line + "." else line
  }

  /**
   * A period is added to a line exactly when it is longer than `ShortLine`
   * and does not already end in one of `PhraseEnds`: a closed line or a
   * short line is left as it is, and afterwards every line longer than
   * `ShortLine` is closed. Formatting a formatted line changes nothing.
   */
  lemma FormatLineSpec(line: String)
    ensures FormatLine(line) == line + "." <==> |line| > ShortLine && !EndsWithAny(line, PhraseEnds)
    ensures EndsWithAny(line, PhraseEnds) || |line| <= ShortLine ==> FormatLine(line) == line
    ensures |FormatLine(line)| > ShortLine ==> EndsWithAny(FormatLine(line), PhraseEnds)
    ensures FormatLine(FormatLine(line)) == FormatLine(line)
  {
  }

  /** A segment of the formatted text: not empty, and neither starting nor ending in whitespace. */
  predicate Trimmed(s: String)
  {
    s != [] && !IsSpace(s[0]) && !IsSpace(s[|s| - 1])
  }

  /** Whether a line is blank: nothing but whitespace is left of it once stripped. */
  predicate Blank(line: String)
  {
    Strip(line) == []
  }

  /** What one line contributes: nothing when it is blank, its formatted stripped text otherwise. */
  function LineSegment(line: String): (r: seq<String>)
    ensures |r| <= 1
    ensures r == [] <==> Blank(line)
  {
    var t := Strip(line);
    if t == [] then [] else [FormatLine(t)]
  }

  /** The segments of a sequence of lines, line by line, in order. */
  function Segments(lines: seq<String>): (r: seq<String>)
    ensures |r| <= |lines|
  {
    if lines == [] then [] else LineSegment(lines[0]) + Segments(lines[1..])
  }

  /**
   * The text sent for `lyrics`: its lines' segments, joined by single
   * spaces. It never contains a newline: the lyrics are split on them, and
   * neither formatting nor joining adds one.
   */
  function FormattedLyrics(lyrics: String): (text: String)
    ensures '\n' !in text
  {
    var lines := Split(Strip(lyrics), '\n');
    SegmentsExclude(lines, '\n');
    JoinExcludes(" ", Segments(lines), '\n');
    Join(" ", Segments(lines))
  }

  /**
   * `_format_lyrics_for_singing`: split the stripped lyrics at newlines, strip
   * each line, skip the blank ones, close the long unclosed ones with a
   * period, and join what is left with spaces.
   */
  method FormatLyricsForSinging(lyrics: String) returns (text: String)
    ensures text == FormattedLyrics(lyrics)
    ensures '\n' !in text
    ensures text == [] <==> AllSpace(lyrics)
  {
    var lines := Split(Strip(lyrics), '\n');
    var formatted: seq<String> := [];
    var i := 0;
    while i < |lines|
      invariant 0 <= i <= |lines|
      invariant formatted == Segments(lines[..i])
    {
      ghost var before := formatted;
      var line := Strip(lines[i]);
      LineSegmentCases(lines[i]);
      if line != [] {
        if !EndsWithAny(line, PhraseEnds) {
          if |line| > ShortLine {
            line := line + ".";
          }
        }
        formatted := formatted + [line];
      }
      assert formatted == before + LineSegment(lines[i]);
      SegmentsStep(lines, i, before, formatted);
      i := i + 1;
    }
    assert lines[..i] == lines;
    text := Join(" ", formatted);
    FormattedEmptyIffBlank(lyrics);
  }

  /** The three cases of one loop step: a blank line, a line that gets a period, and a line kept as it is. */
  lemma LineSegmentCases(raw: String)
    ensures var t := Strip(raw);
      && (t == [] ==> LineSegment(raw) == [])
      && (t != [] && !EndsWithAny(t, PhraseEnds) && |t| > ShortLine ==> LineSegment(raw) == [t + "."])
      && (t != [] && (EndsWithAny(t, PhraseEnds) || |t| <= ShortLine) ==> LineSegment(raw) == [t])
  {
  }

  /**
   * The segments of two runs of lines one after the other are the segments
   * of the first run followed by those of the second: each line contributes
   * its own segment, independently of the others and in its own place.
   */
  lemma {:induction false} SegmentsAppend(a: seq<String>, b: seq<String>)
    ensures Segments(a + b) == Segments(a) + Segments(b)
  {
    if a == [] {
      assert a + b == b;
    } else {
      ConsAppend(a, b);
      SegmentsAppend(a[1..], b);
      AppendAssoc(LineSegment(a[0]), Segments(a[1..]), Segments(b));
    }
  }

  /** Appending to a non-empty sequence keeps its head and appends to its tail. */
  lemma ConsAppend<T>(a: seq<T>, b: seq<T>)
    requires a != []
    ensures (a + b)[0] == a[0] && (a + b)[1..] == a[1..] + b
  {
  }

  /** Taking one more line adds that line's segment, if any, at the end. */
  lemma SegmentsStep(lines: seq<String>, i: nat, before: seq<String>, after: seq<String>)
    requires i < |lines|
    requires before == Segments(lines[..i])
    requires after == before + LineSegment(lines[i])
    ensures after == Segments(lines[..i + 1])
  {
    TakeOneMore(lines, i);
    SegmentsAppend(lines[..i], [lines[i]]);
    SegmentsOfLine(lines[i]);
  }

  /** The first `i + 1` elements are the first `i` followed by element `i`. */
  lemma TakeOneMore<T>(s: seq<T>, i: nat)
    requires i < |s|
    ensures s[..i + 1] == s[..i] + [s[i]]
  {
  }

  /** A single line yields one segment, its formatted stripped text, unless it is blank. */
  lemma SegmentsOfLine(line: String)
    ensures Segments([line]) == LineSegment(line)
    ensures Segments([line]) == if Blank(line) then [] else [FormatLine(Strip(line))]
  {
  }

  /** There are no segments exactly when every line is blank. */
  lemma {:induction false} SegmentsEmptyIffAllBlank(lines: seq<String>)
    ensures Segments(lines) == [] <==> forall k :: 0 <= k < |lines| ==> Blank(lines[k])
  {
    if lines != [] {
      SegmentsEmptyIffAllBlank(lines[1..]);
      AllBlankCons(lines);
    }
  }

  /** All lines are blank exactly when the first is and all the others are. */
  lemma AllBlankCons(lines: seq<String>)
    requires lines != []
    ensures (forall k :: 0 <= k < |lines| ==> Blank(lines[k])) <==>
      Blank(lines[0]) && forall k :: 0 <= k < |lines[1..]| ==> Blank(lines[1..][k])
  {
    assert forall k :: 1 <= k < |lines| ==> lines[1..][k - 1] == lines[k];
  }

  /** Every segment is non-empty and neither begins nor ends in whitespace. */
  lemma {:induction false} SegmentsTrimmed(lines: seq<String>)
    ensures forall k :: 0 <= k < |Segments(lines)| ==> Trimmed(Segments(lines)[k])
  {
    if lines != [] {
      SegmentsTrimmed(lines[1..]);
      LineSegmentTrimmed(lines[0]);
      TrimmedAppend(LineSegment(lines[0]), Segments(lines[1..]));
    }
  }

  /** A line's segment, if any, is trimmed: stripping leaves no whitespace at either end, and a period is not whitespace. */
  lemma LineSegmentTrimmed(line: String)
    ensures forall k :: 0 <= k < |LineSegment(line)| ==> Trimmed(LineSegment(line)[k])
  {
    var t := Strip(line);
    if t != [] {
      StripShape(line);
      assert Trimmed(t);
      FormatLineTrimmed(t);
      assert LineSegment(line) == [FormatLine(t)];
    }
  }

  /** Formatting a trimmed line keeps it trimmed, since a period is not whitespace. */
  lemma FormatLineTrimmed(t: String)
    requires Trimmed(t)
    ensures Trimmed(FormatLine(t))
  {
    var r := FormatLine(t);
    if r != t {
      assert r == t + "." && r[0] == t[0] && r[|r| - 1] == '.';
      PeriodIsNotSpace();
    }
  }

  /** Appending two lists of trimmed segments gives a list of trimmed segments. */
  lemma TrimmedAppend(a: seq<String>, b: seq<String>)
    requires forall k :: 0 <= k < |a| ==> Trimmed(a[k])
    requires forall k :: 0 <= k < |b| ==> Trimmed(b[k])
    ensures forall k :: 0 <= k < |a + b| ==> Trimmed((a + b)[k])
  {
  }

  /** Segments of lines without a given code point do not contain it either. */
  lemma {:induction false} SegmentsExclude(lines: seq<String>, c: char)
    requires c != '.'
    requires forall k :: 0 <= k < |lines| ==> c !in lines[k]
    ensures forall k :: 0 <= k < |Segments(lines)| ==> c !in Segments(lines)[k]
  {
    if lines != [] {
      SegmentsExclude(lines[1..], c);
      LineSegmentExcludes(lines[0], c);
      ExcludeAppend(LineSegment(lines[0]), Segments(lines[1..]), c);
    }
  }

  /** A line's segment contains only code points of the line, and perhaps a period. */
  lemma LineSegmentExcludes(line: String, c: char)
    requires c != '.' && c !in line
    ensures forall k :: 0 <= k < |LineSegment(line)| ==> c !in LineSegment(line)[k]
  {
    StripShape(line);
    var t := Strip(line);
    assert c !in t by {
      forall j | 0 <= j < |t|
        ensures t[j] != c
      {
        assert t[j] == line[LeadingSpace(line) + j];
      }
    }
  }

  /** Appending two lists of segments that lack a code point gives a list that lacks it. */
  lemma ExcludeAppend(a: seq<String>, b: seq<String>, c: char)
    requires forall k :: 0 <= k < |a| ==> c !in a[k]
    requires forall k :: 0 <= k < |b| ==> c !in b[k]
    ensures forall k :: 0 <= k < |a + b| ==> c !in (a + b)[k]
  {
  }

  /** The formatted text is empty exactly when the lyrics are empty or all whitespace. */
  lemma FormattedEmptyIffBlank(lyrics: String)
    ensures FormattedLyrics(lyrics) == [] <==> AllSpace(lyrics)
  {
    var lines := Split(Strip(lyrics), '\n');
    var segs := Segments(lines);
    SegmentsTrimmed(lines);
    if segs != [] {
      JoinStartsWithFirst(" ", segs);
    }
    SegmentsEmptyIffAllBlank(lines);
    LinesAllBlankIffBlank(lyrics);
  }

  /** A joined string begins with its first part. */
  lemma JoinStartsWithFirst(sep: String, parts: seq<String>)
    requires parts != []
    ensures parts[0] <= Join(sep, parts)
  {
  }

  /** Every line of the stripped lyrics is blank exactly when the lyrics are all whitespace. */
  lemma LinesAllBlankIffBlank(lyrics: String)
    ensures var lines := Split(Strip(lyrics), '\n');
      (forall k :: 0 <= k < |lines| ==> Blank(lines[k])) <==> AllSpace(lyrics)
  {
    var t := Strip(lyrics);
    var lines := Split(t, '\n');
    StripShape(lyrics);
    if t == [] {
      assert lines == [[]];
    } else {
      // the first line starts with the first code point of the stripped
      // lyrics, which is not whitespace, so it is not blank
      NewlineIsSpace();
      SplitFirst(t, '\n');
      var first := lines[0];
      StripShape(first);
      assert !IsSpace(first[0]);
      assert !Blank(first);
    }
  }

  /** The first piece of a split begins with the string's first code point unless that is the separator. */
  lemma SplitFirst(s: String, d: char)
    requires s != [] && s[0] != d
    ensures Split(s, d)[0] != [] && Split(s, d)[0][0] == s[0]
  {
  }

  /**
   * The formatted text is as long as its segments together plus one space
   * between each two of them.
   */
  lemma FormattedLength(lyrics: String)
    ensures var segs := Segments(Split(Strip(lyrics), '\n'));
      |FormattedLyrics(lyrics)| == if segs == [] then 0 else TotalLength(segs) + |segs| - 1
  {
    var segs := Segments(Split(Strip(lyrics), '\n'));
    if segs != [] {
      JoinLength(" ", segs);
    }
  }

  // ---------------------------------------------------------------------
  // Singing-voice filter
  // ---------------------------------------------------------------------

  /**
   * One voice record of the service's voice list. A field the record does
   * not have reads as `None`; a missing category is read as "".
   */
  datatype Voice = Voice(voiceId: Option<String>, name: Option<String>, category: Option<String>)

  /** The filter stops at the voice at `index`: its name is missing, so `name.lower()` raises. */
  datatype FilterError = NameMissing(index: nat)

  /** The dictionary the filter builds: voice name to voice id. */
  type VoiceMap = map<Option<String>, Option<String>>

  /** The category test: the lower-cased category contains "singing". */
  predicate SingingCategory(v: Voice)
  {
    Contains(Lower(v.category.GetOr("")), "singing")
  }

  /**
   * Whether the filter keeps `v`, or `None` where testing it raises. The
   * name is looked at only when the category test fails, so a missing name
   * is harmless for a voice whose category is a singing one.
   */
  function Verdict(v: Voice): (r: Option<bool>)
    ensures r == Some(true) <==> SingingCategory(v) || (v.name.Some? && Contains(Lower(v.name.value), "singer"))
    ensures r == None <==> !SingingCategory(v) && v.name.None?
  {
    if SingingCategory(v) then Some(true)
    else if v.name.None? then None
    else Some(Contains(Lower(v.name.value), "singer"))
  }

  /** The filter keeps `v`. */
  predicate Kept(v: Voice)
  {
    Verdict(v) == Some(true)
  }

  /** The filter's outcome on `voices`, voice by voice from the first; an error names a voice whose test raises. */
  function SingingVoices(voices: seq<Voice>): (r: Result<VoiceMap, FilterError>)
    ensures r.Err? ==> r.error.index < |voices| && Verdict(voices[r.error.index]).None?
  {
    if voices == [] then Ok(map[])
    else
      var n := |voices| - 1;
      match SingingVoices(voices[..n])
      case Err(e) => Err(e)
      case Ok(m) =>
        match Verdict(voices[n])
        case None => Err(NameMissing(n))
        case Some(keep) => Ok(if keep then m[voices[n].name := voices[n].voiceId] else m)
  }

  /**
   * The filter in `list_singing_voices`: walk the voices in order, and
   * record the id of each voice whose category mentions singing or whose
   * name mentions a singer under its name.
   */
  method ListSingingVoices(voices: seq<Voice>) returns (r: Result<VoiceMap, FilterError>)
    ensures r == SingingVoices(voices)
  {
    var singingVoices: VoiceMap := map[];
    var i := 0;
    while i < |voices|
      invariant 0 <= i <= |voices|
      invariant SingingVoices(voices[..i]) == Ok(singingVoices)
    {
      var voice := voices[i];
      var voiceId := voice.voiceId;
      var name := voice.name;
      var category := voice.category.GetOr("");
      var keep: bool;
      if Contains(Lower(category), "singing") {
        keep := true;
      } else if name.None? {
        // `name.lower()` on `None` raises, and the exception ends the call
        assert voices[..i + 1][..i] == voices[..i];
        ErrorIsFinal(voices, i + 1);
        return Err(NameMissing(i));
      } else {
        keep := Contains(Lower(name.value), "singer");
      }
      if keep {
        singingVoices := singingVoices[name := voiceId];
      }
      assert voices[..i + 1][..i] == voices[..i];
      i := i + 1;
    }
    assert voices[..i] == voices;
    r := Ok(singingVoices);
  }

  /** Once the filter has failed on a prefix of the voices, it fails with the same error on all of them. */
  lemma {:induction false} ErrorIsFinal(voices: seq<Voice>, j: nat)
    requires j <= |voices| && SingingVoices(voices[..j]).Err?
    ensures SingingVoices(voices) == SingingVoices(voices[..j])
    decreases |voices| - j
  {
    if j < |voices| {
      var n := |voices| - 1;
      assert voices[..n][..j] == voices[..j];
      ErrorIsFinal(voices[..n], j);
    } else {
      assert voices[..j] == voices;
    }
  }

  /**
   * The index of the last voice the filter keeps under the name `k`, or -1
   * when it keeps none: the voice whose id ends up recorded under `k`.
   */
  function LastKept(voices: seq<Voice>, k: Option<String>): (i: int)
    ensures -1 <= i < |voices|
    ensures i >= 0 ==> Kept(voices[i]) && voices[i].name == k
    ensures forall j :: i < j < |voices| ==> !(Kept(voices[j]) && voices[j].name == k)
  {
    if voices == [] then -1
    else
      var n := |voices| - 1;
      if Kept(voices[n]) && voices[n].name == k then n else LastKept(voices[..n], k)
  }

  /**
   * When the filter succeeds, a name is recorded exactly when some voice
   * with that name is kept, and it is recorded with the id of the last such
   * voice: a later voice of the same name overwrites an earlier one.
   */
  lemma {:induction false} SingingVoicesContents(voices: seq<Voice>, k: Option<String>)
    requires SingingVoices(voices).Ok?
    ensures var m := SingingVoices(voices).value;
      && (k in m <==> LastKept(voices, k) >= 0)
      && (k in m ==> m[k] == voices[LastKept(voices, k)].voiceId)
  {
    if voices != [] {
      var n := |voices| - 1;
      SingingVoicesContents(voices[..n], k);
      forall j | 0 <= j < n ensures voices[..n][j] == voices[j] { }
    }
  }

  /**
   * The index of the first voice the filter cannot test (category not a
   * singing one and name missing), or -1 when there is none.
   */
  function FirstUntestable(voices: seq<Voice>): (i: int)
    ensures -1 <= i < |voices|
    ensures i >= 0 ==> Verdict(voices[i]).None?
    ensures forall j :: 0 <= j < |voices| && (i < 0 || j < i) ==> Verdict(voices[j]).Some?
  {
    if voices == [] then -1
    else
      var n := |voices| - 1;
      var f := FirstUntestable(voices[..n]);
      if f >= 0 then f else if Verdict(voices[n]).None? then n else -1
  }

  /**
   * The filter fails exactly when some voice cannot be tested, and then it
   * reports the first such voice: nothing after it is looked at.
   */
  lemma {:induction false} SingingVoicesFails(voices: seq<Voice>)
    ensures SingingVoices(voices).Err? <==> FirstUntestable(voices) >= 0
    ensures SingingVoices(voices).Err? ==> SingingVoices(voices).error.index == FirstUntestable(voices)
  {
    if voices != [] {
      var n := |voices| - 1;
      SingingVoicesFails(voices[..n]);
    }
  }
}
