/**
 * The text handling of the music generator: the prompt it sends to the
 * music service for a set of lyrics, and the name of the file it writes
 * when the caller gives none.
 */
module MusicGenerator {

  import opened Wrappers
  import opened PyStr
  import PyPath

  // ---------------------------------------------------------------------
  // Prompt
  // ---------------------------------------------------------------------

  /** The genres the prompt describes further, keyed by lower-case genre name. */
  const GenreDetails: map<String, String> := map[
    "pop" := "with catchy melodies, modern production, and clear vocals",
    "rock" := "with electric guitars, driving drums, and powerful vocals",
    "jazz" := "with smooth instrumentation, improvisation, and soulful vocals",
    "country" := "with acoustic guitar, storytelling vocals, and warm harmonies",
    "electronic" := "with synth layers, electronic beats, and processed vocals",
    "rap" := "with hip-hop beats, rhythmic flow, and strong bass",
    "r&b" := "with smooth grooves, emotional vocals, and rich harmonies",
    "folk" := "with acoustic instruments, natural vocals, and simple arrangements",
    "classical" := "with orchestral elements and operatic or refined vocals"
  ]

  /** The second part of every prompt. */
  const LyricsIntro: String := "The song should have vocals singing the following lyrics:"

  /** The first part of every prompt, with the caller's genre as given. */
  function Opening(mood: String, genre: String, tempo: String): (o: String)
    ensures |o| == 28 + |mood| + |genre| + |tempo|
    ensures o[..9] == "Create a " && o[10 + |mood|..10 + |mood| + |genre|] == genre
    ensures o[|o| - 7..] == " tempo."
  {
    "Create a " + mood + " " + genre + " song with " + tempo + " tempo."
  }

  /** The third part: the stripped lyrics in double quotes. */
  function QuotedLyrics(lyrics: String): (q: String)
    ensures |q| == |Strip(lyrics)| + 2 && q[0] == '"' && q[|q| - 1] == '"'
    ensures q[1..|q| - 1] == Strip(lyrics)
  {
    "\"" + Strip(lyrics) + "\""
  }

  /** The genre lookup ignores case: the genre's lower-case form is the key, so only genres of 3 to 10 code points are known. */
  predicate KnownGenre(genre: String): (known: bool)
    ensures known ==> 3 <= |genre| <= 10
  {
    Lower(genre) in GenreDetails
  }

  /**
   * The parts `_build_prompt` joins: the opening, the lyrics introduction and
   * the quoted lyrics, then the genre's description when the genre is known.
   */
  function PromptParts(lyrics: String, genre: String, tempo: String, mood: String): (parts: seq<String>)
    ensures |parts| == if KnownGenre(genre) then 4 else 3
  {
    var parts := [Opening(mood, genre, tempo), LyricsIntro, QuotedLyrics(lyrics)];
    var key := Lower(genre);
    if key in GenreDetails then parts + [GenreDetails[key]] else parts
  }

  /** The prompt up to and including the quoted lyrics, which every prompt begins with. */
  function PromptHead(lyrics: String, genre: String, tempo: String, mood: String): (h: String)
    ensures Opening(mood, genre, tempo) <= h
    ensures h[|h| - 1] == '"'
  {
    Opening(mood, genre, tempo) + " " + LyricsIntro + " " + QuotedLyrics(lyrics)
  }

  /** What follows the quoted lyrics: a space and the genre's description, or nothing. */
  function PromptTail(genre: String): (t: String)
    ensures t == [] <==> !KnownGenre(genre)
    ensures t != [] ==> t[0] == ' ' && t[|t| - 1] == 's'
  {
    DetailsEndInS();
    if KnownGenre(genre) then " " + GenreDetails[Lower(genre)] else ""
  }

  /**
   * `_build_prompt`: the prompt parts joined by single spaces. It begins with
   * the opening sentence, then the introduction and the quoted lyrics, and
   * ends in the genre's description exactly when the genre is known.
   */
  function BuildPrompt(lyrics: String, genre: String, tempo: String, mood: String): (prompt: String)
    ensures prompt == PromptHead(lyrics, genre, tempo, mood) + PromptTail(genre)
  {
    PromptJoin(lyrics, genre, tempo, mood);
    Join(" ", PromptParts(lyrics, genre, tempo, mood))
  }

  /**
   * The lyrics read back out of a prompt built for the given genre, tempo
   * and mood: what stands inside the quotes between the fixed head and the
   * genre's description. `None` when the prompt does not have that shape.
   */
  function PromptLyrics(prompt: String, genre: String, tempo: String, mood: String): Option<String>
  {
    var head := Opening(mood, genre, tempo) + " " + LyricsIntro + " \"";
    var tail := "\"" + PromptTail(genre);
    if |head| + |tail| <= |prompt| && prompt[..|head|] == head && prompt[|prompt| - |tail|..] == tail
    then Some(prompt[|head|..|prompt| - |tail|])
    else None
  }

  /** The prompt carries the stripped lyrics verbatim, in quotes, where they can be read back. */
  lemma PromptCarriesLyrics(lyrics: String, genre: String, tempo: String, mood: String)
    ensures PromptLyrics(BuildPrompt(lyrics, genre, tempo, mood), genre, tempo, mood) == Some(Strip(lyrics))
  {
    var prompt := BuildPrompt(lyrics, genre, tempo, mood);
    var head := Opening(mood, genre, tempo) + " " + LyricsIntro + " \"";
    var tail := "\"" + PromptTail(genre);
    Regroup(Opening(mood, genre, tempo), LyricsIntro, Strip(lyrics), PromptTail(genre));
    SliceThree(head, Strip(lyrics), tail);
  }

  /**
   * Every prompt begins with the opening sentence, which names the genre
   * exactly as the caller wrote it; everything after it depends on the
   * genre only through its lower-case form.
   */
  lemma GenreCaseInsensitive(lyrics: String, g1: String, g2: String, tempo: String, mood: String)
    requires Lower(g1) == Lower(g2)
    ensures var p1, p2 := BuildPrompt(lyrics, g1, tempo, mood), BuildPrompt(lyrics, g2, tempo, mood);
      var n1, n2 := |Opening(mood, g1, tempo)|, |Opening(mood, g2, tempo)|;
      && n1 <= |p1| && p1[..n1] == Opening(mood, g1, tempo)
      && n2 <= |p2| && p2[n2..] == p1[n1..]
  {
    var tail := PromptTail(g1);
    assert PromptTail(g2) == tail;
    var q := QuotedLyrics(lyrics);
    var rest := " " + LyricsIntro + " " + q + tail;
    HeadRest(Opening(mood, g1, tempo), LyricsIntro, q, tail);
    HeadRest(Opening(mood, g2, tempo), LyricsIntro, q, tail);
    SliceTwo(Opening(mood, g1, tempo), rest);
    SliceTwo(Opening(mood, g2, tempo), rest);
  }

  /**
   * A genre description is appended exactly for a known genre: the prompt
   * ends in the closing quote of the lyrics when the genre is unknown, and
   * in the genre's description (which never ends in a quote) otherwise.
   */
  lemma DescriptionIffKnownGenre(lyrics: String, genre: String, tempo: String, mood: String)
    ensures var prompt := BuildPrompt(lyrics, genre, tempo, mood);
      KnownGenre(genre) <==> prompt[|prompt| - 1] != '"'
  {
    var head := PromptHead(lyrics, genre, tempo, mood);
    var q := QuotedLyrics(lyrics);
    var front := Opening(mood, genre, tempo) + " " + LyricsIntro + " ";
    LastOfAppend(front, q);
    if KnownGenre(genre) {
      DetailsEndInS();
      var d := GenreDetails[Lower(genre)];
      LastOfAppend(head, " " + d);
      LastOfAppend([' '], d);
    }
  }

  /** Every genre description ends in the letter s. */
  lemma DetailsEndInS()
    ensures forall k :: k in GenreDetails ==> |GenreDetails[k]| > 0 && GenreDetails[k][|GenreDetails[k]| - 1] == 's'
  {
  }

  /** The genre the web server asks for, "a cappella", is not a known genre: its prompt has three parts and no description. */
  lemma ACappellaHasNoDescription(lyrics: String, tempo: String, mood: String)
    ensures |PromptParts(lyrics, "a cappella", tempo, mood)| == 3
    ensures BuildPrompt(lyrics, "a cappella", tempo, mood) == PromptHead(lyrics, "a cappella", tempo, mood)
  {
    ACappellaUnknown();
  }

  /**
   * "a cappella" is not one of the nine genres in any case: lowering keeps
   * its ten code points, the only ten-letter genre is "electronic", and the
   * two begin with different letters.
   */
  lemma ACappellaUnknown()
    ensures !KnownGenre("a cappella")
  {
    var key := Lower("a cappella");
    assert |key| == 10 && key[0] == 'a';
    NotElectronicNotKnown(key);
  }

  /** Among the genres only "electronic" has ten letters, so no other ten-letter key is known. */
  lemma NotElectronicNotKnown(key: String)
    requires |key| == 10 && key[0] != 'e'
    ensures key !in GenreDetails
  {
    assert key != "electronic" by {
      assert "electronic"[0] == 'e';
    }
  }

  // ---------------------------------------------------------------------
  // Output file name
  // ---------------------------------------------------------------------

  /** What `generate_from_file` appends to the lyrics file's stem to name the audio file. */
  const MusicSuffix: String := "_music.mp3"

  /**
   * The output path `generate_from_file` uses: the caller's path when one is
   * given (even an empty one), and otherwise a file in the working
   * directory named after the lyrics file's stem.
   */
  function OutputPath(lyricsFile: String, outputPath: Option<String>): (r: String)
    ensures outputPath.Some? ==> r == outputPath.value
    ensures outputPath.None? ==>
      && '/' !in r
      && |r| >= |MusicSuffix| && r[|r| - |MusicSuffix|..] == MusicSuffix
      && r[..|r| - |MusicSuffix|] + PyPath.Suffix(PyPath.Name(lyricsFile)) == PyPath.Name(lyricsFile)
  {
    match outputPath
    case Some(p) => p
    case None =>
      var stem := PyPath.Stem(PyPath.Name(lyricsFile));
      assert '/' !in stem by {
        assert stem == PyPath.Name(lyricsFile)[..|stem|];
      }
      stem + MusicSuffix
  }

  /**
   * The default name for a lyrics file `dir/stem.ext`: the directory and the
   * last suffix are dropped, so it is `stem_music.mp3` (a stem may itself
   * hold dots, as in `notes.tar.gz`).
   */
  lemma DefaultOutputName(dir: String, stem: String, ext: String)
    requires stem != [] && ext != []
    requires '/' !in stem && '/' !in ext && '.' !in ext
    ensures OutputPath(dir + "/" + stem + "." + ext, None) == stem + MusicSuffix
  {
    var base := stem + "." + ext;
    assert '/' !in base;
    assert !PyPath.Improper(base) by { assert |base| >= 3; }
    assert dir + "/" + stem + "." + ext == dir + "/" + base;
    PyPath.NameOfChild(dir, base);
    PyPath.StemBeforeLastDot(stem, ext);
  }

  lemma PromptJoin(lyrics: String, genre: String, tempo: String, mood: String)
    ensures Join(" ", PromptParts(lyrics, genre, tempo, mood))
         == PromptHead(lyrics, genre, tempo, mood) + PromptTail(genre)
  {
    var extra := if KnownGenre(genre) then [GenreDetails[Lower(genre)]] else [];
    assert PromptParts(lyrics, genre, tempo, mood)
        == [Opening(mood, genre, tempo), LyricsIntro, QuotedLyrics(lyrics)] + extra;
    JoinThreeAndMore(Opening(mood, genre, tempo), LyricsIntro, QuotedLyrics(lyrics), extra);
  }

  /** Three parts and at most one more, joined by spaces. */
  lemma JoinThreeAndMore(a: String, b: String, c: String, extra: seq<String>)
    requires |extra| <= 1
    ensures Join(" ", [a, b, c] + extra) == a + " " + b + " " + c + (if extra == [] then "" else " " + extra[0])
  {
    var e: String := if extra == [] then "" else " " + extra[0];
    var tail := [c] + extra;
    ConsThree(a, b, c, extra);
    if extra == [] {
      assert tail == [c];
      JoinOne(" ", c);
      assert c + e == c;
    } else {
      assert extra == [extra[0]];
      JoinOne(" ", extra[0]);
      JoinCons(" ", c, extra);
      assert e == " " + extra[0];
      AppendAssoc(c, " ", extra[0]);
    }
    assert Join(" ", tail) == c + e;
    JoinCons(" ", b, tail);
    JoinCons(" ", a, [b] + tail);
    assert Join(" ", [a] + ([b] + tail)) == a + " " + (b + " " + (c + e));
    Flatten(a, b, c, e);
  }

  /** Three elements in front of a sequence, one at a time. */
  lemma ConsThree<T>(a: T, b: T, c: T, extra: seq<T>)
    ensures [a, b, c] + extra == [a] + ([b] + ([c] + extra))
  {
  }

  /** Drops the nesting of two space-separated joins. */
  lemma Flatten(a: String, b: String, c: String, e: String)
    ensures a + " " + (b + " " + (c + e)) == a + " " + b + " " + c + e
  {
  }

  /** Moves the opening quote of the lyrics into the head and the closing quote into the tail. */
  lemma Regroup(o: String, i: String, l: String, t: String)
    ensures o + " " + i + " " + ("\"" + l + "\"") + t == (o + " " + i + " \"") + l + ("\"" + t)
  {
  }

  /** The three pieces of a concatenation are its slices. */
  lemma SliceThree(h: String, m: String, t: String)
    ensures var p := h + m + t;
      && p[..|h|] == h && p[|p| - |t|..] == t && p[|h|..|p| - |t|] == m
  {
  }

  /** Splits a prompt after its opening sentence. */
  lemma HeadRest(o: String, i: String, q: String, t: String)
    ensures o + " " + i + " " + q + t == o + (" " + i + " " + q + t)
  {
  }

  /** The two pieces of a concatenation are its slices. */
  lemma SliceTwo(a: String, b: String)
    ensures |a| <= |a + b| && (a + b)[..|a|] == a && (a + b)[|a|..] == b
  {
  }

  /** A concatenation ends in the last character of its non-empty second piece. */
  lemma LastOfAppend(a: String, b: String)
    requires |b| > 0
    ensures (a + b)[|a + b| - 1] == b[|b| - 1]
  {
  }
}
