# AI music generator and hand tracker: text and gesture logic in Dafny

This project models the parts of the AI music generator and the
hand-tracking demo that turn inputs into text or numbers. No network
call, file or camera is involved in these parts.

- **Singing lyrics formatter** (`_format_lyrics_for_singing`, `music_generator/test.py`).
  It strips the lyrics and splits them into lines, then strips every line and drops blank ones.
  A line longer than ten characters that does not end in `.`, `!`, `?` or `,` gets a full stop.
  The surviving lines are joined with single spaces.
  `SingingGenerator.FormatLyricsForSinging` is a method with the source's loop.
  It is proved equal to the recursive reference `FormattedLyrics`, and lemmas state what that reference guarantees.
- **Singing-voice filter** (the loop in `list_singing_voices`, same file).
  A voice is kept when its category contains "singing" or its name contains "singer", ignoring case.
  A kept voice's name maps to its id, and a later voice overwrites an earlier one with the same name.
  A voice without a name stops the whole listing with an error, but only when the category test fails: Python's `or` short-circuits.
  The method `ListSingingVoices` runs the source's loop with an early error exit.
  Lemmas give the contents of the resulting map and the exact condition and position of the error.
- **Music prompt** (`_build_prompt`, `music_generator/generate_music.py`).
  The prompt is the opening sentence (mood, genre and tempo), the lyrics introduction and the quoted stripped lyrics.
  When the lower-cased genre is one of nine known genres, that genre's description follows.
  The parts are joined with single spaces.
- **Default output name** (`generate_from_file`, same file).
  It is the stem of the lyrics file's name followed by `_music.mp3`.
  It uses POSIX path rules and the suffix rule of CPython 3.12's `pathlib`.
- **Finger counting** (`count_fingers`, `testhands.py`).
  The thumb is compared along x; which direction counts depends on the handedness label.
  The index, middle, ring and little fingers compare the tip's y with the landmark two below it.
  The method `HandGestures.CountFingers` builds the 0/1 list by appends, as the source does, and returns its sum.
  It is proved equal to the number of raised fingers, which lies between 0 and 5.
- **Gesture label** (the if/elif chain after the count, `testhands.py`).
  It maps 0–5 to fixed labels and any other number to "<n> Fingers".
  The model has an inverse that reads the count back from the label.

The Python built-ins the core relies on are modelled in `py_str.dfy` and `py_path.dfy`:
- `str.strip` with Python's exact whitespace set;
- `split` on one character, and `join`;
- `in` on strings, `lower` and `endswith` with a tuple;
- `PurePosixPath.name`, `.suffix` and `.stem`.

`Option` and `Result` are in `wrappers.dfy`.

## Model

| member | source | states |
|---|---|---|
| PyStr.Strip | music_generator/test.py:152 | `str.strip`: the result is no longer than the input; with `StripShape` it is the input minus its leading and trailing Python whitespace |
| PyStr.StripShape | music_generator/test.py:156 | a stripped string is empty exactly when the input is all whitespace; otherwise it neither starts nor ends with whitespace, and it is the slice between the leading and trailing whitespace runs |
| PyStr.LeadingSpace | music_generator/test.py:156 | the leading whitespace run: every character in it is whitespace and the character after it is not |
| PyStr.TrailingSpace | music_generator/test.py:156 | the trailing whitespace run: every character in it is whitespace and the character before it is not |
| PyStr.NewlineIsSpace | music_generator/test.py:152 | newline and space are Python whitespace, so `strip` removes them |
| PyStr.AsciiSpace | music_generator/test.py:152 | `isspace`: below code point 128 exactly tab, line feed, vertical tab, form feed, carriage return, the four information separators and the space are whitespace |
| PyStr.Split | music_generator/test.py:152 | `split('\n')` returns at least one piece, and no piece contains the separator |
| PyStr.IndexOf | music_generator/test.py:152 | the first occurrence of the separator: it is at that index and not before it |
| PyStr.SplitJoin | music_generator/test.py:152 | joining the pieces of a split with the separator gives back the string |
| PyStr.SplitCount | music_generator/test.py:152 | a split has one more piece than the string has separators |
| PyStr.Join | music_generator/test.py:165 | `sep.join(parts)`: empty for no parts; otherwise it begins with the first part |
| PyStr.JoinEndsWithLast | music_generator/test.py:165 | a joined string ends with its last part |
| PyStr.JoinLength | music_generator/test.py:165 | the length of `sep.join(parts)` is the parts' total length plus one separator between each two parts |
| PyStr.JoinExcludes | music_generator/test.py:165 | a character that is in neither the separator nor any part is not in the joined string |
| PyStr.Lower | music_generator/test.py:68 | `lower` keeps the length and lowers each character |
| PyStr.Contains | music_generator/test.py:68 | the substring test `in` is true exactly when the needle occurs at some index of the haystack |
| PyStr.EndsWithAny | music_generator/test.py:159 | `endswith` with a tuple of one-character strings is true exactly when one of them is the string's last character |
| PyPath.Name | music_generator/generate_music.py:188-197 | `.name`: the last component of the path split at `/` that is neither empty nor `.`; empty exactly when every component is empty or `.` |
| PyPath.LastProperComponent | music_generator/generate_music.py:188-197 | the last component that is neither empty nor `.`, or empty when there is none; it holds no `/` and is never `.` |
| PyPath.SplitLast | music_generator/generate_music.py:188-197 | the last piece of a split at `/` is what follows the last `/` |
| PyPath.NameOfChild | music_generator/generate_music.py:188-197 | the name of `dir/base` is `base` for any proper component `base` |
| PyPath.Suffix | music_generator/generate_music.py:197 | a suffix exists exactly when some dot with no dot after it is neither the name's first nor its last character; it is then the end of the name from that dot |
| PyPath.Stem | music_generator/generate_music.py:197 | the stem followed by the suffix is the name; a non-empty suffix starts with its only `.`, has at least one character after it, and leaves a non-empty stem |
| PyPath.StemBeforeLastDot | music_generator/generate_music.py:197 | the stem of `stem.ext`, where `ext` has no dot, is `stem` |
| SingingGenerator.FormatLine | music_generator/test.py:159-162 | a line is left alone or gets exactly one `.` appended |
| SingingGenerator.FormatLineSpec | music_generator/test.py:159-162 | a `.` is added exactly when the line is longer than 10 characters and does not end in `.`, `!`, `?` or `,`; short or closed lines are unchanged; every formatted line longer than 10 characters ends in punctuation; formatting twice is formatting once |
| SingingGenerator.LineSegment | music_generator/test.py:156-163 | a line contributes at most one segment, and none exactly when it is blank after stripping |
| SingingGenerator.LineSegmentCases | music_generator/test.py:156-163 | the three outcomes of one line: blank lines give nothing, long unclosed lines give their stripped text with `.` appended, all others give their stripped text |
| SingingGenerator.Segments | music_generator/test.py:155-163 | the formatted list has no more entries than there are lines |
| SingingGenerator.FormatLyricsForSinging | music_generator/test.py:147-165 | the loop computes the reference formatting; the result has no newline; it is empty exactly when the lyrics are all whitespace |
| SingingGenerator.SegmentsAppend | music_generator/test.py:155-163 | the lines are formatted independently: the segments of two runs of lines are the segments of each, in order |
| SingingGenerator.SegmentsStep | music_generator/test.py:155-163 | one loop step appends the current line's segment to the list built so far |
| SingingGenerator.SegmentsOfLine | music_generator/test.py:156-163 | a single line yields nothing if blank and otherwise its stripped, formatted self |
| SingingGenerator.SegmentsEmptyIffAllBlank | music_generator/test.py:157 | the formatted list is empty exactly when every line is blank |
| SingingGenerator.SegmentsTrimmed | music_generator/test.py:156-163 | every formatted line is non-empty and has no leading or trailing whitespace |
| SingingGenerator.LineSegmentTrimmed | music_generator/test.py:156-163 | the segment of one line is non-empty and neither starts nor ends with whitespace |
| SingingGenerator.SegmentsExclude | music_generator/test.py:155-163 | formatting adds no character other than `.` to any line |
| SingingGenerator.LineSegmentExcludes | music_generator/test.py:156-163 | formatting one line adds no character other than `.` |
| SingingGenerator.FormattedLyrics | music_generator/test.py:147-165 | the reference formatting: the segments of the stripped lyrics' lines joined by spaces; it never contains a newline |
| SingingGenerator.FormattedEmptyIffBlank | music_generator/test.py:152-165 | the formatted lyrics are empty exactly when the lyrics are all whitespace |
| SingingGenerator.LinesAllBlankIffBlank | music_generator/test.py:152 | every line of the stripped lyrics is blank exactly when the lyrics are all whitespace |
| SingingGenerator.FormattedLength | music_generator/test.py:165 | the formatted text is as long as its lines plus one space between each two |
| SingingGenerator.Verdict | music_generator/test.py:68 | a voice is kept exactly when its category contains "singing" or it has a name containing "singer", ignoring case; the test fails with an error exactly when the category test fails and the name is missing |
| SingingGenerator.SingingVoices | music_generator/test.py:61-72 | the reference filter, voice by voice; an error names a voice whose test raises |
| SingingGenerator.ListSingingVoices | music_generator/test.py:61-72 | the loop over the voices computes the reference filter, including the error for a missing name |
| SingingGenerator.ErrorIsFinal | music_generator/test.py:62-69 | once a voice raises, later voices do not change the outcome |
| SingingGenerator.LastKept | music_generator/test.py:69 | the last kept voice with a given name: it is kept and has that name, and no later voice does both |
| SingingGenerator.SingingVoicesContents | music_generator/test.py:61-72 | a name is a key of the result exactly when some kept voice has it, and it maps to the id of the last such voice |
| SingingGenerator.FirstUntestable | music_generator/test.py:68 | the first voice whose test raises: its test fails for lack of a name and all earlier tests decide |
| SingingGenerator.SingingVoicesFails | music_generator/test.py:61-72 | the listing fails exactly when some voice fails the category test and has no name, and the error names the first such voice |
| MusicGenerator.PromptParts | music_generator/generate_music.py:148-168 | the prompt has four parts when the lower-cased genre is known and three otherwise |
| MusicGenerator.Opening | music_generator/generate_music.py:149 | the opening sentence starts with "Create a ", carries the caller's genre as given after the mood, and ends in " tempo." |
| MusicGenerator.QuotedLyrics | music_generator/generate_music.py:145-151 | the stripped lyrics between two double quotes |
| MusicGenerator.KnownGenre | music_generator/generate_music.py:155-168 | the lower-cased genre is one of the nine keys, so a known genre has 3 to 10 characters |
| MusicGenerator.PromptHead | music_generator/generate_music.py:148-152 | every prompt begins with the opening sentence and this head ends in the lyrics' closing quote |
| MusicGenerator.PromptTail | music_generator/generate_music.py:167-170 | empty exactly when the genre is unknown; otherwise a space and a description ending in `s` |
| MusicGenerator.BuildPrompt | music_generator/generate_music.py:141-170 | the prompt is the opening sentence, the lyrics introduction and the quoted stripped lyrics, then a space and the genre's description exactly when the genre is known |
| MusicGenerator.PromptCarriesLyrics | music_generator/generate_music.py:145-151 | the stripped lyrics can be read back verbatim from between the quotes of the prompt |
| MusicGenerator.GenreCaseInsensitive | music_generator/generate_music.py:149 | the prompt begins with the opening sentence, which keeps the caller's genre as given; two genres equal up to case give the same prompt after it |
| MusicGenerator.DescriptionIffKnownGenre | music_generator/generate_music.py:167-170 | the prompt ends in the lyrics' closing quote exactly when the genre is unknown |
| MusicGenerator.DetailsEndInS | music_generator/generate_music.py:155-165 | every genre description is non-empty and ends in `s`, never in a quote |
| MusicGenerator.ACappellaUnknown | music_generator/generate_music.py:155-168 | "a cappella", lower-cased, is not one of the nine genre keys |
| MusicGenerator.ACappellaHasNoDescription | music_generator/api_server.py:76-77 | the genre "a cappella" used for vocals-only requests is unknown: its prompt has three parts and no description |
| MusicGenerator.OutputPath | music_generator/generate_music.py:196-197 | a given output path is used as is; otherwise the name has no directory, ends in `_music.mp3`, and before that is the lyrics file's stem, which with the suffix gives back the file's name |
| MusicGenerator.DefaultOutputName | music_generator/generate_music.py:196-197 | for a lyrics file `dir/stem.ext` whose extension has no dot, the default output name is `stem_music.mp3` |
| HandGestures.Raised | testhands.py:36-56 | five entries in tip order: the thumb test first, then for tips 8, 12, 16 and 20 whether the tip is above the landmark two below it |
| HandGestures.ThumbUp | testhands.py:40-49 | the thumb test, by x and mirrored for "Right"; strict, so landmarks 3 and 4 with equal x never count |
| HandGestures.FingerUp | testhands.py:52-56 | a finger is up when its tip is above the landmark two below it; strict, so equal y never counts |
| HandGestures.FingerCount | testhands.py:30-58 | the reference count of raised fingers, at most 5 |
| HandGestures.CountTrue | testhands.py:58 | the number of raised fingers never exceeds the number of fingers |
| HandGestures.CountFingers | testhands.py:30-58 | the list of 0s and 1s built by appends sums to the number of raised fingers, between 0 and 5 |
| HandGestures.SumBits | testhands.py:58 | the sum of the 0/1 list is the number of raised fingers |
| HandGestures.CountTrueExtremes | testhands.py:58 | the count equals the number of fingers exactly when all are raised, and is 0 exactly when none is |
| HandGestures.OpenHandAndFist | testhands.py:40-58 | the count is 5 exactly when the thumb test and all four finger tests pass, and 0 exactly when all fail |
| HandGestures.CoincidentLandmarksGiveFist | testhands.py:41-53 | all comparisons are strict, so coincident landmarks count 0 |
| HandGestures.CountReadsOnlyJoints | testhands.py:36-56 | only the x of landmarks 3 and 4 and the y of landmarks 6 to 20 (even) decide the count |
| HandGestures.NonRightLabelsAgree | testhands.py:40-49 | every handedness label other than "Right" uses the same thumb test |
| HandGestures.ThumbTestsOpposite | testhands.py:40-49 | unless landmarks 3 and 4 share an x, the thumb counts for exactly one of "Right" and "Left" |
| HandGestures.NatToString | testhands.py:133 | `str` of a natural number is non-empty decimal digits without a leading zero |
| HandGestures.IntToString | testhands.py:133 | `str` of an integer: non-empty, starts with `-` exactly when negative, digits otherwise |
| HandGestures.ParseNatToString | testhands.py:133 | the digits of a natural number read back as that number |
| HandGestures.ParseIntToString | testhands.py:133 | the numeral of any integer, sign included, reads back as that integer |
| HandGestures.ParseNegativeNumeral | testhands.py:133 | `str` of a negative integer is `-` followed by the digits of its magnitude, and reads back as that integer |
| HandGestures.LabelIndex | testhands.py:120-131 | finds a fixed label's position, and finds one exactly for the six fixed labels |
| HandGestures.ActionLabel | testhands.py:120-133 | counts 0 to 5 get "Fist", "One Finger", "Two Fingers", "Three Fingers", "Four Fingers" and "Open Hand" in turn; any other count gets a label that is none of these |
| HandGestures.LabelRoundTrip | testhands.py:120-133 | the count can be read back from its label, so distinct counts get distinct labels |
| HandGestures.HandLabelIsFixed | testhands.py:117-133 | the label of a counted hand is always one of the six fixed labels: the numeric fallback is unreachable |

## Left out

- Network calls are not modelled: the voice-list request, the music and singing generation requests, the retry with the service's suggested prompt after a refused one, and API keys. The voice list enters the model as its decoded list of records.
- File I/O is not modelled: reading the lyrics file, the check that it exists, and writing audio. `generate_from_file` is modelled only for the output name it picks.
- Printing is not modelled, including the "Found: …" line for each kept voice.
- The camera loop of `testhands.py` is not modelled: capture, mirroring, MediaPipe inference and drawing. A hand enters the model as its list of landmarks and its handedness label.
- `interactive_singing.py`, `api_server.py`, `generate_singing.py`, `distort.py` and `bpm_tracker.py` are not part of this model. The one exception is the genre string `api_server.py` passes, which is used in `ACappellaHasNoDescription`.
- The browser recorder and looper audio engine is not part of this model: none of the files shown implements it.
- PyStr.Lower: lowers only ASCII `A`–`Z` and maps the KELVIN SIGN to `k`. This gives the same answer as Python for every `in` test and dictionary lookup in the core, but not the same lowered string for other scripts. The core never outputs a lowered string.
- SingingGenerator.Verdict: a category that is JSON `null` (Python `None`) is not modelled. In the source it raises on `.lower()`. The model treats a missing category as `""`, as `get` does.
- SingingGenerator.Voice: a voice whose name or category is a JSON number or other non-string value is not modelled.
- HandGestures.Landmark: coordinates are exact reals. Floating-point NaN, for which every comparison is false, is not modelled.
- PyPath.Stem: follows the suffix rule of CPython 3.12 and earlier. Other Python versions may treat a name ending in `.` differently. Windows paths are not modelled.
- SingingGenerator.VoiceMap: a Dafny map has no order, while a Python dict keeps the position of a name's first insertion when a later voice overwrites it. The order of the voice dictionary is not modelled; its callers only use whether it is empty and its size.
- The `generate_from_file` in `test.py`, which names its output `<stem>_singing.mp3`, is not modelled. It follows the same pattern as `OutputPath`.
