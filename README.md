# toneplayer: the song pipeline of `Tone`

A model of the sequential path of the toneplayer bell-choir program, from
song file to audio line:

- **Loading a song.** `Tone.loadSong` resolves the file name and reads the
  file line by line. Each line `"<NOTE> <LENGTH_CODE> ..."` is split on
  single spaces. The first field, upper-cased, names one of the 14 `Note`s
  (REST, A4 … A5). The second field is looked up in the code map
  `1/2/4/8 → WHOLE/HALF/QUARTER/EIGTH`. A diagnostic is collected for each
  failure, with its 1-based line number. The result is every `BellNote` when
  no diagnostic arose, and the empty list otherwise.
- **Durations.** `NoteLength.timeMs` and the reverse lookup
  `Tone.valueOfLabel`.
- **Playback.** `Tone.playNote` and `Tone.playSong`. Each entry becomes a
  write of its pitch's sample buffer, for the number of bytes its duration
  takes at 49152 samples per second. A write of 50 bytes of REST's buffer
  follows, and that buffer is all zeros.

Modules:

- `Wrappers`: `Option`, standing in for Java's nullable references.
- `JavaText`: `String.split(" ")`, ASCII upper-casing, and decimal
  rendering of line numbers.
- `Notes`: `NoteLength`, `Note`, `BellNote`, `valueOfLabel` and the sample
  buffers.
- `SongLoader`: `loadSong`.
- `Playback`: `playNote`, `playSong` and the audio line as a trace of
  writes.

Each method with a loop is proved against a specification function:

- `SongLoader.ReadSong` against `SongLoader.LoadLines`;
- `Notes.ValueOfLabel` against `Notes.TimeMs`;
- `Playback.PlaySong` against `Playback.SongTrace`.

`SongLoader.LoadSong` has no loop of its own. It resolves the path, looks
the file up and calls `SongLoader.ReadSong`, and it is proved equal to
`SongLoader.Load`.

The properties of the program are lemmas about those functions.

How the model represents the Java program:

- **The file system** is a parameter `files: map<string, seq<string>>` from
  path to the file's lines. A path that is not a key is the
  `FileNotFoundException` branch.
- **A line of spaces only** splits into an empty array.
  `data[0]` (src/Tone.java:131) then throws an
  `ArrayIndexOutOfBoundsException` that nothing catches. The model gives
  this outcome as `Crashed(line)`.
- **Null fields.** `BellNote`'s fields are `Option`s, because `loadSong`
  stores entries with null fields (src/Tone.java:147) before deciding to
  return nothing. A `BellNote` is `Playable()` when both fields are present.
- **Diagnostics** are a datatype. `SongLoader.Message` gives the text the
  program prints for each one.
- **The wave.** The sine waveform of a pitch is a parameter
  `wave: (Note, nat) -> int8`.
- **The audio line** is `Playback.AudioLine`, whose `writes` field records
  every `write(buffer, offset, count)` call it receives.
- **The loop body** of `loadSong` is the method `SongLoader.ReadFields`. It
  does the same lookups and the same appends, in the same order. Its caller
  `SongLoader.ReadSong` adds the new diagnostics to the list.

Where the code and its own comments and checks disagree, the model follows
the code:

- **An invalid song does not stop the program.** The constructor tests for
  a `null` song and exits with status 1 (src/Tone.java:90-93), and the doc
  comment of `loadSong` promises `null` for invalid data (src/Tone.java:101).
  In fact `loadSong` returns an empty list and never `null`
  (src/Tone.java:107, 156, 164). So the `song == null` test at
  src/Tone.java:90 can never be true, and an invalid song is played as the
  empty song. `Playback.DiagnosedSongIsSilent` proves that no write then
  happens.
- **The empty-file diagnostic** is issued only for a file with no line at
  all (src/Tone.java:150). A file whose lines are all invalid gets their
  own diagnostics instead.
- **A line of spaces only** crashes `loadSong` instead of being reported as
  a diagnostic.

## Model

| member | source | states |
|---|---|---|
| JavaText.Split | src/Tone.java:127 | no field produced by `split(" ")` contains a space |
| JavaText.SplitRejoins | src/Tone.java:127 | joining the fields with single spaces gives back the line minus trailing spaces only; a line without a space is its own single field; otherwise trailing empty fields are dropped, so the last field is non-empty |
| JavaText.SplitEmptyIff | src/Tone.java:127 | the split is empty exactly for a non-empty line made of spaces only |
| JavaText.SplitBlank | src/Tone.java:127 | an empty line splits into the one field `""` |
| JavaText.SplitDoubleSpace | src/Tone.java:127 | a double space leaves an empty field: `"A4  4"` gives `"A4"`, `""`, `"4"` |
| JavaText.SplitSpacesOnly | src/Tone.java:127 | a line of spaces gives no field at all |
| JavaText.SplitTwoFields | src/Tone.java:127 | a two-letter field, a space and a one-letter field split into exactly those two fields |
| JavaText.ToUpperAscii | src/Tone.java:131 | upper-casing keeps the length and maps each letter a–z to A–Z, leaving every other character alone |
| JavaText.DecimalString | src/Tone.java:133 | a line number is rendered as a non-empty string of decimal digits, with a leading zero only for 0 |
| JavaText.DecimalRoundTrip | src/Tone.java:133 | the digits of a line number read back as that number |
| JavaText.DecimalUnique | src/Tone.java:133 | every digit string without a leading zero is the rendering of its value, so the rendering is the only such text for its number |
| Notes.LengthOrdinal | src/Tone.java:11-15 | each length sits at its declaration position in `NoteLength.values()` |
| Notes.TimeMs | src/Tone.java:17-21 | `timeMs` is positive, at most one measure, and exactly the length's fraction of 1000 ms |
| Notes.TimeMsValues | src/Tone.java:12-20 | the durations are 1000, 500, 250 and 125 ms, pairwise distinct |
| Notes.LengthOfFindsName | src/Tone.java:142 | `NoteLength.valueOf` yields the length with exactly that name, and fails for any other string |
| Notes.ValueOfLabel | src/Tone.java:169-176 | returns a length whose `timeMs` is the label; returns null exactly when no length has it; `valueOfLabel(e.timeMs()) == e` for every length |
| Notes.Ordinal | src/Tone.java:28-43 | each pitch sits at its declaration position, and only REST has ordinal 0 |
| Notes.NoteNamesDistinct | src/Tone.java:30-43 | distinct pitches have distinct names |
| Notes.NoteNameInitial | src/Tone.java:30-43 | every pitch name starts with R or a letter from A to G |
| Notes.FindNoteFinds | src/Tone.java:131 | the search over the pitches returns one with the name, and fails only when none has it |
| Notes.NoteOfFindsName | src/Tone.java:131 | `Note.valueOf` yields the pitch with exactly that name, and fails for any other string |
| Notes.NoteOfUnknownInitial | src/Tone.java:131-133 | a token whose first letter starts no pitch name is rejected |
| Notes.NewSample | src/Tone.java:54-70 | a fresh buffer of one measure (49152 bytes); REST's stays zero and every other pitch's holds its waveform |
| Notes.RestIsSilent | src/Tone.java:56-58 | every byte of REST's buffer is 0, whatever the waveform |
| SongLoader.ResolvePath | src/Tone.java:109-114 | a name without '/' becomes `"src/" + name`; a name with '/' is unchanged; the result always contains '/' |
| SongLoader.ResolvePathIdempotent | src/Tone.java:109-114 | resolving a resolved path changes nothing |
| SongLoader.LengthCodeMap | src/Tone.java:119-145 | the code map is exactly "1"→WHOLE, "2"→HALF, "4"→QUARTER, "8"→EIGTH; every other second field, `""` included, names no length |
| SongLoader.PitchOfUpperCased | src/Tone.java:131 | a first field names the pitch whose name is the field upper-cased, and no other |
| SongLoader.Message | src/Tone.java:133-151 | every diagnostic text is non-empty, and the four kinds begin with different characters |
| SongLoader.MessageEndsWithLine | src/Tone.java:133-136 | pitch and missing-length messages end with the line number in decimal |
| SongLoader.LengthMessageEndsWithColumn | src/Tone.java:144 | a length message ends with the line number and " column 2" |
| SongLoader.ParseFields | src/Tone.java:128-147 | a line with fields yields an entry and at most two diagnostics, never the empty-file one; no field means no entry |
| SongLoader.ParseLine | src/Tone.java:127-147 | a line yields no entry exactly when it is a non-empty run of spaces |
| SongLoader.ParseLineDiagnostics | src/Tone.java:130-147 | a line has no diagnostic iff it is valid, iff its entry is playable; a valid line's entry is (pitch of field 1, length of field 2) and further fields are ignored; each diagnostic is present iff its cause holds; there is no other diagnostic (each names this line's number and its own field) and none twice; the pitch diagnostic comes before the length one |
| SongLoader.BlankLineDiagnostics | src/Tone.java:127-136 | an empty line draws the pitch diagnostic for `""` and then "Note length not found" |
| SongLoader.CollectShape | src/Tone.java:124-149 | the loop completes iff every line has fields; otherwise it stops at the first line without fields; a completed loop keeps one entry per line, in order, and every line's diagnostics in order |
| SongLoader.CollectStep | src/Tone.java:147-148 | one more line appends its entry and its diagnostics |
| SongLoader.CrashPersists | src/Tone.java:131 | the uncaught exception ends the loop: later lines change nothing |
| SongLoader.CrashIff | src/Tone.java:127-131 | the loop throws exactly when some line is a non-empty run of spaces |
| SongLoader.LoadLines | src/Tone.java:124-166 | a loaded song is empty or free of diagnostics, and all its entries are playable; the load crashes iff some line is all spaces |
| SongLoader.CleanEntriesPlayable | src/Tone.java:147-166 | when no line has a diagnostic, every collected entry has a pitch and a length |
| SongLoader.CrashAtFirstSpacesLine | src/Tone.java:126-131 | the crash is at the first all-spaces line |
| SongLoader.CleanLoad | src/Tone.java:125-166 | the load is clean iff the file has a line and every line is valid; the song then has one entry per line, in file order, with the pitch of the upper-cased first field and the length the code map gives the second |
| SongLoader.LineDiagnosticsReported | src/Tone.java:130-145 | every diagnostic of every line is reported, without stopping at the first error |
| SongLoader.ZeroNotesIff | src/Tone.java:150-152 | "Zero Notes found" is reported exactly for a file with no line |
| SongLoader.UnknownPitchExample | src/Tone.java:130-133 | the file `Z9 4` loads no note and reports the token `Z9` at line 1 |
| SongLoader.TwoCleanLines | src/Tone.java:124-166 | a two-line file whose lines both parse without diagnostic loads as their two entries, in order |
| SongLoader.TwoNoteExample | src/Tone.java:124-166 | the file `A4 4`, `B4 2` loads as a quarter A4 then a half B4 |
| SongLoader.ReadFields | src/Tone.java:128-147 | the loop body computes the entry and diagnostics that `ParseFields` specifies |
| SongLoader.ScanStep | src/Tone.java:127-148 | reading one more line extends the collected entries and diagnostics |
| SongLoader.ScanCrash | src/Tone.java:127-131 | a line without fields ends the load in a crash at that line |
| SongLoader.ScanEnd | src/Tone.java:150-166 | after the last line, the result is the diagnostics, or the notes when there are none |
| SongLoader.ReadSong | src/Tone.java:124-166 | the loop over the lines returns exactly `LoadLines` of the file; its invariant ties the 1-based counter `line` to the lines read so far, so line i is parsed with number i+1 |
| SongLoader.LoadSong | src/Tone.java:103-166 | a null name or a missing file gives the empty song; otherwise the result is `LoadLines` of the resolved file |
| Playback.SampleCount | src/Tone.java:194-195 | the byte count fits the 49152-byte buffer and is exactly the duration in samples at 49152 Hz |
| Playback.SampleCountValues | src/Tone.java:194-195 | the counts are 49152, 24576, 12288 and 6144 |
| Playback.CodePlaysFraction | src/Tone.java:119-123 | a note with length code c plays exactly 1/c of the sample buffer |
| Playback.SongTrace | src/Tone.java:183-185 | a song of n entries makes 2n writes |
| Playback.SongTraceLayout | src/Tone.java:183-197 | write 2i is entry i's pitch buffer for its byte count; write 2i+1 is 50 bytes of REST; there are no other writes |
| Playback.SongTraceInBounds | src/Tone.java:194-197 | every write lies within its 49152-byte buffer |
| Playback.GapsAreSilent | src/Tone.java:197 | the gap after each note is 50 zero bytes |
| Playback.AudioLine.constructor | src/Tone.java:179-181 | a freshly opened line has received nothing |
| Playback.AudioLine.Write | src/Tone.java:196-197 | a write is appended to what the line has received |
| Playback.PlayNote | src/Tone.java:193-198 | playNote appends its entry's sample write and then the REST gap |
| Playback.PlaySong | src/Tone.java:178-188 | playSong's writes are exactly `SongTrace` of the song |
| Playback.DiagnosedSongIsSilent | src/Tone.java:158-165 | a song loaded with diagnostics makes no write |
| Playback.CleanSongTrace | src/Tone.java:183-197 | a clean load plays, for line i, the pitch of its first field for the byte count of its length code, then the gap |
| Playback.TwoNoteTrace | src/Tone.java:178-198 | `A4 4`, `B4 2` plays 12288 bytes of A4, the gap, 24576 bytes of B4, the gap |

## Left out

- src/Baton.java and src/Chorister.java: a lock-and-condition rendezvous and the worker threads built on it. This is concurrency, and nothing wires it in, since `createChoristers` (src/Tone.java:189-191) is empty.
- The sine synthesis in the `Note` constructor (src/Tone.java:60-68) is floating-point numerics. The waveform is a parameter of the model.
- The float product `(int)(length * MEASURE_LENGTH_SEC * 1000)` (src/Tone.java:20) is modelled as the exact integer it yields for the four lengths.
- `Scanner` and `File` I/O are replaced by a map from path to lines. What the program prints (`System.out` and `System.err`) is not modelled.
- `AudioSystem.getSourceDataLine`, `open`, `start` and `drain` (src/Tone.java:179-186) are device calls. The line is modelled by the writes it receives.
- The `Tone` constructor (src/Tone.java:80-95), with its argument handling, `createChoristers` and `System.exit`, is not modelled.
- `toUpperCase` is modelled for ASCII letters only. Locale-specific case mappings are not modelled.
- SongLoader.Message: its contract states only the first character of each text, which tells the four kinds apart. The lemmas `SongLoader.MessageEndsWithLine` and `SongLoader.LengthMessageEndsWithColumn` state how the three texts that carry a line number end. The full wording is only in its body.
- Notes.NewSample: states the buffer's bytes in terms of the waveform parameter, not the sine values.
