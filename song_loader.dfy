/**
 * Tone.loadSong: resolve the song file name, read the file line by line,
 * turn each line "<NOTE> <LENGTH_CODE> ..." into a BellNote, collect every
 * diagnostic with its 1-based line number, and hand back either all the
 * notes (no diagnostic) or nothing at all.
 *
 * The file system is a map from path to the file's lines.
 */
module SongLoader {
  import opened Wrappers
  import opened JavaText
  import opened Notes

  // ---------------------------------------------------------------------
  // File name

  /** The folder a bare file name is looked up in. */
  const RESOURCE_ROOT: string := "src/"

  /**
   * A name without '/' is taken to be in the resource folder; a name with
   * one is a path and is used as given. Either way the result is a path.
   */
  function ResolvePath(filename: string): (path: string)
    ensures '/' in path
    ensures '/' in filename ==> path == filename
    ensures '/' !in filename ==> path == RESOURCE_ROOT + filename
  {
    if '/' in filename then filename
    else
      var path := RESOURCE_ROOT + filename;
      assert path[3] == '/';
      path
  }

  /** Resolving is idempotent: an already resolved path is left alone. */
  lemma ResolvePathIdempotent(filename: string)
    ensures ResolvePath(ResolvePath(filename)) == ResolvePath(filename)
  {
  }

  // ---------------------------------------------------------------------
  // Fields of a line

  /** The length-code map built by loadSong: code to NoteLength name. */
  const LENGTH_CODES: map<string, string> :=
    map["8" := "EIGTH", "4" := "QUARTER", "2" := "HALF", "1" := "WHOLE"]

  /**
   * The length named by a second field: looked up in the code map, and a
   * miss becomes "0", which no NoteLength is called.
   */
  function LengthOfCode(code: string): Option<NoteLength> {
    LengthOf(if code in LENGTH_CODES then LENGTH_CODES[code] else "0")
  }

  /**
   * The code map is exactly 1, 2, 4, 8 for whole, half, quarter and eighth;
   * every other second field, the empty one included, names no length.
   */
  lemma LengthCodeMap(code: string)
    ensures LengthOfCode(code) == Some(WHOLE) <==> code == "1"
    ensures LengthOfCode(code) == Some(HALF) <==> code == "2"
    ensures LengthOfCode(code) == Some(QUARTER) <==> code == "4"
    ensures LengthOfCode(code) == Some(EIGTH) <==> code == "8"
    ensures LengthOfCode(code).None? <==> code != "1" && code != "2" && code != "4" && code != "8"
  {
  }

  /** The pitch named by a first field, compared after upper-casing. */
  function PitchOf(token: string): Option<Note> {
    NoteOf(ToUpperAscii(token))
  }

  /** A first field names the pitch whose name is the field upper-cased, and no other. */
  lemma PitchOfUpperCased(token: string)
    ensures forall n :: PitchOf(token) == Some(n) <==> NoteName(n) == ToUpperAscii(token)
  {
    NoteOfFindsName(ToUpperAscii(token));
  }

  // ---------------------------------------------------------------------
  // Diagnostics

  /** The diagnostics loadSong collects, each with the 1-based line it concerns. */
  datatype Diagnostic =
    | InvalidPitch(token: string, line: nat)
    | MissingLength(line: nat)
    | InvalidLength(token: string, line: nat)
    | ZeroNotes

  /**
   * The text printed for a diagnostic. The four kinds can be told apart by
   * their first character.
   * Each long literal is written as two halves so that the verifier can
   * index its characters.
   */
  function Message(d: Diagnostic): (m: string)
    ensures |m| > 0
    ensures m[0] == match d
                    case InvalidPitch(_, _) => 'Y'
                    case MissingLength(_) => 'N'
                    case InvalidLength(_, _) => 'y'
                    case ZeroNotes => 'Z'
  {
    match d
    case InvalidPitch(token, line) =>
      var prefix := "Your stated file " + "has an invalid character of '";
      assert prefix[0] == 'Y';
      prefix + (token + "' at line " + DecimalString(line))
    case MissingLength(line) =>
      var prefix := "Note length not found on line ";
      assert prefix[0] == 'N';
      prefix + DecimalString(line)
    case InvalidLength(token, line) =>
      var prefix := "your stated file " + "has an invalid character of '";
      assert prefix[0] == 'y';
      prefix + (token + "' at line " + DecimalString(line) + " column 2")
    case ZeroNotes =>
      var text := "Zero Notes found " + "in file. Empty file.";
      assert text[0] == 'Z';
      text
  }

  /** A pitch or missing-length message ends with its line number, which reads back as that line. */
  lemma MessageEndsWithLine(d: Diagnostic)
    requires d.InvalidPitch? || d.MissingLength?
    ensures var m := Message(d); var t := DecimalString(d.line);
            |t| <= |m| && m[|m| - |t|..] == t && DecimalValue(m[|m| - |t|..]) == d.line
  {
    DecimalRoundTrip(d.line);
  }

  /** A length message ends with its line number and " column 2". */
  lemma LengthMessageEndsWithColumn(d: Diagnostic)
    requires d.InvalidLength?
    ensures var m := Message(d); var t := DecimalString(d.line) + " column 2";
            |t| <= |m| && m[|m| - |t|..] == t
  {
  }

  // ---------------------------------------------------------------------
  // One line

  /** A line either has no field (split gave an empty array) or yields an entry and its diagnostics. */
  datatype LineOutcome = NoFields | Parsed(entry: BellNote, diagnostics: seq<Diagnostic>)

  function DiagnosticsOf(o: LineOutcome): seq<Diagnostic> {
    if o.Parsed? then o.diagnostics else []
  }

  /** A line that parses without diagnostic. */
  predicate ValidLine(line: string) {
    var data := Split(line);
    |data| >= 2 && PitchOf(data[0]).Some? && LengthOfCode(data[1]).Some?
  }

  /**
   * What one iteration of loadSong's loop makes of the fields of line
   * number `number`: the pitch diagnostic comes before the length
   * diagnostic, and fields after the second are ignored.
   */
  function ParseFields(data: seq<string>, number: nat): (r: LineOutcome)
    ensures r.NoFields? <==> |data| == 0
    ensures r.Parsed? ==> |r.diagnostics| <= 2
    ensures forall d :: d in DiagnosticsOf(r) ==> !d.ZeroNotes?
  {
    if |data| == 0 then NoFields
    else
      var note := PitchOf(data[0]);
      var pitchErrors := if note.None? then [InvalidPitch(data[0], number)] else [];
      if |data| < 2 then
        Parsed(BellNote(note, None), pitchErrors + [MissingLength(number)])
      else
        var length := LengthOfCode(data[1]);
        Parsed(BellNote(note, length), pitchErrors + (if length.None? then [InvalidLength(data[1], number)] else []))
  }

  /** What loadSong makes of line number `number`; no field at all exactly for a line of spaces. */
  function ParseLine(line: string, number: nat): (r: LineOutcome)
    ensures r.NoFields? <==> line != "" && AllSpaces(line)
  {
    SplitEmptyIff(line);
    ParseFields(Split(line), number)
  }

  /**
   * A parsed line has no diagnostic exactly when it is valid, and then its
   * entry is the pitch of the first field with the length of the second.
   * Each diagnostic is there exactly when its cause is: an unknown pitch,
   * a missing second field, an unknown length code; there is no other
   * diagnostic and none twice, and when there are two, the pitch
   * diagnostic is the first.
   */
  lemma ParseLineDiagnostics(line: string, number: nat)
    requires ParseLine(line, number).Parsed?
    ensures var r := ParseLine(line, number);
            (r.diagnostics == [] <==> ValidLine(line)) &&
            (r.diagnostics == [] <==> r.entry.Playable()) &&
            (ValidLine(line) ==> r.entry == BellNote(PitchOf(Split(line)[0]), LengthOfCode(Split(line)[1])))
    ensures var r := ParseLine(line, number); var data := Split(line);
            (InvalidPitch(data[0], number) in r.diagnostics <==> PitchOf(data[0]).None?) &&
            (MissingLength(number) in r.diagnostics <==> |data| < 2) &&
            (|data| >= 2 ==> (InvalidLength(data[1], number) in r.diagnostics <==> LengthOfCode(data[1]).None?)) &&
            (|r.diagnostics| == 2 ==> r.diagnostics[0] == InvalidPitch(data[0], number))
    ensures var r := ParseLine(line, number); var data := Split(line);
            (forall d :: d in r.diagnostics ==>
               d == InvalidPitch(data[0], number) || d == MissingLength(number) ||
               (|data| >= 2 && d == InvalidLength(data[1], number))) &&
            (|r.diagnostics| == 2 ==> r.diagnostics[0] != r.diagnostics[1])
  {
  }

  lemma BlankUpper()
    ensures ToUpperAscii("") == ""
  {
  }

  lemma BlankNoPitch()
    ensures NoteOf("") == None
  {
    NoteOfFindsName("");
    forall n: Note
      ensures NoteName(n) != ""
    {
      NoteNameInitial(n);
    }
  }

  /** An empty line gives the single field "", so it draws both diagnostics. */
  lemma BlankLineDiagnostics(number: nat)
    ensures ParseLine("", number) == Parsed(BellNote(None, None), [InvalidPitch("", number), MissingLength(number)])
  {
    SplitBlank();
    BlankUpper();
    BlankNoPitch();
  }

  // ---------------------------------------------------------------------
  // All lines

  /**
   * What each line of the file, numbered from 1, parses to.
   * The ensures restate the comprehension on purpose: as a quantifier over
   * r[i] they give the verifier a trigger it uses far more cheaply than
   * the comprehension's own axioms.
   */
  function LineOutcomes(lines: seq<string>): (r: seq<LineOutcome>)
    ensures |r| == |lines|
    ensures forall i :: 0 <= i < |lines| ==> r[i] == ParseLine(lines[i], i + 1)
  {
    seq(|lines|, i requires 0 <= i < |lines| => ParseLine(lines[i], i + 1))
  }

  /** The loop's state after some lines, or the line whose data[0] threw. */
  datatype Scan = Crash(line: nat) | Scanned(notes: seq<BellNote>, errors: seq<Diagnostic>)

  /**
   * The loop of loadSong over the parsed lines, one at a time from the
   * first: entries and diagnostics are appended, and the first line
   * without fields ends everything.
   */
  function Collect(outcomes: seq<LineOutcome>): Scan
    decreases |outcomes|
  {
    if outcomes == [] then Scanned([], [])
    else
      match Collect(outcomes[..|outcomes| - 1])
      case Crash(k) => Crash(k)
      case Scanned(notes, errors) =>
        match outcomes[|outcomes| - 1]
        case NoFields => Crash(|outcomes|)
        case Parsed(entry, ds) => Scanned(notes + [entry], errors + ds)
  }

  /** Every line's diagnostics, in file order. */
  function AllDiagnostics(outcomes: seq<LineOutcome>): seq<Diagnostic>
    decreases |outcomes|
  {
    if outcomes == [] then []
    else AllDiagnostics(outcomes[..|outcomes| - 1]) + DiagnosticsOf(outcomes[|outcomes| - 1])
  }

  /**
   * The loop's outcome line by line: it crashes at the first line without
   * fields; otherwise it holds one entry per line, in order, and the
   * diagnostics of all lines, in order.
   */
  lemma {:induction false} CollectShape(outcomes: seq<LineOutcome>)
    ensures Collect(outcomes).Scanned? <==> forall i :: 0 <= i < |outcomes| ==> outcomes[i].Parsed?
    ensures Collect(outcomes).Crash? ==>
              var k := Collect(outcomes).line;
              1 <= k <= |outcomes| && outcomes[k - 1].NoFields? &&
              forall i :: 0 <= i < k - 1 ==> outcomes[i].Parsed?
    ensures Collect(outcomes).Scanned? ==>
              var notes := Collect(outcomes).notes;
              |notes| == |outcomes| &&
              (forall i :: 0 <= i < |outcomes| ==> notes[i] == outcomes[i].entry) &&
              Collect(outcomes).errors == AllDiagnostics(outcomes)
    decreases |outcomes|
  {
    if outcomes != [] {
      var n := |outcomes|;
      var init := outcomes[..n - 1];
      CollectShape(init);
      assert forall i :: 0 <= i < n - 1 ==> init[i] == outcomes[i];
    }
  }

  /** One more parsed line extends the loop's state by its entry and its diagnostics. */
  lemma CollectStep(outcomes: seq<LineOutcome>, n: nat)
    requires n < |outcomes|
    requires Collect(outcomes[..n]).Scanned?
    requires outcomes[n].Parsed?
    ensures Collect(outcomes[..n + 1]) ==
              Scanned(Collect(outcomes[..n]).notes + [outcomes[n].entry],
                      Collect(outcomes[..n]).errors + outcomes[n].diagnostics)
  {
    assert outcomes[..n + 1][..n] == outcomes[..n];
  }

  /** Once a prefix of the lines has crashed, the whole file crashes there. */
  lemma {:induction false} CrashPersists(outcomes: seq<LineOutcome>, n: nat)
    requires n <= |outcomes|
    requires Collect(outcomes[..n]).Crash?
    ensures Collect(outcomes) == Collect(outcomes[..n])
    decreases |outcomes| - n
  {
    if n < |outcomes| {
      var m := |outcomes| - 1;
      assert outcomes[..m][..n] == outcomes[..n];
      CrashPersists(outcomes[..m], n);
    } else {
      assert outcomes[..n] == outcomes;
    }
  }

  lemma {:induction false} AllDiagnosticsEmpty(outcomes: seq<LineOutcome>)
    ensures AllDiagnostics(outcomes) == [] <==>
              forall i :: 0 <= i < |outcomes| ==> DiagnosticsOf(outcomes[i]) == []
    decreases |outcomes|
  {
    if outcomes != [] {
      var n := |outcomes|;
      var init := outcomes[..n - 1];
      AllDiagnosticsEmpty(init);
      assert AllDiagnostics(outcomes) == AllDiagnostics(init) + DiagnosticsOf(outcomes[n - 1]);
      assert forall i :: 0 <= i < n - 1 ==> init[i] == outcomes[i];
    }
  }

  lemma {:induction false} AllDiagnosticsContain(outcomes: seq<LineOutcome>, i: nat, m: Diagnostic)
    requires i < |outcomes|
    requires m in DiagnosticsOf(outcomes[i])
    ensures m in AllDiagnostics(outcomes)
    decreases |outcomes|
  {
    var n := |outcomes|;
    if i < n - 1 {
      assert outcomes[..n - 1][i] == outcomes[i];
      AllDiagnosticsContain(outcomes[..n - 1], i, m);
    }
  }

  /** Every diagnostic in AllDiagnostics comes from some line. */
  lemma {:induction false} AllDiagnosticsFrom(outcomes: seq<LineOutcome>, m: Diagnostic)
    requires m in AllDiagnostics(outcomes)
    ensures exists i :: 0 <= i < |outcomes| && m in DiagnosticsOf(outcomes[i])
    decreases |outcomes|
  {
    var n := |outcomes|;
    if m !in DiagnosticsOf(outcomes[n - 1]) {
      AllDiagnosticsFrom(outcomes[..n - 1], m);
      var i :| 0 <= i < n - 1 && m in DiagnosticsOf(outcomes[..n - 1][i]);
      assert outcomes[..n - 1][i] == outcomes[i];
    }
  }

  // ---------------------------------------------------------------------
  // The whole song

  /**
   * What loadSong hands back: a list of entries and the diagnostics it
   * printed, or the line at which data[0] threw an uncaught
   * ArrayIndexOutOfBoundsException.
   */
  datatype LoadOutcome = Loaded(song: seq<BellNote>, diagnostics: seq<Diagnostic>) | Crashed(line: nat)

  /** The scan of a file crashes exactly when one of its lines is made of spaces only. */
  lemma CrashIff(lines: seq<string>)
    ensures Collect(LineOutcomes(lines)).Crash? <==>
              exists i :: 0 <= i < |lines| && lines[i] != "" && AllSpaces(lines[i])
  {
    var outcomes := LineOutcomes(lines);
    if Collect(outcomes).Crash? {
      CrashShape(outcomes);
      OutcomeNoFields(lines, Collect(outcomes).line - 1);
    }
    if exists i :: 0 <= i < |lines| && lines[i] != "" && AllSpaces(lines[i]) {
      var i :| 0 <= i < |lines| && lines[i] != "" && AllSpaces(lines[i]);
      OutcomeNoFields(lines, i);
      CollectShape(outcomes);
    }
  }

  /**
   * loadSong on the lines of a file that was found. With any diagnostic
   * the list is empty, never a prefix of the good entries; whatever list
   * comes back can be played; it crashes exactly when some line is made
   * of spaces only.
   */
  function LoadLines(lines: seq<string>): (r: LoadOutcome)
    ensures r.Loaded? ==> r.song == [] || r.diagnostics == []
    ensures r.Loaded? ==> forall k :: 0 <= k < |r.song| ==> r.song[k].Playable()
    ensures r.Crashed? <==> exists i :: 0 <= i < |lines| && lines[i] != "" && AllSpaces(lines[i])
  {
    var outcomes := LineOutcomes(lines);
    CrashIff(lines);
    match Collect(outcomes)
    case Crash(k) => Crashed(k)
    case Scanned(notes, errors) =>
      var all := errors + (if |lines| == 0 then [ZeroNotes] else []);
      if all != [] then Loaded([], all)
      else
        CleanEntriesPlayable(lines);
        Loaded(notes, [])
  }

  /** When no line has a diagnostic, every entry collected can be played. */
  lemma CleanEntriesPlayable(lines: seq<string>)
    requires Collect(LineOutcomes(lines)).Scanned?
    requires Collect(LineOutcomes(lines)).errors == []
    ensures forall k :: 0 <= k < |Collect(LineOutcomes(lines)).notes| ==> Collect(LineOutcomes(lines)).notes[k].Playable()
  {
    var outcomes := LineOutcomes(lines);
    CollectShape(outcomes);
    AllDiagnosticsEmpty(outcomes);
    forall k | 0 <= k < |lines|
      ensures outcomes[k].entry.Playable()
    {
      ParseLineDiagnostics(lines[k], k + 1);
    }
  }

  /** loadSong: a null name, or a file that is not found, gives the empty list. */
  function Load(filename: Option<string>, files: map<string, seq<string>>): LoadOutcome {
    if filename.None? then Loaded([], [])
    else
      var path := ResolvePath(filename.value);
      if path !in files then Loaded([], []) else LoadLines(files[path])
  }

  lemma OutcomeNoFields(lines: seq<string>, i: nat)
    requires i < |lines|
    ensures LineOutcomes(lines)[i].NoFields? <==> lines[i] != "" && AllSpaces(lines[i])
  {
  }

  /** A crashed scan stops at its first line without fields. */
  lemma CrashShape(outcomes: seq<LineOutcome>)
    requires Collect(outcomes).Crash?
    ensures 1 <= Collect(outcomes).line <= |outcomes|
    ensures outcomes[Collect(outcomes).line - 1].NoFields?
    ensures forall i :: 0 <= i < Collect(outcomes).line - 1 ==> outcomes[i].Parsed?
  {
    CollectShape(outcomes);
  }

  lemma CrashedScan(lines: seq<string>)
    requires LoadLines(lines).Crashed?
    ensures Collect(LineOutcomes(lines)) == Crash(LoadLines(lines).line)
  {
  }

  /** A crash is reported at the first line made of spaces only. */
  lemma CrashAtFirstSpacesLine(lines: seq<string>)
    requires LoadLines(lines).Crashed?
    ensures var k := LoadLines(lines).line;
            1 <= k <= |lines| && lines[k - 1] != "" && AllSpaces(lines[k - 1]) &&
            forall i :: 0 <= i < k - 1 ==> !(lines[i] != "" && AllSpaces(lines[i]))
  {
    var outcomes := LineOutcomes(lines);
    var k := LoadLines(lines).line;
    CrashedScan(lines);
    CrashShape(outcomes);
    OutcomeNoFields(lines, k - 1);
    forall i | 0 <= i < k - 1
      ensures !(lines[i] != "" && AllSpaces(lines[i]))
    {
      OutcomeNoFields(lines, i);
    }
  }

  /** A clean load is a scan of a non-empty file without diagnostics, and keeps its entries. */
  lemma CleanScan(lines: seq<string>)
    ensures LoadLines(lines).Loaded? && LoadLines(lines).diagnostics == [] <==>
              |lines| > 0 && Collect(LineOutcomes(lines)).Scanned? && Collect(LineOutcomes(lines)).errors == []
    ensures LoadLines(lines).Loaded? && LoadLines(lines).diagnostics == [] ==>
              LoadLines(lines).song == Collect(LineOutcomes(lines)).notes
  {
  }

  /**
   * A file loads without diagnostic exactly when it has a line and every
   * line is valid; the song then has one entry per line, in file order,
   * with the pitch named by the first field and the length the code map
   * gives for the second.
   */
  lemma CleanLoad(lines: seq<string>)
    ensures LoadLines(lines).Loaded? && LoadLines(lines).diagnostics == [] <==>
              |lines| > 0 && forall i :: 0 <= i < |lines| ==> ValidLine(lines[i])
    ensures LoadLines(lines).Loaded? && LoadLines(lines).diagnostics == [] ==>
              var song := LoadLines(lines).song;
              |song| == |lines| &&
              forall i :: 0 <= i < |lines| ==>
                song[i] == BellNote(PitchOf(Split(lines[i])[0]), LengthOfCode(Split(lines[i])[1]))
  {
    var outcomes := LineOutcomes(lines);
    CleanScan(lines);
    CollectShape(outcomes);
    AllDiagnosticsEmpty(outcomes);
    if |lines| > 0 && forall i :: 0 <= i < |lines| ==> ValidLine(lines[i]) {
      forall i | 0 <= i < |lines|
        ensures outcomes[i].Parsed? && DiagnosticsOf(outcomes[i]) == []
      {
        SplitEmptyIff(lines[i]);
        ParseLineDiagnostics(lines[i], i + 1);
      }
    }
    if LoadLines(lines).Loaded? && LoadLines(lines).diagnostics == [] {
      forall i | 0 <= i < |lines|
        ensures ValidLine(lines[i]) &&
                outcomes[i].entry == BellNote(PitchOf(Split(lines[i])[0]), LengthOfCode(Split(lines[i])[1]))
      {
        ParseLineDiagnostics(lines[i], i + 1);
      }
    }
  }

  /** Every diagnostic of every line is reported, in the file that did not crash. */
  lemma LineDiagnosticsReported(lines: seq<string>, i: nat, m: Diagnostic)
    requires i < |lines|
    requires LoadLines(lines).Loaded?
    requires m in DiagnosticsOf(ParseLine(lines[i], i + 1))
    ensures m in LoadLines(lines).diagnostics
  {
    var outcomes := LineOutcomes(lines);
    CollectShape(outcomes);
    AllDiagnosticsContain(outcomes, i, m);
  }

  /** The empty-file diagnostic is reported exactly for a file with no line. */
  lemma ZeroNotesIff(lines: seq<string>)
    requires LoadLines(lines).Loaded?
    ensures ZeroNotes in LoadLines(lines).diagnostics <==> lines == []
  {
    var outcomes := LineOutcomes(lines);
    CollectShape(outcomes);
    if ZeroNotes in AllDiagnostics(outcomes) {
      AllDiagnosticsFrom(outcomes, ZeroNotes);
    }
  }

  lemma UpperUnknownPitch()
    ensures ToUpperAscii("Z9") == "Z9"
  {
  }

  lemma UnknownPitchName()
    ensures PitchOf("Z9") == None
  {
    UpperUnknownPitch();
    NoteOfUnknownInitial("Z9");
  }

  lemma UnknownPitchLine()
    ensures ParseLine("Z9 4", 1) == Parsed(BellNote(None, Some(QUARTER)), [InvalidPitch("Z9", 1)])
  {
    SplitTwoFields('Z', '9', '4');
    assert ['Z', '9', ' ', '4'] == "Z9 4" && ['Z', '9'] == "Z9" && ['4'] == "4";
    UnknownPitchName();
    assert LengthOfCode("4") == Some(QUARTER);
  }

  /** A file that names an unknown pitch: its diagnostic, and no notes. */
  lemma UnknownPitchExample()
    ensures LoadLines(["Z9 4"]) == Loaded([], [InvalidPitch("Z9", 1)])
  {
    UnknownPitchLine();
    var outcomes := LineOutcomes(["Z9 4"]);
    assert outcomes[..0] == [];
  }

  lemma KnownPitchA4()
    ensures PitchOf("A4") == Some(A4)
  {
    assert ToUpperAscii("A4") == "A4";
    NoteOfFindsName("A4");
  }

  lemma KnownPitchB4()
    ensures PitchOf("B4") == Some(B4)
  {
    assert ToUpperAscii("B4") == "B4";
    NoteOfFindsName("B4");
  }

  lemma ValidA4Line()
    ensures Split("A4 4") == ["A4", "4"] && ValidLine("A4 4")
    ensures PitchOf("A4") == Some(A4) && LengthOfCode("4") == Some(QUARTER)
  {
    SplitTwoFields('A', '4', '4');
    assert ['A', '4', ' ', '4'] == "A4 4" && ['A', '4'] == "A4" && ['4'] == "4";
    KnownPitchA4();
    assert LengthOfCode("4") == Some(QUARTER);
  }

  lemma ValidB4Line()
    ensures Split("B4 2") == ["B4", "2"] && ValidLine("B4 2")
    ensures PitchOf("B4") == Some(B4) && LengthOfCode("2") == Some(HALF)
  {
    SplitTwoFields('B', '4', '2');
    assert ['B', '4', ' ', '2'] == "B4 2" && ['B', '4'] == "B4" && ['2'] == "2";
    KnownPitchB4();
    assert LengthOfCode("2") == Some(HALF);
  }

  lemma QuarterA4Line()
    ensures ParseLine("A4 4", 1) == Parsed(BellNote(Some(A4), Some(QUARTER)), [])
  {
    ValidA4Line();
    ParseLineDiagnostics("A4 4", 1);
  }

  lemma HalfB4Line()
    ensures ParseLine("B4 2", 2) == Parsed(BellNote(Some(B4), Some(HALF)), [])
  {
    ValidB4Line();
    ParseLineDiagnostics("B4 2", 2);
  }

  lemma TwoLineOutcomes(first: string, second: string)
    ensures LineOutcomes([first, second]) == [ParseLine(first, 1), ParseLine(second, 2)]
  {
  }

  lemma TwoCleanOutcomes(outcomes: seq<LineOutcome>, e1: BellNote, e2: BellNote)
    requires outcomes == [Parsed(e1, []), Parsed(e2, [])]
    ensures Collect(outcomes) == Scanned([e1, e2], [])
  {
    assert outcomes[..1] == [Parsed(e1, [])];
    assert outcomes[..1][..0] == [];
    assert Collect(outcomes[..1]) == Scanned([e1], []);
    assert outcomes[..|outcomes| - 1] == outcomes[..1];
  }

  /** Two lines read without diagnostic load as their two entries, in order. */
  lemma TwoCleanLines(first: string, second: string, e1: BellNote, e2: BellNote)
    requires LineOutcomes([first, second]) == [Parsed(e1, []), Parsed(e2, [])]
    ensures LoadLines([first, second]) == Loaded([e1, e2], [])
  {
    var lines := [first, second];
    var outcomes := LineOutcomes(lines);
    TwoCleanOutcomes(outcomes, e1, e2);
    assert outcomes[..|lines|] == outcomes;
    ScanEnd(lines, [e1, e2], [], []);
  }

  /** A two-line file of valid lines loads as its two entries, in order. */
  lemma TwoNoteExample()
    ensures LoadLines(["A4 4", "B4 2"]) ==
              Loaded([BellNote(Some(A4), Some(QUARTER)), BellNote(Some(B4), Some(HALF))], [])
  {
    QuarterA4Line();
    HalfB4Line();
    TwoLineOutcomes("A4 4", "B4 2");
    TwoCleanLines("A4 4", "B4 2", BellNote(Some(A4), Some(QUARTER)), BellNote(Some(B4), Some(HALF)));
  }

  /**
   * The body of loadSong's loop for the fields of one line: look the
   * upper-cased first field up among the pitches, the second in the code
   * map, and append a diagnostic for each that fails.
   */
  method ReadFields(data: seq<string>, line: nat) returns (entry: BellNote, errors: seq<Diagnostic>)
    requires |data| > 0
    ensures ParseFields(data, line) == Parsed(entry, errors)
  {
    errors := [];
    var note := NoteOf(ToUpperAscii(data[0]));
    var length: Option<NoteLength> := None;
    if note.None? {
      errors := errors + [InvalidPitch(data[0], line)];
    }
    if |data| < 2 {
      errors := errors + [MissingLength(line)];
    } else {
      var name := if data[1] in LENGTH_CODES then LENGTH_CODES[data[1]] else "0";
      length := LengthOf(name);
      if length.None? {
        errors := errors + [InvalidLength(data[1], line)];
      }
    }
    entry := BellNote(note, length);
  }

  /** One more line of the file read without a crash. */
  lemma ScanStep(lines: seq<string>, n: nat, entry: BellNote, diagnostics: seq<Diagnostic>)
    requires n < |lines|
    requires Collect(LineOutcomes(lines)[..n]).Scanned?
    requires ParseFields(Split(lines[n]), n + 1) == Parsed(entry, diagnostics)
    ensures Collect(LineOutcomes(lines)[..n + 1]) ==
              Scanned(Collect(LineOutcomes(lines)[..n]).notes + [entry],
                      Collect(LineOutcomes(lines)[..n]).errors + diagnostics)
  {
    CollectStep(LineOutcomes(lines), n);
  }

  /** A line without fields after lines read cleanly: the scan of that prefix crashes there. */
  lemma CrashStep(outcomes: seq<LineOutcome>, n: nat)
    requires n < |outcomes|
    requires Collect(outcomes[..n]).Scanned?
    requires outcomes[n].NoFields?
    ensures Collect(outcomes[..n + 1]) == Crash(n + 1)
  {
    assert outcomes[..n + 1][..n] == outcomes[..n];
  }

  /** A line without fields after lines read cleanly ends the load in a crash at that line. */
  lemma ScanCrash(lines: seq<string>, n: nat)
    requires n < |lines|
    requires Collect(LineOutcomes(lines)[..n]).Scanned?
    requires |Split(lines[n])| == 0
    ensures LoadLines(lines) == Crashed(n + 1)
  {
    var outcomes := LineOutcomes(lines);
    assert outcomes[n].NoFields?;
    CrashStep(outcomes, n);
    CrashPersists(outcomes, n + 1);
  }

  /** After the last line, the result follows from the diagnostics collected. */
  lemma ScanEnd(lines: seq<string>, notes: seq<BellNote>, errors: seq<Diagnostic>, all: seq<Diagnostic>)
    requires Collect(LineOutcomes(lines)[..|lines|]) == Scanned(notes, errors)
    requires all == errors + if |lines| == 0 then [ZeroNotes] else []
    ensures all != [] ==> LoadLines(lines) == Loaded([], all)
    ensures all == [] ==> LoadLines(lines) == Loaded(notes, [])
  {
    assert LineOutcomes(lines)[..|lines|] == LineOutcomes(lines);
  }

  /**
   * The loop of loadSong over the lines of an opened file: each line is
   * split and read; a line of spaces only crashes at data[0].
   */
  method ReadSong(lines: seq<string>) returns (r: LoadOutcome)
    ensures r == LoadLines(lines)
  {
    var errors: seq<Diagnostic> := [];
    var notes: seq<BellNote> := [];
    var line := 1;
    while line <= |lines|
      invariant 1 <= line <= |lines| + 1
      invariant Collect(LineOutcomes(lines)[..line - 1]) == Scanned(notes, errors)
    {
      var data := Split(lines[line - 1]);
      if |data| == 0 {
        // data[0] throws; nothing in loadSong catches it
        ScanCrash(lines, line - 1);
        return Crashed(line);
      }
      var entry, found := ReadFields(data, line);
      ScanStep(lines, line - 1, entry, found);
      errors := errors + found;
      notes := notes + [entry];
      line := line + 1;
    }
    ghost var scanned := errors;
    assert line == |lines| + 1;
    if line == 1 {
      errors := errors + [ZeroNotes];
    }
    ScanEnd(lines, notes, scanned, errors);
    if errors != [] {
      return Loaded([], errors);
    }
    return Loaded(notes, []);
  }

  /**
   * loadSong: a null name or a missing file gives the empty song; otherwise
   * the lines of the file at the resolved path are read.
   */
  method LoadSong(filename: Option<string>, files: map<string, seq<string>>) returns (r: LoadOutcome)
    ensures r == Load(filename, files)
  {
    if filename.None? {
      return Loaded([], []);
    }
    var path := ResolvePath(filename.value);
    if path !in files {
      return Loaded([], []);
    }
    r := ReadSong(files[path]);
  }
}
