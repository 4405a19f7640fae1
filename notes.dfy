/**
 * The two enums of the player and the record that pairs them: a pitch
 * (Note, with the sample buffer each pitch owns) and a duration
 * (NoteLength, in milliseconds of a one-second measure).
 */
module Notes {
  import opened Wrappers

  /** Java's signed byte. */
  newtype int8 = x: int | -128 <= x < 128

  /** Samples per second: 48 * 1024, about 48 kHz. */
  const SAMPLE_RATE: nat := 48 * 1024
  const MEASURE_LENGTH_SEC: nat := 1
  /** Every pitch owns a buffer of one measure of samples. */
  const SAMPLE_BUFFER_LENGTH: nat := MEASURE_LENGTH_SEC * SAMPLE_RATE

  // ---------------------------------------------------------------------
  // NoteLength

  datatype NoteLength = WHOLE | HALF | QUARTER | EIGTH

  /** NoteLength.values(), in declaration order. */
  const LENGTHS: seq<NoteLength> := [WHOLE, HALF, QUARTER, EIGTH]

  /** The position of l among the declared lengths. */
  function LengthOrdinal(l: NoteLength): (k: nat)
    ensures k < |LENGTHS| && LENGTHS[k] == l
  {
    match l
    case WHOLE => 0
    case HALF => 1
    case QUARTER => 2
    case EIGTH => 3
  }

  function LengthName(l: NoteLength): string {
    match l
    case WHOLE => "WHOLE"
    case HALF => "HALF"
    case QUARTER => "QUARTER"
    case EIGTH => "EIGTH"
  }

  /** The fraction of a measure each length is declared with. */
  function Fraction(l: NoteLength): real {
    match l
    case WHOLE => 1.0
    case HALF => 0.5
    case QUARTER => 0.25
    case EIGTH => 0.125
  }

  /**
   * The duration in milliseconds: the declared fraction of the measure,
   * truncated to an int. The truncation loses nothing for any length.
   */
  function TimeMs(l: NoteLength): (ms: int)
    ensures 0 < ms <= MEASURE_LENGTH_SEC * 1000
    ensures ms as real == Fraction(l) * (MEASURE_LENGTH_SEC * 1000) as real
  {
    (Fraction(l) * MEASURE_LENGTH_SEC as real * 1000.0).Floor
  }

  /** The four durations, which are pairwise distinct. */
  lemma TimeMsValues()
    ensures TimeMs(WHOLE) == 1000 && TimeMs(HALF) == 500
    ensures TimeMs(QUARTER) == 250 && TimeMs(EIGTH) == 125
    ensures forall a, b :: TimeMs(a) == TimeMs(b) ==> a == b
  {
  }

  /** NoteLength.valueOf; None stands for its IllegalArgumentException. */
  function LengthOf(name: string): Option<NoteLength> {
    if name == "WHOLE" then Some(WHOLE)
    else if name == "HALF" then Some(HALF)
    else if name == "QUARTER" then Some(QUARTER)
    else if name == "EIGTH" then Some(EIGTH)
    else None
  }

  /** LengthOf finds the length with exactly this name, and nothing else. */
  lemma LengthOfFindsName(name: string)
    ensures forall l :: LengthOf(name) == Some(l) <==> LengthName(l) == name
  {
  }

  /**
   * Tone.valueOfLabel: the first length, in declaration order, whose
   * duration is millis; None when there is none. Since durations are
   * distinct, this inverts TimeMs.
   */
  method ValueOfLabel(millis: int) returns (r: Option<NoteLength>)
    ensures r.Some? ==> TimeMs(r.value) == millis
    ensures r.None? <==> forall l :: TimeMs(l) != millis
    ensures forall l :: TimeMs(l) == millis ==> r == Some(l)
  {
    var i := 0;
    while i < |LENGTHS|
      invariant 0 <= i <= |LENGTHS|
      invariant forall j :: 0 <= j < i ==> TimeMs(LENGTHS[j]) != millis
    {
      var e := LENGTHS[i];
      if TimeMs(e) == millis {
        TimeMsValues();
        return Some(e);
      }
      i := i + 1;
    }
    forall l
      ensures TimeMs(l) != millis
    {
      assert TimeMs(LENGTHS[LengthOrdinal(l)]) != millis;
    }
    return None;
  }

  // ---------------------------------------------------------------------
  // Note

  /** The pitches; REST must come first. */
  datatype Note = REST | A4 | A4S | B4 | C4 | C4S | D4 | D4S | E4 | F4 | F4S | G4 | G4S | A5

  /** Note.values(), in declaration order. */
  const NOTES: seq<Note> := [REST, A4, A4S, B4, C4, C4S, D4, D4S, E4, F4, F4S, G4, G4S, A5]

  function NoteName(n: Note): string {
    match n
    case REST => "REST"
    case A4 => "A4"
    case A4S => "A4S"
    case B4 => "B4"
    case C4 => "C4"
    case C4S => "C4S"
    case D4 => "D4"
    case D4S => "D4S"
    case E4 => "E4"
    case F4 => "F4"
    case F4S => "F4S"
    case G4 => "G4"
    case G4S => "G4S"
    case A5 => "A5"
  }

  /** The position of n among the declared pitches; only REST has ordinal 0. */
  function Ordinal(n: Note): (k: nat)
    ensures k < |NOTES| && NOTES[k] == n
    ensures k == 0 <==> n == REST
  {
    match n
    case REST => 0
    case A4 => 1
    case A4S => 2
    case B4 => 3
    case C4 => 4
    case C4S => 5
    case D4 => 6
    case D4S => 7
    case E4 => 8
    case F4 => 9
    case F4S => 10
    case G4 => 11
    case G4S => 12
    case A5 => 13
  }

  /** The first of candidates whose name is name. */
  function FindNote(name: string, candidates: seq<Note>): Option<Note> {
    if candidates == [] then None
    else if NoteName(candidates[0]) == name then Some(candidates[0])
    else FindNote(name, candidates[1..])
  }

  /** FindNote returns a candidate with the name, and fails only when no candidate has it. */
  lemma {:induction false} FindNoteFinds(name: string, candidates: seq<Note>)
    ensures FindNote(name, candidates).Some? ==>
              FindNote(name, candidates).value in candidates && NoteName(FindNote(name, candidates).value) == name
    ensures FindNote(name, candidates).None? ==> forall n :: n in candidates ==> NoteName(n) != name
    decreases |candidates|
  {
    if candidates != [] && NoteName(candidates[0]) != name {
      FindNoteFinds(name, candidates[1..]);
    }
  }

  /** Distinct pitches have distinct names. */
  lemma NoteNamesDistinct()
    ensures forall a, b :: NoteName(a) == NoteName(b) ==> a == b
  {
  }

  /** Note.valueOf; None stands for its IllegalArgumentException. */
  function NoteOf(name: string): Option<Note> {
    FindNote(name, NOTES)
  }

  /** NoteOf finds the pitch with exactly this name, and nothing else. */
  lemma NoteOfFindsName(name: string)
    ensures forall n :: NoteOf(name) == Some(n) <==> NoteName(n) == name
  {
    FindNoteFinds(name, NOTES);
    assert forall n :: Ordinal(n) < |NOTES| && NOTES[Ordinal(n)] == n;
    NoteNamesDistinct();
  }

  /** Every pitch name starts with R or with a letter from A to G. */
  lemma NoteNameInitial(n: Note)
    ensures |NoteName(n)| > 0 && NoteName(n)[0] in "RABCDEFG"
  {
  }

  /** A name whose first letter no pitch name starts with names no pitch. */
  lemma NoteOfUnknownInitial(name: string)
    requires |name| > 0 && name[0] !in "RABCDEFG"
    ensures NoteOf(name) == None
  {
    NoteOfFindsName(name);
    forall n: Note
      ensures NoteName(n) != name
    {
      NoteNameInitial(n);
    }
  }

  /**
   * Byte i of the sample buffer of pitch n. REST's buffer is never filled
   * and keeps Java's zero initialisation; every other buffer holds the
   * synthesised waveform, given here as wave.
   */
  function SampleByte(n: Note, i: nat, wave: (Note, nat) -> int8): int8 {
    if Ordinal(n) > 0 then wave(n, i) else 0
  }

  /**
   * The Note constructor's buffer: one measure of samples, left all zero
   * for REST and filled from the waveform for every other pitch.
   */
  method NewSample(n: Note, wave: (Note, nat) -> int8) returns (buf: array<int8>)
    ensures fresh(buf)
    ensures buf.Length == SAMPLE_BUFFER_LENGTH
    ensures forall i :: 0 <= i < buf.Length ==> buf[i] == SampleByte(n, i, wave)
  {
    buf := new int8[SAMPLE_BUFFER_LENGTH](_ => 0);
    var k := Ordinal(n);
    if k > 0 {
      var i := 0;
      while i < buf.Length
        invariant 0 <= i <= buf.Length
        invariant forall j :: 0 <= j < i ==> buf[j] == wave(n, j)
      {
        buf[i] := wave(n, i);
        i := i + 1;
      }
    }
  }

  /** REST's buffer is silence. */
  lemma RestIsSilent(i: nat, wave: (Note, nat) -> int8)
    ensures SampleByte(REST, i, wave) == 0
  {
  }

  // ---------------------------------------------------------------------
  // BellNote

  /** One entry of a song; either field is null (None) on a line that failed to parse. */
  datatype BellNote = BellNote(note: Option<Note>, length: Option<NoteLength>) {
    /** Both fields present: the entry can be played without a NullPointerException. */
    predicate Playable() {
      note.Some? && length.Some?
    }
  }
}
