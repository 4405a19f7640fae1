/**
 * Playback: playNote and playSong write each entry of a song to the audio
 * line as two writes, the pitch's sample buffer for the note's duration and
 * a short slice of REST's silent buffer. The line is modelled by the trace
 * of writes it receives.
 */
module Playback {
  import opened Wrappers
  import opened JavaText
  import opened Notes
  import opened SongLoader

  /** Bytes of REST written after every note. */
  const GAP_BYTES: nat := 50

  /** One call line.write(buffer, offset, count), naming the pitch whose buffer is written. */
  datatype Chunk = Chunk(buffer: Note, offset: nat, count: nat)

  function Min(a: int, b: int): int {
    if a <= b then a else b
  }

  /**
   * playNote's byte count for a length: the duration, capped at one
   * measure, in samples at SAMPLE_RATE. In Java int arithmetic the product
   * is at most 49152000, so it cannot overflow.
   */
  function SampleCount(length: NoteLength): (count: nat)
    ensures count <= SAMPLE_BUFFER_LENGTH
    ensures count * 1000 == SAMPLE_RATE * TimeMs(length)
  {
    TimeMsValues();
    var ms := Min(TimeMs(length), MEASURE_LENGTH_SEC * 1000);
    SAMPLE_RATE * ms / 1000
  }

  /** The four byte counts: a whole note fills the buffer and each shorter length halves it. */
  lemma SampleCountValues()
    ensures SampleCount(WHOLE) == SAMPLE_BUFFER_LENGTH == 49152
    ensures SampleCount(HALF) == 24576
    ensures SampleCount(QUARTER) == 12288
    ensures SampleCount(EIGTH) == 6144
  {
    TimeMsValues();
  }

  /** A length read from the code "c" plays 1/c of the sample buffer. */
  lemma CodePlaysFraction(code: string)
    requires LengthOfCode(code).Some?
    ensures |code| == 1 && '1' <= code[0] <= '8'
    ensures SampleCount(LengthOfCode(code).value) * (code[0] as int - '0' as int) == SAMPLE_BUFFER_LENGTH
  {
    LengthCodeMap(code);
    SampleCountValues();
  }

  /** The two writes of playNote for one playable entry. */
  function NoteChunks(bn: BellNote): seq<Chunk>
    requires bn.Playable()
  {
    [Chunk(bn.note.value, 0, SampleCount(bn.length.value)), Chunk(REST, 0, GAP_BYTES)]
  }

  /** The writes of playSong: the entries' writes, in song order. */
  function SongTrace(song: seq<BellNote>): (r: seq<Chunk>)
    requires forall k :: 0 <= k < |song| ==> song[k].Playable()
    ensures |r| == 2 * |song|
    decreases |song|
  {
    if song == [] then []
    else SongTrace(song[..|song| - 1]) + NoteChunks(song[|song| - 1])
  }

  /**
   * Entry i of the song gives writes 2i and 2i+1: its pitch's buffer for
   * its byte count, then the REST gap; nothing else is written.
   */
  lemma {:induction false} SongTraceLayout(song: seq<BellNote>)
    requires forall k :: 0 <= k < |song| ==> song[k].Playable()
    ensures forall i :: 0 <= i < |song| ==>
              SongTrace(song)[2 * i] == Chunk(song[i].note.value, 0, SampleCount(song[i].length.value)) &&
              SongTrace(song)[2 * i + 1] == Chunk(REST, 0, GAP_BYTES)
    decreases |song|
  {
    if song != [] {
      var n := |song| - 1;
      SongTraceLayout(song[..n]);
      assert SongTrace(song) == SongTrace(song[..n]) + NoteChunks(song[n]);
    }
  }

  /** Every write stays inside its 49152-byte buffer. */
  lemma SongTraceInBounds(song: seq<BellNote>)
    requires forall k :: 0 <= k < |song| ==> song[k].Playable()
    ensures forall j :: 0 <= j < |SongTrace(song)| ==>
              SongTrace(song)[j].offset + SongTrace(song)[j].count <= SAMPLE_BUFFER_LENGTH
  {
    SongTraceLayout(song);
    forall j | 0 <= j < |SongTrace(song)|
      ensures SongTrace(song)[j].offset + SongTrace(song)[j].count <= SAMPLE_BUFFER_LENGTH
    {
      assert j == 2 * (j / 2) || j == 2 * (j / 2) + 1;
    }
  }

  /** The bytes a write sends, given the synthesised waveform. */
  function ChunkBytes(c: Chunk, wave: (Note, nat) -> int8): seq<int8> {
    seq(c.count, (i: nat) => SampleByte(c.buffer, c.offset + i, wave))
  }

  /** The gap after every note is 50 zero bytes, whatever the waveform. */
  lemma GapsAreSilent(song: seq<BellNote>, wave: (Note, nat) -> int8)
    requires forall k :: 0 <= k < |song| ==> song[k].Playable()
    ensures forall i :: 0 <= i < |song| ==>
              ChunkBytes(SongTrace(song)[2 * i + 1], wave) == seq(GAP_BYTES, _ => 0 as int8)
  {
    SongTraceLayout(song);
    forall i | 0 <= i < |song|
      ensures ChunkBytes(SongTrace(song)[2 * i + 1], wave) == seq(GAP_BYTES, _ => 0 as int8)
    {
      var gap := ChunkBytes(SongTrace(song)[2 * i + 1], wave);
      forall j | 0 <= j < GAP_BYTES
        ensures gap[j] == 0
      {
        RestIsSilent(j, wave);
      }
    }
  }

  /** The source data line: it records every write it is given. */
  class AudioLine {
    var writes: seq<Chunk>

    constructor()
      ensures writes == []
    {
      writes := [];
    }

    /** line.write(b, offset, count); Java rejects a slice outside the buffer. */
    method Write(buffer: Note, offset: nat, count: nat)
      requires offset + count <= SAMPLE_BUFFER_LENGTH
      modifies this
      ensures writes == old(writes) + [Chunk(buffer, offset, count)]
    {
      writes := writes + [Chunk(buffer, offset, count)];
    }
  }

  /** playNote: both fields are dereferenced, so the entry must be playable. */
  method PlayNote(line: AudioLine, bn: BellNote)
    requires bn.Playable()
    modifies line
    ensures line.writes == old(line.writes) + NoteChunks(bn)
  {
    var ms := Min(TimeMs(bn.length.value), MEASURE_LENGTH_SEC * 1000);
    var length := SAMPLE_RATE * ms / 1000;
    line.Write(bn.note.value, 0, length);
    line.Write(REST, 0, GAP_BYTES);
  }

  /** playSong: opens a line, plays every entry in order, and returns what the line received. */
  method PlaySong(song: seq<BellNote>) returns (trace: seq<Chunk>)
    requires forall k :: 0 <= k < |song| ==> song[k].Playable()
    ensures trace == SongTrace(song)
  {
    var line := new AudioLine();
    var i := 0;
    while i < |song|
      invariant 0 <= i <= |song|
      invariant line.writes == SongTrace(song[..i])
    {
      assert song[..i + 1][..i] == song[..i];
      PlayNote(line, song[i]);
      i := i + 1;
    }
    assert song[..i] == song;
    trace := line.writes;
  }

  /** A song loaded with diagnostics is empty, so playSong writes nothing. */
  lemma DiagnosedSongIsSilent(lines: seq<string>)
    requires LoadLines(lines).Loaded? && LoadLines(lines).diagnostics != []
    ensures SongTrace(LoadLines(lines).song) == []
  {
  }

  /**
   * A clean load plays, for line i of the file, the buffer of the pitch its
   * first field names for the byte count of its length code, then the gap.
   */
  lemma CleanSongTrace(lines: seq<string>)
    requires LoadLines(lines).Loaded? && LoadLines(lines).diagnostics == []
    ensures var trace := SongTrace(LoadLines(lines).song);
            |trace| == 2 * |lines| &&
            forall i :: 0 <= i < |lines| ==>
              ValidLine(lines[i]) &&
              trace[2 * i] == Chunk(PitchOf(Split(lines[i])[0]).value, 0,
                                    SampleCount(LengthOfCode(Split(lines[i])[1]).value)) &&
              trace[2 * i + 1] == Chunk(REST, 0, GAP_BYTES)
  {
    CleanLoad(lines);
    SongTraceLayout(LoadLines(lines).song);
  }

  /** The song "A4 4", "B4 2": a quarter measure of A4, the gap, half a measure of B4, the gap. */
  lemma TwoNoteTrace()
    ensures LoadLines(["A4 4", "B4 2"]).Loaded?
    ensures SongTrace(LoadLines(["A4 4", "B4 2"]).song) ==
              [Chunk(A4, 0, 12288), Chunk(REST, 0, GAP_BYTES), Chunk(B4, 0, 24576), Chunk(REST, 0, GAP_BYTES)]
  {
    TwoNoteExample();
    SampleCountValues();
    var song := [BellNote(Some(A4), Some(QUARTER)), BellNote(Some(B4), Some(HALF))];
    assert song[..1][..0] == [];
    assert SongTrace(song[..1]) == NoteChunks(song[0]);
  }
}
