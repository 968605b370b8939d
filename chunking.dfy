/** When transcribe_audio splits a long recording and into which pieces.
    Durations are whole milliseconds, as pydub's len() reports them. */
module Chunking {

  const MinuteMs: nat := 60 * 1000
  /** Recordings longer than 30 minutes are split. */
  const ThresholdMs: nat := 30 * MinuteMs
  /** chunk_length_ms = 20 * 60 * 1000 */
  const ChunkMs: nat := 20 * 60 * 1000

  /** The source tests len(audio) / 60000 > 30 on floats; on whole
      milliseconds that is the integer comparison below. */
  predicate NeedsChunking(durationMs: nat) {
    durationMs > ThresholdMs
  }

  lemma NeedsChunkingIsMinuteTest(durationMs: nat)
    ensures NeedsChunking(durationMs) <==> (durationMs as real) / (MinuteMs as real) > 30.0
  {
  }

  /** One piece of the recording: [startMs, startMs + lengthMs). */
  datatype Chunk = Chunk(startMs: nat, lengthMs: nat)

  /** ceil(d / ChunkMs), the number of pieces pydub's make_chunks returns. */
  function ChunkCount(durationMs: nat): nat {
    (durationMs + ChunkMs - 1) / ChunkMs
  }

  /** make_chunks(audio, ChunkMs): piece i is audio[i*ChunkMs : (i+1)*ChunkMs],
      the slice clipped at the end of the recording. */
  function MakeChunks(durationMs: nat): (cs: seq<Chunk>)
    ensures |cs| == ChunkCount(durationMs)
    ensures forall i :: 0 <= i < |cs| ==> cs[i].startMs == i * ChunkMs
  {
    seq(ChunkCount(durationMs), i requires 0 <= i < ChunkCount(durationMs) =>
      Chunk(i * ChunkMs, if (i + 1) * ChunkMs <= durationMs then ChunkMs else durationMs - i * ChunkMs))
  }

  /** Total length of a list of pieces. */
  function TotalMs(cs: seq<Chunk>): nat {
    if cs == [] then 0 else TotalMs(cs[..|cs| - 1]) + cs[|cs| - 1].lengthMs
  }

  /** Every piece is non-empty and at most ChunkMs long, each starts where the
      previous one ended, and the last one ends at the end of the recording. */
  lemma ChunksPartition(durationMs: nat)
    ensures var cs := MakeChunks(durationMs);
      && (forall i :: 0 <= i < |cs| ==> 0 < cs[i].lengthMs <= ChunkMs)
      && (forall i :: 0 < i < |cs| ==> cs[i].startMs == cs[i - 1].startMs + cs[i - 1].lengthMs)
      && (|cs| > 0 ==> cs[|cs| - 1].startMs + cs[|cs| - 1].lengthMs == durationMs)
      && (durationMs > 0 <==> |cs| > 0)
  {
  }

  /** The last piece takes the remainder, or a whole ChunkMs when the duration
      is an exact multiple: there is never a trailing empty piece. */
  lemma LastChunkLength(durationMs: nat)
    requires durationMs > 0
    ensures var cs := MakeChunks(durationMs);
      |cs| > 0 && cs[|cs| - 1].lengthMs == (if durationMs % ChunkMs == 0 then ChunkMs else durationMs % ChunkMs)
  {
  }

  /** The first k pieces cover exactly the first min(k * ChunkMs, d) milliseconds. */
  lemma {:induction false} PrefixTotal(durationMs: nat, k: nat)
    requires k <= ChunkCount(durationMs)
    ensures TotalMs(MakeChunks(durationMs)[..k]) == if k * ChunkMs <= durationMs then k * ChunkMs else durationMs
  {
    var cs := MakeChunks(durationMs);
    if k > 0 {
      PrefixTotal(durationMs, k - 1);
      assert cs[..k][..k - 1] == cs[..k - 1];
    }
  }

  /** The pieces add up to the whole recording: no gap, no overlap, nothing dropped. */
  lemma ChunksCoverDuration(durationMs: nat)
    ensures TotalMs(MakeChunks(durationMs)) == durationMs
  {
    var cs := MakeChunks(durationMs);
    PrefixTotal(durationMs, |cs|);
    assert cs[..|cs|] == cs;
  }

  /** A recording that is split yields at least two pieces. */
  lemma SplitRecordingHasTwoChunks(durationMs: nat)
    requires NeedsChunking(durationMs)
    ensures ChunkCount(durationMs) >= 2
  {
  }

  /** Three pieces of exactly 20 minutes for a one-hour recording. */
  lemma OneHourIsThreeChunks()
    ensures MakeChunks(60 * MinuteMs) == [Chunk(0, ChunkMs), Chunk(ChunkMs, ChunkMs), Chunk(2 * ChunkMs, ChunkMs)]
  {
  }
}
