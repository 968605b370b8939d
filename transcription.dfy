/** transcribe_audio, in both copies: the whole file when it is at most 30
    minutes long, otherwise 20-minute pieces recognised in order, each text
    appended to a buffer followed by a space, the buffer stripped at the end.
    The copy at the repository root deletes each piece after recognising it
    (remove = true); the copy under src/ keeps them (remove = false). */
module Transcription {
  import opened Wrappers
  import opened Text
  import opened Paths
  import opened Chunking
  import opened Workspace
  import opened Providers

  const ChunkPrefix: string := "temp_chunk_"
  const ChunkSuffix: string := ".mp3"

  /** temp_chunk_<i>.mp3 */
  function ChunkName(i: nat): Path {
    ChunkPrefix + NatToString(i) + ChunkSuffix
  }

  function ChunkPath(tempDir: Path, i: nat): Path {
    Join(tempDir, ChunkName(i))
  }

  /** Each piece has its own scratch file. */
  lemma ChunkPathsDistinct(tempDir: Path, i: nat, j: nat)
    requires i != j
    ensures ChunkPath(tempDir, i) != ChunkPath(tempDir, j)
  {
    var a, b := ChunkName(i), ChunkName(j);
    if ChunkPath(tempDir, i) == ChunkPath(tempDir, j) {
      var pre := if tempDir == [] || tempDir[|tempDir| - 1] == Sep then tempDir else tempDir + [Sep];
      assert ChunkPath(tempDir, i) == pre + a && ChunkPath(tempDir, j) == pre + b;
      assert a == (pre + a)[|pre|..] == (pre + b)[|pre|..] == b;
      var n, e := |ChunkPrefix|, |ChunkSuffix|;
      assert NatToString(i) == a[n..|a| - e] == b[n..|b| - e] == NatToString(j);
      NatToStringInjective(i, j);
    }
  }

  /** The piece a recognizer result belongs to. */
  function PieceOf(source: Path, chunks: seq<Chunk>, i: nat): Segment
    requires i < |chunks|
  {
    Piece(source, i, chunks[i])
  }

  predicate AllRecognized(source: Path, chunks: seq<Chunk>, recognize: Segment -> Option<string>) {
    forall i :: 0 <= i < |chunks| ==> recognize(PieceOf(source, chunks, i)).Some?
  }

  /** The recognised text of every piece, in piece order. */
  function ChunkTexts(source: Path, chunks: seq<Chunk>, recognize: Segment -> Option<string>): (ts: seq<string>)
    requires AllRecognized(source, chunks, recognize)
    ensures |ts| == |chunks|
  {
    seq(|chunks|, i requires 0 <= i < |chunks| => recognize(PieceOf(source, chunks, i)).value)
  }

  /** The index of the first piece at or after `from` whose recognition
      raises, or |chunks| when none does. */
  function FirstFailure(source: Path, chunks: seq<Chunk>, recognize: Segment -> Option<string>, from: nat): (k: nat)
    requires from <= |chunks|
    ensures from <= k <= |chunks|
    ensures forall j :: from <= j < k ==> recognize(PieceOf(source, chunks, j)).Some?
    ensures k < |chunks| ==> recognize(PieceOf(source, chunks, k)).None?
    decreases |chunks| - from
  {
    if from == |chunks| then from
    else if recognize(PieceOf(source, chunks, from)).None? then from
    else FirstFailure(source, chunks, recognize, from + 1)
  }

  /** The world after the first m loop iterations completed: export piece i,
      call the recognizer, and (root copy) remove the piece. */
  function AfterChunks(w: World, tempDir: Path, source: Path, chunks: seq<Chunk>, m: nat, remove: bool): (w': World)
    requires m <= |chunks|
    ensures w'.dirs == w.dirs
  {
    if m == 0 then w
    else
      var before := AfterChunks(w, tempDir, source, chunks, m - 1, remove);
      var exported := before.Put(tempDir, ChunkName(m - 1), Clip(source, chunks[m - 1])).Call(Recognize);
      if remove then exported.Delete(ChunkPath(tempDir, m - 1)) else exported
  }

  /** What transcribe_audio returns and leaves behind. */
  function TranscribeSpec(w: World, audioPath: Path, p: Services, tempDir: Path, remove: bool): (Option<string>, World)
  {
    var w0 := w.Call(LoadModel);
    if !p.modelLoads then (None, w0)
    else if !(audioPath in w0.files && w0.files[audioPath].Audio?) then (None, w0)
    else
      var d := w0.files[audioPath].durationMs;
      if !NeedsChunking(d) then (p.recognize(Whole(audioPath, false)), w0.Call(Recognize))
      else ChunkedSpec(w0, audioPath, MakeChunks(d), p.recognize, tempDir, remove)
  }

  /** The chunked branch: the first piece whose export or recognition raises
      ends the call with no transcript and leaves that piece's file behind. */
  function ChunkedSpec(w: World, source: Path, cs: seq<Chunk>, recognize: Segment -> Option<string>, tempDir: Path, remove: bool): (Option<string>, World)
  {
    if tempDir !in w.dirs && cs != [] then (None, w)
    else
      var k := FirstFailure(source, cs, recognize, 0);
      if k == |cs| then
        (Some(Strip(Terminated(ChunkTexts(source, cs, recognize), " "))), AfterChunks(w, tempDir, source, cs, k, remove))
      else
        (None, AfterChunks(w, tempDir, source, cs, k, remove).Put(tempDir, ChunkName(k), Clip(source, cs[k])).Call(Recognize))
  }

  method TranscribeAudio(host: Host, audioPath: Path, p: Services, tempDir: Path, remove: bool) returns (r: Option<string>)
    modifies host
    ensures (r, host.State()) == TranscribeSpec(old(host.State()), audioPath, p, tempDir, remove)
  {
    host.Record(LoadModel);
    if !p.modelLoads {
      return None;
    }
    if !(audioPath in host.files && host.files[audioPath].Audio?) {
      return None;
    }
    var d := host.files[audioPath].durationMs;
    if d > ThresholdMs {
      r := TranscribeChunks(host, audioPath, MakeChunks(d), p.recognize, tempDir, remove);
    } else {
      host.Record(Recognize);
      r := p.recognize(Whole(audioPath, false));
    }
  }

  /** The loop over the pieces. */
  method TranscribeChunks(host: Host, source: Path, chunks: seq<Chunk>, recognize: Segment -> Option<string>, tempDir: Path, remove: bool)
    returns (r: Option<string>)
    modifies host
    ensures (r, host.State()) == ChunkedSpec(old(host.State()), source, chunks, recognize, tempDir, remove)
  {
    ghost var w0 := host.State();
    ghost var texts: seq<string> := [];
    var full := "";
    for i := 0 to |chunks|
      invariant host.State() == AfterChunks(w0, tempDir, source, chunks, i, remove)
      invariant i > 0 ==> tempDir in w0.dirs
      invariant |texts| == i && full == Terminated(texts, " ")
      invariant RecognizedAs(source, chunks, recognize, texts)
    {
      var ok := host.WriteFile(tempDir, ChunkName(i), Clip(source, chunks[i]));
      if !ok {
        ChunkedNoTempDir(w0, source, chunks, recognize, tempDir, remove);
        return None;
      }
      host.Record(Recognize);
      var result := recognize(Piece(source, i, chunks[i]));
      if result.None? {
        ChunkedStopsAt(w0, source, chunks, recognize, tempDir, remove, texts);
        return None;
      }
      RecognizedExtend(source, chunks, recognize, texts, result.value);
      full := full + result.value + " ";
      texts := texts + [result.value];
      if remove {
        host.Remove(ChunkPath(tempDir, i));
      }
    }
    ChunkedCompletes(w0, source, chunks, recognize, tempDir, remove, texts);
    r := Some(Strip(full));
  }

  /** The scratch directory is missing: the first export raises. */
  lemma ChunkedNoTempDir(w: World, source: Path, cs: seq<Chunk>, recognize: Segment -> Option<string>, tempDir: Path, remove: bool)
    requires tempDir !in w.dirs && cs != []
    ensures ChunkedSpec(w, source, cs, recognize, tempDir, remove) == (None, w)
  {
  }

  /** Piece |texts| raises after the earlier ones produced texts. */
  lemma ChunkedStopsAt(w: World, source: Path, cs: seq<Chunk>, recognize: Segment -> Option<string>, tempDir: Path, remove: bool,
                       texts: seq<string>)
    requires tempDir in w.dirs
    requires RecognizedAs(source, cs, recognize, texts) && |texts| < |cs|
    requires recognize(PieceOf(source, cs, |texts|)).None?
    ensures var k := |texts|;
      ChunkedSpec(w, source, cs, recognize, tempDir, remove)
        == (None, AfterChunks(w, tempDir, source, cs, k, remove).Put(tempDir, ChunkName(k), Clip(source, cs[k])).Call(Recognize))
  {
    FirstFailureIsFirst(source, cs, recognize, |texts|);
  }

  /** Every piece produced a text. */
  lemma ChunkedCompletes(w: World, source: Path, cs: seq<Chunk>, recognize: Segment -> Option<string>, tempDir: Path, remove: bool,
                         texts: seq<string>)
    requires tempDir in w.dirs || cs == []
    requires RecognizedAs(source, cs, recognize, texts) && |texts| == |cs|
    ensures ChunkedSpec(w, source, cs, recognize, tempDir, remove)
         == (Some(Strip(Terminated(texts, " "))), AfterChunks(w, tempDir, source, cs, |cs|, remove))
  {
    RecognizedAll(source, cs, recognize, texts);
    FirstFailureIsFirst(source, cs, recognize, |cs|);
  }

  /** texts holds the recognised text of the first |texts| pieces. */
  predicate RecognizedAs(source: Path, chunks: seq<Chunk>, recognize: Segment -> Option<string>, texts: seq<string>) {
    |texts| <= |chunks| && forall j :: 0 <= j < |texts| ==> recognize(PieceOf(source, chunks, j)) == Some(texts[j])
  }

  lemma RecognizedExtend(source: Path, chunks: seq<Chunk>, recognize: Segment -> Option<string>, texts: seq<string>, t: string)
    requires RecognizedAs(source, chunks, recognize, texts) && |texts| < |chunks|
    requires recognize(PieceOf(source, chunks, |texts|)) == Some(t)
    ensures RecognizedAs(source, chunks, recognize, texts + [t])
  {
  }

  lemma RecognizedAll(source: Path, chunks: seq<Chunk>, recognize: Segment -> Option<string>, texts: seq<string>)
    requires RecognizedAs(source, chunks, recognize, texts) && |texts| == |chunks|
    ensures AllRecognized(source, chunks, recognize)
    ensures texts == ChunkTexts(source, chunks, recognize)
  {
  }

  /** FirstFailure finds the first raising piece: if all pieces before k
      succeed and piece k raises (or k is the end), it is k. */
  lemma {:induction false} FirstFailureFrom(source: Path, chunks: seq<Chunk>, recognize: Segment -> Option<string>, from: nat, k: nat)
    requires from <= k <= |chunks|
    requires forall j :: from <= j < k ==> recognize(PieceOf(source, chunks, j)).Some?
    requires k < |chunks| ==> recognize(PieceOf(source, chunks, k)).None?
    ensures FirstFailure(source, chunks, recognize, from) == k
    decreases k - from
  {
    if from < k {
      FirstFailureFrom(source, chunks, recognize, from + 1, k);
    }
  }

  lemma FirstFailureIsFirst(source: Path, chunks: seq<Chunk>, recognize: Segment -> Option<string>, k: nat)
    requires k <= |chunks|
    requires forall j :: 0 <= j < k ==> recognize(PieceOf(source, chunks, j)).Some?
    requires k < |chunks| ==> recognize(PieceOf(source, chunks, k)).None?
    ensures FirstFailure(source, chunks, recognize, 0) == k
  {
    FirstFailureFrom(source, chunks, recognize, 0, k);
  }

  /** q is none of the first m scratch files. */
  predicate NotPiece(tempDir: Path, m: nat, q: Path) {
    forall j :: 0 <= j < m ==> q != ChunkPath(tempDir, j)
  }

  /** What transcription may add to the trace: loading the model, calling
      the recogniser, and writing or removing files in the scratch directory. */
  predicate ScratchEvent(e: Event, tempDir: Path) {
    e == Called(LoadModel) || e == Called(Recognize) || ((e.Wrote? || e.Removed?) && InDir(e.path, tempDir))
  }

  /** Every event from position n on is a scratch event. */
  predicate ScratchSince(trace: seq<Event>, n: nat, tempDir: Path) {
    n <= |trace| && forall i :: n <= i < |trace| ==> ScratchEvent(trace[i], tempDir)
  }

  lemma ScratchSinceTrans(t0: seq<Event>, t1: seq<Event>, t2: seq<Event>, tempDir: Path)
    requires t0 <= t1 && t1 <= t2
    requires ScratchSince(t1, |t0|, tempDir) && ScratchSince(t2, |t1|, tempDir)
    ensures t0 <= t2 && ScratchSince(t2, |t0|, tempDir)
  {
    forall i | |t0| <= i < |t2|
      ensures ScratchEvent(t2[i], tempDir)
    {
      if i < |t1| {
        assert t2[i] == t1[i];
      }
    }
  }

  /** One export of a piece (and its removal in the root copy) stays in the
      scratch directory. */
  lemma PieceStepTouchesOnlyScratch(w: World, tempDir: Path, i: nat, b: Blob, remove: bool)
    requires tempDir != [] && tempDir[|tempDir| - 1] != Sep
    ensures var e := w.Put(tempDir, ChunkName(i), b).Call(Recognize);
      var w' := if remove then e.Delete(ChunkPath(tempDir, i)) else e;
      && w.trace <= w'.trace && ScratchSince(w'.trace, |w.trace|, tempDir) && w'.dirs == w.dirs
      && forall q :: !InDir(q, tempDir) ==> SameFile(w'.files, w.files, q)
  {
    JoinInDir(tempDir, ChunkName(i));
  }

  /** The chunk loop touches nothing outside the scratch directory. */
  lemma {:induction false} AfterChunksTouchesOnlyScratch(w: World, tempDir: Path, source: Path, chunks: seq<Chunk>, m: nat, remove: bool)
    requires m <= |chunks| && tempDir != [] && tempDir[|tempDir| - 1] != Sep
    ensures var w' := AfterChunks(w, tempDir, source, chunks, m, remove);
      && w.trace <= w'.trace && ScratchSince(w'.trace, |w.trace|, tempDir)
      && forall q :: !InDir(q, tempDir) ==> SameFile(w'.files, w.files, q)
  {
    if m > 0 {
      AfterChunksTouchesOnlyScratch(w, tempDir, source, chunks, m - 1, remove);
      var prev := AfterChunks(w, tempDir, source, chunks, m - 1, remove);
      var next := AfterChunks(w, tempDir, source, chunks, m, remove);
      PieceStepTouchesOnlyScratch(prev, tempDir, m - 1, Clip(source, chunks[m - 1]), remove);
      ScratchSinceTrans(w.trace, prev.trace, next.trace, tempDir);
    }
  }

  /** transcribe_audio leaves every file outside the scratch directory as
      it was, creates no directory, and only adds model, recogniser and
      scratch-file events to the trace. */
  lemma TranscribeTouchesOnlyScratch(w: World, audioPath: Path, p: Services, tempDir: Path, remove: bool)
    requires tempDir != [] && tempDir[|tempDir| - 1] != Sep
    ensures var w' := TranscribeSpec(w, audioPath, p, tempDir, remove).1;
      && w'.dirs == w.dirs && w.trace <= w'.trace && ScratchSince(w'.trace, |w.trace|, tempDir)
      && forall q :: !InDir(q, tempDir) ==> SameFile(w'.files, w.files, q)
  {
    var w0 := w.Call(LoadModel);
    assert w.trace <= w0.trace && ScratchSince(w0.trace, |w.trace|, tempDir);
    if p.modelLoads && audioPath in w0.files && w0.files[audioPath].Audio? {
      var d := w0.files[audioPath].durationMs;
      if !NeedsChunking(d) {
        assert ScratchSince(w0.Call(Recognize).trace, |w0.trace|, tempDir);
        ScratchSinceTrans(w.trace, w0.trace, w0.Call(Recognize).trace, tempDir);
      } else {
        var cs := MakeChunks(d);
        if !(tempDir !in w0.dirs && cs != []) {
          var k := FirstFailure(audioPath, cs, p.recognize, 0);
          var mid := AfterChunks(w0, tempDir, audioPath, cs, k, remove);
          AfterChunksTouchesOnlyScratch(w0, tempDir, audioPath, cs, k, remove);
          ScratchSinceTrans(w.trace, w0.trace, mid.trace, tempDir);
          if k < |cs| {
            var last := mid.Put(tempDir, ChunkName(k), Clip(audioPath, cs[k])).Call(Recognize);
            PieceStepTouchesOnlyScratch(mid, tempDir, k, Clip(audioPath, cs[k]), false);
            ScratchSinceTrans(w.trace, mid.trace, last.trace, tempDir);
          }
        }
      }
    }
  }


  /** None of the first m scratch files is in f. */
  predicate PiecesGone(f: map<Path, Blob>, tempDir: Path, m: nat) {
    forall j :: 0 <= j < m ==> ChunkPath(tempDir, j) !in f
  }

  /** The scratch file of each piece j < m holds piece j. */
  predicate PiecesHeld(f: map<Path, Blob>, tempDir: Path, source: Path, chunks: seq<Chunk>, m: nat)
    requires m <= |chunks|
  {
    forall j :: 0 <= j < m ==> ChunkPath(tempDir, j) in f && f[ChunkPath(tempDir, j)] == Clip(source, chunks[j])
  }

  /** Every path other than the first m scratch files is as in orig. */
  ghost predicate OthersKept(f: map<Path, Blob>, orig: map<Path, Blob>, tempDir: Path, m: nat) {
    forall q :: NotPiece(tempDir, m, q) ==> SameFile(f, orig, q)
  }

  /** Deleting each piece after its recognition (root copy): none of the
      first m scratch files is left, and every other file is as it was. */
  lemma {:induction false} RemovingLeavesNoPieces(w: World, tempDir: Path, source: Path, chunks: seq<Chunk>, m: nat)
    requires m <= |chunks|
    ensures PiecesGone(AfterChunks(w, tempDir, source, chunks, m, true).files, tempDir, m)
    ensures OthersKept(AfterChunks(w, tempDir, source, chunks, m, true).files, w.files, tempDir, m)
  {
    if m > 0 {
      RemovingLeavesNoPieces(w, tempDir, source, chunks, m - 1);
      var prev := AfterChunks(w, tempDir, source, chunks, m - 1, true);
      var pth := ChunkPath(tempDir, m - 1);
      var put := if tempDir in prev.dirs then prev.files[pth := Clip(source, chunks[m - 1])] else prev.files;
      AfterChunksStepFiles(w, tempDir, source, chunks, m, true);
      DropStep(prev.files, put, w.files, tempDir, m, Clip(source, chunks[m - 1]));
    }
  }

  /** One iteration's effect on the file map: the piece is written when the
      scratch directory exists, then removed in the root copy. */
  lemma AfterChunksStepFiles(w: World, tempDir: Path, source: Path, chunks: seq<Chunk>, m: nat, remove: bool)
    requires 0 < m <= |chunks|
    ensures var prev := AfterChunks(w, tempDir, source, chunks, m - 1, remove);
      var pth := ChunkPath(tempDir, m - 1);
      var put := if tempDir in prev.dirs then prev.files[pth := Clip(source, chunks[m - 1])] else prev.files;
      && prev.dirs == w.dirs
      && AfterChunks(w, tempDir, source, chunks, m, remove).files == if remove then put - {pth} else put
    ensures tempDir in w.dirs && !remove ==>
      AfterChunks(w, tempDir, source, chunks, m, remove).files
        == AfterChunks(w, tempDir, source, chunks, m - 1, remove).files[ChunkPath(tempDir, m - 1) := Clip(source, chunks[m - 1])]
  {
  }

  /** The removal step on file maps: the new piece is written and removed,
      the earlier pieces stay absent, other paths keep their contents. */
  lemma DropStep(prev: map<Path, Blob>, put: map<Path, Blob>, orig: map<Path, Blob>, tempDir: Path, m: nat, c: Blob)
    requires m > 0
    requires put == prev[ChunkPath(tempDir, m - 1) := c] || put == prev
    requires PiecesGone(prev, tempDir, m - 1) && OthersKept(prev, orig, tempDir, m - 1)
    ensures PiecesGone(put - {ChunkPath(tempDir, m - 1)}, tempDir, m)
    ensures OthersKept(put - {ChunkPath(tempDir, m - 1)}, orig, tempDir, m)
  {
    var pth := ChunkPath(tempDir, m - 1);
    forall q | NotPiece(tempDir, m, q)
      ensures SameFile(put - {pth}, orig, q)
    {
      assert q != pth;
      assert NotPiece(tempDir, m - 1, q);
      assert SameFile(prev, orig, q);
      assert SameFile(put, prev, q);
    }
  }

  /** Keeping the pieces (src/ copy): after m iterations the scratch file of
      every piece j < m holds exactly piece j, and every other file is as it was. */
  lemma {:induction false} KeepingLeavesOnePiecePerIndex(w: World, tempDir: Path, source: Path, chunks: seq<Chunk>, m: nat)
    requires m <= |chunks| && tempDir in w.dirs
    ensures PiecesHeld(AfterChunks(w, tempDir, source, chunks, m, false).files, tempDir, source, chunks, m)
    ensures OthersKept(AfterChunks(w, tempDir, source, chunks, m, false).files, w.files, tempDir, m)
  {
    if m > 0 {
      KeepingLeavesOnePiecePerIndex(w, tempDir, source, chunks, m - 1);
      AfterChunksStepFiles(w, tempDir, source, chunks, m, false);
      KeepStep(AfterChunks(w, tempDir, source, chunks, m - 1, false).files, w.files, tempDir, source, chunks, m);
    }
  }

  /** The keeping step on file maps. */
  lemma KeepStep(prev: map<Path, Blob>, orig: map<Path, Blob>, tempDir: Path, source: Path, chunks: seq<Chunk>, m: nat)
    requires 0 < m <= |chunks|
    requires PiecesHeld(prev, tempDir, source, chunks, m - 1) && OthersKept(prev, orig, tempDir, m - 1)
    ensures var next := prev[ChunkPath(tempDir, m - 1) := Clip(source, chunks[m - 1])];
      PiecesHeld(next, tempDir, source, chunks, m) && OthersKept(next, orig, tempDir, m)
  {
    var pth := ChunkPath(tempDir, m - 1);
    var next := prev[pth := Clip(source, chunks[m - 1])];
    forall j | 0 <= j < m - 1
      ensures ChunkPath(tempDir, j) in next && next[ChunkPath(tempDir, j)] == Clip(source, chunks[j])
    {
      ChunkPathsDistinct(tempDir, j, m - 1);
    }
    forall q | NotPiece(tempDir, m, q)
      ensures SameFile(next, orig, q)
    {
      assert q != pth;
      assert NotPiece(tempDir, m - 1, q);
      assert SameFile(prev, orig, q);
    }
  }

  /** The durations for which transcribe_audio splits the recording. */
  predicate SplitsAudio(w: World, audioPath: Path, p: Services) {
    p.modelLoads && audioPath in w.files && w.files[audioPath].Audio? && NeedsChunking(w.files[audioPath].durationMs)
  }

  function PiecesOf(w: World, audioPath: Path): seq<Chunk>
    requires audioPath in w.files && w.files[audioPath].Audio?
  {
    MakeChunks(w.files[audioPath].durationMs)
  }

  /** A recording of at most 30 minutes is recognised in one call on the
      whole file, and that text is returned as it is, without stripping. */
  lemma ShortAudioIsOneCall(w: World, audioPath: Path, p: Services, tempDir: Path, remove: bool)
    requires p.modelLoads && audioPath in w.files && w.files[audioPath].Audio?
    requires !NeedsChunking(w.files[audioPath].durationMs)
    ensures TranscribeSpec(w, audioPath, p, tempDir, remove).0 == p.recognize(Whole(audioPath, false))
    ensures TranscribeSpec(w, audioPath, p, tempDir, remove).1 == w.(trace := w.trace + [Called(LoadModel), Called(Recognize)])
  {
  }

  /** If any piece fails to be recognised, there is no transcript at all:
      never a partial one. */
  lemma AnyPieceFailureFails(w: World, audioPath: Path, p: Services, tempDir: Path, remove: bool, bad: nat)
    requires SplitsAudio(w, audioPath, p)
    requires bad < |PiecesOf(w, audioPath)| && p.recognize(PieceOf(audioPath, PiecesOf(w, audioPath), bad)).None?
    ensures TranscribeSpec(w, audioPath, p, tempDir, remove).0 == None
  {
    var cs := PiecesOf(w, audioPath);
    var k := FirstFailure(audioPath, cs, p.recognize, 0);
    assert k <= bad;
  }

  /** A successful split transcript is the piece texts in piece order
      joined by single spaces, then stripped, whatever the texts are. */
  lemma SplitTranscriptIsStrippedJoin(w: World, audioPath: Path, p: Services, tempDir: Path, remove: bool)
    requires SplitsAudio(w, audioPath, p) && tempDir in w.dirs
    requires AllRecognized(audioPath, PiecesOf(w, audioPath), p.recognize)
    ensures TranscribeSpec(w, audioPath, p, tempDir, remove).0
         == Some(Strip(JoinWith(ChunkTexts(audioPath, PiecesOf(w, audioPath), p.recognize), " ")))
  {
    var cs := PiecesOf(w, audioPath);
    FirstFailureIsFirst(audioPath, cs, p.recognize, |cs|);
    StripTerminatedIsStripJoin(ChunkTexts(audioPath, cs, p.recognize), ' ');
  }

  /** The strip leaves the join itself when the first piece text does not
      start and the last does not end with whitespace. */
  lemma SplitTranscriptIsOrderedJoin(w: World, audioPath: Path, p: Services, tempDir: Path, remove: bool)
    requires SplitsAudio(w, audioPath, p) && tempDir in w.dirs
    requires AllRecognized(audioPath, PiecesOf(w, audioPath), p.recognize)
    requires var ts := ChunkTexts(audioPath, PiecesOf(w, audioPath), p.recognize);
      ts[0] != [] && ts[|ts| - 1] != [] && !IsSpace(ts[0][0]) && !IsSpace(ts[|ts| - 1][|ts[|ts| - 1]| - 1])
    ensures TranscribeSpec(w, audioPath, p, tempDir, remove).0
         == Some(JoinWith(ChunkTexts(audioPath, PiecesOf(w, audioPath), p.recognize), " "))
  {
    var cs := PiecesOf(w, audioPath);
    SplitRecordingHasTwoChunks(w.files[audioPath].durationMs);
    FirstFailureIsFirst(audioPath, cs, p.recognize, |cs|);
    StripTerminated(ChunkTexts(audioPath, cs, p.recognize));
  }

  /** One hour recognised as three texts a, b, c gives "a b c" stripped;
      that is "a b c" verbatim when a does not start and c does not end
      with whitespace. */
  lemma OneHourTranscript(w: World, audioPath: Path, p: Services, tempDir: Path, remove: bool, a: string, b: string, c: string)
    requires p.modelLoads && tempDir in w.dirs && audioPath in w.files && w.files[audioPath] == Audio(60 * MinuteMs)
    requires p.recognize(Piece(audioPath, 0, Chunk(0, ChunkMs))) == Some(a)
    requires p.recognize(Piece(audioPath, 1, Chunk(ChunkMs, ChunkMs))) == Some(b)
    requires p.recognize(Piece(audioPath, 2, Chunk(2 * ChunkMs, ChunkMs))) == Some(c)
    ensures TranscribeSpec(w, audioPath, p, tempDir, remove).0 == Some(Strip(a + " " + b + " " + c))
    ensures a != [] && c != [] && !IsSpace(a[0]) && !IsSpace(c[|c| - 1]) ==>
      TranscribeSpec(w, audioPath, p, tempDir, remove).0 == Some(a + " " + b + " " + c)
  {
    var cs := PiecesOf(w, audioPath);
    OneHourIsThreeChunks();
    assert cs == [Chunk(0, ChunkMs), Chunk(ChunkMs, ChunkMs), Chunk(2 * ChunkMs, ChunkMs)];
    assert AllRecognized(audioPath, cs, p.recognize) by {
      forall i | 0 <= i < |cs|
        ensures p.recognize(PieceOf(audioPath, cs, i)).Some?
      {
        assert i == 0 || i == 1 || i == 2;
      }
    }
    var ts := ChunkTexts(audioPath, cs, p.recognize);
    assert ts[0] == a && ts[1] == b && ts[2] == c;
    assert ts == [a, b, c];
    SplitTranscriptIsStrippedJoin(w, audioPath, p, tempDir, remove);
    JoinWithThree(a, b, c);
    if a != [] && c != [] && !IsSpace(a[0]) && !IsSpace(c[|c| - 1]) {
      StripTerminated(ts);
      StripTerminatedIsStripJoin(ts, ' ');
    }
  }

  lemma JoinWithThree(a: string, b: string, c: string)
    ensures JoinWith([a, b, c], " ") == a + " " + b + " " + c
  {
    assert [a, b][..1] == [a];
    assert JoinWith([a, b], " ") == a + " " + b;
    assert [a, b, c][..2] == [a, b];
    assert JoinWith([a, b, c], " ") == JoinWith([a, b], " ") + " " + c;
  }

  /** Root copy: a fully successful split run leaves no scratch file of any
      piece, and touches no other file. */
  lemma RootCleansUpPieces(w: World, audioPath: Path, p: Services, tempDir: Path)
    requires SplitsAudio(w, audioPath, p) && tempDir in w.dirs
    requires AllRecognized(audioPath, PiecesOf(w, audioPath), p.recognize)
    ensures var w' := TranscribeSpec(w, audioPath, p, tempDir, true).1;
      && (forall j :: 0 <= j < |PiecesOf(w, audioPath)| ==> ChunkPath(tempDir, j) !in w'.files)
      && (forall q :: NotPiece(tempDir, |PiecesOf(w, audioPath)|, q) ==> SameFile(w'.files, w.files, q))
  {
    var cs := PiecesOf(w, audioPath);
    FirstFailureIsFirst(audioPath, cs, p.recognize, |cs|);
    RemovingLeavesNoPieces(w.Call(LoadModel), tempDir, audioPath, cs, |cs|);
  }

  /** Root copy: when piece k raises, its scratch file is left behind,
      although the pieces before it were removed. */
  lemma RootLeavesFailedPiece(w: World, audioPath: Path, p: Services, tempDir: Path)
    requires SplitsAudio(w, audioPath, p) && tempDir in w.dirs
    requires !AllRecognized(audioPath, PiecesOf(w, audioPath), p.recognize)
    ensures var k := FirstFailure(audioPath, PiecesOf(w, audioPath), p.recognize, 0);
      && k < |PiecesOf(w, audioPath)|
      && ChunkPath(tempDir, k) in TranscribeSpec(w, audioPath, p, tempDir, true).1.files
      && (forall j :: 0 <= j < k ==> ChunkPath(tempDir, j) !in TranscribeSpec(w, audioPath, p, tempDir, true).1.files)
  {
    var cs := PiecesOf(w, audioPath);
    var k := FirstFailure(audioPath, cs, p.recognize, 0);
    RemovingLeavesNoPieces(w.Call(LoadModel), tempDir, audioPath, cs, k);
    forall j | 0 <= j < k {
      ChunkPathsDistinct(tempDir, j, k);
    }
  }

  /** src/ copy: after a successful split run exactly the scratch file of
      each piece index holds that piece, and no other file changed. */
  lemma SrcKeepsPieces(w: World, audioPath: Path, p: Services, tempDir: Path)
    requires SplitsAudio(w, audioPath, p) && tempDir in w.dirs
    requires AllRecognized(audioPath, PiecesOf(w, audioPath), p.recognize)
    ensures var w' := TranscribeSpec(w, audioPath, p, tempDir, false).1;
      var cs := PiecesOf(w, audioPath);
      && (forall j :: 0 <= j < |cs| ==> ChunkPath(tempDir, j) in w'.files && w'.files[ChunkPath(tempDir, j)] == Clip(audioPath, cs[j]))
      && (forall q :: NotPiece(tempDir, |cs|, q) ==> SameFile(w'.files, w.files, q))
  {
    var cs := PiecesOf(w, audioPath);
    FirstFailureIsFirst(audioPath, cs, p.recognize, |cs|);
    KeepingLeavesOnePiecePerIndex(w.Call(LoadModel), tempDir, audioPath, cs, |cs|);
  }
}
