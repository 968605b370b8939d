/** The part of the YouTube flow both copies of youtube_audio_processor.py
    share once yt-dlp has delivered the audio: transcribe it, then hand the
    transcript to the final stages. The copies differ only in their
    directories and in whether transcription removes its scratch pieces. */
module YoutubeFlow {
  import opened Wrappers
  import opened Paths
  import opened Workspace
  import opened Providers
  import opened Transcription
  import opened Delivery

  const TranscriptName: Path := "transcript.txt"
  /** The output template download_audio is given, and the file yt-dlp's
      mp3 post-processor leaves behind. */
  const AudioStem: Path := "audio"
  const AudioName: Path := AudioStem + ".mp3"

  /** download_audio(url, join(folder, 'audio')) returns the output template
      with ".mp3" appended, which is where yt-dlp leaves the audio. */
  function DownloadedPath(folder: Path): Path {
    Join(folder, AudioStem) + ".mp3"
  }

  lemma DownloadedPathInFolder(folder: Path)
    ensures DownloadedPath(folder) == Join(folder, AudioName)
  {
    JoinThenAppend(folder, AudioStem, ".mp3");
  }

  /** The world and outcome once yt-dlp has left d milliseconds of audio in
      the run folder. */
  function FromAudioSpec(w: World, folder: Path, d: nat, p: Services, tempDir: Path, remove: bool): (RunOutcome, World) {
    var w1 := w.Put(folder, AudioName, Audio(d));
    var t := TranscribeSpec(w1, DownloadedPath(folder), p, tempDir, remove);
    match t.0
    case None => (Raised(Transcribing), t.1)
    case Some(transcript) => DeliverSpec(t.1, folder, TranscriptName, transcript, p)
  }

  /** What transcribe_audio returns for audio of length d saved as the
      downloaded file of folder in world w. */
  function TranscriptOf(w: World, folder: Path, d: nat, p: Services, tempDir: Path, remove: bool): Option<string> {
    TranscribeSpec(w.Put(folder, AudioName, Audio(d)), DownloadedPath(folder), p, tempDir, remove).0
  }

  method FromAudio(host: Host, folder: Path, d: nat, p: Services, tempDir: Path, remove: bool) returns (outcome: RunOutcome)
    requires folder in host.dirs && tempDir != [] && tempDir[|tempDir| - 1] != Sep
    modifies host
    ensures (outcome, host.State()) == FromAudioSpec(old(host.State()), folder, d, p, tempDir, remove)
  {
    var ok := host.WriteFile(folder, AudioName, Audio(d));
    assert ok;
    var audioPath := DownloadedPath(folder);
    ghost var before := host.State();
    var transcript := TranscribeAudio(host, audioPath, p, tempDir, remove);
    if transcript.None? {
      return Raised(Transcribing);
    }
    TranscribeTouchesOnlyScratch(before, audioPath, p, tempDir, remove);
    outcome := DeliverArtifacts(host, folder, TranscriptName, transcript.value, p);
  }

  /** Once the audio is in place the flow either raises at one of its
      three provider stages or completes; it has no early return. */
  lemma FromAudioOutcomes(w: World, folder: Path, d: nat, p: Services, tempDir: Path, remove: bool)
    ensures var r := FromAudioSpec(w, folder, d, p, tempDir, remove).0;
      r == Raised(Transcribing) || r == Raised(Translating) || r == Raised(Synthesizing) || r == Completed
  {
    var w1 := w.Put(folder, AudioName, Audio(d));
    var t := TranscribeSpec(w1, DownloadedPath(folder), p, tempDir, remove);
    if t.0.Some? {
      assert FromAudioSpec(w, folder, d, p, tempDir, remove) == DeliverSpec(t.1, folder, TranscriptName, t.0.value, p);
    }
  }

  /** The run folder and the scratch directory part at position k, so no
      artifact of the run is a scratch file. */
  predicate Apart(folder: Path, tempDir: Path, k: nat) {
    k < |folder| && k < |tempDir| && folder[k] != tempDir[k]
  }

  /** A run folder under an output directory that differs from the scratch
      directory at position k is apart from it at k. */
  lemma RunFolderApart(outputDir: Path, tempDir: Path, stamp: string, k: nat)
    requires outputDir != [] && outputDir[|outputDir| - 1] != Sep
    requires k < |outputDir| && k < |tempDir| && outputDir[k] != tempDir[k]
    ensures Apart(RunFolder(outputDir, RunPrefix, stamp), tempDir, k)
  {
    var f := RunFolder(outputDir, RunPrefix, stamp);
    assert (RunPrefix + stamp)[0] == RunPrefix[0] == 'c';
    JoinInDir(outputDir, RunPrefix + stamp);
    assert f[k] == f[..|outputDir|][k] == outputDir[k];
  }

  /** Between worlds w and w': none of transcript.txt, translated.txt and
      output.mp3 in the folder changed, and neither Gemini nor gTTS was called. */
  predicate ArtifactsUntouched(w: World, w': World, folder: Path) {
    && SameFile(w'.files, w.files, Join(folder, TranscriptName))
    && SameFile(w'.files, w.files, Join(folder, TranslatedName))
    && SameFile(w'.files, w.files, Join(folder, SpeechName))
    && w.trace <= w'.trace
    && forall i :: |w.trace| <= i < |w'.trace| ==> w'.trace[i] != Called(Translate) && w'.trace[i] != Called(Synthesize)
  }

  /** A call to another provider before the stretch keeps it untouched. */
  lemma UntouchedAfterCall(w: World, w1: World, w2: World, folder: Path, pv: Provider)
    requires pv != Translate && pv != Synthesize
    requires w1.files == w.files && w1.trace == w.trace + [Called(pv)]
    requires ArtifactsUntouched(w1, w2, folder)
    ensures ArtifactsUntouched(w, w2, folder)
  {
    forall i | |w.trace| <= i < |w2.trace|
      ensures w2.trace[i] != Called(Translate) && w2.trace[i] != Called(Synthesize)
    {
      if i < |w1.trace| {
        assert w2.trace[i] == w1.trace[i];
      }
    }
  }

  /** A failed transcription ends the flow before any artifact: none of
      transcript.txt, translated.txt and output.mp3 changes, and neither
      Gemini nor gTTS is called. */
  lemma TranscriptionFailureStops(w: World, folder: Path, d: nat, p: Services, tempDir: Path, remove: bool, k: nat)
    requires folder in w.dirs && tempDir != [] && tempDir[|tempDir| - 1] != Sep && Apart(folder, tempDir, k)
    ensures var r := FromAudioSpec(w, folder, d, p, tempDir, remove);
      r.0 == Raised(Transcribing) ==> ArtifactsUntouched(w, r.1, folder)
  {
    var w1 := w.Put(folder, AudioName, Audio(d));
    var t := TranscribeSpec(w1, DownloadedPath(folder), p, tempDir, remove);
    if t.0.None? {
      TranscribeTouchesOnlyScratch(w1, DownloadedPath(folder), p, tempDir, remove);
      assert w1.trace == w.trace + [Wrote(Join(folder, AudioName))];
      ScratchRunKeepsArtifacts(w, w1, t.1, folder, tempDir, k);
    }
  }

  /** After a write of the audio file alone, a stage that stays in the
      scratch directory leaves the run's artifacts as they were and calls
      neither Gemini nor gTTS. */
  lemma ScratchRunKeepsArtifacts(w: World, w1: World, w2: World, folder: Path, tempDir: Path, k: nat)
    requires Apart(folder, tempDir, k)
    requires forall q :: q != Join(folder, AudioName) ==> SameFile(w1.files, w.files, q)
    requires w1.trace == w.trace + [Wrote(Join(folder, AudioName))]
    requires w1.trace <= w2.trace && ScratchSince(w2.trace, |w1.trace|, tempDir)
    requires forall q :: !InDir(q, tempDir) ==> SameFile(w2.files, w1.files, q)
    ensures ArtifactsUntouched(w, w2, folder)
  {
    forall name | name in {TranscriptName, TranslatedName, SpeechName}
      ensures SameFile(w2.files, w.files, Join(folder, name))
    {
      var q := Join(folder, name);
      JoinOutside(folder, name, tempDir, k);
      JoinDistinctNames(folder, name, AudioName);
      assert SameFile(w2.files, w1.files, q) && SameFile(w1.files, w.files, q);
    }
    forall i | |w.trace| <= i < |w2.trace|
      ensures w2.trace[i] != Called(Translate) && w2.trace[i] != Called(Synthesize)
    {
      if i >= |w1.trace| {
        assert ScratchEvent(w2.trace[i], tempDir);
      } else {
        assert w2.trace[i] == w1.trace[i];
      }
    }
  }

  /** A completed flow leaves the downloaded audio, the transcription of
      that audio, its Spanish translation and the speech rendered from that
      translation in the run folder. */
  lemma CompletedArtifacts(w: World, folder: Path, d: nat, p: Services, tempDir: Path, remove: bool, k: nat)
    requires folder in w.dirs && tempDir != [] && tempDir[|tempDir| - 1] != Sep && Apart(folder, tempDir, k)
    ensures var r := FromAudioSpec(w, folder, d, p, tempDir, remove);
      r.0 == Completed ==>
        && DownloadedPath(folder) in r.1.files && r.1.files[DownloadedPath(folder)] == Audio(d)
        && Join(folder, TranscriptName) in r.1.files && r.1.files[Join(folder, TranscriptName)].Text?
        && TranscriptOf(w, folder, d, p, tempDir, remove).Some?
        && r.1.files[Join(folder, TranscriptName)] == Text(TranscriptOf(w, folder, d, p, tempDir, remove).value)
        && var answer := p.translate(TranslatePrompt(r.1.files[Join(folder, TranscriptName)].body));
           && answer.Some? && p.speak(answer.value)
           && Join(folder, TranslatedName) in r.1.files && r.1.files[Join(folder, TranslatedName)] == Text(answer.value)
           && Join(folder, SpeechName) in r.1.files && r.1.files[Join(folder, SpeechName)] == Speech(answer.value)
  {
    var w1 := w.Put(folder, AudioName, Audio(d));
    DownloadedPathInFolder(folder);
    var audio := DownloadedPath(folder);
    var t := TranscribeSpec(w1, audio, p, tempDir, remove);
    TranscribeTouchesOnlyScratch(w1, audio, p, tempDir, remove);
    JoinOutside(folder, AudioName, tempDir, k);
    assert SameFile(t.1.files, w1.files, audio);
    if t.0.Some? {
      DeliverArtifactsOnDisk(t.1, folder, TranscriptName, t.0.value, p);
      JoinDistinctNames(folder, AudioName, TranscriptName);
      JoinDistinctNames(folder, AudioName, TranslatedName);
      JoinDistinctNames(folder, AudioName, SpeechName);
      DeliverKeepsOtherFiles(t.1, folder, TranscriptName, t.0.value, p, audio);
    }
  }
}
