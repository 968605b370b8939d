/** The command-line copy (src/youtube_audio_processor.py): the URL and the
    key come from argv, the run works under "./output" and "./temp", the
    transcription keeps its scratch pieces, and a failing download is caught
    and turned into None. */
module CastellanatorCli {
  import opened Wrappers
  import opened Paths
  import opened Workspace
  import opened Providers
  import opened Transcription
  import opened Delivery
  import opened YoutubeFlow

  const OutputDir: Path := "./output"
  const TempDir: Path := "./temp"

  function RunFolderOf(stamp: string): Path {
    RunFolder(OutputDir, RunPrefix, stamp)
  }

  /** The run for one URL. A run folder that cannot be created raises
      before the download. download_audio catches the yt-dlp exception and
      returns None; main does not check it and hands None to
      transcribe_audio, which loads the model and then raises when pydub is
      asked to open None. So a failed download surfaces as a failed
      transcription. */
  function RunSpec(w: World, url: string, stamp: string, p: Services): (RunOutcome, World) {
    if !ProcessFolderCreatable(w, OutputDir, stamp) then (Raised(SettingUp), w.MakeDir(OutputDir))
    else
      var w1 := WithProcessFolder(w, OutputDir, TempDir, stamp).Call(Download);
      match p.fetch(url)
      case None => (Raised(Transcribing), w1.Call(LoadModel))
      case Some(d) => FromAudioSpec(w1, RunFolderOf(stamp), d, p, TempDir, false)
  }

  /** How main ends: the usage message, or a run with its outcome. */
  datatype CliEnd = UsageError | Ran(outcome: RunOutcome)

  /** main, given sys.argv (program name first). */
  function MainSpec(w: World, argv: seq<string>, stamp: string, p: Services): (CliEnd, World) {
    if |argv| != 3 then (UsageError, w)
    else
      var r := RunSpec(w, argv[1], stamp, p);
      (Ran(r.0), r.1)
  }

  /** The process exit status: sys.exit(1) for the usage error, 1 for an
      uncaught exception, 0 when main returns. */
  function ExitStatus(e: CliEnd): int {
    match e
    case UsageError => 1
    case Ran(outcome) => if outcome.Raised? then 1 else 0
  }

  /** download_audio: the path of the mp3, or None when yt-dlp raised. */
  method DownloadAudio(host: Host, url: string, folder: Path, p: Services) returns (path: Option<Path>)
    requires folder in host.dirs
    modifies host
    ensures p.fetch(url).None? ==> path == None && host.State() == old(host.State()).Call(Download)
    ensures p.fetch(url).Some? ==>
      && path == Some(DownloadedPath(folder))
      && host.State() == old(host.State()).Call(Download).Put(folder, AudioName, Audio(p.fetch(url).value))
  {
    host.Record(Download);
    var fetched := p.fetch(url);
    if fetched.None? {
      return None;
    }
    var ok := host.WriteFile(folder, AudioName, Audio(fetched.value));
    assert ok;
    path := Some(DownloadedPath(folder));
  }

  method RunCli(host: Host, argv: seq<string>, stamp: string, p: Services) returns (end: CliEnd)
    modifies host
    ensures (end, host.State()) == MainSpec(old(host.State()), argv, stamp, p)
  {
    if |argv| != 3 {
      return UsageError;
    }
    var url := argv[1];
    var folder := CreateProcessFolder(host, OutputDir, TempDir, stamp);
    if folder.None? {
      return Ran(Raised(SettingUp));
    }
    var audioPath := DownloadAudio(host, url, folder.value, p);
    if audioPath.None? {
      host.Record(LoadModel);
      return Ran(Raised(Transcribing));
    }
    ghost var before := host.State();
    var transcript := TranscribeAudio(host, audioPath.value, p, TempDir, false);
    if transcript.None? {
      return Ran(Raised(Transcribing));
    }
    TranscribeTouchesOnlyScratch(before, audioPath.value, p, TempDir, false);
    var outcome := DeliverArtifacts(host, folder.value, TranscriptName, transcript.value, p);
    end := Ran(outcome);
  }

  /** A wrong argument count prints the usage and exits with status 1
      before anything happens; with three arguments a run always takes
      place, and the status is 0 exactly when it completed. */
  lemma UsageAndStatus(w: World, argv: seq<string>, stamp: string, p: Services)
    ensures var r := MainSpec(w, argv, stamp, p);
      && (r.0 == UsageError <==> |argv| != 3)
      && (r.0 == UsageError ==> r.1 == w && ExitStatus(r.0) == 1)
      && (ExitStatus(r.0) == 0 <==> r.0 == Ran(Completed))
  {
    if |argv| == 3 {
      RunNeverReturnsEarly(w, argv[1], stamp, p);
    }
  }

  /** The command-line run has no early return: it completes or raises. */
  lemma RunNeverReturnsEarly(w: World, url: string, stamp: string, p: Services)
    ensures !RunSpec(w, url, stamp, p).0.Returned?
  {
    var w1 := WithProcessFolder(w, OutputDir, TempDir, stamp).Call(Download);
    if ProcessFolderCreatable(w, OutputDir, stamp) && p.fetch(url).Some? {
      var folder := RunFolderOf(stamp);
      var w2 := w1.Put(folder, AudioName, Audio(p.fetch(url).value));
      var t := TranscribeSpec(w2, DownloadedPath(folder), p, TempDir, false);
      if t.0.Some? {
        DeliverEvents(t.1, folder, TranscriptName, t.0.value, p);
      }
    }
  }

  /** A run folder that cannot be created ("./output" a regular file, or
      the folder already there) raises before anything is called or
      written, and the process exits with status 1. */
  lemma FolderFailureStopsFirst(w: World, argv: seq<string>, stamp: string, p: Services)
    requires |argv| == 3
    ensures var r := MainSpec(w, argv, stamp, p);
      && (r.0 == Ran(Raised(SettingUp)) <==> w.Kind(OutputDir) == RegularFile || w.Exists(RunFolderOf(stamp)))
      && (r.0 == Ran(Raised(SettingUp)) ==> r.1.files == w.files && r.1.trace == w.trace && ExitStatus(r.0) == 1)
  {
    var made := CreateProcessFolderSpec(w, OutputDir, TempDir, stamp);
    if ProcessFolderCreatable(w, OutputDir, stamp) {
      RunAfterFolderNotAtSetup(w, argv[1], stamp, p);
    } else {
      assert RunSpec(w, argv[1], stamp, p) == (Raised(SettingUp), made.1);
    }
  }

  /** Once the run folder exists, no later stage is reported as setup. */
  lemma RunAfterFolderNotAtSetup(w: World, url: string, stamp: string, p: Services)
    requires ProcessFolderCreatable(w, OutputDir, stamp)
    ensures RunSpec(w, url, stamp, p).0 != Raised(SettingUp)
  {
    var w1 := WithProcessFolder(w, OutputDir, TempDir, stamp).Call(Download);
    if p.fetch(url).Some? {
      FromAudioOutcomes(w1, RunFolderOf(stamp), p.fetch(url).value, p, TempDir, false);
    }
  }

  /** A failed download is reported as a failed transcription: yt-dlp, then
      the Whisper model load, and nothing else happens; no file is written
      and the process exits with status 1. */
  lemma DownloadFailureSurfacesAsTranscription(w: World, argv: seq<string>, stamp: string, p: Services)
    requires |argv| == 3 && ProcessFolderCreatable(w, OutputDir, stamp) && p.fetch(argv[1]).None?
    ensures var r := MainSpec(w, argv, stamp, p);
      && r.0 == Ran(Raised(Transcribing)) && ExitStatus(r.0) == 1
      && r.1.files == w.files
      && r.1.trace == w.trace + [Called(Download), Called(LoadModel)]
  {
  }

  /** Whatever ends the run at transcription, none of the three text and
      audio artifacts is written and neither Gemini nor gTTS is called. */
  lemma TranscriptionFailureWritesNoArtifact(w: World, argv: seq<string>, stamp: string, p: Services)
    requires |argv| == 3
    ensures var r := MainSpec(w, argv, stamp, p);
      r.0 == Ran(Raised(Transcribing)) ==> ArtifactsUntouched(w, r.1, RunFolderOf(stamp))
  {
    var url := argv[1];
    if !ProcessFolderCreatable(w, OutputDir, stamp) {
      assert RunSpec(w, url, stamp, p).0 == Raised(SettingUp);
    } else if p.fetch(url).Some? {
      DownloadedTranscriptionFailure(w, url, stamp, p);
    } else {
      var w1 := WithProcessFolder(w, OutputDir, TempDir, stamp).Call(Download);
      assert w1.files == w.files && w1.trace == w.trace + [Called(Download)];
      var w2 := w1.Call(LoadModel);
      assert ArtifactsUntouched(w1, w2, RunFolderOf(stamp));
      UntouchedAfterCall(w, w1, w2, RunFolderOf(stamp), Download);
    }
  }

  /** The branch of TranscriptionFailureWritesNoArtifact where the download
      succeeded. */
  lemma DownloadedTranscriptionFailure(w: World, url: string, stamp: string, p: Services)
    requires ProcessFolderCreatable(w, OutputDir, stamp) && p.fetch(url).Some?
    ensures var r := RunSpec(w, url, stamp, p);
      r.0 == Raised(Transcribing) ==> ArtifactsUntouched(w, r.1, RunFolderOf(stamp))
  {
    var w1 := WithProcessFolder(w, OutputDir, TempDir, stamp).Call(Download);
    assert w1.files == w.files && w1.trace == w.trace + [Called(Download)];
    var r := FromAudioSpec(w1, RunFolderOf(stamp), p.fetch(url).value, p, TempDir, false);
    assert RunSpec(w, url, stamp, p) == r;
    RunFolderApart(OutputDir, TempDir, stamp, 2);
    TranscriptionFailureStops(w1, RunFolderOf(stamp), p.fetch(url).value, p, TempDir, false, 2);
    if r.0 == Raised(Transcribing) {
      UntouchedAfterCall(w, w1, r.1, RunFolderOf(stamp), Download);
    }
  }

  /** A completed run leaves the downloaded audio, the transcript, its
      Spanish translation and the speech rendered from it in the run folder. */
  lemma CompletedRunArtifacts(w: World, argv: seq<string>, stamp: string, p: Services)
    ensures var r := MainSpec(w, argv, stamp, p); var folder := RunFolderOf(stamp);
      r.0 == Ran(Completed) ==>
        && |argv| == 3 && p.fetch(argv[1]).Some? && !w.Exists(folder)
        && DownloadedPath(folder) in r.1.files && r.1.files[DownloadedPath(folder)] == Audio(p.fetch(argv[1]).value)
        && Join(folder, TranscriptName) in r.1.files && r.1.files[Join(folder, TranscriptName)].Text?
        && (var t := TranscriptOf(WithProcessFolder(w, OutputDir, TempDir, stamp).Call(Download), folder, p.fetch(argv[1]).value, p, TempDir, false);
            t.Some? && r.1.files[Join(folder, TranscriptName)] == Text(t.value))
        && var answer := p.translate(TranslatePrompt(r.1.files[Join(folder, TranscriptName)].body));
           && answer.Some? && p.speak(answer.value)
           && Join(folder, TranslatedName) in r.1.files && r.1.files[Join(folder, TranslatedName)] == Text(answer.value)
           && Join(folder, SpeechName) in r.1.files && r.1.files[Join(folder, SpeechName)] == Speech(answer.value)
  {
    var made := CreateProcessFolderSpec(w, OutputDir, TempDir, stamp);
    if |argv| == 3 && ProcessFolderCreatable(w, OutputDir, stamp) && p.fetch(argv[1]).Some? {
      var w1 := WithProcessFolder(w, OutputDir, TempDir, stamp).Call(Download);
      RunFolderApart(OutputDir, TempDir, stamp, 2);
      CompletedArtifacts(w1, RunFolderOf(stamp), p.fetch(argv[1]).value, p, TempDir, false, 2);
    }
  }
}
