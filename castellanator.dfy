/** The interactive program at the repository root (youtube_audio_processor.py):
    an API-key prompt, a menu loop, and the YouTube and PDF flows, each of
    which works in its own timestamped folder under "output". */
module Castellanator {
  import opened Wrappers
  import opened Text
  import opened Paths
  import opened Workspace
  import opened Providers
  import opened Transcription
  import opened PdfText
  import opened Delivery
  import opened YoutubeFlow

  const OutputDir: Path := "output"
  const TempDir: Path := "temp"
  const OriginalTextName: Path := "original_text.txt"

  function RunFolderOf(stamp: string): Path {
    RunFolder(OutputDir, RunPrefix, stamp)
  }

  // ----- process_youtube -----

  /** process_youtube, given the line typed at the URL prompt. A run folder
      that cannot be created raises. The download stage never returns a
      falsy path, so its "if not audio_path" check cannot fire; a failing
      download raises instead. */
  function YoutubeSpec(w: World, line: string, stamp: string, p: Services): (RunOutcome, World) {
    var url := Strip(line);
    if url == [] then (Returned(Reading), w)
    else if !ProcessFolderCreatable(w, OutputDir, stamp) then (Raised(SettingUp), w.MakeDir(OutputDir))
    else
      var w1 := YoutubePrelude(w, stamp);
      match p.fetch(url)
      case None => (Raised(Downloading), w1)
      case Some(d) => FromAudioSpec(w1, RunFolderOf(stamp), d, p, TempDir, true)
  }

  /** The world once the run folder exists and yt-dlp has been called. */
  function YoutubePrelude(w: World, stamp: string): World {
    WithProcessFolder(w, OutputDir, TempDir, stamp).Call(Download)
  }

  lemma YoutubePreludeFacts(w: World, stamp: string)
    ensures var w1 := YoutubePrelude(w, stamp);
      && w1.files == w.files && w1.trace == w.trace + [Called(Download)] && RunFolderOf(stamp) in w1.dirs
  {
  }

  /** A non-empty URL with a successful download into a newly created run
      folder hands over to the shared flow in that folder. */
  lemma YoutubeReachesAudio(w: World, line: string, stamp: string, p: Services)
    requires Strip(line) != [] && ProcessFolderCreatable(w, OutputDir, stamp) && p.fetch(Strip(line)).Some?
    ensures YoutubeSpec(w, line, stamp, p)
         == FromAudioSpec(YoutubePrelude(w, stamp), RunFolderOf(stamp), p.fetch(Strip(line)).value, p, TempDir, true)
  {
  }

  method ProcessYoutube(host: Host, line: string, stamp: string, p: Services) returns (outcome: RunOutcome)
    modifies host
    ensures (outcome, host.State()) == YoutubeSpec(old(host.State()), line, stamp, p)
  {
    var url := Strip(line);
    if url == [] {
      return Returned(Reading);
    }
    ghost var w := host.State();
    var folder := CreateProcessFolder(host, OutputDir, TempDir, stamp);
    if folder.None? {
      return Raised(SettingUp);
    }
    host.Record(Download);
    assert host.State() == YoutubePrelude(w, stamp);
    var fetched := p.fetch(url);
    if fetched.None? {
      return Raised(Downloading);
    }
    YoutubeReachesAudio(w, line, stamp, p);
    outcome := FromAudio(host, folder.value, fetched.value, p, TempDir, true);
  }

  /** The YouTube flow's early exits: an empty URL changes nothing; a run
      folder that cannot be created ("output" a regular file, or the folder
      already there) raises with no file touched and nothing called; a
      failed download leaves the files as they were and calls nothing but
      yt-dlp. */
  lemma YoutubeEarlyExits(w: World, line: string, stamp: string, p: Services)
    ensures var r := YoutubeSpec(w, line, stamp, p);
      && (r.0 == Returned(Reading) <==> Strip(line) == [])
      && (r.0 == Returned(Reading) ==> r.1 == w)
      && (r.0 == Raised(SettingUp) <==>
            Strip(line) != [] && (w.Kind(OutputDir) == RegularFile || w.Exists(RunFolderOf(stamp))))
      && (r.0 == Raised(SettingUp) ==> r.1.files == w.files && r.1.trace == w.trace)
      && (r.0 == Raised(Downloading) <==>
            Strip(line) != [] && ProcessFolderCreatable(w, OutputDir, stamp) && p.fetch(Strip(line)).None?)
      && (r.0 == Raised(Downloading) ==> r.1.files == w.files && r.1.trace == w.trace + [Called(Download)])
  {
    var url := Strip(line);
    YoutubePreludeFacts(w, stamp);
    var made := CreateProcessFolderSpec(w, OutputDir, TempDir, stamp);
    if url == [] {
      assert YoutubeSpec(w, line, stamp, p) == (Returned(Reading), w);
    } else if !ProcessFolderCreatable(w, OutputDir, stamp) {
      assert YoutubeSpec(w, line, stamp, p) == (Raised(SettingUp), made.1);
    } else if p.fetch(url).None? {
      assert YoutubeSpec(w, line, stamp, p) == (Raised(Downloading), YoutubePrelude(w, stamp));
    } else {
      YoutubeReachesAudio(w, line, stamp, p);
      FromAudioOutcomes(YoutubePrelude(w, stamp), RunFolderOf(stamp), p.fetch(url).value, p, TempDir, true);
    }
  }

  /** A failed transcription ends the YouTube flow before any artifact: none
      of transcript.txt, translated.txt and output.mp3 changes, and neither
      Gemini nor gTTS is called. */
  lemma YoutubeTranscriptionFailureStops(w: World, line: string, stamp: string, p: Services)
    ensures var r := YoutubeSpec(w, line, stamp, p);
      r.0 == Raised(Transcribing) ==> ArtifactsUntouched(w, r.1, RunFolderOf(stamp))
  {
    var url := Strip(line);
    if url != [] && ProcessFolderCreatable(w, OutputDir, stamp) && p.fetch(url).Some? {
      var w1 := YoutubePrelude(w, stamp);
      YoutubePreludeFacts(w, stamp);
      YoutubeReachesAudio(w, line, stamp, p);
      var r := FromAudioSpec(w1, RunFolderOf(stamp), p.fetch(url).value, p, TempDir, true);
      RunFolderApart(OutputDir, TempDir, stamp, 0);
      TranscriptionFailureStops(w1, RunFolderOf(stamp), p.fetch(url).value, p, TempDir, true, 0);
      if r.0 == Raised(Transcribing) {
        UntouchedAfterCall(w, w1, r.1, RunFolderOf(stamp), Download);
      }
    }
  }

  /** A completed YouTube run leaves the downloaded audio, the transcript,
      its Spanish translation and the speech rendered from that translation
      in the run folder. */
  lemma YoutubeCompletedArtifacts(w: World, line: string, stamp: string, p: Services)
    ensures var r := YoutubeSpec(w, line, stamp, p); var folder := RunFolderOf(stamp);
      r.0 == Completed ==>
        && p.fetch(Strip(line)).Some? && !w.Exists(folder)
        && DownloadedPath(folder) in r.1.files && r.1.files[DownloadedPath(folder)] == Audio(p.fetch(Strip(line)).value)
        && Join(folder, TranscriptName) in r.1.files && r.1.files[Join(folder, TranscriptName)].Text?
        && (var t := TranscriptOf(YoutubePrelude(w, stamp), folder, p.fetch(Strip(line)).value, p, TempDir, true);
            t.Some? && r.1.files[Join(folder, TranscriptName)] == Text(t.value))
        && var answer := p.translate(TranslatePrompt(r.1.files[Join(folder, TranscriptName)].body));
           && answer.Some? && p.speak(answer.value)
           && Join(folder, TranslatedName) in r.1.files && r.1.files[Join(folder, TranslatedName)] == Text(answer.value)
           && Join(folder, SpeechName) in r.1.files && r.1.files[Join(folder, SpeechName)] == Speech(answer.value)
  {
    var url := Strip(line);
    var made := CreateProcessFolderSpec(w, OutputDir, TempDir, stamp);
    if url != [] && ProcessFolderCreatable(w, OutputDir, stamp) && p.fetch(url).Some? {
      YoutubePreludeFacts(w, stamp);
      YoutubeReachesAudio(w, line, stamp, p);
      RunFolderApart(OutputDir, TempDir, stamp, 0);
      CompletedArtifacts(YoutubePrelude(w, stamp), RunFolderOf(stamp), p.fetch(url).value, p, TempDir, true, 0);
    }
  }

  // ----- process_pdf -----

  /** process_pdf, given the pdf folder listing and the answers typed at the
      selection prompt. The selection runs before any folder is created; a
      regular file named "pdf" makes os.listdir raise, and nothing catches
      it. */
  function PdfSpec(w: World, listing: seq<string>, answers: seq<Option<int>>, stamp: string, p: Services): (RunOutcome, World) {
    match SelectSpec(w.Kind(PdfFolder), listing, answers)
    case NoFolder => (Returned(Selecting), w)
    case NotListable => (Raised(Selecting), w)
    case NoPdfs => (Returned(Selecting), w)
    case NoAnswer => (Raised(Selecting), w)
    case Chosen(pdf) => ConvertSpec(w, pdf, stamp, p)
  }

  /** The rest of process_pdf once a file is chosen: a run folder that
      cannot be created raises, and an extraction that yields no text ends
      the run with the run folder left empty. */
  function ConvertSpec(w: World, pdf: Path, stamp: string, p: Services): (RunOutcome, World) {
    if !ProcessFolderCreatable(w, OutputDir, stamp) then (Raised(SettingUp), w.MakeDir(OutputDir))
    else
      var w2 := PdfPrelude(w, pdf, stamp, p);
      var text := ExtractSpec(p.plumber(pdf), p.pypdf(pdf));
      if text.None? || text.value == [] then (Returned(Extracting), w2)
      else DeliverSpec(w2, RunFolderOf(stamp), OriginalTextName, text.value, p)
  }

  /** The world once the folders exist and the extractors have been called:
      PyPDF2 only after pdfplumber raised. */
  function PdfPrelude(w: World, pdf: Path, stamp: string, p: Services): World {
    var w1 := WithProcessFolder(w, OutputDir, TempDir, stamp).Call(ExtractPrimary);
    if p.plumber(pdf).None? then w1.Call(ExtractFallback) else w1
  }

  lemma PdfPreludeFacts(w: World, pdf: Path, stamp: string, p: Services)
    ensures var w2 := PdfPrelude(w, pdf, stamp, p);
      && w2.files == w.files && RunFolderOf(stamp) in w2.dirs
      && (p.plumber(pdf).None? ==> w2.trace == w.trace + [Called(ExtractPrimary), Called(ExtractFallback)])
      && (p.plumber(pdf).Some? ==> w2.trace == w.trace + [Called(ExtractPrimary)])
  {
  }

  method ProcessPdf(host: Host, listing: seq<string>, answers: seq<Option<int>>, stamp: string, p: Services)
    returns (outcome: RunOutcome)
    modifies host
    ensures (outcome, host.State()) == PdfSpec(old(host.State()), listing, answers, stamp, p)
  {
    var sel := SelectPdfFile(host.State().Kind(PdfFolder), listing, answers);
    if sel.NoAnswer? || sel.NotListable? {
      return Raised(Selecting);
    }
    if !sel.Chosen? {
      return Returned(Selecting);
    }
    outcome := ConvertPdf(host, sel.path, stamp, p);
  }

  method ConvertPdf(host: Host, pdf: Path, stamp: string, p: Services) returns (outcome: RunOutcome)
    modifies host
    ensures (outcome, host.State()) == ConvertSpec(old(host.State()), pdf, stamp, p)
  {
    var folder := CreateProcessFolder(host, OutputDir, TempDir, stamp);
    if folder.None? {
      return Raised(SettingUp);
    }
    host.Record(ExtractPrimary);
    var text, usedFallback := ExtractTextFromPdf(pdf, p);
    if usedFallback {
      host.Record(ExtractFallback);
    }
    if text.None? || text.value == [] {
      return Returned(Extracting);
    }
    outcome := DeliverArtifacts(host, folder.value, OriginalTextName, text.value, p);
  }

  /** Selection decides before anything is created: a missing pdf folder or
      one without PDF files returns to the menu; a regular file named "pdf"
      (os.listdir raising) and running out of answers raise; in all these
      cases the world is untouched. */
  lemma PdfSelectionFailureTouchesNothing(w: World, listing: seq<string>, answers: seq<Option<int>>, stamp: string, p: Services)
    ensures var r := PdfSpec(w, listing, answers, stamp, p); var kind := w.Kind(PdfFolder);
      && (r.0 == Returned(Selecting) <==> kind == Missing || (kind == Directory && PdfFiles(listing) == []))
      && (r.0 == Raised(Selecting) <==>
            kind == RegularFile
            || (kind == Directory && PdfFiles(listing) != [] && FirstValid(answers, |PdfFiles(listing)|) == None))
      && (r.0 == Returned(Selecting) || r.0 == Raised(Selecting) ==> r.1 == w)
  {
    var sel := SelectSpec(w.Kind(PdfFolder), listing, answers);
    FirstValidInRange(answers, |PdfFiles(listing)|);
    match sel
    case Chosen(pdf) =>
      assert PdfSpec(w, listing, answers, stamp, p) == ConvertSpec(w, pdf, stamp, p);
      ConvertNeverAtSelection(w, pdf, stamp, p);
    case NoAnswer =>
      assert PdfSpec(w, listing, answers, stamp, p) == (Raised(Selecting), w);
    case NotListable =>
      assert PdfSpec(w, listing, answers, stamp, p) == (Raised(Selecting), w);
    case _ =>
      assert PdfSpec(w, listing, answers, stamp, p) == (Returned(Selecting), w);
  }

  lemma ConvertNeverAtSelection(w: World, pdf: Path, stamp: string, p: Services)
    ensures ConvertSpec(w, pdf, stamp, p).0 != Returned(Selecting) && ConvertSpec(w, pdf, stamp, p).0 != Raised(Selecting)
  {
    var text := ExtractSpec(p.plumber(pdf), p.pypdf(pdf));
    PdfPreludeFacts(w, pdf, stamp, p);
    if ProcessFolderCreatable(w, OutputDir, stamp) && text.Some? && text.value != [] {
      DeliverEvents(PdfPrelude(w, pdf, stamp, p), RunFolderOf(stamp), OriginalTextName, text.value, p);
    }
  }

  /** When extraction yields nothing the run ends there: the run folder is
      left behind with no file written, and neither Gemini nor gTTS is
      called. A pdfplumber result whose pages hold no text is such a case,
      and PyPDF2 is not tried for it. */
  lemma PdfNoTextStops(w: World, pdf: Path, stamp: string, p: Services)
    ensures var r := ConvertSpec(w, pdf, stamp, p);
      r.0 == Returned(Extracting) ==>
        && r.1.files == w.files
        && RunFolderOf(stamp) in r.1.dirs
        && (r.1.trace == w.trace + [Called(ExtractPrimary)] || r.1.trace == w.trace + [Called(ExtractPrimary), Called(ExtractFallback)])
  {
    var text := ExtractSpec(p.plumber(pdf), p.pypdf(pdf));
    if !ProcessFolderCreatable(w, OutputDir, stamp) {
      assert ConvertSpec(w, pdf, stamp, p) == (Raised(SettingUp), w.MakeDir(OutputDir));
    } else if text.Some? && text.value != [] {
      var w2 := PdfPrelude(w, pdf, stamp, p);
      PdfPreludeFacts(w, pdf, stamp, p);
      assert ConvertSpec(w, pdf, stamp, p) == DeliverSpec(w2, RunFolderOf(stamp), OriginalTextName, text.value, p);
      DeliverEvents(w2, RunFolderOf(stamp), OriginalTextName, text.value, p);
    } else {
      PdfPreludeFacts(w, pdf, stamp, p);
      assert ConvertSpec(w, pdf, stamp, p) == (Returned(Extracting), PdfPrelude(w, pdf, stamp, p));
    }
  }

  lemma PdfTextlessPagesSkipFallback(w: World, listing: seq<string>, answers: seq<Option<int>>, stamp: string, p: Services)
    requires SelectSpec(w.Kind(PdfFolder), listing, answers).Chosen? && ProcessFolderCreatable(w, OutputDir, stamp)
    requires var pages := p.plumber(SelectSpec(w.Kind(PdfFolder), listing, answers).path);
      pages.Some? && forall k :: 0 <= k < |pages.value| ==> pages.value[k] == None || pages.value[k] == Some("")
    ensures var r := PdfSpec(w, listing, answers, stamp, p);
      r.0 == Returned(Extracting) && r.1.trace == w.trace + [Called(ExtractPrimary)]
  {
    var pdf := SelectSpec(w.Kind(PdfFolder), listing, answers).path;
    assert PdfSpec(w, listing, answers, stamp, p) == ConvertSpec(w, pdf, stamp, p);
    EmptyPrimaryDoesNotFallBack(p.plumber(pdf).value, p.pypdf(pdf));
  }

  /** A completed PDF run used a listed PDF file, saved its non-empty text as
      original_text.txt, and left the translation of that text and the speech
      rendered from the translation beside it. */
  lemma PdfCompletedArtifacts(w: World, listing: seq<string>, answers: seq<Option<int>>, stamp: string, p: Services)
    ensures var r := PdfSpec(w, listing, answers, stamp, p); var folder := RunFolderOf(stamp);
      var sel := SelectSpec(w.Kind(PdfFolder), listing, answers);
      r.0 == Completed ==>
        && sel.Chosen? && !w.Exists(folder)
        && (exists f :: f in listing && IsPdfName(f) && sel.path == Join(PdfFolder, f))
        && var text := ExtractSpec(p.plumber(sel.path), p.pypdf(sel.path));
           && text.Some? && text.value != []
           && Join(folder, OriginalTextName) in r.1.files && r.1.files[Join(folder, OriginalTextName)] == Text(text.value)
           && var answer := p.translate(TranslatePrompt(text.value));
              && answer.Some? && p.speak(answer.value)
              && Join(folder, TranslatedName) in r.1.files && r.1.files[Join(folder, TranslatedName)] == Text(answer.value)
              && Join(folder, SpeechName) in r.1.files && r.1.files[Join(folder, SpeechName)] == Speech(answer.value)
  {
    var sel := SelectSpec(w.Kind(PdfFolder), listing, answers);
    if sel.Chosen? {
      ChosenIsListedPdf(w.Kind(PdfFolder), listing, answers);
      assert PdfSpec(w, listing, answers, stamp, p) == ConvertSpec(w, sel.path, stamp, p);
      ConvertCompletedArtifacts(w, sel.path, stamp, p);
    }
  }

  /** The part of PdfCompletedArtifacts after selection. */
  lemma ConvertCompletedArtifacts(w: World, pdf: Path, stamp: string, p: Services)
    ensures var r := ConvertSpec(w, pdf, stamp, p); var folder := RunFolderOf(stamp);
      r.0 == Completed ==>
        && !w.Exists(folder)
        && var text := ExtractSpec(p.plumber(pdf), p.pypdf(pdf));
           && text.Some? && text.value != []
           && Join(folder, OriginalTextName) in r.1.files && r.1.files[Join(folder, OriginalTextName)] == Text(text.value)
           && var answer := p.translate(TranslatePrompt(text.value));
              && answer.Some? && p.speak(answer.value)
              && Join(folder, TranslatedName) in r.1.files && r.1.files[Join(folder, TranslatedName)] == Text(answer.value)
              && Join(folder, SpeechName) in r.1.files && r.1.files[Join(folder, SpeechName)] == Speech(answer.value)
  {
    var x := ExtractSpec(p.plumber(pdf), p.pypdf(pdf));
    var made := CreateProcessFolderSpec(w, OutputDir, TempDir, stamp);
    if !ProcessFolderCreatable(w, OutputDir, stamp) {
      assert ConvertSpec(w, pdf, stamp, p).0 == Raised(SettingUp);
    } else if x.Some? && x.value != [] {
      var w2 := PdfPrelude(w, pdf, stamp, p);
      PdfPreludeFacts(w, pdf, stamp, p);
      assert ConvertSpec(w, pdf, stamp, p) == DeliverSpec(w2, RunFolderOf(stamp), OriginalTextName, x.value, p);
      DeliverArtifactsOnDisk(w2, RunFolderOf(stamp), OriginalTextName, x.value, p);
    } else {
      assert ConvertSpec(w, pdf, stamp, p).0 == Returned(Extracting);
    }
  }

  // ----- create_folders, show_menu and main -----

  const StartupFolders: seq<Path> := [OutputDir, PdfFolder]

  /** The world after creating each missing folder of ds, in order. */
  function MakeDirs(w: World, ds: seq<Path>): World {
    if ds == [] then w else MakeDirs(w, ds[..|ds| - 1]).MakeDir(ds[|ds| - 1])
  }

  /** After MakeDirs every folder of ds exists, nothing else is created, and
      no file or event is added. */
  lemma {:induction false} MakeDirsEnsuresAll(w: World, ds: seq<Path>)
    ensures var w' := MakeDirs(w, ds);
      && (forall d :: d in ds ==> w'.Exists(d))
      && w.dirs <= w'.dirs && (forall d :: d in w'.dirs ==> d in w.dirs || d in ds)
      && w'.files == w.files && w'.trace == w.trace
  {
    if ds != [] {
      MakeDirsEnsuresAll(w, ds[..|ds| - 1]);
      assert forall d :: d in ds ==> d in ds[..|ds| - 1] || d == ds[|ds| - 1];
    }
  }

  method CreateFolders(host: Host)
    modifies host
    ensures host.State() == MakeDirs(old(host.State()), StartupFolders)
  {
    ghost var w0 := host.State();
    for i := 0 to |StartupFolders|
      invariant host.State() == MakeDirs(w0, StartupFolders[..i])
    {
      assert StartupFolders[..i + 1][..i] == StartupFolders[..i];
      host.MakeDir(StartupFolders[i]);
    }
    assert StartupFolders[..|StartupFolders|] == StartupFolders;
  }

  datatype MenuAction = YoutubeChoice | PdfChoice | ExitChoice | InvalidChoice

  /** show_menu strips the line typed; main compares it with '1', '2', '3'. */
  function Dispatch(line: string): (r: MenuAction)
    ensures r != InvalidChoice ==> |Strip(line)| == 1 && '1' <= Strip(line)[0] <= '3'
  {
    var c := Strip(line);
    if c == "1" then YoutubeChoice
    else if c == "2" then PdfChoice
    else if c == "3" then ExitChoice
    else InvalidChoice
  }

  /** Whitespace around the choice never matters: a line dispatches as its
      stripped form does. */
  lemma DispatchStripsChoice(line: string)
    ensures Dispatch(line) == Dispatch(Strip(line))
  {
    StripIdempotent(line);
  }

  /** Only the exact strings "1", "2" and "3", once stripped, select an
      action, each its own; anything else ("12", "a", "") is invalid. */
  lemma DispatchNeedsExactChoice(line: string)
    ensures Dispatch(line) == YoutubeChoice <==> Strip(line) == "1"
    ensures Dispatch(line) == PdfChoice <==> Strip(line) == "2"
    ensures Dispatch(line) == ExitChoice <==> Strip(line) == "3"
    ensures Dispatch(line) == InvalidChoice <==> Strip(line) !in ["1", "2", "3"]
  {
  }

  /** One turn of the menu loop: the menu choice typed, then what the chosen
      flow reads (the URL line, or the answers to the PDF prompt), the
      timestamp of that moment, and what os.listdir('pdf') reports. */
  datatype Turn = Turn(choice: string, url: string, listing: seq<string>, answers: seq<Option<int>>, stamp: string)

  /** How main ends: no key, the exit choice, an exception raised by a flow,
      or input running out (input() raising EOFError). */
  datatype AppEnd = NoApiKey | ExitChosen | Crashed(at: Stage) | OutOfInput

  /** How a flow's outcome ends its menu turn: an exception ends main,
      anything else goes back to the menu. */
  function FlowTurnEnd(outcome: RunOutcome): (r: Option<AppEnd>)
    ensures r.Some? <==> outcome.Raised?
    ensures r.Some? ==> r.value == Crashed(outcome.at)
  {
    if outcome.Raised? then Some(Crashed(outcome.at)) else None
  }

  /** One turn of the menu loop: Some(end) when the turn ends main, None
      when the loop goes on. A flow that returns early goes back to the
      menu; one that raises ends the program. A completed run, YouTube or
      PDF, goes back to the menu as well. */
  function TurnSpec(w: World, t: Turn, p: Services): (Option<AppEnd>, World) {
    match Dispatch(t.choice)
    case ExitChoice => (Some(ExitChosen), w)
    case InvalidChoice => (None, w)
    case YoutubeChoice =>
      var r := YoutubeSpec(w, t.url, t.stamp, p);
      (FlowTurnEnd(r.0), r.1)
    case PdfChoice =>
      var r := PdfSpec(w, t.listing, t.answers, t.stamp, p);
      (FlowTurnEnd(r.0), r.1)
  }

  function MenuSpec(w: World, turns: seq<Turn>, p: Services): (AppEnd, World)
    decreases |turns|
  {
    if turns == [] then (OutOfInput, w)
    else
      var s := TurnSpec(w, turns[0], p);
      if s.0.Some? then (s.0.value, s.1) else MenuSpec(s.1, turns[1..], p)
  }

  /** main, given the line typed at the API-key prompt. */
  function AppSpec(w: World, keyLine: string, turns: seq<Turn>, p: Services): (AppEnd, World) {
    if Strip(keyLine) == [] then (NoApiKey, w)
    else MenuSpec(MakeDirs(w, StartupFolders), turns, p)
  }

  method RunTurn(host: Host, t: Turn, p: Services) returns (end: Option<AppEnd>)
    modifies host
    ensures (end, host.State()) == TurnSpec(old(host.State()), t, p)
  {
    var action := Dispatch(t.choice);
    if action == ExitChoice {
      return Some(ExitChosen);
    }
    end := None;
    if action == YoutubeChoice {
      var outcome := ProcessYoutube(host, t.url, t.stamp, p);
      if outcome.Raised? {
        end := Some(Crashed(outcome.at));
      }
    } else if action == PdfChoice {
      var outcome := ProcessPdf(host, t.listing, t.answers, t.stamp, p);
      if outcome.Raised? {
        end := Some(Crashed(outcome.at));
      }
    }
  }

  method RunApp(host: Host, keyLine: string, turns: seq<Turn>, p: Services) returns (end: AppEnd)
    modifies host
    ensures (end, host.State()) == AppSpec(old(host.State()), keyLine, turns, p)
  {
    var apiKey := Strip(keyLine);
    if apiKey == [] {
      return NoApiKey;
    }
    CreateFolders(host);
    var i := 0;
    while i < |turns|
      invariant i <= |turns|
      invariant AppSpec(old(host.State()), keyLine, turns, p) == MenuSpec(host.State(), turns[i..], p)
    {
      var stop := RunTurn(host, turns[i], p);
      if stop.Some? {
        return stop.value;
      }
      assert turns[i..][1..] == turns[i + 1..];
      i := i + 1;
    }
    end := OutOfInput;
  }

  /** A turn ends main exactly when the exit choice is made or the chosen
      flow raises, and only by the exit choice or an exception. */
  lemma TurnEnds(w: World, t: Turn, p: Services)
    ensures var e := TurnSpec(w, t, p).0;
      e.Some? ==> (e.value == ExitChosen <==> Dispatch(t.choice) == ExitChoice) && e.value != OutOfInput && e.value != NoApiKey
    ensures TurnSpec(w, t, p).0.Some? <==>
      || Dispatch(t.choice) == ExitChoice
      || (Dispatch(t.choice) == YoutubeChoice && YoutubeSpec(w, t.url, t.stamp, p).0.Raised?)
      || (Dispatch(t.choice) == PdfChoice && PdfSpec(w, t.listing, t.answers, t.stamp, p).0.Raised?)
  {
  }

  /** A PDF turn goes back to the menu exactly when process_pdf does not
      raise, and then with the world the run left behind. */
  lemma PdfTurnReturnsToMenu(w: World, t: Turn, p: Services)
    requires Dispatch(t.choice) == PdfChoice
    ensures var r := PdfSpec(w, t.listing, t.answers, t.stamp, p);
      && (TurnSpec(w, t, p).0 == None <==> !r.0.Raised?)
      && TurnSpec(w, t, p).1 == r.1
  {
  }

  /** main ends without a key exactly when the key line is blank; otherwise
      it ends with the exit choice only when some turn chose '3', and runs
      out of input only when no turn did. */
  lemma AppEnds(w: World, keyLine: string, turns: seq<Turn>, p: Services)
    ensures var e := AppSpec(w, keyLine, turns, p).0;
      && (e == NoApiKey <==> Strip(keyLine) == [])
      && (e == ExitChosen ==> exists k :: 0 <= k < |turns| && Dispatch(turns[k].choice) == ExitChoice)
      && (e == OutOfInput ==> forall k :: 0 <= k < |turns| ==> Dispatch(turns[k].choice) != ExitChoice)
  {
    if Strip(keyLine) != [] {
      MenuEnds(MakeDirs(w, StartupFolders), turns, p);
    }
  }

  lemma {:induction false} MenuEnds(w: World, turns: seq<Turn>, p: Services)
    decreases |turns|
    ensures var e := MenuSpec(w, turns, p).0;
      && e != NoApiKey
      && (e == ExitChosen ==> exists k :: 0 <= k < |turns| && Dispatch(turns[k].choice) == ExitChoice)
      && (e == OutOfInput ==> forall k :: 0 <= k < |turns| ==> Dispatch(turns[k].choice) != ExitChoice)
  {
    if turns != [] {
      var s := TurnSpec(w, turns[0], p);
      TurnEnds(w, turns[0], p);
      if s.0.None? {
        MenuEnds(s.1, turns[1..], p);
        var e := MenuSpec(w, turns, p).0;
        assert e == MenuSpec(s.1, turns[1..], p).0;
        if e == ExitChosen {
          var k :| 0 <= k < |turns[1..]| && Dispatch(turns[1..][k].choice) == ExitChoice;
          assert turns[k + 1] == turns[1..][k];
        }
        if e == OutOfInput {
          forall k | 0 <= k < |turns|
            ensures Dispatch(turns[k].choice) != ExitChoice
          {
            if k > 0 {
              assert turns[k] == turns[1..][k - 1];
            }
          }
        }
      }
    }
  }
}
