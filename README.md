# Castellanator, modelled in Dafny

Castellanator turns English content into Spanish text and speech. It has three
entry points:

- `youtube_audio_processor.py` is an interactive menu. A YouTube run downloads
  the audio, transcribes it with Whisper, translates it with Gemini and
  synthesises Spanish speech with gTTS. A PDF run extracts the text with
  pdfplumber (PyPDF2 as fallback), then translates and synthesises it.
- `src/youtube_audio_processor.py` is a command-line copy of the YouTube run.
- `audio_transcriber.py` transcribes a local audio file and saves an English
  transcript and a Spanish translation under `transcriptions/`.

This project models the logic of those scripts:

- the long-audio chunk decision and the ordered transcript assembly;
- PDF page accumulation and the extractor fallback;
- input validation and artifact naming in the local tool;
- the order in which every run calls its providers and writes its files.

The model works over an explicit host: a `World` with a file map, a directory
set and a trace of provider calls, writes and removals. The class
`Workspace.Host` holds that state and is mutated in place. Each imperative
operation of the source is a method on a `Host`. It is proved equal to a
specification function on `World`, and the properties are lemmas about that
function. The providers (Whisper, Gemini, gTTS, yt-dlp, pdfplumber, PyPDF2,
pydub) are abstract functions in `Providers.Services`. A result of `None`
stands for a call that raised.

Modules:

- `Text`: Python's `strip`, `lower`, and `str(i)`.
- `Paths`: POSIX `basename`, `splitext`, `join`.
- `Chunking`: the 30-minute test and the 20-minute pieces.
- `Workspace`: the host.
- `Transcription`: both copies of `transcribe_audio`.
- `PdfText`: `extract_text_from_pdf` and `select_pdf_file`.
- `Delivery`: save, translate, synthesise.
- `YoutubeFlow`: the part shared by both YouTube runs.
- `Castellanator`: the menu script.
- `CastellanatorCli`: the command-line copy.
- `AudioTranscriber`, `AudioTranscriberRun`, `AudioTranscriberProofs`: the local tool.

Where the code behaves differently from what its messages and docstrings
suggest, the model follows the code:

- The PyPDF2 fallback runs only when pdfplumber raises. pdfplumber pages with
  no text give `""`, and the run stops there without trying PyPDF2.
- The PyPDF2 fallback does not skip textless pages. `None + "\n"` raises, so
  the fallback then yields `None`.
- The root copy of `transcribe_audio` removes each chunk file only after its
  recognition succeeds. A failing chunk leaves its file behind. The `src/`
  copy never removes chunk files.
- In the `src/` copy, `download_audio` returns `None` on failure, and `main`
  does not check it. The run then fails inside `transcribe_audio` after
  loading the model.
- In the root copy, `download_audio` catches nothing, so its failure is an
  exception. The `if not audio_path` check in `process_youtube` can never fire.
- A PDF run with no extractable text returns after creating an empty run
  folder.
- `audio_transcriber.py` exits with status 0 after the wrong-argument-count
  message. Only a processing failure exits with 1.
- In `process_audio_file`, the branch taken when `save_results` fails is
  unreachable in the model, where a write fails only when its folder is
  missing: the folder was created just before. `create_output_folder`
  raises, and is not caught, when the run folder already exists.
- `os.path.exists` is true for a regular file. A file named "pdf" makes
  `os.listdir` raise, which ends the menu program. A file named "output"
  makes `os.makedirs` of the run folder raise in both YouTube scripts and
  in the PDF run.

## Model

| member | source | states |
|---|---|---|
| Text.Strip | youtube_audio_processor.py:98 | str.strip(): the result is the input minus all-whitespace margins, starts and ends with non-space, and is empty exactly when the input is all whitespace |
| Text.StripDropsTrailingSpace | youtube_audio_processor.py:215 | a whitespace character appended at the end never survives strip() |
| Text.StripTerminatedIsStripJoin | youtube_audio_processor.py:205-215 | for any texts, the stripped buffer of texts each followed by a whitespace character is the stripped join of the texts |
| Text.Lower | youtube_audio_processor.py:57 | str.lower() on ASCII: same length, and each character is folded by LowerChar, which lower-cases "A".."Z" and keeps everything else |
| Text.StripIdempotent | audio_transcriber.py:69 | stripping twice is stripping once |
| Text.NatToStringInjective | youtube_audio_processor.py:207 | different chunk indices print differently, so f-string chunk names never collide |
| Text.StripTerminated | youtube_audio_processor.py:209-215 | corollary: when the first text does not start and the last does not end with whitespace, the stripped buffer of texts each followed by a space is the texts joined by single spaces |
| Paths.Splitext | audio_transcriber.py:112 | os.path.splitext: root + ext is the path; ext is empty or one dot plus non-dot, non-separator characters; ext is present exactly when the last dot of the last component follows a non-dot character |
| Paths.Basename | audio_transcriber.py:112 | os.path.basename: the separator-free tail that starts right after the last separator, the whole path when it has none |
| Paths.Join | audio_transcriber.py:115 | os.path.join of two parts: an absolute second part wins; otherwise a separator is inserted exactly when the first part is non-empty and does not already end in one |
| Paths.SplitextKeepsCase | audio_transcriber.py:170 | splitext keeps the case of ".MP3", which is why the source lower-cases it |
| Paths.SplitextHiddenFile | audio_transcriber.py:170 | for every path whose last component is a run of dots followed by dot-free characters (".mp3", "..x"), splitext finds no extension |
| Paths.JoinInDir | youtube_audio_processor.py:207 | a relative name joined to a directory lies inside it |
| Paths.JoinIsLonger | youtube_audio_processor.py:40 | a relative name joined to a directory gives a path longer than the directory |
| Chunking.NeedsChunkingIsMinuteTest | youtube_audio_processor.py:196-200 | the integer test duration > 1,800,000 ms agrees with len(audio) / 60000 > 30 |
| Chunking.MakeChunks | youtube_audio_processor.py:202-203 | ceil(duration / 1,200,000) pieces, piece i starting at i * 1,200,000 ms |
| Chunking.ChunksPartition | youtube_audio_processor.py:202-203 | pieces are contiguous, non-empty, at most 20 minutes, end at the duration, and exist exactly when the duration is positive |
| Chunking.LastChunkLength | youtube_audio_processor.py:202-203 | the last piece holds the remainder, or a full 20 minutes |
| Chunking.ChunksCoverDuration | youtube_audio_processor.py:202-203 | piece lengths add up to the duration |
| Chunking.SplitRecordingHasTwoChunks | src/youtube_audio_processor.py:69-73 | audio long enough to split yields at least two pieces |
| Chunking.OneHourIsThreeChunks | src/youtube_audio_processor.py:71-73 | one hour gives three 20-minute pieces |
| Workspace.Host.WriteFile | youtube_audio_processor.py:140-141 | open(..., 'w') and write: succeeds exactly when the folder exists, then the file holds the blob and the write is traced |
| Workspace.Host.Remove | youtube_audio_processor.py:212 | os.remove drops the file and traces the removal |
| Workspace.Host.Record | audio_transcriber.py:45-51 | a provider call appends its record to the trace and changes nothing else |
| Workspace.Host.MakeDir | youtube_audio_processor.py:29-30 | makedirs guarded by exists: adds the directory only when nothing is there |
| Workspace.RunFoldersDistinct | youtube_audio_processor.py:39-41 | different timestamps give different run folders, each "output/castellanator_<stamp>" |
| Workspace.CreateProcessFolder | youtube_audio_processor.py:33-48 | create_process_folder as host steps equals CreateProcessFolderSpec |
| Workspace.CreateProcessFolderSpec | youtube_audio_processor.py:33-48 | makedirs of the run folder fails exactly when "output" is a regular file or the run folder already exists; otherwise the run folder is new and returned, with "output" and "temp" present; no file or trace entry ever changes |
| Transcription.ChunkPathsDistinct | src/youtube_audio_processor.py:77 | distinct chunk indices give distinct temp file paths |
| Transcription.TranscribeAudio | youtube_audio_processor.py:190-219 | transcribe_audio as a sequence of host steps equals its specification for both copies (remove flag) |
| Transcription.TranscribeChunks | youtube_audio_processor.py:205-215 | the chunk loop: export, recognise, append text and space, optionally remove; stops at the first raising piece; result is the stripped buffer |
| Transcription.FirstFailureIsFirst | youtube_audio_processor.py:206-211 | the piece the loop stops at is the first whose recognition raises |
| Transcription.TranscribeTouchesOnlyScratch | src/youtube_audio_processor.py:59-88 | transcription adds only model loads, recognitions and writes or removals inside the temp directory; every file outside it is unchanged |
| Transcription.RemovingLeavesNoPieces | youtube_audio_processor.py:208-212 | with removal, no chunk file of a finished piece remains and no other file changes |
| Transcription.KeepingLeavesOnePiecePerIndex | src/youtube_audio_processor.py:77-81 | without removal, one clip per piece index remains holding that piece |
| Transcription.ShortAudioIsOneCall | youtube_audio_processor.py:216-219 | at most 30 minutes: one whole-file recognition whose text is returned unstripped, and only the two calls are traced |
| Transcription.AnyPieceFailureFails | youtube_audio_processor.py:205-211 | any raising piece makes the transcription raise |
| Transcription.SplitTranscriptIsStrippedJoin | youtube_audio_processor.py:205-215 | for every split recording whose pieces are all recognised, the transcript is the piece texts in order, joined by single spaces, then stripped |
| Transcription.SplitTranscriptIsOrderedJoin | youtube_audio_processor.py:205-215 | corollary: when the first piece text does not start and the last does not end with whitespace, the transcript is the piece texts joined by single spaces |
| Transcription.OneHourTranscript | src/youtube_audio_processor.py:69-84 | one hour gives the stripped a + " " + b + " " + c for the three piece texts, and exactly that string when a does not start and c does not end with whitespace |
| Transcription.RootCleansUpPieces | youtube_audio_processor.py:208-212 | root copy, every piece recognised: no chunk file is left, nothing else changes |
| Transcription.RootLeavesFailedPiece | youtube_audio_processor.py:208-212 | root copy, a piece raises: its chunk file remains while earlier ones are gone |
| Transcription.SrcKeepsPieces | src/youtube_audio_processor.py:77-81 | src copy: after a full loop exactly one clip per piece index exists |
| PdfText.NonEmptyPagesAppend | youtube_audio_processor.py:91-94 | the kept page texts of a concatenation are the kept texts of each part |
| PdfText.NonEmptyPagesKeepsText | youtube_audio_processor.py:92-94 | every non-empty page text is kept |
| PdfText.NonEmptyPagesOnlyFromPages | youtube_audio_processor.py:92-94 | every kept text comes from a page |
| PdfText.ExtractTextFromPdf | youtube_audio_processor.py:81-114 | the extracted text equals the specification, and the fallback runs exactly when pdfplumber raises |
| PdfText.JoinPlumberPages | youtube_audio_processor.py:91-94 | the page loop builds each non-empty text plus a newline, in page order |
| PdfText.JoinPyPdfPages | youtube_audio_processor.py:108-109 | the fallback loop succeeds exactly when every page has text, and then builds every text plus a newline |
| PdfText.EmptyPrimaryDoesNotFallBack | youtube_audio_processor.py:87-98 | pdfplumber pages without text give "" and never the fallback |
| PdfText.FallbackAfterRaise | youtube_audio_processor.py:100-111 | for every PyPDF2 page list in which each page has text, a raising pdfplumber yields those texts joined by newlines, stripped |
| PdfText.FallbackTextlessPageFails | youtube_audio_processor.py:108-114 | a fallback page without text makes the whole extraction None |
| PdfText.PlumberPagesExample | youtube_audio_processor.py:91-98 | pages "Hello", none, "", "world" give "Hello\nworld" |
| PdfText.PdfFilesAreThePdfs | youtube_audio_processor.py:57 | the listing filter keeps exactly the entries whose lower-cased name ends in ".pdf" |
| PdfText.PdfFiles | youtube_audio_processor.py:57 | the offered list is never longer than the listing |
| PdfText.PdfFilesAppend | youtube_audio_processor.py:57 | the filter keeps listing order: filtering a concatenation is concatenating the filtered parts |
| PdfText.IsPdfName | youtube_audio_processor.py:57 | a name that passes has at least four characters and a dot fourth from the end |
| PdfText.PdfNameIgnoresCase | youtube_audio_processor.py:57 | every name ending in ".pdf" in any letter case passes, whatever precedes it |
| PdfText.NotPdfUnlessEndsInF | youtube_audio_processor.py:57 | no name whose last character is not "f" or "F" passes |
| PdfText.FirstValidInRange | youtube_audio_processor.py:68-79 | the accepted answer is an index within the list |
| PdfText.SelectPdfFile | youtube_audio_processor.py:50-79 | select_pdf_file as a loop over answers equals its specification |
| PdfText.ChosenIsListedPdf | youtube_audio_processor.py:72-75 | a chosen path is "pdf/<name>" for a listed PDF |
| PdfText.SelectSkipsBadAnswers | youtube_audio_processor.py:68-79 | for every listing, answers that are non-numeric or outside 1..n, given before the rest, change nothing: the rest decide the selection |
| PdfText.SelectWithoutPdfs | youtube_audio_processor.py:59-62 | for every listing without a PDF name and any answers, selection in an existing folder reports no PDFs |
| Delivery.DeliverArtifacts | youtube_audio_processor.py:138-155 | save source text, translate, save translation, synthesise, save speech, as host steps, equals its specification |
| Delivery.DeliverEvents | youtube_audio_processor.py:266-284 | the exact events added for each way the final stages end, and translation raising exactly when Gemini raises |
| Delivery.DeliverFileUpdates | youtube_audio_processor.py:138-155 | the file map after the final stages: the source text, then Gemini's answer, then the speech, each written only when the stages before it succeeded |
| Delivery.DeliverStagesInOrder | src/youtube_audio_processor.py:128-144 | each artifact is written before the next provider call: source before translate, translate before its file, that file before synthesis, synthesis before the mp3 |
| Delivery.DeliverStopsAtFailure | youtube_audio_processor.py:145-155 | after a raising translation nothing later happens; after a raising synthesis no mp3 is written |
| Delivery.DeliverArtifactsOnDisk | youtube_audio_processor.py:138-155 | the files hold the source text, Gemini's answer and its speech; completion exactly when both providers succeed |
| Delivery.DeliverKeepsOtherFiles | youtube_audio_processor.py:138-155 | no file other than the three artifacts changes |
| YoutubeFlow.DownloadedPathInFolder | src/youtube_audio_processor.py:54 | output_path + ".mp3" for output_path = join(folder, "audio") is join(folder, "audio.mp3") |
| YoutubeFlow.RunFolderApart | src/youtube_audio_processor.py:17-29 | for an output directory without a trailing separator and a temp directory differing from it at some position, the run folder and the temp directory share no entry |
| YoutubeFlow.FromAudio | src/youtube_audio_processor.py:123-144 | write audio, transcribe, deliver, as host steps, equals its specification |
| YoutubeFlow.FromAudioOutcomes | src/youtube_audio_processor.py:123-144 | once the audio is saved the run either completes or raises at transcription, translation or synthesis; nothing in it returns early |
| YoutubeFlow.TranscriptionFailureStops | youtube_audio_processor.py:264-265 | a raising transcription leaves the artifacts untouched and calls neither Gemini nor gTTS |
| YoutubeFlow.CompletedArtifacts | youtube_audio_processor.py:252-284 | a completed run leaves the downloaded audio, the transcription of that audio, Gemini's translation of that transcript and its speech |
| Castellanator.ProcessYoutube | youtube_audio_processor.py:240-291 | process_youtube as host steps equals its specification |
| Castellanator.YoutubeReachesAudio | youtube_audio_processor.py:247-260 | a non-empty stripped URL whose download succeeds hands over to transcription in the new run folder, after the folder is created and the download is traced |
| Castellanator.YoutubeEarlyExits | youtube_audio_processor.py:247-257 | an empty stripped URL returns and touches nothing; a run folder that cannot be created ("output" a file, or the folder already there) raises before the download without writing or calling anything; a raising download stops after it and writes nothing |
| Castellanator.YoutubeTranscriptionFailureStops | youtube_audio_processor.py:263-265 | a raising transcription leaves the run folder's artifacts untouched |
| Castellanator.YoutubeCompletedArtifacts | youtube_audio_processor.py:252-284 | a completed menu run leaves the downloaded audio, the transcription of that audio, Gemini's translation of that transcript and its speech |
| Castellanator.ProcessPdf | youtube_audio_processor.py:116-164 | process_pdf as host steps equals its specification |
| Castellanator.ConvertPdf | youtube_audio_processor.py:127-155 | the part after selection as host steps equals its specification |
| Castellanator.PdfPreludeFacts | youtube_audio_processor.py:127-133 | before any text is saved the run folder exists, no file has changed, and the trace holds pdfplumber's call and PyPDF2's only when pdfplumber raised |
| Castellanator.PdfSelectionFailureTouchesNothing | youtube_audio_processor.py:50-79 | selection returns to the menu exactly when "pdf" is missing, or is a directory with no PDF; it raises exactly when "pdf" is a regular file (os.listdir fails) or the answers run out; either way the world is unchanged |
| Castellanator.ConvertNeverAtSelection | youtube_audio_processor.py:127-164 | after selection the run never ends at selection |
| Castellanator.PdfNoTextStops | youtube_audio_processor.py:133-136 | no text: no file written, run folder created, only the extractor calls traced |
| Castellanator.PdfTextlessPagesSkipFallback | youtube_audio_processor.py:87-98 | textless pdfplumber pages end the run after one extractor call |
| Castellanator.PdfCompletedArtifacts | youtube_audio_processor.py:116-155 | a completed PDF run chose a listed PDF and left its text, Gemini's translation and the speech |
| Castellanator.MakeDirsEnsuresAll | youtube_audio_processor.py:25-31 | create_folders: every listed folder exists afterwards, only those are added, no file changes |
| Castellanator.CreateFolders | youtube_audio_processor.py:25-31 | the folder loop equals its specification |
| Castellanator.DispatchStripsChoice | youtube_audio_processor.py:23 | for every line, the action depends only on the stripped line |
| Castellanator.DispatchNeedsExactChoice | youtube_audio_processor.py:313-321 | for every line, YouTube, PDF and exit are chosen exactly when the stripped line is "1", "2", "3"; anything else is invalid |
| Castellanator.Dispatch | youtube_audio_processor.py:313-321 | any action other than an invalid choice needs the stripped line to be a single digit from 1 to 3 |
| Castellanator.RunTurn | youtube_audio_processor.py:311-324 | one menu turn as host steps equals its specification |
| Castellanator.RunApp | youtube_audio_processor.py:293-325 | main: key check, folders, then the menu loop, equals its specification |
| Castellanator.FlowTurnEnd | youtube_audio_processor.py:313-321 | a flow that raises ends main with that stage; any other outcome goes back to the menu |
| Castellanator.PdfTurnReturnsToMenu | youtube_audio_processor.py:316 | a PDF turn goes back to the menu exactly when process_pdf does not raise |
| Castellanator.TurnEnds | youtube_audio_processor.py:313-321 | a turn ends the program exactly when "3" is chosen or the chosen flow raises; it then ends by exit exactly on "3", never by end of input or a missing key |
| Castellanator.AppEnds | youtube_audio_processor.py:301-321 | no key exactly when the stripped key is empty; exit only after a "3"; running out of input only when no "3" was given |
| Castellanator.MenuEnds | youtube_audio_processor.py:310-324 | the menu loop never reports a missing key, and ends by exit only after a "3" |
| CastellanatorCli.DownloadAudio | src/youtube_audio_processor.py:28-57 | download_audio: None after a raising download, otherwise the ".mp3" path holding the audio |
| CastellanatorCli.RunCli | src/youtube_audio_processor.py:109-153 | main as host steps equals its specification |
| CastellanatorCli.UsageAndStatus | src/youtube_audio_processor.py:110-112 | a usage error exactly when argc is not 3, touching nothing and exiting 1; status 0 exactly when the run completes |
| CastellanatorCli.FolderFailureStopsFirst | src/youtube_audio_processor.py:109-119 | with three arguments, the run raises while setting up exactly when "./output" is a regular file or the run folder exists; then nothing is written or called and the exit status is 1 |
| CastellanatorCli.RunNeverReturnsEarly | src/youtube_audio_processor.py:114-144 | the command-line run has no early return |
| CastellanatorCli.DownloadFailureSurfacesAsTranscription | src/youtube_audio_processor.py:121-125 | a raising download is reported by transcribe_audio after the model load, with nothing written |
| CastellanatorCli.TranscriptionFailureWritesNoArtifact | src/youtube_audio_processor.py:124-128 | a raising transcription leaves the artifacts untouched |
| CastellanatorCli.CompletedRunArtifacts | src/youtube_audio_processor.py:119-144 | a completed run leaves the downloaded audio, the transcription of that audio, Gemini's translation of that transcript and its speech |
| AudioTranscriber.UpperCaseMp3IsSupported | audio_transcriber.py:169-171 | ".MP3" passes the allow-list |
| AudioTranscriber.OggIsNotSupported | audio_transcriber.py:169-174 | ".ogg" does not |
| AudioTranscriber.SupportedHasExtension | audio_transcriber.py:169-171 | a path that passes the allow-list has an extension of four or five characters starting with a dot, the length of an allowed one |
| AudioTranscriber.BaseName | audio_transcriber.py:112 | base_name followed by the extension splitext finds is the path's basename |
| AudioTranscriber.Header | audio_transcriber.py:116-122 | the header ends in the dashed line and is longer than its title, name, source and heading together |
| AudioTranscriber.TranscriptDocument | audio_transcriber.py:116-123 | the transcript document is a header ending in the dashed line, followed by the transcription verbatim |
| AudioTranscriber.TranslationDocument | audio_transcriber.py:128-135 | the translation document is a header ending in the dashed line, followed by the translation verbatim |
| AudioTranscriber.ResultFilesDistinct | audio_transcriber.py:112-127 | the transcript and Spanish files are distinct and end in "<base>_transcript.txt" and "<base>_spanish.txt" |
| AudioTranscriber.BaseNameExample | audio_transcriber.py:112 | base_name drops directory and extension, keeping inner dots out: "pods/ep.MP3" gives "ep" |
| AudioTranscriber.DocumentsEndWithBody | audio_transcriber.py:116-135 | each document is a body-independent header ending in the dashed line, followed by the body verbatim |
| AudioTranscriberRun.PromptEmbedsText | audio_transcriber.py:88-94 | the Gemini prompt carries the text at a fixed offset, so distinct texts give distinct prompts |
| AudioTranscriberRun.TranscriberPrompt | audio_transcriber.py:88-94 | the prompt is the fixed head, the text, then the fixed tail |
| AudioTranscriberRun.Transcription | audio_transcriber.py:60-76 | a result exactly when Whisper does not raise; it has no outer whitespace, and is empty exactly when Whisper's text is all whitespace |
| AudioTranscriberRun.Translation | audio_transcriber.py:78-106 | a result exactly when Gemini does not raise; it has no outer whitespace, and is empty exactly when Gemini's answer to the prompt is all whitespace |
| AudioTranscriberRun.AddSection | audio_transcriber.py:26 | ConfigParser.add_section raises exactly for the name "DEFAULT" or a section already present; otherwise the section is added |
| AudioTranscriberRun.LoadConfigAlwaysRaises | audio_transcriber.py:21-39 | load_config as written always raises |
| AudioTranscriberRun.IntendedConfigChoosesSmall | audio_transcriber.py:49 | with the intended defaults the Whisper model is "small", and the four default options are set |
| AudioTranscriberRun.AsWritten | audio_transcriber.py:41-58 | as written, setup_ai_services returns a model exactly when the intended one does and load_config does not raise; every other provider is unchanged |
| AudioTranscriberRun.CreateOutputFolder | audio_transcriber.py:143-155 | create_output_folder as host steps equals its specification |
| AudioTranscriberRun.OutputFolderCreated | audio_transcriber.py:143-155 | the folder is "transcriptions/transcription_<stamp>", new and inside "transcriptions"; creation fails exactly when it exists or "transcriptions" is a file; no file is touched |
| AudioTranscriberRun.OutputFolderShape | audio_transcriber.py:145-151 | the run folder is "transcriptions/transcription_<stamp>", lies inside "transcriptions", and differs for different timestamps |
| AudioTranscriberRun.SaveResults | audio_transcriber.py:108-141 | save_results as host steps equals its specification |
| AudioTranscriberRun.SavedFilesHoldDocuments | audio_transcriber.py:108-141 | in an existing folder both names come back, the two files hold the two documents, transcript first, nothing else changes |
| AudioTranscriberRun.ProcessAudioFile | audio_transcriber.py:157-210 | process_audio_file as host steps equals its specification |
| AudioTranscriberRun.RunTranscriber | audio_transcriber.py:238-270 | main as host steps equals its specification |
| AudioTranscriberProofs.AfterSetupOutcomes | audio_transcriber.py:181-210 | after setup: stops at transcription exactly when the stripped transcription is falsy, at translation exactly when the stripped translation is; never at saving; failure writes nothing |
| AudioTranscriberProofs.AfterSetupCompleted | audio_transcriber.py:181-210 | with a non-empty transcription and translation the run completes, writing the two documents after the recogniser and Gemini calls |
| AudioTranscriberProofs.ThroughSetup | audio_transcriber.py:176-186 | past validation with a model, the run raises while creating its folder exactly when it cannot be created, and otherwise goes on to transcription in the new folder; only the load is recorded and at most the two folders are added |
| AudioTranscriberProofs.ValidationFirst | audio_transcriber.py:163-174 | the run ends at validation exactly when the file is missing or its extension is not allowed, and then nothing happens at all |
| AudioTranscriberProofs.SetupFailures | audio_transcriber.py:176-182 | a failed setup stops right after setup is attempted, with no folder; a folder that cannot be created raises without writing |
| AudioTranscriberProofs.FailedRunWritesNothing | audio_transcriber.py:177-192 | an unsuccessful run writes no file and adds at most the output folders |
| AudioTranscriberProofs.CompletedRunConditions | audio_transcriber.py:164-210 | success exactly when the file exists, is allowed, the model loads, the folder is new, and transcription and translation are non-empty |
| AudioTranscriberProofs.CompletedRunEffects | audio_transcriber.py:176-210 | success leaves the stripped transcription and its stripped translation in the two documents of a new folder, after load, transcribe, translate, in that order |
| AudioTranscriberProofs.ExitStatusOnFailureOnly | audio_transcriber.py:245-270 | help for no argument or a help flag, an error for any other count other than two, both exit 0 and touch nothing; status 1 exactly when a processed file fails |
| AudioTranscriberProofs.HelpNamedFileShowsHelp | audio_transcriber.py:249-251 | a first argument "help" shows the help even with a key given |
| AudioTranscriberProofs.AsWrittenNeverCompletes | audio_transcriber.py:176-179 | as written no run completes: every existing file with an allowed extension stops after setup is attempted (Gemini configured, no model loaded), with status 1 and nothing created |

## Left out

- Whitespace and case: `Text.Strip` treats as whitespace the characters below
  U+0100 that Python's `str.isspace` accepts (tab to carriage return, the four
  separators U+001C to U+001F, space, U+0085 and U+00A0). Whitespace above
  U+00FF, such as U+2003, is kept. `Text.Lower` folds only ASCII letters.
- Provider internals: Whisper, Gemini, gTTS, yt-dlp, pdfplumber and PyPDF2 are
  abstract functions. Configuring Gemini with the API key is folded into
  `modelLoads`, and the key's value plays no part. Synthesis (`gTTS.save`) is
  all-or-nothing in the model; a gTTS failure can in fact leave an empty or
  partial audio file behind.
- Chunk boundaries: pydub's `make_chunks` is assumed to cut ceil-sized 20-minute
  pieces. `Chunking.MakeChunks` states that assumption.
- The source's floating-point minute test is replaced by the equivalent
  integer-millisecond comparison (`Chunking.NeedsChunkingIsMinuteTest`).
- Outside inputs are parameters: `datetime.now()` timestamps (including the two
  separate calls inside `save_results`), the `os.listdir` result (its entries
  and their order), the user's
  `input()` answers, and `sys.argv`.
- Menu input: `int()` parsing of a menu answer is abstracted as an optional
  integer. The "Press Enter to continue" prompt, and end of input in the middle
  of a turn, are not modelled.
- Printing, progress hooks, banners, `show_menu`'s text and `show_help` are
  left out.
- `load_config`: as written it always raises (see Findings), which
  `AudioTranscriberRun.AsWritten` models. Reading `config.ini` is left out:
  as intended, configuration only chooses the Whisper model name, and the
  other three options are never read.
- AudioTranscriberRun.ProcessAudioFile: models setup as intended, where the
  model can load. As written `load_config` always raises, so setup always
  fails; `AudioTranscriberProofs.AsWrittenNeverCompletes` states that run.
- AudioTranscriberProofs.CompletedRunConditions: "the model loads" is
  reachable only in the intended setup; as written no run completes (see
  Findings).
- AudioTranscriberProofs.CompletedRunEffects and
  AudioTranscriberProofs.AfterSetupCompleted: likewise describe runs that
  only the intended setup reaches.
- AudioTranscriberProofs.AfterSetupOutcomes: "never at saving" rests on the
  write model, where a write fails only when its folder is missing. A name
  that is too long or an encoding error would make `save_results` fail.
- AudioTranscriberProofs.FailedRunWritesNothing: rests on the same write
  model. A write that fails halfway can leave a partial transcript file.
- Disk errors other than a missing folder are not modelled: full disks,
  permissions, names that are too long, encoding errors, and a path that is
  a directory when a file is expected. A write fails only when its folder is
  missing.
- Paths are POSIX. Windows separators and drive letters are not modelled.

## Findings

| source | as written | input that shows it | evidently intended | confidence | as-written member | corrected member |
|---|---|---|---|---|---|---|
| audio_transcriber.py:26 | `load_config` calls `config.add_section('DEFAULT')`. ConfigParser refuses that name with ValueError, `setup_ai_services` catches it and returns None, and `process_audio_file` returns False | any run of an existing supported file, e.g. `audio_transcriber.py ep.mp3 KEY`: setup fails after configuring Gemini, and main exits with status 1 | set the defaults in the DEFAULT section that every parser already has, so setup loads the "small" Whisper model | not executed | AudioTranscriberProofs.AsWrittenNeverCompletes | AudioTranscriberProofs.CompletedRunConditions |
