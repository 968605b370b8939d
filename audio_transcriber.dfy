/** The local-file tool (audio_transcriber.py): validate an audio file, set
    up Gemini and Whisper, transcribe in English, translate to Spanish, and
    save both texts under a timestamped folder in "transcriptions". Every
    stage but create_output_folder catches its own exception and reports
    failure with a falsy value. */
module AudioTranscriber {
  import opened Wrappers
  import opened Text
  import opened Paths
  import opened Workspace
  import opened Providers
  import opened Delivery

  // ----- input validation -----

  const ValidExtensions: seq<string> := [".mp3", ".m4a", ".wav", ".flac", ".aac"]

  /** The extension check: the lower-cased splitext extension must be on
      the allow-list. */
  predicate IsSupported(audioPath: Path) {
    Lower(Splitext(audioPath).1) in ValidExtensions
  }

  /** A supported path has a real extension: a dot and three or four more
      characters, matched against the list whatever their case. */
  lemma SupportedHasExtension(audioPath: Path)
    requires IsSupported(audioPath)
    ensures var e := Splitext(audioPath).1; 4 <= |e| <= 5 && e[0] == ExtSep
    ensures exists v :: v in ValidExtensions && |v| == |Splitext(audioPath).1|
  {
    var e := Splitext(audioPath).1;
    var v := Lower(e);
    assert v in ValidExtensions;
    assert |v| == 4 || |v| == 5;
  }

  lemma UpperCaseMp3IsSupported()
    ensures IsSupported("ep.MP3")
  {
    SplitextExample("ep.MP3", 2);
    var e := Lower(".MP3");
    assert e[0] == '.' && e[1] == 'm' && e[2] == 'p' && e[3] == '3';
    assert e == ".mp3";
  }

  lemma OggIsNotSupported()
    ensures !IsSupported("ep.ogg")
  {
    SplitextExample("ep.ogg", 2);
    var e := Lower(".ogg");
    assert e[1] == 'o';
  }

  /** Splitext on a plain file name whose only dot is at position i. */
  lemma SplitextExample(p: Path, i: nat)
    requires 0 < i < |p| && p[i] == ExtSep && Sep !in p
    requires forall k :: 0 <= k < |p| && k != i ==> p[k] != ExtSep
    ensures Splitext(p) == (p[..i], p[i..])
  {
    assert RFind(p, Sep) == -1;
    assert RFind(p, ExtSep) == i;
    assert p[0] != ExtSep;
  }

  // ----- output names and documents -----

  /** base_name: the file name without directory and extension; the file
      name is the base name followed by its extension. */
  function BaseName(audioPath: Path): (r: string)
    ensures Basename(audioPath) == r + Splitext(Basename(audioPath)).1
    ensures |r| <= |audioPath|
  {
    Splitext(Basename(audioPath)).0
  }

  const TranscriptSuffix: string := "_transcript.txt"
  const SpanishSuffix: string := "_spanish.txt"

  function TranscriptFile(folder: Path, audioPath: Path): Path {
    Join(folder, BaseName(audioPath) + TranscriptSuffix)
  }

  function SpanishFile(folder: Path, audioPath: Path): Path {
    Join(folder, BaseName(audioPath) + SpanishSuffix)
  }

  /** The two result files of a run are different files of the run folder,
      and each name starts with the base name of the audio file. */
  lemma ResultFilesDistinct(folder: Path, audioPath: Path)
    ensures TranscriptFile(folder, audioPath) != SpanishFile(folder, audioPath)
    ensures EndsWithPath(TranscriptFile(folder, audioPath), BaseName(audioPath) + TranscriptSuffix)
    ensures EndsWithPath(SpanishFile(folder, audioPath), BaseName(audioPath) + SpanishSuffix)
  {
    BaseNameHasNoSep(audioPath);
    assert TranscriptSuffix[0] == '_' && TranscriptSuffix[1] == 't';
    assert SpanishSuffix[0] == '_' && SpanishSuffix[1] == 's';
    SuffixedNamesDistinct(folder, BaseName(audioPath), TranscriptSuffix, SpanishSuffix);
  }

  /** The base name holds no separator. */
  lemma BaseNameHasNoSep(audioPath: Path)
    ensures Sep !in BaseName(audioPath)
  {
    var bn := Basename(audioPath);
    var b := BaseName(audioPath);
    assert bn == b + Splitext(bn).1;
    forall k | 0 <= k < |b|
      ensures b[k] != Sep
    {
      assert b[k] == bn[k];
    }
  }

  /** One stem with two suffixes that differ in their second character
      names two different entries of a folder. */
  lemma SuffixedNamesDistinct(folder: Path, b: string, x: string, y: string)
    requires Sep !in b
    requires |x| > 1 && |y| > 1 && x[0] != Sep && y[0] != Sep && x[1] != y[1]
    ensures Join(folder, b + x) != Join(folder, b + y)
  {
    var t, s := b + x, b + y;
    assert t[0] != Sep && s[0] != Sep by {
      if b != [] {
        assert t[0] == b[0] == s[0];
      }
    }
    assert t[|b| + 1] == x[1] && s[|b| + 1] == y[1];
    JoinDistinctNames(folder, t, s);
  }

  lemma BaseNameExample()
    ensures BaseName("pods/ep.MP3") == "ep"
  {
    var p := "pods/ep.MP3";
    assert p[4] == Sep && forall k :: 4 < k < |p| ==> p[k] != Sep;
    assert RFind(p, Sep) == 4;
    var b := Basename(p);
    assert b == "ep.MP3";
    SplitextExample(b, 2);
  }

  /** "=" * 60 and "-" * 30. */
  const Rule: string := "============================================================"
  const Dashes: string := "------------------------------"

  /** The fixed header save_results writes before a body: title line with
      the base name, processing time, source path, a rule of 60 "=", a blank
      line, the section heading and a line of 30 "-". */
  function Header(title: string, base: string, processedAt: string, source: Path, heading: string): (r: string)
    ensures EndsWithPath(r, Dashes + "\n")
    ensures |r| > |Dashes| + |title| + |base| + |source| + |heading|
  {
    EndsWithLast(HeaderLines(title, base, processedAt, source, heading), Dashes, "\n");
    HeaderLines(title, base, processedAt, source, heading) + Dashes + "\n"
  }

  /** The header up to and including the heading line. */
  function HeaderLines(title: string, base: string, processedAt: string, source: Path, heading: string): string {
    "\U{1F3A7} " + title + " - " + base + "\n"
      + "\U{1F4C5} Processed: " + processedAt + "\n"
      + "\U{1F4C1} Source: " + source + "\n"
      + Rule + "\n\n"
      + heading + "\n"
  }

  /** The transcript file: the transcription verbatim, right after a header
      that closes with the dashed line. */
  function TranscriptDocument(audioPath: Path, processedAt: string, transcription: string): (r: string)
    ensures |transcription| < |r| && r[|r| - |transcription|..] == transcription
    ensures EndsWithPath(r[..|r| - |transcription|], Dashes + "\n")
  {
    Header("Audio Transcription", BaseName(audioPath), processedAt, audioPath, "ENGLISH TRANSCRIPTION:") + transcription
  }

  /** The Spanish file: the translation verbatim, right after a header that
      closes with the dashed line. */
  function TranslationDocument(audioPath: Path, processedAt: string, translation: string): (r: string)
    ensures |translation| < |r| && r[|r| - |translation|..] == translation
    ensures EndsWithPath(r[..|r| - |translation|], Dashes + "\n")
  {
    Header("Audio Translation", BaseName(audioPath), processedAt, audioPath, "SPANISH TRANSLATION:") + translation
  }

  /** What follows the header: the body is recovered by dropping a header
      whose length does not depend on the body. */
  function BodyAfter(doc: string, headerLength: nat): string
    requires headerLength <= |doc|
  {
    doc[headerLength..]
  }

  /** Each document ends with its body written verbatim, right after the
      dashed line that closes the header, and the same header precedes any
      body. */
  lemma DocumentsEndWithBody(audioPath: Path, processedAt: string, a: string, b: string)
    ensures var h := Header("Audio Transcription", BaseName(audioPath), processedAt, audioPath, "ENGLISH TRANSCRIPTION:");
      && BodyAfter(TranscriptDocument(audioPath, processedAt, a), |h|) == a
      && TranscriptDocument(audioPath, processedAt, a)[..|h|] == TranscriptDocument(audioPath, processedAt, b)[..|h|]
      && EndsWithPath(h, Dashes + "\n")
    ensures var h := Header("Audio Translation", BaseName(audioPath), processedAt, audioPath, "SPANISH TRANSLATION:");
      && BodyAfter(TranslationDocument(audioPath, processedAt, a), |h|) == a
      && TranslationDocument(audioPath, processedAt, a)[..|h|] == TranslationDocument(audioPath, processedAt, b)[..|h|]
      && EndsWithPath(h, Dashes + "\n")
  {
    var h1 := Header("Audio Transcription", BaseName(audioPath), processedAt, audioPath, "ENGLISH TRANSCRIPTION:");
    var h2 := Header("Audio Translation", BaseName(audioPath), processedAt, audioPath, "SPANISH TRANSLATION:");
    HeaderThenBody(h1, a, b);
    HeaderThenBody(h2, a, b);
    EndsWithLast(HeaderLines("Audio Transcription", BaseName(audioPath), processedAt, audioPath, "ENGLISH TRANSCRIPTION:"), Dashes, "\n");
    EndsWithLast(HeaderLines("Audio Translation", BaseName(audioPath), processedAt, audioPath, "SPANISH TRANSLATION:"), Dashes, "\n");
  }

  /** A body appended to a header is recovered after it, and the header
      part does not depend on the body. */
  lemma HeaderThenBody(h: string, a: string, b: string)
    ensures BodyAfter(h + a, |h|) == a && (h + a)[..|h|] == (h + b)[..|h|]
  {
    assert (h + a)[..|h|] == h == (h + b)[..|h|];
  }

  lemma EndsWithLast(x: string, y: string, z: string)
    ensures EndsWithPath(x + y + z, y + z)
  {
    assert x + y + z == x + (y + z);
  }
}

module AudioTranscriberRun {
  import opened Wrappers
  import opened Text
  import opened Paths
  import opened Workspace
  import opened Providers
  import opened Delivery
  import opened AudioTranscriber

  // ----- the provider calls, with the strip() the source applies -----

  const PromptHead: string := "Translate the following English text to Spanish.\n        Provide only the translation, without any additional comments or explanations.\n\n        Text to translate:\n        "
  const PromptTail: string := "\n\n        Spanish translation:"

  /** The prompt translate_text sends to Gemini: the fixed instruction, the
      text verbatim, then the fixed closing line. */
  function TranscriberPrompt(text: string): (r: string)
    ensures |r| == |PromptHead| + |text| + |PromptTail|
    ensures r[..|PromptHead|] == PromptHead && r[|PromptHead|..|PromptHead| + |text|] == text
    ensures r[|PromptHead| + |text|..] == PromptTail
  {
    PromptHead + text + PromptTail
  }

  /** The text sits at a fixed offset of the prompt, so different texts give
      different prompts. */
  lemma PromptEmbedsText(a: string, b: string)
    ensures |TranscriberPrompt(a)| == |PromptHead| + |a| + |PromptTail|
    ensures TranscriberPrompt(a)[|PromptHead|..|PromptHead| + |a|] == a
    ensures TranscriberPrompt(a) == TranscriberPrompt(b) ==> a == b
  {
    var n := |PromptHead|;
    assert TranscriberPrompt(a)[n..n + |a|] == a;
    if TranscriberPrompt(a) == TranscriberPrompt(b) {
      assert |a| == |b|;
      assert TranscriberPrompt(b)[n..n + |b|] == b;
    }
  }

  /** transcribe_audio: Whisper's text for the whole file in English,
      stripped; None when the call raises. */
  function Transcription(p: Services, audioPath: Path): (r: Option<string>)
    ensures r.Some? <==> p.recognize(Whole(audioPath, true)).Some?
    ensures r.Some? ==> r.value == [] || (!IsSpace(r.value[0]) && !IsSpace(r.value[|r.value| - 1]))
    ensures r.Some? ==> (r.value == [] <==> AllSpace(p.recognize(Whole(audioPath, true)).value))
  {
    match p.recognize(Whole(audioPath, true))
    case None => None
    case Some(text) => Some(Strip(text))
  }

  /** translate_text: Gemini's answer to the prompt, stripped; None when the
      call raises. */
  function Translation(p: Services, text: string): (r: Option<string>)
    ensures r.Some? <==> p.translate(TranscriberPrompt(text)).Some?
    ensures r.Some? ==> r.value == [] || (!IsSpace(r.value[0]) && !IsSpace(r.value[|r.value| - 1]))
    ensures r.Some? ==> (r.value == [] <==> AllSpace(p.translate(TranscriberPrompt(text)).value))
  {
    match p.translate(TranscriberPrompt(text))
    case None => None
    case Some(answer) => Some(Strip(answer))
  }

  /** Python's truthiness test "if not x" on an optional string. */
  predicate Falsy(x: Option<string>) {
    x.None? || x.value == []
  }

  // ----- output folder -----

  const TranscriptionsDir: Path := "transcriptions"
  const OutputFolderPrefix: string := "transcription_"

  function OutputFolderOf(stamp: string): Path {
    RunFolder(TranscriptionsDir, OutputFolderPrefix, stamp)
  }

  /** create_output_folder: "transcriptions" is created when absent, then
      os.makedirs(process_folder) without exist_ok, which raises (None here)
      when the folder already exists or "transcriptions" is not a directory. */
  function CreateOutputFolderSpec(w: World, stamp: string): (Option<Path>, World) {
    var w1 := w.MakeDir(TranscriptionsDir);
    var folder := OutputFolderOf(stamp);
    if TranscriptionsDir !in w1.dirs || w1.Exists(folder) then (None, w1)
    else (Some(folder), w1.(dirs := w1.dirs + {folder}))
  }

  method CreateOutputFolder(host: Host, stamp: string) returns (folder: Option<Path>)
    modifies host
    ensures (folder, host.State()) == CreateOutputFolderSpec(old(host.State()), stamp)
  {
    host.MakeDir(TranscriptionsDir);
    var f := OutputFolderOf(stamp);
    if TranscriptionsDir !in host.dirs || f in host.files || f in host.dirs {
      return None;
    }
    host.dirs := host.dirs + {f};
    folder := Some(f);
  }

  /** The folder is new, directly inside "transcriptions", named by the
      timestamp; creation fails exactly when the folder is already there or
      "transcriptions" is a file, and touches no file either way. */
  lemma OutputFolderCreated(w: World, stamp: string, other: string)
    ensures var (folder, w') := CreateOutputFolderSpec(w, stamp);
      && w'.files == w.files && w'.trace == w.trace && w.dirs <= w'.dirs
      && (folder.None? <==> (TranscriptionsDir in w.files && TranscriptionsDir !in w.dirs) || w.Exists(OutputFolderOf(stamp)))
      && (folder.Some? ==> folder.value == "transcriptions/transcription_" + stamp
                           && folder.value in w'.dirs && !w.Exists(folder.value)
                           && InDir(folder.value, TranscriptionsDir))
    ensures other != stamp ==> OutputFolderOf(other) != OutputFolderOf(stamp)
  {
    OutputFolderShape(stamp, other);
    var f := OutputFolderOf(stamp);
    var w1 := w.MakeDir(TranscriptionsDir);
    assert w1.files == w.files && w1.trace == w.trace && w.dirs <= w1.dirs;
    assert w1.Exists(f) == w.Exists(f);
    if TranscriptionsDir !in w1.dirs || w1.Exists(f) {
      assert CreateOutputFolderSpec(w, stamp) == (None, w1);
    } else {
      assert CreateOutputFolderSpec(w, stamp) == (Some(f), w1.(dirs := w1.dirs + {f}));
    }
  }

  /** The run folder's name: inside "transcriptions", never "transcriptions"
      itself, and different for different timestamps. */
  lemma OutputFolderShape(stamp: string, other: string)
    ensures OutputFolderOf(stamp) == "transcriptions/transcription_" + stamp
    ensures InDir(OutputFolderOf(stamp), TranscriptionsDir) && OutputFolderOf(stamp) != TranscriptionsDir
    ensures other != stamp ==> OutputFolderOf(other) != OutputFolderOf(stamp)
  {
    var f := OutputFolderOf(stamp);
    assert TranscriptionsDir[|TranscriptionsDir| - 1] != Sep && OutputFolderPrefix[0] != Sep;
    if other != stamp {
      RunFoldersDistinct(TranscriptionsDir, OutputFolderPrefix, stamp, other);
    }
    JoinInDir(TranscriptionsDir, OutputFolderPrefix + stamp);
    OutputFolderSpelled(stamp);
  }

  lemma OutputFolderSpelled(stamp: string)
    ensures OutputFolderOf(stamp) == "transcriptions/transcription_" + stamp
  {
    RunFoldersDistinct(TranscriptionsDir, OutputFolderPrefix, stamp, stamp + "x");
    assert TranscriptionsDir + [Sep] + OutputFolderPrefix == "transcriptions/transcription_";
  }

  // ----- save_results -----

  /** save_results: both documents written into the folder, or (None, None)
      and nothing written when the folder is missing. The two timestamps
      stand for the two datetime.now() calls. */
  function SaveResultsSpec(w: World, audioPath: Path, transcription: string, translation: string,
                           folder: Path, savedAt: string, translatedAt: string): (Option<(Path, Path)>, World)
  {
    if folder !in w.dirs then (None, w)
    else
      var base := BaseName(audioPath);
      var w1 := w.Put(folder, base + TranscriptSuffix, Text(TranscriptDocument(audioPath, savedAt, transcription)));
      var w2 := w1.Put(folder, base + SpanishSuffix, Text(TranslationDocument(audioPath, translatedAt, translation)));
      (Some((TranscriptFile(folder, audioPath), SpanishFile(folder, audioPath))), w2)
  }

  method SaveResults(host: Host, audioPath: Path, transcription: string, translation: string,
                     folder: Path, savedAt: string, translatedAt: string) returns (saved: Option<(Path, Path)>)
    modifies host
    ensures (saved, host.State()) == SaveResultsSpec(old(host.State()), audioPath, transcription, translation, folder, savedAt, translatedAt)
  {
    var base := BaseName(audioPath);
    var ok := host.WriteFile(folder, base + TranscriptSuffix, Text(TranscriptDocument(audioPath, savedAt, transcription)));
    if !ok {
      return None;
    }
    ok := host.WriteFile(folder, base + SpanishSuffix, Text(TranslationDocument(audioPath, translatedAt, translation)));
    assert ok;
    saved := Some((TranscriptFile(folder, audioPath), SpanishFile(folder, audioPath)));
  }

  /** Saved results: the two files hold the two documents, nothing else
      changes, and the transcript is written first. */
  lemma SavedFilesHoldDocuments(w: World, audioPath: Path, transcription: string, translation: string,
                                folder: Path, savedAt: string, translatedAt: string)
    requires folder in w.dirs
    ensures var (saved, w') := SaveResultsSpec(w, audioPath, transcription, translation, folder, savedAt, translatedAt);
      var tf, sf := TranscriptFile(folder, audioPath), SpanishFile(folder, audioPath);
      && saved == Some((tf, sf)) && tf != sf
      && w'.files == w.files[tf := Text(TranscriptDocument(audioPath, savedAt, transcription))]
                            [sf := Text(TranslationDocument(audioPath, translatedAt, translation))]
      && w'.dirs == w.dirs
      && w'.trace == w.trace + [Wrote(tf), Wrote(sf)]
  {
    var b := BaseName(audioPath);
    var tf, sf := TranscriptFile(folder, audioPath), SpanishFile(folder, audioPath);
    var w1 := w.Put(folder, b + TranscriptSuffix, Text(TranscriptDocument(audioPath, savedAt, transcription)));
    PutInDir(w, folder, b + TranscriptSuffix, Text(TranscriptDocument(audioPath, savedAt, transcription)));
    var w2 := w1.Put(folder, b + SpanishSuffix, Text(TranslationDocument(audioPath, translatedAt, translation)));
    PutInDir(w1, folder, b + SpanishSuffix, Text(TranslationDocument(audioPath, translatedAt, translation)));
    assert SaveResultsSpec(w, audioPath, transcription, translation, folder, savedAt, translatedAt) == (Some((tf, sf)), w2);
    AppendOneThenOne(w.trace, Wrote(tf), Wrote(sf));
    ResultFilesDistinct(folder, audioPath);
  }

  lemma AppendOneThenOne(t: seq<Event>, a: Event, b: Event)
    ensures t + [a] + [b] == t + [a, b]
  {
  }

  // ----- load_config and setup_ai_services -----

  /** The name configparser reserves for its default section. */
  const DefaultSection: string := "DEFAULT"

  /** ConfigParser.add_section on a parser with the given sections: None
      where it raises, which it does for the default section's own name
      (ValueError) and for a section already present. */
  function AddSection(sections: set<string>, name: string): (r: Option<set<string>>)
    ensures r.Some? <==> name != DefaultSection && name !in sections
    ensures r.Some? ==> name in r.value && sections <= r.value
  {
    if name == DefaultSection || name in sections then None else Some(sections + {name})
  }

  /** The defaults load_config means to set in the DEFAULT section. */
  const DefaultOptions: map<string, string> :=
    map["whisper_model" := "small", "target_language" := "es", "keep_temp_files" := "true", "verbose" := "true"]

  /** load_config as written: a fresh parser, then add_section('DEFAULT')
      before any option is set; None where that raises. config.ini is not
      part of this model. */
  function LoadConfigAsWritten(): Option<map<string, string>> {
    match AddSection({}, DefaultSection)
    case None => None
    case Some(_) => Some(DefaultOptions)
  }

  /** load_config as intended: the defaults live in the DEFAULT section that
      every parser already has, so nothing raises. */
  function LoadConfigIntended(): map<string, string> {
    DefaultOptions
  }

  /** config.get('DEFAULT', 'whisper_model', fallback='small'). */
  function WhisperModelName(config: map<string, string>): string {
    if "whisper_model" in config then config["whisper_model"] else "small"
  }

  /** The intended configuration asks Whisper for the "small" model. */
  lemma IntendedConfigChoosesSmall()
    ensures WhisperModelName(LoadConfigIntended()) == "small"
    ensures LoadConfigIntended().Keys == {"whisper_model", "target_language", "keep_temp_files", "verbose"}
  {
  }

  /** The configuration step always raises as written. */
  lemma LoadConfigAlwaysRaises()
    ensures LoadConfigAsWritten() == None
  {
    assert AddSection({}, DefaultSection) == None;
  }

  /** setup_ai_services as written: Gemini is configured, then load_config
      raises inside the try, so the except clause returns None; the services
      see a model that never loads. The rest of this model runs setup as
      intended, where the model loads exactly when modelLoads holds. */
  function AsWritten(p: Services): (q: Services)
    ensures q.modelLoads <==> p.modelLoads && LoadConfigAsWritten().Some?
    ensures q.(modelLoads := p.modelLoads) == p
  {
    p.(modelLoads := p.modelLoads && LoadConfigAsWritten().Some?)
  }

  // ----- process_audio_file -----

  /** The stages after the output folder exists: transcribe, translate,
      save. */
  function AfterSetupSpec(w: World, audioPath: Path, folder: Path, savedAt: string, translatedAt: string,
                          p: Services): (RunOutcome, World)
  {
    var w1 := w.Call(Recognize);
    var transcription := Transcription(p, audioPath);
    if Falsy(transcription) then (Returned(Transcribing), w1)
    else
      var w2 := w1.Call(Translate);
      var translation := Translation(p, transcription.value);
      if Falsy(translation) then (Returned(Translating), w2)
      else
        var (saved, w3) := SaveResultsSpec(w2, audioPath, transcription.value, translation.value, folder, savedAt, translatedAt);
        (if saved.Some? then Completed else Returned(Saving), w3)
  }

  /** process_audio_file: validation, setup, folder, then the stages above.
      Every stage but the folder creation catches its own exception. */
  function ProcessAudioSpec(w: World, audioPath: Path, stamp: string, savedAt: string, translatedAt: string,
                            p: Services): (RunOutcome, World)
  {
    if !w.Exists(audioPath) || !IsSupported(audioPath) then (Returned(Validating), w)
    else
      var w1 := w.Call(LoadModel);
      if !p.modelLoads then (Returned(SettingUp), w1)
      else
        var (folder, w2) := CreateOutputFolderSpec(w1, stamp);
        match folder
        case None => (Raised(SettingUp), w2)
        case Some(f) => AfterSetupSpec(w2, audioPath, f, savedAt, translatedAt, p)
  }

  method ProcessAudioFile(host: Host, audioPath: Path, stamp: string, savedAt: string, translatedAt: string,
                          p: Services) returns (outcome: RunOutcome)
    modifies host
    ensures (outcome, host.State()) == ProcessAudioSpec(old(host.State()), audioPath, stamp, savedAt, translatedAt, p)
  {
    if !(audioPath in host.files || audioPath in host.dirs) {
      return Returned(Validating);
    }
    if !IsSupported(audioPath) {
      return Returned(Validating);
    }
    host.Record(LoadModel);
    if !p.modelLoads {
      return Returned(SettingUp);
    }
    var folder := CreateOutputFolder(host, stamp);
    if folder.None? {
      return Raised(SettingUp);
    }
    host.Record(Recognize);
    var transcription := Transcription(p, audioPath);
    if Falsy(transcription) {
      return Returned(Transcribing);
    }
    host.Record(Translate);
    var translation := Translation(p, transcription.value);
    if Falsy(translation) {
      return Returned(Translating);
    }
    var saved := SaveResults(host, audioPath, transcription.value, translation.value, folder.value, savedAt, translatedAt);
    outcome := if saved.Some? then Completed else Returned(Saving);
  }

  // ----- main -----

  /** How main ends: the help text, the wrong-argument-count message (both
      return normally), or a processed file. */
  datatype TranscriberEnd = ShowedHelp | WrongArgumentCount | Processed(outcome: RunOutcome)

  const HelpFlags: seq<string> := ["-h", "--help", "help"]

  /** main on sys.argv (argv[0] is the script): help when there is no
      argument or the first is a help flag, an error message unless there
      are exactly two arguments, otherwise process argv[1]; argv[2], the
      Gemini key, is abstracted into the services. */
  function TranscriberMainSpec(w: World, argv: seq<string>, stamp: string, savedAt: string, translatedAt: string,
                               p: Services): (TranscriberEnd, World)
  {
    if |argv| < 2 || argv[1] in HelpFlags then (ShowedHelp, w)
    else if |argv| != 3 then (WrongArgumentCount, w)
    else
      var (outcome, w') := ProcessAudioSpec(w, argv[1], stamp, savedAt, translatedAt, p);
      (Processed(outcome), w')
  }

  /** The process exit status: sys.exit(1) after a falsy result, 1 for an
      uncaught exception, 0 whenever main returns. */
  function TranscriberExitStatus(e: TranscriberEnd): nat {
    match e
    case Processed(Completed) => 0
    case Processed(_) => 1
    case _ => 0
  }

  method RunTranscriber(host: Host, argv: seq<string>, stamp: string, savedAt: string, translatedAt: string,
                        p: Services) returns (end: TranscriberEnd)
    modifies host
    ensures (end, host.State()) == TranscriberMainSpec(old(host.State()), argv, stamp, savedAt, translatedAt, p)
  {
    if |argv| < 2 || argv[1] in HelpFlags {
      return ShowedHelp;
    }
    if |argv| != 3 {
      return WrongArgumentCount;
    }
    var outcome := ProcessAudioFile(host, argv[1], stamp, savedAt, translatedAt, p);
    end := Processed(outcome);
  }
}

module AudioTranscriberProofs {
  import opened Wrappers
  import opened Paths
  import opened Workspace
  import opened Providers
  import opened Delivery
  import opened AudioTranscriber
  import opened AudioTranscriberRun

  /** Whether os.makedirs(process_folder) succeeds in world w. */
  predicate FolderCreatable(w: World, stamp: string) {
    !(TranscriptionsDir in w.files && TranscriptionsDir !in w.dirs) && !w.Exists(OutputFolderOf(stamp))
  }

  /** The stages after setup never end at saving: the folder they save into
      was just created, so the else branch after save_results is dead. On
      failure no file is written; on success exactly the two documents are,
      after the Whisper and Gemini calls. */
  lemma AfterSetupOutcomes(w: World, audioPath: Path, folder: Path, savedAt: string, translatedAt: string, p: Services)
    requires folder in w.dirs
    ensures var (outcome, w') := AfterSetupSpec(w, audioPath, folder, savedAt, translatedAt, p);
      var t := Transcription(p, audioPath);
      && outcome != Returned(Saving) && outcome != Raised(Saving)
      && (outcome == Completed || outcome == Returned(Transcribing) || outcome == Returned(Translating))
      && w'.dirs == w.dirs
      && (outcome == Returned(Transcribing) <==> Falsy(t))
      && (outcome == Returned(Translating) <==> !Falsy(t) && Falsy(Translation(p, t.value)))
      && (outcome != Completed ==> w'.files == w.files)
      && (outcome == Completed ==>
            var s := Translation(p, t.value).value;
            var tf, sf := TranscriptFile(folder, audioPath), SpanishFile(folder, audioPath);
            && w'.files == w.files[tf := Text(TranscriptDocument(audioPath, savedAt, t.value))]
                                  [sf := Text(TranslationDocument(audioPath, translatedAt, s))]
            && w'.trace == w.trace + [Called(Recognize), Called(Translate), Wrote(tf), Wrote(sf)])
  {
    var t := Transcription(p, audioPath);
    var w1 := w.Call(Recognize);
    if Falsy(t) {
      assert AfterSetupSpec(w, audioPath, folder, savedAt, translatedAt, p) == (Returned(Transcribing), w1);
    } else {
      var w2 := w1.Call(Translate);
      var s := Translation(p, t.value);
      if Falsy(s) {
        assert AfterSetupSpec(w, audioPath, folder, savedAt, translatedAt, p) == (Returned(Translating), w2);
      } else {
        AfterSetupCompleted(w, audioPath, folder, savedAt, translatedAt, p);
      }
    }
  }

  /** Both texts non-empty: the run completes with the two documents. */
  lemma AfterSetupCompleted(w: World, audioPath: Path, folder: Path, savedAt: string, translatedAt: string, p: Services)
    requires folder in w.dirs
    requires !Falsy(Transcription(p, audioPath))
    requires !Falsy(Translation(p, Transcription(p, audioPath).value))
    ensures var (outcome, w') := AfterSetupSpec(w, audioPath, folder, savedAt, translatedAt, p);
      var t := Transcription(p, audioPath).value;
      var s := Translation(p, t).value;
      var tf, sf := TranscriptFile(folder, audioPath), SpanishFile(folder, audioPath);
      && outcome == Completed && w'.dirs == w.dirs
      && w'.files == w.files[tf := Text(TranscriptDocument(audioPath, savedAt, t))]
                            [sf := Text(TranslationDocument(audioPath, translatedAt, s))]
      && w'.trace == w.trace + [Called(Recognize), Called(Translate), Wrote(tf), Wrote(sf)]
  {
    var t := Transcription(p, audioPath).value;
    var s := Translation(p, t).value;
    var w2 := w.Call(Recognize).Call(Translate);
    var r := SaveResultsSpec(w2, audioPath, t, s, folder, savedAt, translatedAt);
    SavedFilesHoldDocuments(w2, audioPath, t, s, folder, savedAt, translatedAt);
    assert AfterSetupSpec(w, audioPath, folder, savedAt, translatedAt, p) == (Completed, r.1);
    AppendOneOneTwo(w.trace, Called(Recognize), Called(Translate), Wrote(TranscriptFile(folder, audioPath)), Wrote(SpanishFile(folder, audioPath)));
  }

  lemma AppendOneOneTwo(t: seq<Event>, a: Event, b: Event, c: Event, d: Event)
    ensures t + [a] + [b] + [c, d] == t + [a, b, c, d]
  {
  }

  /** Past validation and a model that loads, the run either raises while
      creating its folder or goes on to the stages after setup, with only the
      load recorded and at most the two folders added. */
  lemma ThroughSetup(w: World, audioPath: Path, stamp: string, savedAt: string, translatedAt: string, p: Services)
    requires w.Exists(audioPath) && IsSupported(audioPath) && p.modelLoads
    ensures var w2 := CreateOutputFolderSpec(w.Call(LoadModel), stamp).1;
      && w2.files == w.files && w2.trace == w.trace + [Called(LoadModel)]
      && w.dirs <= w2.dirs <= w.dirs + {TranscriptionsDir, OutputFolderOf(stamp)}
      && (!FolderCreatable(w, stamp) ==> ProcessAudioSpec(w, audioPath, stamp, savedAt, translatedAt, p) == (Raised(SettingUp), w2))
      && (FolderCreatable(w, stamp) ==>
            && OutputFolderOf(stamp) in w2.dirs && !w.Exists(OutputFolderOf(stamp))
            && ProcessAudioSpec(w, audioPath, stamp, savedAt, translatedAt, p)
               == AfterSetupSpec(w2, audioPath, OutputFolderOf(stamp), savedAt, translatedAt, p))
  {
    var w1 := w.Call(LoadModel);
    OutputFolderCreated(w1, stamp, stamp);
    var (folder, w2) := CreateOutputFolderSpec(w1, stamp);
    assert w1.MakeDir(TranscriptionsDir).dirs <= w.dirs + {TranscriptionsDir};
  }

  /** Validation comes first and touches nothing: the run ends at validation
      exactly when the path does not exist or its extension is not on the
      list. */
  lemma ValidationFirst(w: World, audioPath: Path, stamp: string, savedAt: string, translatedAt: string, p: Services)
    ensures var (outcome, w') := ProcessAudioSpec(w, audioPath, stamp, savedAt, translatedAt, p);
      && (outcome == Returned(Validating) <==> !w.Exists(audioPath) || !IsSupported(audioPath))
      && (outcome == Returned(Validating) ==> w' == w)
  {
    var r := ProcessAudioSpec(w, audioPath, stamp, savedAt, translatedAt, p);
    if w.Exists(audioPath) && IsSupported(audioPath) && p.modelLoads {
      var w1 := w.Call(LoadModel);
      var (folder, w2) := CreateOutputFolderSpec(w1, stamp);
      if folder.Some? {
        OutputFolderCreated(w1, stamp, stamp);
        AfterSetupOutcomes(w2, audioPath, folder.value, savedAt, translatedAt, p);
      }
    }
  }

  /** A setup that fails (configuring Gemini, loading the configuration or
      loading the model) ends the run right after setup is attempted, with
      no folder created; a folder that cannot be created raises. */
  lemma SetupFailures(w: World, audioPath: Path, stamp: string, savedAt: string, translatedAt: string, p: Services)
    requires w.Exists(audioPath) && IsSupported(audioPath)
    ensures var (outcome, w') := ProcessAudioSpec(w, audioPath, stamp, savedAt, translatedAt, p);
      && (outcome == Returned(SettingUp) <==> !p.modelLoads)
      && (outcome == Returned(SettingUp) ==> w' == w.Call(LoadModel))
      && (outcome == Raised(SettingUp) <==> p.modelLoads && !FolderCreatable(w, stamp))
      && (outcome == Raised(SettingUp) ==> w'.files == w.files)
  {
    if p.modelLoads {
      ThroughSetup(w, audioPath, stamp, savedAt, translatedAt, p);
      if FolderCreatable(w, stamp) {
        var w2 := CreateOutputFolderSpec(w.Call(LoadModel), stamp).1;
        AfterSetupOutcomes(w2, audioPath, OutputFolderOf(stamp), savedAt, translatedAt, p);
      }
    }
  }

  /** A run that does not complete writes no file (it may leave the new,
      empty output folder behind); it never ends at saving. */
  lemma FailedRunWritesNothing(w: World, audioPath: Path, stamp: string, savedAt: string, translatedAt: string, p: Services)
    ensures var (outcome, w') := ProcessAudioSpec(w, audioPath, stamp, savedAt, translatedAt, p);
      && outcome != Returned(Saving)
      && (outcome != Completed ==> w'.files == w.files)
      && w.dirs <= w'.dirs <= w.dirs + {TranscriptionsDir, OutputFolderOf(stamp)}
  {
    if w.Exists(audioPath) && IsSupported(audioPath) && p.modelLoads {
      ThroughSetup(w, audioPath, stamp, savedAt, translatedAt, p);
      if FolderCreatable(w, stamp) {
        var w2 := CreateOutputFolderSpec(w.Call(LoadModel), stamp).1;
        AfterSetupOutcomes(w2, audioPath, OutputFolderOf(stamp), savedAt, translatedAt, p);
      }
    }
  }

  /** A run completes exactly when every stage succeeds. */
  lemma CompletedRunConditions(w: World, audioPath: Path, stamp: string, savedAt: string, translatedAt: string, p: Services)
    ensures var t := Transcription(p, audioPath);
      ProcessAudioSpec(w, audioPath, stamp, savedAt, translatedAt, p).0 == Completed <==>
        w.Exists(audioPath) && IsSupported(audioPath) && p.modelLoads && FolderCreatable(w, stamp)
        && !Falsy(t) && !Falsy(Translation(p, t.value))
  {
    var r := ProcessAudioSpec(w, audioPath, stamp, savedAt, translatedAt, p);
    if !w.Exists(audioPath) || !IsSupported(audioPath) {
      assert r == (Returned(Validating), w);
    } else if !p.modelLoads {
      assert r == (Returned(SettingUp), w.Call(LoadModel));
    } else {
      ThroughSetup(w, audioPath, stamp, savedAt, translatedAt, p);
      if FolderCreatable(w, stamp) {
        var w2 := CreateOutputFolderSpec(w.Call(LoadModel), stamp).1;
        AfterSetupOutcomes(w2, audioPath, OutputFolderOf(stamp), savedAt, translatedAt, p);
      }
    }
  }

  lemma AppendOneThenFour(t: seq<Event>, a: Event, b: Event, c: Event, d: Event, e: Event)
    ensures (t + [a]) + [b, c, d, e] == t + [a, b, c, d, e]
  {
  }

  /** A completed run leaves the stripped transcription and the stripped
      translation of that transcription in two new files of a new folder,
      after loading the model, transcribing and translating, in that order. */
  lemma CompletedRunEffects(w: World, audioPath: Path, stamp: string, savedAt: string, translatedAt: string, p: Services)
    requires w.Exists(audioPath) && IsSupported(audioPath) && p.modelLoads && FolderCreatable(w, stamp)
    requires !Falsy(Transcription(p, audioPath)) && !Falsy(Translation(p, Transcription(p, audioPath).value))
    ensures var (outcome, w') := ProcessAudioSpec(w, audioPath, stamp, savedAt, translatedAt, p);
      var t := Transcription(p, audioPath).value;
      var folder := OutputFolderOf(stamp);
      var tf, sf := TranscriptFile(folder, audioPath), SpanishFile(folder, audioPath);
      && outcome == Completed && folder in w'.dirs && !w.Exists(folder)
      && w'.files == w.files[tf := Text(TranscriptDocument(audioPath, savedAt, t))]
                            [sf := Text(TranslationDocument(audioPath, translatedAt, Translation(p, t).value))]
      && w'.trace == w.trace + [Called(LoadModel), Called(Recognize), Called(Translate), Wrote(tf), Wrote(sf)]
  {
    ThroughSetup(w, audioPath, stamp, savedAt, translatedAt, p);
    var w2 := CreateOutputFolderSpec(w.Call(LoadModel), stamp).1;
    var folder := OutputFolderOf(stamp);
    AfterSetupCompleted(w2, audioPath, folder, savedAt, translatedAt, p);
    var tf, sf := TranscriptFile(folder, audioPath), SpanishFile(folder, audioPath);
    AppendOneThenFour(w.trace, Called(LoadModel), Called(Recognize), Called(Translate), Wrote(tf), Wrote(sf));
  }

  /** Only a processed file that did not complete exits with status 1; the
      help text and a wrong argument count exit with 0 and touch nothing, and
      a help flag wins over any argument count, so a file named "help" cannot
      be processed. */
  lemma ExitStatusOnFailureOnly(w: World, argv: seq<string>, stamp: string, savedAt: string, translatedAt: string, p: Services)
    ensures var (end, w') := TranscriberMainSpec(w, argv, stamp, savedAt, translatedAt, p);
      && (TranscriberExitStatus(end) == 1 <==>
            |argv| == 3 && argv[1] !in HelpFlags
            && ProcessAudioSpec(w, argv[1], stamp, savedAt, translatedAt, p).0 != Completed)
      && (end == ShowedHelp <==> |argv| < 2 || argv[1] in HelpFlags)
      && (end == WrongArgumentCount <==> |argv| >= 2 && argv[1] !in HelpFlags && |argv| != 3)
      && (!end.Processed? ==> w' == w)
  {
  }

  /** As written, the tool never completes a run: for every existing file
      with an allowed extension, setup fails after it is attempted (Gemini
      configured, no model loaded), main exits with status 1, and no folder
      or file is created. */
  lemma AsWrittenNeverCompletes(w: World, argv: seq<string>, stamp: string, savedAt: string, translatedAt: string, p: Services)
    ensures var (end, w') := TranscriberMainSpec(w, argv, stamp, savedAt, translatedAt, AsWritten(p));
      && end != Processed(Completed)
      && (|argv| == 3 && argv[1] !in HelpFlags && w.Exists(argv[1]) && IsSupported(argv[1]) ==>
            end == Processed(Returned(SettingUp)) && TranscriberExitStatus(end) == 1 && w' == w.Call(LoadModel))
  {
    LoadConfigAlwaysRaises();
    var q := AsWritten(p);
    assert !q.modelLoads;
    if |argv| == 3 && argv[1] !in HelpFlags {
      CompletedRunConditions(w, argv[1], stamp, savedAt, translatedAt, q);
      if w.Exists(argv[1]) && IsSupported(argv[1]) {
        SetupFailures(w, argv[1], stamp, savedAt, translatedAt, q);
      }
    }
  }

  lemma HelpNamedFileShowsHelp(w: World, key: string, stamp: string, savedAt: string, translatedAt: string, p: Services)
    ensures TranscriberMainSpec(w, ["audio_transcriber.py", "help", key], stamp, savedAt, translatedAt, p).0 == ShowedHelp
  {
    assert "help" in HelpFlags;
  }
}
