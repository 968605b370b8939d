/** The stages every run of the YouTube and PDF flows ends with, in both
    copies of youtube_audio_processor.py: save the source text, translate it,
    save the translation, synthesise speech from it, save the audio. Nothing
    here catches an exception: a raising provider ends the whole run. */
module Delivery {
  import opened Wrappers
  import opened Paths
  import opened Workspace
  import opened Providers

  datatype Stage = Reading | Selecting | Downloading | Transcribing | Extracting | Translating | Synthesizing | Validating | SettingUp | Saving

  /** How a run ends: every stage done, an early return at a stage whose
      result was falsy, or an exception raised by a stage. */
  datatype RunOutcome = Completed | Returned(at: Stage) | Raised(at: Stage)

  /** The prompt translate_text sends to Gemini. */
  function TranslatePrompt(text: string): string {
    "Translate the following English text to Spanish: " + text
  }

  const TranslatedName: Path := "translated.txt"
  const SpeechName: Path := "output.mp3"

  /** The world and outcome after the final stages, starting from a world in
      which the run folder exists. */
  function DeliverSpec(w: World, folder: Path, sourceName: Path, text: string, p: Services): (RunOutcome, World) {
    var w1 := w.Put(folder, sourceName, Text(text)).Call(Translate);
    match p.translate(TranslatePrompt(text))
    case None => (Raised(Translating), w1)
    case Some(translated) =>
      var w2 := w1.Put(folder, TranslatedName, Text(translated)).Call(Synthesize);
      if !p.speak(translated) then (Raised(Synthesizing), w2)
      else (Completed, w2.Put(folder, SpeechName, Speech(translated)))
  }

  method DeliverArtifacts(host: Host, folder: Path, sourceName: Path, text: string, p: Services) returns (outcome: RunOutcome)
    requires folder in host.dirs
    modifies host
    ensures (outcome, host.State()) == DeliverSpec(old(host.State()), folder, sourceName, text, p)
  {
    var ok := host.WriteFile(folder, sourceName, Text(text));
    assert ok;
    host.Record(Translate);
    var translated := p.translate(TranslatePrompt(text));
    if translated.None? {
      return Raised(Translating);
    }
    ok := host.WriteFile(folder, TranslatedName, Text(translated.value));
    assert ok;
    host.Record(Synthesize);
    if !p.speak(translated.value) {
      return Raised(Synthesizing);
    }
    ok := host.WriteFile(folder, SpeechName, Speech(translated.value));
    assert ok;
    outcome := Completed;
  }

  /** The events a run adds to the trace. */
  function NewEvents(before: World, after: World): seq<Event>
    requires |before.trace| <= |after.trace|
  {
    after.trace[|before.trace|..]
  }

  /** e happens strictly before the first occurrence of f. */
  predicate HappensBefore(events: seq<Event>, e: Event, f: Event) {
    forall j :: 0 <= j < |events| && events[j] == f ==> e in events[..j]
  }

  /** The events the final stages add, by how far they got. */
  lemma DeliverEvents(w: World, folder: Path, sourceName: Path, text: string, p: Services)
    requires folder in w.dirs
    ensures var r := DeliverSpec(w, folder, sourceName, text, p);
      var src, tr, sp := Join(folder, sourceName), Join(folder, TranslatedName), Join(folder, SpeechName);
      && r.1.dirs == w.dirs
      && (r.0 == Raised(Translating) ==> r.1.trace == w.trace + [Wrote(src), Called(Translate)])
      && (r.0 == Raised(Synthesizing) ==> r.1.trace == w.trace + [Wrote(src), Called(Translate), Wrote(tr), Called(Synthesize)])
      && (r.0 == Completed ==> r.1.trace == w.trace + [Wrote(src), Called(Translate), Wrote(tr), Called(Synthesize), Wrote(sp)])
      && (r.0 == Completed || r.0 == Raised(Translating) || r.0 == Raised(Synthesizing))
      && (r.0 == Raised(Translating) <==> p.translate(TranslatePrompt(text)).None?)
  {
    var src, tr, sp := Join(folder, sourceName), Join(folder, TranslatedName), Join(folder, SpeechName);
    var w1 := w.Put(folder, sourceName, Text(text)).Call(Translate);
    PutThenCall(w, folder, sourceName, Text(text), Translate);
    match p.translate(TranslatePrompt(text))
    case None =>
      assert DeliverSpec(w, folder, sourceName, text, p) == (Raised(Translating), w1);
    case Some(t) =>
      var w2 := w1.Put(folder, TranslatedName, Text(t)).Call(Synthesize);
      PutThenCall(w1, folder, TranslatedName, Text(t), Synthesize);
      AppendTwoThenTwo(w.trace, Wrote(src), Called(Translate), Wrote(tr), Called(Synthesize));
      if p.speak(t) {
        var w3 := w2.Put(folder, SpeechName, Speech(t));
        assert DeliverSpec(w, folder, sourceName, text, p) == (Completed, w3);
        AppendFourThenOne(w.trace, Wrote(src), Called(Translate), Wrote(tr), Called(Synthesize), Wrote(sp));
      } else {
        assert DeliverSpec(w, folder, sourceName, text, p) == (Raised(Synthesizing), w2);
      }
  }

  /** A write into an existing directory followed by a provider call. */
  lemma PutThenCall(w: World, dir: Path, name: Path, b: Blob, pv: Provider)
    requires dir in w.dirs
    ensures w.Put(dir, name, b).Call(pv).trace == w.trace + [Wrote(Join(dir, name)), Called(pv)]
    ensures w.Put(dir, name, b).Call(pv).dirs == w.dirs
  {
  }

  lemma AppendTwoThenTwo(t: seq<Event>, a: Event, b: Event, c: Event, d: Event)
    ensures t + [a, b] + [c, d] == t + [a, b, c, d]
  {
  }

  lemma AppendFourThenOne(t: seq<Event>, a: Event, b: Event, c: Event, d: Event, e: Event)
    ensures t + [a, b, c, d] + [e] == t + [a, b, c, d, e]
  {
  }

  /** The source text is saved before Gemini is called, the translation
      before gTTS is called, and neither the translation nor the audio is
      written before the stage that produces it has run. */
  lemma DeliverStagesInOrder(w: World, folder: Path, sourceName: Path, text: string, p: Services)
    requires folder in w.dirs
    requires sourceName != TranslatedName && sourceName != SpeechName
    requires sourceName != [] && sourceName[0] != Sep
    ensures var r := DeliverSpec(w, folder, sourceName, text, p); var outcome, w' := r.0, r.1;
      var ev := w'.trace[|w.trace|..];
      && HappensBefore(ev, Wrote(Join(folder, sourceName)), Called(Translate))
      && HappensBefore(ev, Wrote(Join(folder, TranslatedName)), Called(Synthesize))
      && HappensBefore(ev, Called(Translate), Wrote(Join(folder, TranslatedName)))
      && HappensBefore(ev, Called(Synthesize), Wrote(Join(folder, SpeechName)))
  {
    JoinDistinctNames(folder, sourceName, TranslatedName);
    JoinDistinctNames(folder, sourceName, SpeechName);
    JoinDistinctNames(folder, TranslatedName, SpeechName);
    DeliverEvents(w, folder, sourceName, text, p);
    StageTraceFacts(w, DeliverSpec(w, folder, sourceName, text, p), Join(folder, sourceName), Join(folder, TranslatedName), Join(folder, SpeechName));
  }

  /** Any prefix of the five final events keeps their order. */
  lemma StagePrefixInOrder(all: seq<Event>, k: nat)
    requires |all| == 5 && 2 <= k <= 5
    requires all[0].Wrote? && all[2].Wrote? && all[4].Wrote? && all[0] != all[2] && all[0] != all[4] && all[2] != all[4]
    requires all[1] == Called(Translate) && all[3] == Called(Synthesize)
    ensures HappensBefore(all[..k], all[0], all[1])
    ensures HappensBefore(all[..k], all[2], all[3])
    ensures HappensBefore(all[..k], all[1], all[2])
    ensures HappensBefore(all[..k], all[3], all[4])
  {
    var ev := all[..k];
    FirstBefore(ev, 0, all[0], all[1]);
    if k > 2 {
      FirstBefore(ev, 1, all[1], all[2]);
      FirstBefore(ev, 2, all[2], all[3]);
    } else {
      assert all[2] !in ev && all[3] !in ev;
    }
    if k > 4 {
      FirstBefore(ev, 3, all[3], all[4]);
    } else {
      assert all[4] !in ev;
    }
  }

  /** A stage that raises ends the run: after a failed translation neither
      gTTS nor any later write happens, and after a failed synthesis the
      audio file is not written. */
  lemma DeliverStopsAtFailure(w: World, folder: Path, sourceName: Path, text: string, p: Services)
    requires folder in w.dirs
    requires sourceName != TranslatedName && sourceName != SpeechName
    requires sourceName != [] && sourceName[0] != Sep
    ensures var r := DeliverSpec(w, folder, sourceName, text, p); var outcome, w' := r.0, r.1;
      var ev := w'.trace[|w.trace|..];
      && (outcome == Raised(Translating) ==>
            Called(Synthesize) !in ev && Wrote(Join(folder, TranslatedName)) !in ev && Wrote(Join(folder, SpeechName)) !in ev)
      && (outcome == Raised(Synthesizing) ==> Wrote(Join(folder, SpeechName)) !in ev)
  {
    JoinDistinctNames(folder, sourceName, TranslatedName);
    JoinDistinctNames(folder, sourceName, SpeechName);
    JoinDistinctNames(folder, TranslatedName, SpeechName);
    DeliverEvents(w, folder, sourceName, text, p);
    StageTraceFacts(w, DeliverSpec(w, folder, sourceName, text, p), Join(folder, sourceName), Join(folder, TranslatedName), Join(folder, SpeechName));
  }

  /** The order and stopping facts for any run whose trace grows by a
      prefix of the five final events, the prefix chosen by the outcome. */
  lemma StageTraceFacts(w: World, r: (RunOutcome, World), src: Path, tr: Path, sp: Path)
    requires src != tr && src != sp && tr != sp
    requires (r.0 == Raised(Translating) ==> r.1.trace == w.trace + [Wrote(src), Called(Translate)])
    requires (r.0 == Raised(Synthesizing) ==> r.1.trace == w.trace + [Wrote(src), Called(Translate), Wrote(tr), Called(Synthesize)])
    requires (r.0 == Completed ==> r.1.trace == w.trace + [Wrote(src), Called(Translate), Wrote(tr), Called(Synthesize), Wrote(sp)])
    requires r.0 == Completed || r.0 == Raised(Translating) || r.0 == Raised(Synthesizing)
    ensures var ev := r.1.trace[|w.trace|..];
      && HappensBefore(ev, Wrote(src), Called(Translate))
      && HappensBefore(ev, Wrote(tr), Called(Synthesize))
      && HappensBefore(ev, Called(Translate), Wrote(tr))
      && HappensBefore(ev, Called(Synthesize), Wrote(sp))
      && (r.0 == Raised(Translating) ==> Called(Synthesize) !in ev && Wrote(tr) !in ev && Wrote(sp) !in ev)
      && (r.0 == Raised(Synthesizing) ==> Wrote(sp) !in ev)
  {
    var all := [Wrote(src), Called(Translate), Wrote(tr), Called(Synthesize), Wrote(sp)];
    var k := if r.0 == Raised(Translating) then 2 else if r.0 == Raised(Synthesizing) then 4 else 5;
    assert r.1.trace == w.trace + all[..k];
    AfterPrefix(w.trace, all[..k]);
    StagePrefixInOrder(all, k);
    StagePrefixStops(all, k);
  }

  /** A prefix of the five final events holds none of the later ones. */
  lemma StagePrefixStops(all: seq<Event>, k: nat)
    requires |all| == 5 && 2 <= k <= 5
    requires all[0].Wrote? && all[2].Wrote? && all[4].Wrote? && all[0] != all[2] && all[0] != all[4] && all[2] != all[4]
    requires all[1] == Called(Translate) && all[3] == Called(Synthesize)
    ensures k == 2 ==> all[2] !in all[..k] && all[3] !in all[..k] && all[4] !in all[..k]
    ensures k == 4 ==> all[4] !in all[..k]
  {
  }

  /** What is on disk afterwards: the source text always, the translation
      whenever Gemini answered, the speech exactly when the run completed. */
  lemma DeliverArtifactsOnDisk(w: World, folder: Path, sourceName: Path, text: string, p: Services)
    requires folder in w.dirs
    requires sourceName != TranslatedName && sourceName != SpeechName
    requires sourceName != [] && sourceName[0] != Sep
    ensures var r := DeliverSpec(w, folder, sourceName, text, p); var outcome, w' := r.0, r.1;
      var answer := p.translate(TranslatePrompt(text));
      && Join(folder, sourceName) in w'.files && w'.files[Join(folder, sourceName)] == Text(text)
      && (answer.Some? ==>
            Join(folder, TranslatedName) in w'.files && w'.files[Join(folder, TranslatedName)] == Text(answer.value))
      && (outcome == Completed <==> answer.Some? && p.speak(answer.value))
      && (outcome == Completed ==>
            Join(folder, SpeechName) in w'.files && w'.files[Join(folder, SpeechName)] == Speech(answer.value))
  {
    JoinDistinctNames(folder, sourceName, TranslatedName);
    JoinDistinctNames(folder, sourceName, SpeechName);
    JoinDistinctNames(folder, TranslatedName, SpeechName);
    DeliverFileUpdates(w, folder, sourceName, text, p);
    StageFileFacts(w, DeliverSpec(w, folder, sourceName, text, p), Join(folder, sourceName), Join(folder, TranslatedName),
      Join(folder, SpeechName), text, p.translate(TranslatePrompt(text)), p.speak);
  }

  /** The file map after the final stages, by how far they got. */
  lemma DeliverFileUpdates(w: World, folder: Path, sourceName: Path, text: string, p: Services)
    requires folder in w.dirs
    ensures var r := DeliverSpec(w, folder, sourceName, text, p);
      var answer := p.translate(TranslatePrompt(text));
      var src, tr, sp := Join(folder, sourceName), Join(folder, TranslatedName), Join(folder, SpeechName);
      && (answer.None? ==> r.0 == Raised(Translating) && r.1.files == w.files[src := Text(text)])
      && (answer.Some? && !p.speak(answer.value) ==>
            r.0 == Raised(Synthesizing) && r.1.files == w.files[src := Text(text)][tr := Text(answer.value)])
      && (answer.Some? && p.speak(answer.value) ==>
            r.0 == Completed && r.1.files == w.files[src := Text(text)][tr := Text(answer.value)][sp := Speech(answer.value)])
  {
    var w1 := w.Put(folder, sourceName, Text(text)).Call(Translate);
    PutThenCallFiles(w, folder, sourceName, Text(text), Translate);
    match p.translate(TranslatePrompt(text))
    case None =>
      assert DeliverSpec(w, folder, sourceName, text, p) == (Raised(Translating), w1);
    case Some(t) =>
      var w2 := w1.Put(folder, TranslatedName, Text(t)).Call(Synthesize);
      PutThenCallFiles(w1, folder, TranslatedName, Text(t), Synthesize);
      if p.speak(t) {
        var w3 := w2.Put(folder, SpeechName, Speech(t));
        assert DeliverSpec(w, folder, sourceName, text, p) == (Completed, w3);
      } else {
        assert DeliverSpec(w, folder, sourceName, text, p) == (Raised(Synthesizing), w2);
      }
  }

  /** What three successive writes to distinct paths leave on disk. */
  lemma StageFileFacts(w: World, r: (RunOutcome, World), src: Path, tr: Path, sp: Path, text: string,
                       answer: Option<string>, speaks: string -> bool)
    requires src != tr && src != sp && tr != sp
    requires answer.None? ==> r.0 == Raised(Translating) && r.1.files == w.files[src := Text(text)]
    requires answer.Some? && !speaks(answer.value) ==>
      r.0 == Raised(Synthesizing) && r.1.files == w.files[src := Text(text)][tr := Text(answer.value)]
    requires answer.Some? && speaks(answer.value) ==>
      r.0 == Completed && r.1.files == w.files[src := Text(text)][tr := Text(answer.value)][sp := Speech(answer.value)]
    ensures src in r.1.files && r.1.files[src] == Text(text)
    ensures answer.Some? ==> tr in r.1.files && r.1.files[tr] == Text(answer.value)
    ensures r.0 == Completed <==> answer.Some? && speaks(answer.value)
    ensures r.0 == Completed ==> sp in r.1.files && r.1.files[sp] == Speech(answer.value)
  {
  }

  /** The final stages write only the three artifacts of the run folder. */
  lemma DeliverKeepsOtherFiles(w: World, folder: Path, sourceName: Path, text: string, p: Services, q: Path)
    requires q != Join(folder, sourceName) && q != Join(folder, TranslatedName) && q != Join(folder, SpeechName)
    ensures SameFile(DeliverSpec(w, folder, sourceName, text, p).1.files, w.files, q)
  {
    var w1 := w.Put(folder, sourceName, Text(text)).Call(Translate);
    PutKeeps(w, folder, sourceName, Text(text), q);
    match p.translate(TranslatePrompt(text))
    case None =>
      assert DeliverSpec(w, folder, sourceName, text, p) == (Raised(Translating), w1);
    case Some(t) =>
      var w2 := w1.Put(folder, TranslatedName, Text(t)).Call(Synthesize);
      PutKeeps(w1, folder, TranslatedName, Text(t), q);
      if p.speak(t) {
        var w3 := w2.Put(folder, SpeechName, Speech(t));
        PutKeeps(w2, folder, SpeechName, Speech(t), q);
        assert DeliverSpec(w, folder, sourceName, text, p) == (Completed, w3);
      } else {
        assert DeliverSpec(w, folder, sourceName, text, p) == (Raised(Synthesizing), w2);
      }
  }

  /** A write into an existing directory, then a provider call, as a file
      map update. */
  lemma PutThenCallFiles(w: World, dir: Path, name: Path, b: Blob, pv: Provider)
    requires dir in w.dirs
    ensures w.Put(dir, name, b).Call(pv).files == w.files[Join(dir, name) := b]
    ensures w.Put(dir, name, b).Call(pv).dirs == w.dirs
  {
  }

  /** A write leaves every other path as it was. */
  lemma PutKeeps(w: World, dir: Path, name: Path, b: Blob, q: Path)
    requires q != Join(dir, name)
    ensures SameFile(w.Put(dir, name, b).files, w.files, q)
    ensures w.Put(dir, name, b).Call(Translate).files == w.Put(dir, name, b).files
    ensures w.Put(dir, name, b).Call(Synthesize).files == w.Put(dir, name, b).files
  {
  }

  /** The events appended after a prefix. */
  lemma AfterPrefix(before: seq<Event>, added: seq<Event>)
    ensures (before + added)[|before|..] == added
  {
  }

  /** An event that occurs before any occurrence of f happens before f. */
  lemma FirstBefore(events: seq<Event>, i: nat, e: Event, f: Event)
    requires i < |events| && events[i] == e && f !in events[..i + 1]
    ensures HappensBefore(events, e, f)
  {
    forall j | 0 <= j < |events| && events[j] == f
      ensures e in events[..j]
    {
      assert events[..j][i] == e;
    }
  }

  /** Different names in the same folder are different paths. */
  lemma JoinDistinctNames(folder: Path, a: Path, b: Path)
    requires a != b && a != [] && b != [] && a[0] != Sep && b[0] != Sep
    ensures Join(folder, a) != Join(folder, b)
  {
    var pre := if folder == [] || folder[|folder| - 1] == Sep then folder else folder + [Sep];
    assert Join(folder, a) == pre + a && Join(folder, b) == pre + b;
    assert (pre + a)[|pre|..] == a && (pre + b)[|pre|..] == b;
  }
}
