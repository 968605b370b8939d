/** The part of the host the pipeline touches: a file map, a directory set
    and the trace of what an observer sees happen, in order (provider calls,
    file writes, file removals). */
module Workspace {
  import opened Wrappers
  import opened Paths
  import opened Chunking

  /** What a file holds, as far as the pipeline can tell. */
  datatype Blob =
    | Audio(durationMs: nat)             // an mp3 whose length pydub reports
    | Clip(source: Path, chunk: Chunk)   // a piece exported by chunk.export
    | Text(body: string)                 // a UTF-8 text file
    | Speech(text: string)               // the mp3 gTTS renders for a text

  /** The external capabilities the pipeline calls. */
  datatype Provider = LoadModel | Download | Recognize | Translate | Synthesize | ExtractPrimary | ExtractFallback

  datatype Event = Called(provider: Provider) | Wrote(path: Path) | Removed(path: Path)

  /** What os.path.exists and os.path.isdir would report for a path. */
  datatype EntryKind = Missing | RegularFile | Directory

  datatype World = World(files: map<Path, Blob>, dirs: set<Path>, trace: seq<Event>)
  {
    /** os.path.exists: a file or a directory. */
    predicate Exists(p: Path) {
      p in files || p in dirs
    }

    function Kind(p: Path): EntryKind {
      if p in dirs then Directory else if p in files then RegularFile else Missing
    }

    /** os.makedirs(p) guarded by "if not os.path.exists(p)". */
    function MakeDir(p: Path): World {
      if Exists(p) then this else this.(dirs := dirs + {p})
    }

    /** open(join(dir, name), 'w') followed by writes: it raises before
        writing anything when the directory is missing. */
    function Put(dir: Path, name: Path, b: Blob): World {
      if dir in dirs then
        var p := Join(dir, name);
        this.(files := files[p := b], trace := trace + [Wrote(p)])
      else this
    }

    /** os.remove(p). */
    function Delete(p: Path): World {
      this.(files := files - {p}, trace := trace + [Removed(p)])
    }

    /** A provider call shows up in the trace. */
    function Call(pv: Provider): World {
      this.(trace := trace + [Called(pv)])
    }
  }

  /** A write into an existing directory, spelled out. */
  lemma PutInDir(w: World, dir: Path, name: Path, b: Blob)
    requires dir in w.dirs
    ensures w.Put(dir, name, b).files == w.files[Join(dir, name) := b]
    ensures w.Put(dir, name, b).dirs == w.dirs
    ensures w.Put(dir, name, b).trace == w.trace + [Wrote(Join(dir, name))]
  {
  }

  /** q is the same file (or equally absent) in both maps. */
  predicate SameFile(a: map<Path, Blob>, b: map<Path, Blob>, q: Path) {
    (q in a <==> q in b) && (q in a ==> a[q] == b[q])
  }

  /** The host as the source mutates it, one operation at a time. */
  class Host {
    var files: map<Path, Blob>
    var dirs: set<Path>
    var trace: seq<Event>

    function State(): World
      reads this
    {
      World(files, dirs, trace)
    }

    constructor (w: World)
      ensures State() == w
    {
      files, dirs, trace := w.files, w.dirs, w.trace;
    }

    method MakeDir(p: Path)
      modifies this
      ensures State() == old(State()).MakeDir(p)
    {
      if !(p in files || p in dirs) {
        dirs := dirs + {p};
      }
    }

    /** Writes b to join(dir, name); ok is false when open() would raise. */
    method WriteFile(dir: Path, name: Path, b: Blob) returns (ok: bool)
      modifies this
      ensures ok == (dir in old(dirs))
      ensures State() == old(State()).Put(dir, name, b)
    {
      ok := dir in dirs;
      if ok {
        var p := Join(dir, name);
        files := files[p := b];
        trace := trace + [Wrote(p)];
      }
    }

    method Remove(p: Path)
      requires p in files
      modifies this
      ensures State() == old(State()).Delete(p)
    {
      files := files - {p};
      trace := trace + [Removed(p)];
    }

    method Record(pv: Provider)
      modifies this
      ensures State() == old(State()).Call(pv)
    {
      trace := trace + [Called(pv)];
    }
  }

  /** The name of the folder of one run: <outputDir>/<prefix><timestamp>. */
  function RunFolder(outputDir: Path, prefix: string, stamp: string): Path {
    Join(outputDir, prefix + stamp)
  }

  /** Two runs started at different timestamps get different folders, both
      directly inside the output directory. */
  lemma RunFoldersDistinct(outputDir: Path, prefix: string, s1: string, s2: string)
    requires outputDir != [] && outputDir[|outputDir| - 1] != Sep
    requires prefix != [] && prefix[0] != Sep
    requires s1 != s2
    ensures RunFolder(outputDir, prefix, s1) != RunFolder(outputDir, prefix, s2)
    ensures RunFolder(outputDir, prefix, s1) == outputDir + [Sep] + prefix + s1
  {
    var f1, f2 := RunFolder(outputDir, prefix, s1), RunFolder(outputDir, prefix, s2);
    var n := |outputDir| + 1 + |prefix|;
    assert f1 == outputDir + [Sep] + (prefix + s1);
    assert f2 == outputDir + [Sep] + (prefix + s2);
    assert f1[n..] == s1 && f2[n..] == s2;
  }

  const RunPrefix: string := "castellanator_"

  /** The run folder is never the output directory itself. */
  lemma RunFolderIsLonger(outputDir: Path, stamp: string)
    ensures |RunFolder(outputDir, RunPrefix, stamp)| > |outputDir|
  {
    assert (RunPrefix + stamp)[0] == RunPrefix[0] == 'c';
    JoinIsLonger(outputDir, RunPrefix + stamp);
  }

  /** Whether os.makedirs(process_folder) succeeds once the guarded
      makedirs of the output directory has run: it raises when the output
      directory is a regular file or the run folder is already there. */
  predicate ProcessFolderCreatable(w: World, outputDir: Path, stamp: string) {
    var w1 := w.MakeDir(outputDir);
    outputDir in w1.dirs && !w1.Exists(RunFolder(outputDir, RunPrefix, stamp))
  }

  /** The world after a successful create_process_folder: the output
      directory if it was absent, the run folder, and the temp directory if
      it was absent. */
  function WithProcessFolder(w: World, outputDir: Path, tempDir: Path, stamp: string): World {
    var w1 := w.MakeDir(outputDir);
    var w2 := w1.(dirs := w1.dirs + {RunFolder(outputDir, RunPrefix, stamp)});
    w2.MakeDir(tempDir)
  }

  /** create_process_folder: the run folder <outputDir>/castellanator_<stamp>,
      or None where os.makedirs raises; no file is touched either way. */
  function CreateProcessFolderSpec(w: World, outputDir: Path, tempDir: Path, stamp: string): (r: (Option<Path>, World))
    ensures r.0.None? <==> w.Kind(outputDir) == RegularFile || w.Exists(RunFolder(outputDir, RunPrefix, stamp))
    ensures r.1.files == w.files && r.1.trace == w.trace && w.dirs <= r.1.dirs
    ensures r.0.Some? ==>
      && r.0.value == RunFolder(outputDir, RunPrefix, stamp) && !w.Exists(r.0.value)
      && r.0.value in r.1.dirs && outputDir in r.1.dirs && r.1.Exists(tempDir)
  {
    RunFolderIsLonger(outputDir, stamp);
    if ProcessFolderCreatable(w, outputDir, stamp) then (Some(RunFolder(outputDir, RunPrefix, stamp)), WithProcessFolder(w, outputDir, tempDir, stamp))
    else (None, w.MakeDir(outputDir))
  }

  method CreateProcessFolder(host: Host, outputDir: Path, tempDir: Path, stamp: string) returns (folder: Option<Path>)
    modifies host
    ensures (folder, host.State()) == CreateProcessFolderSpec(old(host.State()), outputDir, tempDir, stamp)
  {
    host.MakeDir(outputDir);
    var f := RunFolder(outputDir, RunPrefix, stamp);
    if outputDir !in host.dirs || f in host.files || f in host.dirs {
      return None;
    }
    host.dirs := host.dirs + {f};
    host.MakeDir(tempDir);
    folder := Some(f);
  }
}
