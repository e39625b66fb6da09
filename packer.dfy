/** The packing side of `src/asar.ts`: `handleFile` and the `next` driver of
    `createPackageFromFiles` (lines 145-232) on the state its closures share,
    and the `next` driver of `createPackageFromStreams` (lines 321-333).  The
    `Filesystem` class and the archive writer are not part of this model; the
    calls made into them are recorded as `Insertion`s. */
module Packer {
  import opened Base
  import opened Paths
  import opened Ordering
  import opened Unpack

  /** The crawled type of an entry (its `stat` is not modelled). */
  datatype FileType = Directory | File | Link

  /** `{ filename, unpack }`, as pushed to `files` and `links`. */
  datatype Record = Record(filename: string, unpack: bool)

  /** A call into `Filesystem`: `insertDirectory`, `insertFile` or `insertLink`
      with the entry's name and unpack flag. */
  datatype Insertion = Insertion(kind: FileType, filename: string, unpack: bool)

  /** The options `createPackageFromFiles` reads; an absent option is "". */
  datatype PackOptions = PackOptions(ordering: string, unpack: string, unpackDir: string)

  /** What the closures of `createPackageFromFiles` read but never change:
      the normalised `src`, the process working directory, the options, the
      glob matcher and `determineFileType` (which may throw, or answer `null`
      for an entry of unknown type). */
  datatype Env = Env(src: string, cwd: string, options: PackOptions, matcher: Matcher,
                     probe: string -> Attempt<Option<FileType>>)

  /** What the closures change: `metadata`, `unpackDirs`, `files`, `links`
      and the calls made into `Filesystem`. */
  datatype PackState = PackState(metadata: map<string, FileType>, unpackDirs: seq<string>,
                                 files: seq<Record>, links: seq<Record>, inserted: seq<Insertion>)

  /** The state after a call, and the exception it ended with, if any. */
  datatype Outcome = Outcome(state: PackState, error: Option<Error>)

  // ---------------------------------------------------------------------------
  // handleFile as a function of the state

  /** Lines 184-212: the path an entry's unpack test looks at, relative to
      `src`: a directory or a link uses its own path, a file its parent's. */
  function TestedPath(env: Env, filename: string, t: FileType): string {
    match t
      case Directory => Relative(env.cwd, env.src, filename)
      case File => Relative(env.cwd, env.src, Dirname(filename))
      case Link => Relative(env.cwd, env.src, filename)
  }

  /** The file pattern an entry's unpack test uses: none for a directory. */
  function TestedPattern(env: Env, t: FileType): string {
    if t == Directory then "" else env.options.unpack
  }

  /** Lines 146-153: the entry's type, from `metadata` or else from the probe,
      which is then cached in `metadata`. */
  function TypedMetadata(env: Env, st: PackState, filename: string): (r: Result<map<string, FileType>>)
    ensures filename in st.metadata ==> r == Ok(st.metadata)
    ensures filename !in st.metadata ==>
      (r.Ok? <==> env.probe(filename).Succeeded? && env.probe(filename).value.Some?)
    ensures filename !in st.metadata && env.probe(filename).Threw? ==> r == Err(IoFailure(env.probe(filename).message))
    ensures filename !in st.metadata && env.probe(filename) == Succeeded(None) ==> r == Err(UnknownFileType(filename))
    ensures r.Ok? ==> filename in r.value && r.value.Keys == st.metadata.Keys + {filename}
    ensures filename !in st.metadata && r.Ok? ==> r.value[filename] == env.probe(filename).value.value
    ensures r.Ok? ==> forall n :: n in st.metadata ==> r.value[n] == st.metadata[n]
  {
    if filename in st.metadata then Ok(st.metadata)
    else match env.probe(filename)
      case Threw(message) => Err(IoFailure(message))
      case Succeeded(None) => Err(UnknownFileType(filename))
      case Succeeded(Some(t)) => Ok(st.metadata[filename := t])
  }

  /** Appends the records and the insertion of an entry whose decision is known. */
  function Insert(st: PackState, t: FileType, filename: string, unpack: bool): PackState {
    var r := Record(filename, unpack);
    st.(files := if t == File then st.files + [r] else st.files,
        links := if t == Link then st.links + [r] else st.links,
        inserted := st.inserted + [Insertion(t, filename, unpack)])
  }

  /** `handleFile(filename)` (lines 145-215). */
  function Handle(env: Env, st: PackState, filename: string): Outcome {
    match TypedMetadata(env, st, filename)
      case Err(e) => Outcome(st, Some(e))
      case Ok(md) =>
        var t := md[filename];
        var st1 := st.(metadata := md);
        match ShouldUnpack(env.matcher, env.cwd, filename, TestedPath(env, filename, t),
                           TestedPattern(env, t), env.options.unpackDir, st.unpackDirs)
          case Err(e) => Outcome(st1, Some(e))
          case Ok(d) => Outcome(Insert(st1.(unpackDirs := d.unpackDirs), t, filename, d.unpack), None)
  }

  /** What `next` calls on each name. */
  type Handler = (PackState, string) -> Outcome

  /** `handleFile` with the closures' environment fixed. */
  function HandlerOf(env: Env): Handler {
    (st: PackState, filename: string) => Handle(env, st, filename)
  }

  /** The `next` recursion of lines 221-232: names are handled in order until
      the queue is empty, a falsy (empty) name comes up, or a call throws. */
  function HandleAll(h: Handler, st: PackState, names: seq<string>): Outcome
    decreases |names|
  {
    if names == [] || names[0] == "" then Outcome(st, None)
    else
      var o := h(st, names[0]);
      if o.error.Some? then o else HandleAll(h, o.state, names[1..])
  }

  // ---------------------------------------------------------------------------
  // Properties of handleFile and the driver

  /** The file records of a sequence of insertions, in order. */
  function FilesOf(ins: seq<Insertion>): seq<Record>
    decreases |ins|
  {
    if ins == [] then []
    else
      var last := ins[|ins| - 1];
      FilesOf(ins[..|ins| - 1]) + (if last.kind == File then [Record(last.filename, last.unpack)] else [])
  }

  /** The link records of a sequence of insertions, in order. */
  function LinksOf(ins: seq<Insertion>): seq<Record>
    decreases |ins|
  {
    if ins == [] then []
    else
      var last := ins[|ins| - 1];
      LinksOf(ins[..|ins| - 1]) + (if last.kind == Link then [Record(last.filename, last.unpack)] else [])
  }

  /** The invariant the closures keep: `files` and `links` are the file and
      link insertions in insertion order, every inserted name has its type in
      `metadata`, and `unpackDirs` holds no directory twice. */
  ghost predicate Consistent(st: PackState) {
    && st.files == FilesOf(st.inserted)
    && st.links == LinksOf(st.inserted)
    && NoDup(st.unpackDirs)
    && forall i :: 0 <= i < |st.inserted| ==>
         st.inserted[i].filename in st.metadata && st.metadata[st.inserted[i].filename] == st.inserted[i].kind
  }

  lemma InsertConsistent(st: PackState, t: FileType, filename: string, unpack: bool)
    requires Consistent(st)
    requires filename in st.metadata && st.metadata[filename] == t
    ensures Consistent(Insert(st, t, filename, unpack))
  {
    var ins := st.inserted + [Insertion(t, filename, unpack)];
    assert ins[..|ins| - 1] == st.inserted;
  }

  /** What one call of a handler on `filename` must do to the state: keep
      the invariant and grow `unpackDirs`; on an error insert nothing, and on
      success insert exactly that entry after the earlier ones. */
  ghost predicate StepFacts(st: PackState, filename: string, o: Outcome) {
    && Consistent(o.state)
    && IsPrefix(st.unpackDirs, o.state.unpackDirs)
    && (o.error.Some? ==> o.state.inserted == st.inserted && o.state.unpackDirs == st.unpackDirs)
    && (o.error.None? ==>
          && |o.state.inserted| == |st.inserted| + 1
          && o.state.inserted[..|st.inserted|] == st.inserted
          && o.state.inserted[|st.inserted|].filename == filename)
  }

  /** A handler that does so on every consistent state. */
  ghost predicate WellBehaved(h: Handler) {
    forall st: PackState, filename: string :: Consistent(st) ==> StepFacts(st, filename, h(st, filename))
  }

  /** One handled entry: an error leaves the records and `unpackDirs` as they
      were; success inserts exactly that entry, with its type now in
      `metadata`.  Either way the invariant is kept and no type is forgotten. */
  lemma HandleStep(env: Env, st: PackState, filename: string)
    requires Consistent(st)
    ensures var o := Handle(env, st, filename);
      && StepFacts(st, filename, o)
      && st.metadata.Keys <= o.state.metadata.Keys
      && (forall n :: n in st.metadata ==> o.state.metadata[n] == st.metadata[n])
      && (o.error.None? ==>
            filename in o.state.metadata && o.state.inserted[|st.inserted|].kind == o.state.metadata[filename])
  {
    var o := Handle(env, st, filename);
    match TypedMetadata(env, st, filename)
    case Err(e) =>
    case Ok(md) =>
      var t := md[filename];
      var st1 := st.(metadata := md);
      assert Consistent(st1);
      ShouldUnpackGrows(env.matcher, env.cwd, filename, TestedPath(env, filename, t),
                        TestedPattern(env, t), env.options.unpackDir, st.unpackDirs);
      match ShouldUnpack(env.matcher, env.cwd, filename, TestedPath(env, filename, t),
                         TestedPattern(env, t), env.options.unpackDir, st.unpackDirs)
      case Err(e) =>
      case Ok(d) =>
        InsertConsistent(st1.(unpackDirs := d.unpackDirs), t, filename, d.unpack);
        assert (st.inserted + [Insertion(t, filename, d.unpack)])[..|st.inserted|] == st.inserted;
  }

  /** Lines 184-212 spelled out: the type decides the tested path (the
      entry's own for a directory or a link, its parent's for a file) and the
      file pattern (none for a directory).  A failed type lookup or unpack
      test ends the call with that error; otherwise the new `unpackDirs` is
      the decision's list and the entry is recorded with the decision's flag. */
  lemma HandleDecision(env: Env, st: PackState, filename: string)
    ensures TypedMetadata(env, st, filename).Err? ==>
      Handle(env, st, filename) == Outcome(st, Some(TypedMetadata(env, st, filename).error))
    ensures TypedMetadata(env, st, filename).Ok? ==>
      var md := TypedMetadata(env, st, filename).value;
      var t := md[filename];
      var path := if t == File then Relative(env.cwd, env.src, Dirname(filename))
                  else Relative(env.cwd, env.src, filename);
      var pattern := if t == Directory then "" else env.options.unpack;
      var d := ShouldUnpack(env.matcher, env.cwd, filename, path, pattern, env.options.unpackDir, st.unpackDirs);
      var o := Handle(env, st, filename);
      && (d.Err? ==> o == Outcome(st.(metadata := md), Some(d.error)))
      && (d.Ok? ==>
            && o.error.None?
            && o.state.metadata == md
            && o.state.unpackDirs == d.value.unpackDirs
            && o.state.inserted == st.inserted + [Insertion(t, filename, d.value.unpack)]
            && o.state.files == st.files + (if t == File then [Record(filename, d.value.unpack)] else [])
            && o.state.links == st.links + (if t == Link then [Record(filename, d.value.unpack)] else []))
  {
    if TypedMetadata(env, st, filename).Ok? {
      var t := TypedMetadata(env, st, filename).value[filename];
      assert st.files + [] == st.files && st.links + [] == st.links;
      assert TestedPath(env, filename, t) == if t == File then Relative(env.cwd, env.src, Dirname(filename))
                                             else Relative(env.cwd, env.src, filename);
    }
  }

  /** A file whose parent directory is the `unpackDir` option, directly
      below `src`, is packed unpacked when the file pattern does not claim it
      otherwise, and that directory is remembered, once. */
  lemma FileInUnpackDir(env: Env, st: PackState, filename: string)
    requires IsRooted(env.src) && IsRooted(filename) && Plain(env.options.unpackDir)
    requires Parse(Dirname(filename)).parts == Parse(env.src).parts + [env.options.unpackDir]
    requires filename in st.metadata && st.metadata[filename] == File
    requires env.options.unpack == "" || FilePatternMatch(env.matcher, filename, env.options.unpack) == Ok(false)
    ensures var o := Handle(env, st, filename); var dir := env.options.unpackDir;
      && o.error.None?
      && o.state.inserted == st.inserted + [Insertion(File, filename, true)]
      && o.state.files == st.files + [Record(filename, true)]
      && o.state.links == st.links
      && dir in o.state.unpackDirs
      && o.state.unpackDirs == if dir in st.unpackDirs then st.unpackDirs else st.unpackDirs + [dir]
  {
    var dir := env.options.unpackDir;
    DirnameParse(filename);
    RelativeChild(env.cwd, env.src, Dirname(filename), dir);
    PatternMiss(env.matcher, env.cwd, filename, dir, env.options.unpack, dir, st.unpackDirs);
    assert StartsWith(dir, dir);
    HandleDecision(env, st, filename);
  }

  /** With `src` "/s" and `unpackDir` "lib", the file "/s/lib/native.node"
      is recorded unpacked and "lib" is remembered. */
  lemma NativeModuleUnpacked(env: Env, st: PackState)
    requires env.src == "/s" && env.options.unpack == "" && env.options.unpackDir == "lib"
    requires "/s/lib/native.node" in st.metadata && st.metadata["/s/lib/native.node"] == File
    requires "lib" !in st.unpackDirs
    ensures var o := Handle(env, st, "/s/lib/native.node");
      && o.error.None?
      && o.state.inserted == st.inserted + [Insertion(File, "/s/lib/native.node", true)]
      && o.state.files == st.files + [Record("/s/lib/native.node", true)]
      && o.state.unpackDirs == st.unpackDirs + ["lib"]
  {
    NativeModuleFacts();
    FileInUnpackDir(env, st, "/s/lib/native.node");
  }

  lemma NativeModuleFacts()
    ensures IsRooted("/s") && IsRooted("/s/lib/native.node") && Plain("lib")
    ensures Parse(Dirname("/s/lib/native.node")).parts == Parse("/s").parts + ["lib"]
  {
    NativeModulePaths();
  }

  /** The parent of "/s/lib/native.node" is "lib" below "/s". */
  lemma NativeModulePaths()
    ensures Parse(Dirname("/s/lib/native.node")).parts == Parse("/s").parts + ["lib"]
  {
    NativeFileParse();
    SourceParse();
    assert ["s"] + ["lib", "native.node"] == ["s", "lib", "native.node"];
    DirnameChild("/s/lib/native.node", "/s", "lib", "native.node");
  }

  lemma NativeFileParse()
    ensures Parse("/s/lib/native.node") == Path(true, ["s", "lib", "native.node"])
  {
    assert Plain("s") && Plain("lib") && Plain("native.node");
    NativeFileText();
    ParseRootedPlain(["s", "lib", "native.node"]);
  }

  lemma NativeFileText()
    ensures "/" + JoinWith(["s", "lib", "native.node"], '/') == "/s/lib/native.node"
  {
    JoinWithThree("s", "lib", "native.node", '/');
  }

  lemma SourceParse()
    ensures Parse("/s") == Path(true, ["s"])
  {
    assert Plain("s");
    assert "/s" == "/" + JoinWith(["s"], '/');
    ParseRootedPlain(["s"]);
  }

  /** An entry with no metadata whose type cannot be determined throws
      "Unknown file type" and changes nothing. */
  lemma UnknownTypeThrows(env: Env, st: PackState, filename: string)
    requires filename !in st.metadata && env.probe(filename) == Succeeded(None)
    ensures Handle(env, st, filename) == Outcome(st, Some(UnknownFileType(filename)))
  {
  }

  /** A directory is decided without the `unpack` option: two option sets
      that differ only there handle it alike. */
  lemma DirectoryIgnoresUnpack(env: Env, unpack2: string, st: PackState, filename: string)
    requires TypedMetadata(env, st, filename).Ok?
    requires TypedMetadata(env, st, filename).value[filename] == Directory
    ensures Handle(env, st, filename) == Handle(env.(options := env.options.(unpack := unpack2)), st, filename)
  {
  }

  lemma HandlerWellBehaved(env: Env)
    ensures WellBehaved(HandlerOf(env))
  {
    forall st: PackState, filename: string | Consistent(st)
      ensures StepFacts(st, filename, HandlerOf(env)(st, filename))
    {
      HandleStep(env, st, filename);
    }
  }

  /** The driver keeps the invariant and only grows `unpackDirs`. */
  lemma {:induction false} HandleAllKeeps(h: Handler, st: PackState, names: seq<string>)
    requires WellBehaved(h) && Consistent(st)
    ensures var o := HandleAll(h, st, names);
      Consistent(o.state) && IsPrefix(st.unpackDirs, o.state.unpackDirs)
    decreases |names|
  {
    if names != [] && names[0] != "" {
      var o1 := h(st, names[0]);
      assert StepFacts(st, names[0], o1);
      if o1.error.None? {
        HandleAllKeeps(h, o1.state, names[1..]);
        var o := HandleAll(h, o1.state, names[1..]);
        assert o.state.unpackDirs[..|st.unpackDirs|]
            == o.state.unpackDirs[..|o1.state.unpackDirs|][..|st.unpackDirs|];
      }
    }
  }

  /** `after` extends `before` by insertions of a prefix of `names`, in order. */
  predicate InOrder(before: seq<Insertion>, after: seq<Insertion>, names: seq<string>) {
    && IsPrefix(before, after)
    && |after| - |before| <= |names|
    && forall j :: |before| <= j < |after| ==> after[j].filename == names[j - |before|]
  }

  lemma InOrderCons(before: seq<Insertion>, mid: seq<Insertion>, after: seq<Insertion>, names: seq<string>)
    requires names != [] && |mid| == |before| + 1 && mid[..|before|] == before
    requires mid[|before|].filename == names[0]
    requires InOrder(mid, after, names[1..])
    ensures InOrder(before, after, names)
  {
    assert after[..|before|] == after[..|mid|][..|before|];
    forall j | |before| <= j < |after|
      ensures after[j].filename == names[j - |before|]
    {
      if j == |before| {
        assert after[j] == after[..|mid|][j];
      } else {
        assert names[1..][j - |mid|] == names[j - |before|];
      }
    }
  }

  /** The driver handles a prefix of the names, in order: each handled name is
      inserted right after the ones before it.  When no call throws and no name
      is empty, every name is inserted. */
  lemma {:induction false} HandleAllInOrder(h: Handler, st: PackState, names: seq<string>)
    requires WellBehaved(h) && Consistent(st)
    ensures var o := HandleAll(h, st, names);
      && InOrder(st.inserted, o.state.inserted, names)
      && (o.error.None? && (forall i :: 0 <= i < |names| ==> names[i] != "") ==>
            |o.state.inserted| == |st.inserted| + |names|)
    decreases |names|
  {
    if names != [] && names[0] != "" {
      var o1 := h(st, names[0]);
      assert StepFacts(st, names[0], o1);
      if o1.error.None? {
        HandleAllInOrder(h, o1.state, names[1..]);
        var o := HandleAll(h, o1.state, names[1..]);
        InOrderCons(st.inserted, o1.state.inserted, o.state.inserted, names);
        if forall i :: 0 <= i < |names| ==> names[i] != "" {
          assert forall i :: 0 <= i < |names[1..]| ==> names[1..][i] != "";
        }
      }
    } else {
      assert st.inserted[..|st.inserted|] == st.inserted;
    }
  }

  // ---------------------------------------------------------------------------
  // The closures' state as an object

  /** The state `createPackageFromFiles` keeps in its local variables and
      updates from `handleFile` and `isUnpackedDir`. */
  class Packer {
    const env: Env
    var metadata: map<string, FileType>
    var unpackDirs: seq<string>
    var files: seq<Record>
    var links: seq<Record>
    var inserted: seq<Insertion>

    function State(): PackState
      reads this
    {
      PackState(metadata, unpackDirs, files, links, inserted)
    }

    constructor (env: Env, metadata: map<string, FileType>)
      ensures this.env == env
      ensures State() == PackState(metadata, [], [], [], [])
    {
      this.env := env;
      this.metadata := metadata;
      unpackDirs := [];
      files := [];
      links := [];
      inserted := [];
    }

    /** `isUnpackedDir(dirPath, pattern, unpackDirs)` (lines 26-38) on this
        object's `unpackDirs`, with its `includes` and `some` as loops. */
    method IsUnpackedDir(dirPath: string, pattern: string) returns (r: Result<bool>)
      modifies this
      ensures metadata == old(metadata) && files == old(files) && links == old(links) && inserted == old(inserted)
      ensures match UnpackedDir(env.matcher, env.cwd, dirPath, pattern, old(unpackDirs))
        case Err(e) => r == Err(e) && unpackDirs == old(unpackDirs)
        case Ok(d) => r == Ok(d.unpack) && unpackDirs == d.unpackDirs
    {
      var hit := if StartsWith(dirPath, pattern) then Some(true) else env.matcher(dirPath, pattern, false);
      if hit.None? {
        return Err(DirPatternError(pattern, dirPath));
      }
      if hit.value {
        var present := false;
        for k := 0 to |unpackDirs|
          invariant present <==> exists j :: 0 <= j < k && unpackDirs[j] == dirPath
        {
          if unpackDirs[k] == dirPath {
            present := true;
          }
        }
        if !present {
          unpackDirs := unpackDirs + [dirPath];
        }
        return Ok(true);
      }
      var i := 0;
      while i < |unpackDirs| && !Covered(env.cwd, unpackDirs[i], dirPath)
        invariant 0 <= i <= |unpackDirs|
        invariant forall k :: 0 <= k < i ==> !Covered(env.cwd, unpackDirs[k], dirPath)
      {
        i := i + 1;
      }
      r := Ok(i < |unpackDirs|);
    }

    /** `shouldUnpackPath(relativePath, unpack, unpackDir)` (lines 155-181)
        for the entry `filename`. */
    method ShouldUnpackPath(filename: string, relativePath: string, unpack: string, unpackDir: string)
      returns (r: Result<bool>)
      modifies this
      ensures metadata == old(metadata) && files == old(files) && links == old(links) && inserted == old(inserted)
      ensures match ShouldUnpack(env.matcher, env.cwd, filename, relativePath, unpack, unpackDir, old(unpackDirs))
        case Err(e) => r == Err(e) && unpackDirs == old(unpackDirs)
        case Ok(d) => r == Ok(d.unpack) && unpackDirs == d.unpackDirs
    {
      var shouldUnpack := false;
      if unpack != "" {
        var matched := FilePatternMatch(env.matcher, filename, unpack);
        if matched.Err? {
          return Err(matched.error);
        }
        shouldUnpack := matched.value;
      }
      if !shouldUnpack && unpackDir != "" {
        r := IsUnpackedDir(relativePath, unpackDir);
        return;
      }
      r := Ok(shouldUnpack);
    }

    /** `handleFile(filename)` (lines 145-215). */
    method HandleFile(filename: string) returns (err: Option<Error>)
      modifies this
      ensures Outcome(State(), err) == Handle(env, old(State()), filename)
    {
      if filename !in metadata {
        var fileType := env.probe(filename);
        if fileType.Threw? {
          return Some(IoFailure(fileType.message));
        }
        if fileType.value.None? {
          return Some(UnknownFileType(filename));
        }
        metadata := metadata[filename := fileType.value.value];
      }
      var t := metadata[filename];
      var decision := ShouldUnpackPath(filename, TestedPath(env, filename, t), TestedPattern(env, t), env.options.unpackDir);
      if decision.Err? {
        return Some(decision.error);
      }
      var shouldUnpack := decision.value;
      match t {
        case Directory =>
          inserted := inserted + [Insertion(Directory, filename, shouldUnpack)];
        case File =>
          files := files + [Record(filename, shouldUnpack)];
          inserted := inserted + [Insertion(File, filename, shouldUnpack)];
        case Link =>
          links := links + [Record(filename, shouldUnpack)];
          inserted := inserted + [Insertion(Link, filename, shouldUnpack)];
      }
      return None;
    }

    /** The `next` driver (lines 221-232): shift names off a copy of the list
        and handle them one at a time. */
    method InsertAll(names: seq<string>) returns (err: Option<Error>)
      modifies this
      ensures Outcome(State(), err) == HandleAll(HandlerOf(env), old(State()), names)
    {
      var queue := names;
      while queue != [] && queue[0] != ""
        invariant HandleAll(HandlerOf(env), State(), queue) == HandleAll(HandlerOf(env), old(State()), names)
        decreases |queue|
      {
        var name := queue[0];
        queue := queue[1..];
        err := HandleFile(name);
        if err.Some? {
          return err;
        }
      }
      return None;
    }
  }

  /** `path.normalize` applied to every filename (lines 89-91). */
  function NormalizeAll(filenames: seq<string>): (r: seq<string>)
    ensures |r| == |filenames|
    ensures forall i :: 0 <= i < |r| ==> r[i] == Normalize(filenames[i])
  {
    seq(|filenames|, i requires 0 <= i < |filenames| => Normalize(filenames[i]))
  }

  /** What `createPackageFromFiles` (lines 79-232) does before the archive is
      written: normalise, order, then handle every name.  The result is the
      closures' final state and the exception the insertion ended with. */
  method CreatePackageFromFiles(src: string, cwd: string, filenames: seq<string>,
                                metadata: map<string, FileType>, options: PackOptions,
                                matcher: Matcher, probe: string -> Attempt<Option<FileType>>,
                                readFile: string -> Attempt<string>)
    returns (st: PackState, err: Option<Error>)
    ensures var env := Env(Normalize(src), cwd, options, matcher, probe);
            var names := NormalizeAll(filenames);
            var start := PackState(metadata, [], [], [], []);
      && (options.ordering == "" ==> Outcome(st, err) == HandleAll(HandlerOf(env), start, names))
      && (options.ordering != "" && readFile(options.ordering).Threw? ==>
            st == start && err == Some(IoFailure(readFile(options.ordering).message)))
      && (options.ordering != "" && readFile(options.ordering).Succeeded? ==>
            var ordering := Expansion(Normalize(src), OrderingLines(readFile(options.ordering).value));
            Outcome(st, err) == HandleAll(HandlerOf(env), start, Dedup(Keep(ordering, names)) + Dedup(Drop(names, ordering))))
  {
    var source := Normalize(src);
    var names := NormalizeAll(filenames);
    var packer := new Packer(Env(source, cwd, options, matcher, probe), metadata);
    var sorted := SortFilenames(source, names, options.ordering, readFile);
    if sorted.Err? {
      return packer.State(), Some(sorted.error);
    }
    err := packer.InsertAll(sorted.value);
    st := packer.State();
  }

  /** Normalised names are never empty, so the driver reaches every one of
      them unless a call throws. */
  lemma NormalizedAllHandled(env: Env, st: PackState, filenames: seq<string>)
    requires Consistent(st)
    ensures var o := HandleAll(HandlerOf(env), st, NormalizeAll(filenames));
      o.error.None? ==> |o.state.inserted| == |st.inserted| + |filenames|
  {
    HandlerWellBehaved(env);
    HandleAllInOrder(HandlerOf(env), st, NormalizeAll(filenames));
  }

  // ---------------------------------------------------------------------------
  // createPackageFromStreams

  /** An element of the `streams` argument (lines 235-261); the stream
      generator and the rest of `stat` are not modelled. */
  datatype StreamEntry =
    | StreamDirectory(path: string, unpacked: bool)
    | StreamFile(path: string, unpacked: bool, mode: int)
    | StreamLink(path: string, unpacked: bool, mode: int, symlink: string)

  /** `{ filename, link, mode, unpack }`, as pushed to `files` and `links`. */
  datatype StreamRecord = StreamRecord(filename: string, link: Option<string>, mode: int, unpack: bool)

  datatype StreamState = StreamState(files: seq<StreamRecord>, links: seq<StreamRecord>, inserted: seq<Insertion>)

  /** `handleFile(stream)` of lines 277-314: the path is normalised and the
      entry recorded with its own unpack flag. */
  function StreamStep(st: StreamState, e: StreamEntry): StreamState {
    var filename := Normalize(e.path);
    match e
      case StreamDirectory(_, unpacked) =>
        st.(inserted := st.inserted + [Insertion(Directory, filename, unpacked)])
      case StreamFile(_, unpacked, mode) =>
        st.(files := st.files + [StreamRecord(filename, None, mode, unpacked)],
            inserted := st.inserted + [Insertion(File, filename, unpacked)])
      case StreamLink(_, unpacked, mode, symlink) =>
        st.(links := st.links + [StreamRecord(filename, Some(symlink), mode, unpacked)],
            inserted := st.inserted + [Insertion(Link, filename, unpacked)])
  }

  /** The `next` recursion of lines 323-333 over all streams, in order. */
  function StreamAll(streams: seq<StreamEntry>): StreamState
    decreases |streams|
  {
    if streams == [] then StreamState([], [], [])
    else StreamStep(StreamAll(streams[..|streams| - 1]), streams[|streams| - 1])
  }

  /** The insertion loop of `createPackageFromStreams`. */
  method PackStreams(streams: seq<StreamEntry>) returns (st: StreamState)
    ensures st == StreamAll(streams)
  {
    st := StreamState([], [], []);
    var streamQueue := streams;
    ghost var done := 0;
    while streamQueue != []
      invariant 0 <= done <= |streams|
      invariant streamQueue == streams[done..]
      invariant st == StreamAll(streams[..done])
      decreases |streamQueue|
    {
      var stream := streamQueue[0];
      streamQueue := streamQueue[1..];
      assert streams[..done + 1][..done] == streams[..done];
      st := StreamStep(st, stream);
      done := done + 1;
    }
    assert streams[..done] == streams;
  }

  /** The `Filesystem` call a stream makes. */
  function StreamKind(e: StreamEntry): FileType {
    match e
      case StreamDirectory(_, _) => Directory
      case StreamFile(_, _, _) => File
      case StreamLink(_, _, _, _) => Link
  }

  /** The record a file or link stream pushes: its normalised path, no link
      for a file and its `symlink` for a link, its mode and its own flag. */
  function StreamRecordOf(e: StreamEntry): StreamRecord
    requires !e.StreamDirectory?
  {
    StreamRecord(Normalize(e.path), if e.StreamLink? then Some(e.symlink) else None, e.mode, e.unpacked)
  }

  /** The records of the file streams among `streams`, in order. */
  function FileStreams(streams: seq<StreamEntry>): seq<StreamRecord>
    decreases |streams|
  {
    if streams == [] then []
    else
      var last := streams[|streams| - 1];
      FileStreams(streams[..|streams| - 1]) + (if last.StreamFile? then [StreamRecordOf(last)] else [])
  }

  /** The records of the link streams among `streams`, in order. */
  function LinkStreams(streams: seq<StreamEntry>): seq<StreamRecord>
    decreases |streams|
  {
    if streams == [] then []
    else
      var last := streams[|streams| - 1];
      LinkStreams(streams[..|streams| - 1]) + (if last.StreamLink? then [StreamRecordOf(last)] else [])
  }

  /** Every stream is inserted once, in order, with the call its type asks
      for, under its normalised path and with its own unpack flag; `files`
      and `links` hold exactly the file and the link streams, in order. */
  lemma {:induction false} StreamsInOrder(streams: seq<StreamEntry>)
    ensures var st := StreamAll(streams);
      && |st.inserted| == |streams|
      && (forall i :: 0 <= i < |streams| ==>
            st.inserted[i] == Insertion(StreamKind(streams[i]), Normalize(streams[i].path), streams[i].unpacked))
      && st.files == FileStreams(streams)
      && st.links == LinkStreams(streams)
    decreases |streams|
  {
    if streams != [] {
      var init := streams[..|streams| - 1];
      StreamsInOrder(init);
      forall i | 0 <= i < |init| ensures streams[i] == init[i] {}
    }
  }
}
