/** `extractAll` and `extractFile` (src/asar.ts:357-423): every entry of the
    archive is recreated under `dest` after two escape tests, per-file failures
    are collected and raised together, and anything else aborts at once.  The
    archive and the file system are parameters; what extraction does to the
    disk is the log of the calls it makes. */
module Extract {
  import opened Base
  import opened Paths

  /** What the archive's `getFile` reports, as far as extraction looks at it. */
  datatype Entry = DirectoryEntry | FileEntry(executable: bool) | LinkEntry(link: string)

  /** The archive: its listing (full paths, each with a leading '/'), the lookup
      `getFile(filename, followLinks)` and the read of a file's contents. */
  datatype Archive = Archive(
    listing: seq<string>,
    getFile: (string, bool) -> Attempt<Entry>,
    readFile: (string, Entry) -> Attempt<seq<bv8>>)

  /** A call into the file system. */
  datatype Call =
    | MakeDirs(path: string)                      // mkdirpSync
    | Unlink(path: string)                        // unlinkSync
    | Symlink(target: string, path: string)       // symlinkSync(target, path)
    | WriteFile(path: string, content: seq<bv8>)  // writeFileSync
    | Chmod(path: string, mode: string)           // chmodSync

  /** What a file-system call did. */
  datatype Status = Done | Failed(message: string)

  /** The file system: the outcome of a call, given the calls made before it. */
  type Disk = (seq<Call>, Call) -> Status

  /** The mode given to executable files (line 410). */
  const ExecutableMode := "755"

  /** One extraction: the archive, the disk, the working directory `path`
      resolves against, the destination, and whether lookups follow links. */
  datatype Job = Job(archive: Archive, disk: Disk, cwd: string, dest: string, followLinks: bool)

  /** The loop's state: the calls made so far and the collected failures. */
  datatype Progress = Progress(calls: seq<Call>, errors: seq<string>)

  /** The loop's state after an entry, and the error that ends the loop, if any. */
  datatype EntryOutcome = EntryOutcome(progress: Progress, fatal: Option<Error>)

  /** What extraction did: the calls it made and the error it throws, if any. */
  datatype Extracted = Extracted(calls: seq<Call>, error: Option<Error>)

  /** The path a call acts on. */
  function CallPath(c: Call): string {
    match c
    case MakeDirs(p) => p
    case Unlink(p) => p
    case Symlink(_, p) => p
    case WriteFile(p, _) => p
    case Chmod(p, _) => p
  }

  /** `fullPath.substr(1)`: the name without its leading separator. */
  function Filename(fullPath: string): (r: string)
    ensures fullPath != [] ==> [fullPath[0]] + r == fullPath
    ensures fullPath == [] ==> r == []
  {
    if fullPath == [] then [] else fullPath[1..]
  }

  /** The directory a link's target lies in (line 390). */
  function LinkSource(dest: string, link: string): string {
    Dirname(Join(dest, link))
  }

  /** What the symlink at `destFilename` is made to point to (lines 391-392 and 397). */
  function LinkTarget(cwd: string, dest: string, destFilename: string, link: string): string {
    Join(Relative(cwd, Dirname(destFilename), LinkSource(dest, link)), Basename(link))
  }

  // ---------------------------------------------------------------------------
  // The loop as functions

  /** A call whose exception propagates out of `extractAll`. */
  function Propagating(disk: Disk, pr: Progress, c: Call): (o: EntryOutcome)
    ensures o.progress == Progress(pr.calls + [c], pr.errors)
    ensures o.fatal.Some? <==> disk(pr.calls, c).Failed?
    ensures o.fatal.Some? ==> o.fatal.value == IoFailure(disk(pr.calls, c).message)
  {
    match disk(pr.calls, c)
    case Done => EntryOutcome(Progress(pr.calls + [c], pr.errors), None)
    case Failed(m) => EntryOutcome(Progress(pr.calls + [c], pr.errors), Some(IoFailure(m)))
  }

  /** The `try` block of lines 406-414: read the contents, write them, make the
      file executable when the entry says so; the first failure is collected
      and ends the block. */
  function ExtractContents(job: Job, pr: Progress, filename: string, file: Entry, destFilename: string): Progress
    requires file.FileEntry?
  {
    match job.archive.readFile(filename, file)
    case Threw(m) => Progress(pr.calls, pr.errors + [m])
    case Succeeded(content) =>
      var w := WriteFile(destFilename, content);
      var calls := pr.calls + [w];
      match job.disk(pr.calls, w)
      case Failed(m) => Progress(calls, pr.errors + [m])
      case Done =>
        if !file.executable then Progress(calls, pr.errors)
        else
          var c := Chmod(destFilename, ExecutableMode);
          match job.disk(calls, c)
          case Failed(m) => Progress(calls + [c], pr.errors + [m])
          case Done => Progress(calls + [c], pr.errors)
  }

  /** The link branch of lines 388-403: unlink whatever is at the
      destination (a failure there is ignored), test the link's source
      directory, then create the symlink. */
  function ExtractLink(job: Job, pr: Progress, fullPath: string, destFilename: string, link: string): EntryOutcome {
    var unlinked := Progress(pr.calls + [Unlink(destFilename)], pr.errors);
    var linkSrcPath := LinkSource(job.dest, link);
    if Escapes(job.cwd, job.dest, linkSrcPath) then
      EntryOutcome(unlinked, Some(LinksOutOfPackage(fullPath, link, linkSrcPath)))
    else
      Propagating(job.disk, unlinked, Symlink(LinkTarget(job.cwd, job.dest, destFilename, link), destFilename))
  }

  /** One pass of the loop body, lines 378-415. */
  function EntryStep(job: Job, pr: Progress, fullPath: string): EntryOutcome {
    var filename := Filename(fullPath);
    var destFilename := Join(job.dest, filename);
    match job.archive.getFile(filename, job.followLinks)
    case Threw(_) => EntryOutcome(pr, Some(LookupFailed(filename)))
    case Succeeded(file) =>
      if Escapes(job.cwd, job.dest, destFilename) then
        EntryOutcome(pr, Some(WritesOutOfPackage(fullPath, destFilename)))
      else
        match file
        case DirectoryEntry => Propagating(job.disk, pr, MakeDirs(destFilename))
        case LinkEntry(link) => ExtractLink(job, pr, fullPath, destFilename, link)
        case FileEntry(_) => EntryOutcome(ExtractContents(job, pr, filename, file, destFilename), None)
  }

  /** What the loop body does with one listed name. */
  type Stepper = (Progress, string) -> EntryOutcome

  /** The loop body of one extraction. */
  function StepOf(job: Job): Stepper {
    (pr: Progress, fullPath: string) => EntryStep(job, pr, fullPath)
  }

  /** The loop of lines 377-416 over `names`, from `pr`: each name in turn,
      until one throws. */
  function ExtractEntries(step: Stepper, pr: Progress, names: seq<string>): EntryOutcome
    decreases |names|
  {
    if names == [] then EntryOutcome(pr, None)
    else
      var o := step(pr, names[0]);
      if o.fatal.Some? then o else ExtractEntries(step, o.progress, names[1..])
  }

  /** `extractAll`, lines 366-423: create `dest`, run the loop over the
      listing, then raise the collected failures together. */
  function Extraction(job: Job): Extracted {
    var mk := MakeDirs(job.dest);
    match job.disk([], mk)
    case Failed(m) => Extracted([mk], Some(IoFailure(m)))
    case Done =>
      var o := ExtractEntries(StepOf(job), Progress([mk], []), job.archive.listing);
      if o.fatal.Some? then Extracted(o.progress.calls, o.fatal)
      else if o.progress.errors != [] then Extracted(o.progress.calls, Some(ExtractionFailed(o.progress.errors)))
      else Extracted(o.progress.calls, None)
  }

  // ---------------------------------------------------------------------------
  // The loop as statements

  /** One pass of the loop body. */
  method ExtractEntry(job: Job, calls0: seq<Call>, errors0: seq<string>, fullPath: string)
    returns (calls: seq<Call>, errors: seq<string>, fatal: Option<Error>)
    ensures EntryOutcome(Progress(calls, errors), fatal) == EntryStep(job, Progress(calls0, errors0), fullPath)
  {
    calls, errors, fatal := calls0, errors0, None;
    var filename := Filename(fullPath);
    var destFilename := Join(job.dest, filename);
    var lookup := job.archive.getFile(filename, job.followLinks);
    if lookup.Threw? {
      fatal := Some(LookupFailed(filename));
      return;
    }
    var file := lookup.value;
    if Escapes(job.cwd, job.dest, destFilename) {
      fatal := Some(WritesOutOfPackage(fullPath, destFilename));
      return;
    }
    match file {
      case DirectoryEntry =>
        var mk := MakeDirs(destFilename);
        var status := job.disk(calls, mk);
        calls := calls + [mk];
        if status.Failed? {
          fatal := Some(IoFailure(status.message));
        }
      case LinkEntry(link) =>
        calls, errors, fatal := CreateLink(job, calls, errors, fullPath, destFilename, link);
      case FileEntry(_) =>
        calls, errors := WriteContents(job, calls, errors, filename, file, destFilename);
    }
  }

  /** The link branch, as statements. */
  method CreateLink(job: Job, calls0: seq<Call>, errors0: seq<string>, fullPath: string,
                    destFilename: string, link: string)
    returns (calls: seq<Call>, errors: seq<string>, fatal: Option<Error>)
    ensures EntryOutcome(Progress(calls, errors), fatal)
         == ExtractLink(job, Progress(calls0, errors0), fullPath, destFilename, link)
  {
    errors, fatal := errors0, None;
    var linkSrcPath := LinkSource(job.dest, link);
    var linkDestPath := Dirname(destFilename);
    var relativePath := Relative(job.cwd, linkDestPath, linkSrcPath);
    calls := calls0 + [Unlink(destFilename)];
    var linkTo := Join(relativePath, Basename(link));
    if Escapes(job.cwd, job.dest, linkSrcPath) {
      fatal := Some(LinksOutOfPackage(fullPath, link, linkSrcPath));
      return;
    }
    var ln := Symlink(linkTo, destFilename);
    var status := job.disk(calls, ln);
    calls := calls + [ln];
    if status.Failed? {
      fatal := Some(IoFailure(status.message));
    }
  }

  /** The `try` block, as statements. */
  method WriteContents(job: Job, calls0: seq<Call>, errors0: seq<string>, filename: string,
                       file: Entry, destFilename: string)
    returns (calls: seq<Call>, errors: seq<string>)
    requires file.FileEntry?
    ensures Progress(calls, errors) == ExtractContents(job, Progress(calls0, errors0), filename, file, destFilename)
  {
    calls, errors := calls0, errors0;
    var read := job.archive.readFile(filename, file);
    if read.Threw? {
      errors := errors + [read.message];
      return;
    }
    var w := WriteFile(destFilename, read.value);
    var status := job.disk(calls, w);
    calls := calls + [w];
    if status.Failed? {
      errors := errors + [status.message];
      return;
    }
    if file.executable {
      var c := Chmod(destFilename, ExecutableMode);
      status := job.disk(calls, c);
      calls := calls + [c];
      if status.Failed? {
        errors := errors + [status.message];
      }
    }
  }

  /** `extractAll`: the calls made on the disk and the error thrown, if any. */
  method ExtractAll(job: Job) returns (calls: seq<Call>, err: Option<Error>)
    ensures Extracted(calls, err) == Extraction(job)
  {
    var mk := MakeDirs(job.dest);
    var status := job.disk([], mk);
    calls := [mk];
    if status.Failed? {
      err := Some(IoFailure(status.message));
      return;
    }
    var errors: seq<string> := [];
    var filenames := job.archive.listing;
    var i := 0;
    while i < |filenames|
      invariant 0 <= i <= |filenames|
      invariant ExtractEntries(StepOf(job), Progress(calls, errors), filenames[i..])
             == ExtractEntries(StepOf(job), Progress([mk], []), filenames)
    {
      var fatal;
      calls, errors, fatal := ExtractEntry(job, calls, errors, filenames[i]);
      if fatal.Some? {
        err := fatal;
        return;
      }
      i := i + 1;
    }
    if errors != [] {
      err := Some(ExtractionFailed(errors));
    } else {
      err := None;
    }
  }

  // ---------------------------------------------------------------------------
  // What the guards ensure

  /** No call in `calls` acts on a path that fails the escape test. */
  predicate Confined(job: Job, calls: seq<Call>) {
    forall i :: 0 <= i < |calls| ==> !Escapes(job.cwd, job.dest, CallPath(calls[i]))
  }

  /** `after` is `before` followed by calls on `path` only. */
  predicate AppendsOn(before: seq<Call>, after: seq<Call>, path: string) {
    IsPrefix(before, after) && forall k :: |before| <= k < |after| ==> CallPath(after[k]) == path
  }

  /** An entry only appends calls, all on its own destination, and only after
      that destination has passed the escape test. */
  lemma EntryStepConfined(job: Job, pr: Progress, fullPath: string)
    ensures var o := EntryStep(job, pr, fullPath);
      var destFilename := Join(job.dest, Filename(fullPath));
      && AppendsOn(pr.calls, o.progress.calls, destFilename)
      && (|o.progress.calls| > |pr.calls| ==> !Escapes(job.cwd, job.dest, destFilename))
  {
    var filename := Filename(fullPath);
    var destFilename := Join(job.dest, filename);
    var lookup := job.archive.getFile(filename, job.followLinks);
    if lookup.Threw? {
      LookupFailureAborts(job, pr, fullPath);
      assert pr.calls[..|pr.calls|] == pr.calls;
    } else if Escapes(job.cwd, job.dest, destFilename) {
      EscapeAborts(job, pr, fullPath);
      assert pr.calls[..|pr.calls|] == pr.calls;
    } else {
      match lookup.value
      case DirectoryEntry =>
        DirectoryStep(job, pr, fullPath);
        AppendsOnSnoc(pr.calls, MakeDirs(destFilename));
      case LinkEntry(link) =>
        var unlinked := pr.calls + [Unlink(destFilename)];
        AppendsOnSnoc(pr.calls, Unlink(destFilename));
        if Escapes(job.cwd, job.dest, LinkSource(job.dest, link)) {
          LinkEscapeAborts(job, pr, fullPath, link);
        } else {
          LinkStep(job, pr, fullPath, link);
          var ln := Symlink(LinkTarget(job.cwd, job.dest, destFilename, link), destFilename);
          AppendsOnSnoc(unlinked, ln);
          AppendsOnTrans(pr.calls, unlinked, unlinked + [ln], destFilename);
        }
      case FileEntry(_) =>
        FileStep(job, pr, fullPath);
        ContentsOnDestination(job, pr, filename, lookup.value, destFilename);
    }
  }

  /** A lookup that throws aborts at once. */
  lemma LookupFailureAborts(job: Job, pr: Progress, fullPath: string)
    requires job.archive.getFile(Filename(fullPath), job.followLinks).Threw?
    ensures EntryStep(job, pr, fullPath) == EntryOutcome(pr, Some(LookupFailed(Filename(fullPath))))
  {
  }

  /** A directory that passes the escape test is created, and a failure to do
      so aborts. */
  lemma DirectoryStep(job: Job, pr: Progress, fullPath: string)
    requires job.archive.getFile(Filename(fullPath), job.followLinks) == Succeeded(DirectoryEntry)
    requires !Escapes(job.cwd, job.dest, Join(job.dest, Filename(fullPath)))
    ensures EntryStep(job, pr, fullPath) == Propagating(job.disk, pr, MakeDirs(Join(job.dest, Filename(fullPath))))
  {
  }

  /** A regular file that passes the escape test has its contents extracted,
      and whatever fails there does not abort. */
  lemma FileStep(job: Job, pr: Progress, fullPath: string)
    requires job.archive.getFile(Filename(fullPath), job.followLinks).Succeeded?
    requires job.archive.getFile(Filename(fullPath), job.followLinks).value.FileEntry?
    requires !Escapes(job.cwd, job.dest, Join(job.dest, Filename(fullPath)))
    ensures EntryStep(job, pr, fullPath)
         == EntryOutcome(ExtractContents(job, pr, Filename(fullPath), job.archive.getFile(Filename(fullPath), job.followLinks).value,
                                         Join(job.dest, Filename(fullPath))), None)
  {
  }

  /** Extracting a file's contents only appends calls on its destination. */
  lemma ContentsOnDestination(job: Job, pr: Progress, filename: string, file: Entry, destFilename: string)
    requires file.FileEntry?
    ensures var p := ExtractContents(job, pr, filename, file, destFilename);
      && AppendsOn(pr.calls, p.calls, destFilename)
      && IsPrefix(pr.errors, p.errors)
      && |p.errors| <= |pr.errors| + 1
  {
    match job.archive.readFile(filename, file)
    case Threw(_) =>
      assert pr.calls[..|pr.calls|] == pr.calls;
    case Succeeded(content) =>
      var w := WriteFile(destFilename, content);
      var c := Chmod(destFilename, ExecutableMode);
      AppendsOnSnoc(pr.calls, w);
      AppendsOnSnoc(pr.calls + [w], c);
      AppendsOnTrans(pr.calls, pr.calls + [w], pr.calls + [w] + [c], destFilename);
  }

  lemma AppendsOnSnoc(before: seq<Call>, c: Call)
    ensures AppendsOn(before, before + [c], CallPath(c))
  {
    assert (before + [c])[..|before|] == before;
  }

  lemma AppendsOnTrans(a: seq<Call>, b: seq<Call>, c: seq<Call>, path: string)
    requires AppendsOn(a, b, path) && AppendsOn(b, c, path)
    ensures AppendsOn(a, c, path)
  {
    assert c[..|a|] == c[..|b|][..|a|];
  }

  // ---------------------------------------------------------------------------
  // Which failures are collected

  /** The message a call's outcome adds to the collection, if it failed: only
      the write and the chmod of the `try` block are collected.  A failed
      mkdirp or symlink propagates instead, and a failed unlink is ignored. */
  function CallError(c: Call, s: Status): seq<string> {
    if c.WriteFile? || c.Chmod? then
      match s case Failed(m) => [m] case Done => []
    else []
  }

  /** The messages of the writes and chmods in `calls` that failed on `disk`,
      in the order the calls were made. */
  function Failures(disk: Disk, calls: seq<Call>): seq<string>
    decreases |calls|
  {
    if calls == [] then []
    else
      var k := |calls| - 1;
      Failures(disk, calls[..k]) + CallError(calls[k], disk(calls[..k], calls[k]))
  }

  lemma FailuresSnoc(disk: Disk, calls: seq<Call>, c: Call)
    ensures Failures(disk, calls + [c]) == Failures(disk, calls) + CallError(c, disk(calls, c))
  {
    assert (calls + [c])[..|calls|] == calls;
  }

  /** The message of a read of `file` that throws. */
  function ReadError(archive: Archive, filename: string, file: Entry): seq<string> {
    match archive.readFile(filename, file) case Threw(m) => [m] case Succeeded(_) => []
  }

  /** The message of a read that throws, for an entry that is a regular file. */
  function ReadFailure(job: Job, fullPath: string): seq<string> {
    match job.archive.getFile(Filename(fullPath), job.followLinks)
    case Succeeded(file) => if file.FileEntry? then ReadError(job.archive, Filename(fullPath), file) else []
    case Threw(_) => []
  }

  /** The read failures of the regular files among `names`, in order. */
  function ReadFailures(job: Job, names: seq<string>): seq<string>
    decreases |names|
  {
    if names == [] then [] else ReadFailure(job, names[0]) + ReadFailures(job, names[1..])
  }

  lemma ReadFailuresCons(job: Job, names: seq<string>)
    requires names != []
    ensures ReadFailures(job, names) == ReadFailure(job, names[0]) + ReadFailures(job, names[1..])
  {
  }

  lemma ConcatAssoc(a: seq<string>, b: seq<string>, c: seq<string>)
    ensures a + b + c == a + (b + c)
  {
  }

  /** The try block collects exactly the failure that ends it: the message of
      a read that throws, or of the write or chmod that fails; nothing when
      all three succeed.  At most one message is collected. */
  lemma ContentsErrors(job: Job, pr: Progress, filename: string, file: Entry, destFilename: string)
    requires file.FileEntry?
    ensures var p := ExtractContents(job, pr, filename, file, destFilename);
      var before := Failures(job.disk, pr.calls);
      && IsPrefix(before, Failures(job.disk, p.calls))
      && p.errors == pr.errors + ReadError(job.archive, filename, file) + Failures(job.disk, p.calls)[|before|..]
      && |p.errors| <= |pr.errors| + 1
  {
    var before := Failures(job.disk, pr.calls);
    var p := ExtractContents(job, pr, filename, file, destFilename);
    match job.archive.readFile(filename, file)
    case Threw(m) =>
      assert p == Progress(pr.calls, pr.errors + [m]);
      assert before[..|before|] == before && before[|before|..] == [];
    case Succeeded(content) =>
      assert ReadError(job.archive, filename, file) == [];
      var w := WriteFile(destFilename, content);
      var s1 := job.disk(pr.calls, w);
      CollectedCall(job.disk, pr.calls, w);
      if s1.Failed? {
        assert p == Progress(pr.calls + [w], pr.errors + [s1.message]);
      } else if !file.executable {
        assert p == Progress(pr.calls + [w], pr.errors);
      } else {
        var c := Chmod(destFilename, ExecutableMode);
        CollectedCall(job.disk, pr.calls + [w], c);
        assert Failures(job.disk, pr.calls + [w]) == before;
        assert p == Progress(pr.calls + [w] + [c], pr.errors + CallError(c, job.disk(pr.calls + [w], c)));
      }
  }

  /** A write or chmod adds its own failure, if any, to the failed calls. */
  lemma CollectedCall(disk: Disk, calls: seq<Call>, c: Call)
    requires c.WriteFile? || c.Chmod?
    ensures var before := Failures(disk, calls); var after := Failures(disk, calls + [c]);
      && IsPrefix(before, after)
      && after[|before|..] == CallError(c, disk(calls, c))
      && CallError(c, disk(calls, c)) == (if disk(calls, c).Failed? then [disk(calls, c).message] else [])
  {
    FailuresSnoc(disk, calls, c);
    var before := Failures(disk, calls);
    var f := before + CallError(c, disk(calls, c));
    assert f[..|before|] == before && f[|before|..] == CallError(c, disk(calls, c));
  }

  /** `ms` is `a` and `b` merged, each keeping its own order. */
  predicate Interleaving(ms: seq<string>, a: seq<string>, b: seq<string>)
    decreases |ms|
  {
    if ms == [] then a == [] && b == []
    else
      var m := ms[|ms| - 1];
      || (a != [] && a[|a| - 1] == m && Interleaving(ms[..|ms| - 1], a[..|a| - 1], b))
      || (b != [] && b[|b| - 1] == m && Interleaving(ms[..|ms| - 1], a, b[..|b| - 1]))
  }

  lemma InterleavingLeft(ms: seq<string>, a: seq<string>, b: seq<string>, m: string)
    requires Interleaving(ms, a, b)
    ensures Interleaving(ms + [m], a + [m], b)
  {
    assert (ms + [m])[..|ms|] == ms && (a + [m])[..|a|] == a;
  }

  lemma InterleavingRight(ms: seq<string>, a: seq<string>, b: seq<string>, m: string)
    requires Interleaving(ms, a, b)
    ensures Interleaving(ms + [m], a, b + [m])
  {
    assert (ms + [m])[..|ms|] == ms && (b + [m])[..|b|] == b;
  }

  /** Appending at most one message to either side keeps an interleaving. */
  lemma InterleavingSnoc(ms: seq<string>, a: seq<string>, b: seq<string>, x: seq<string>, y: seq<string>)
    requires Interleaving(ms, a, b) && |x| + |y| <= 1
    ensures Interleaving(ms + x + y, a + x, b + y)
  {
    if x != [] {
      assert x == [x[0]] && ms + x + y == ms + [x[0]] && b + y == b;
      InterleavingLeft(ms, a, b, x[0]);
    } else if y != [] {
      assert y == [y[0]] && ms + x + y == ms + [y[0]] && a + x == a;
      InterleavingRight(ms, a, b, y[0]);
    } else {
      assert ms + x + y == ms && a + x == a && b + y == b;
    }
  }

  lemma {:induction false} InterleavingLength(ms: seq<string>, a: seq<string>, b: seq<string>)
    requires Interleaving(ms, a, b)
    ensures |ms| == |a| + |b|
    decreases |ms|
  {
    if ms != [] {
      var m := ms[|ms| - 1];
      if a != [] && a[|a| - 1] == m && Interleaving(ms[..|ms| - 1], a[..|a| - 1], b) {
        InterleavingLength(ms[..|ms| - 1], a[..|a| - 1], b);
      } else {
        InterleavingLength(ms[..|ms| - 1], a, b[..|b| - 1]);
      }
    }
  }

  /** Merged with nothing, a sequence keeps its order. */
  lemma {:induction false} InterleavingOneSided(ms: seq<string>, a: seq<string>, b: seq<string>)
    requires Interleaving(ms, a, b)
    ensures b == [] ==> ms == a
    ensures a == [] ==> ms == b
    decreases |ms|
  {
    if ms != [] {
      var m := ms[|ms| - 1];
      var front := ms[..|ms| - 1];
      assert ms == front + [m];
      if a != [] && a[|a| - 1] == m && Interleaving(front, a[..|a| - 1], b) {
        InterleavingOneSided(front, a[..|a| - 1], b);
        assert a == a[..|a| - 1] + [m];
      } else {
        InterleavingOneSided(front, a, b[..|b| - 1]);
        assert b == b[..|b| - 1] + [m];
      }
    }
  }

  /** The loop body never makes a call that fails the escape test. */
  ghost predicate StepConfined(job: Job, step: Stepper) {
    forall pr: Progress, fullPath: string ::
      Confined(job, pr.calls) ==> Confined(job, step(pr, fullPath).progress.calls)
  }

  lemma EntryStepKeepsConfined(job: Job, pr: Progress, fullPath: string)
    requires Confined(job, pr.calls)
    ensures Confined(job, EntryStep(job, pr, fullPath).progress.calls)
  {
    var o := EntryStep(job, pr, fullPath);
    EntryStepConfined(job, pr, fullPath);
    forall i | 0 <= i < |o.progress.calls|
      ensures !Escapes(job.cwd, job.dest, CallPath(o.progress.calls[i]))
    {
      if i < |pr.calls| {
        assert o.progress.calls[i] == o.progress.calls[..|pr.calls|][i];
      } else {
        assert CallPath(o.progress.calls[i]) == Join(job.dest, Filename(fullPath));
      }
    }
  }

  lemma StepOfConfined(job: Job)
    ensures StepConfined(job, StepOf(job))
  {
    forall pr: Progress, fullPath: string | Confined(job, pr.calls)
      ensures Confined(job, StepOf(job)(pr, fullPath).progress.calls)
    {
      EntryStepKeepsConfined(job, pr, fullPath);
    }
  }

  lemma {:induction false} ExtractEntriesConfined(job: Job, step: Stepper, pr: Progress, names: seq<string>)
    requires StepConfined(job, step) && Confined(job, pr.calls)
    ensures Confined(job, ExtractEntries(step, pr, names).progress.calls)
    decreases |names|
  {
    if names != [] {
      var o := step(pr, names[0]);
      assert Confined(job, o.progress.calls);
      if o.fatal.None? {
        ExtractEntriesConfined(job, step, o.progress, names[1..]);
      }
    }
  }

  /** No call extraction makes acts on a path that fails the escape test. */
  lemma ExtractionConfined(job: Job)
    ensures Confined(job, Extraction(job).calls)
  {
    var mk := MakeDirs(job.dest);
    RelativeEmpty(job.cwd, job.dest, job.dest);
    assert Confined(job, [mk]);
    StepOfConfined(job);
    ExtractEntriesConfined(job, StepOf(job), Progress([mk], []), job.archive.listing);
  }

  /** Every call extraction makes, whatever the archive holds and whichever
      call fails, acts on `dest` itself or on a path below it. */
  lemma ExtractionInside(job: Job)
    ensures var calls := Extraction(job).calls;
      forall i :: 0 <= i < |calls| ==> Inside(job.cwd, job.dest, CallPath(calls[i]))
  {
    ExtractionConfined(job);
    var calls := Extraction(job).calls;
    forall i | 0 <= i < |calls| ensures Inside(job.cwd, job.dest, CallPath(calls[i])) {
      NotEscapesInside(job.cwd, job.dest, CallPath(calls[i]));
    }
  }

  /** The loop over `a + b` is the loop over `a`, then, unless it was aborted,
      the loop over `b`. */
  lemma {:induction false} ExtractEntriesAppend(step: Stepper, pr: Progress, a: seq<string>, b: seq<string>)
    ensures var o := ExtractEntries(step, pr, a);
      ExtractEntries(step, pr, a + b) == if o.fatal.Some? then o else ExtractEntries(step, o.progress, b)
    decreases |a|
  {
    if a != [] {
      assert (a + b)[0] == a[0] && (a + b)[1..] == a[1..] + b;
      var o := step(pr, a[0]);
      if o.fatal.None? {
        ExtractEntriesAppend(step, o.progress, a[1..], b);
      }
    } else {
      assert a + b == b;
    }
  }

  /** The first entry that throws ends extraction: it is the last one looked
      at, and no entry after it is extracted. */
  lemma FatalStops(step: Stepper, pr: Progress, names: seq<string>, i: nat)
    requires i < |names|
    requires ExtractEntries(step, pr, names[..i]).fatal.None?
    requires step(ExtractEntries(step, pr, names[..i]).progress, names[i]).fatal.Some?
    ensures ExtractEntries(step, pr, names) == step(ExtractEntries(step, pr, names[..i]).progress, names[i])
  {
    ExtractEntriesAppend(step, pr, names[..i], names[i..]);
    assert names[..i] + names[i..] == names;
    assert names[i..][0] == names[i];
  }

  /** A destination that fails the escape test aborts at once, before any call
      is made for it. */
  lemma EscapeAborts(job: Job, pr: Progress, fullPath: string)
    requires job.archive.getFile(Filename(fullPath), job.followLinks).Succeeded?
    requires Escapes(job.cwd, job.dest, Join(job.dest, Filename(fullPath)))
    ensures EntryStep(job, pr, fullPath)
         == EntryOutcome(pr, Some(WritesOutOfPackage(fullPath, Join(job.dest, Filename(fullPath)))))
  {
  }

  /** A link whose source directory fails the escape test aborts once the old
      file has been unlinked, before the link is made. */
  lemma LinkEscapeAborts(job: Job, pr: Progress, fullPath: string, link: string)
    requires job.archive.getFile(Filename(fullPath), job.followLinks) == Succeeded(LinkEntry(link))
    requires !Escapes(job.cwd, job.dest, Join(job.dest, Filename(fullPath)))
    requires Escapes(job.cwd, job.dest, LinkSource(job.dest, link))
    ensures EntryStep(job, pr, fullPath)
         == EntryOutcome(Progress(pr.calls + [Unlink(Join(job.dest, Filename(fullPath)))], pr.errors),
                         Some(LinksOutOfPackage(fullPath, link, LinkSource(job.dest, link))))
  {
  }

  /** The entry names a regular file whose destination passes the escape test. */
  predicate FileInside(job: Job, fullPath: string) {
    && job.archive.getFile(Filename(fullPath), job.followLinks).Succeeded?
    && job.archive.getFile(Filename(fullPath), job.followLinks).value.FileEntry?
    && !Escapes(job.cwd, job.dest, Join(job.dest, Filename(fullPath)))
  }

  /** A regular file never aborts the loop.  It adds exactly the failure that
      ended its try block to the collection: the message of a read that threw
      or of a write or chmod that failed, or nothing when all succeeded. */
  lemma FileNeverAborts(job: Job, pr: Progress, fullPath: string)
    requires FileInside(job, fullPath)
    ensures var o := EntryStep(job, pr, fullPath);
      var before := Failures(job.disk, pr.calls);
      && o.fatal.None?
      && IsPrefix(before, Failures(job.disk, o.progress.calls))
      && o.progress.errors == pr.errors + ReadFailure(job, fullPath) + Failures(job.disk, o.progress.calls)[|before|..]
      && |o.progress.errors| <= |pr.errors| + 1
      && |ReadFailure(job, fullPath)| + |Failures(job.disk, o.progress.calls)| <= |before| + 1
  {
    var filename := Filename(fullPath);
    FileStep(job, pr, fullPath);
    ContentsErrors(job, pr, filename, job.archive.getFile(filename, job.followLinks).value, Join(job.dest, filename));
  }

  /** The entry names a directory whose destination passes the escape test
      and whose mkdirp succeeds, whatever calls came before it. */
  ghost predicate DirectoryInside(job: Job, fullPath: string) {
    var destFilename := Join(job.dest, Filename(fullPath));
    && job.archive.getFile(Filename(fullPath), job.followLinks) == Succeeded(DirectoryEntry)
    && !Escapes(job.cwd, job.dest, destFilename)
    && forall calls: seq<Call> :: job.disk(calls, MakeDirs(destFilename)).Done?
  }

  /** The entry names a link that passes both escape tests and whose symlink
      succeeds, whatever calls came before it. */
  ghost predicate LinkInside(job: Job, fullPath: string) {
    var destFilename := Join(job.dest, Filename(fullPath));
    var got := job.archive.getFile(Filename(fullPath), job.followLinks);
    && got.Succeeded? && got.value.LinkEntry?
    && !Escapes(job.cwd, job.dest, destFilename)
    && !Escapes(job.cwd, job.dest, LinkSource(job.dest, got.value.link))
    && forall calls: seq<Call> ::
         job.disk(calls, Symlink(LinkTarget(job.cwd, job.dest, destFilename, got.value.link), destFilename)).Done?
  }

  /** The entry does not abort the loop: a regular file inside `dest`, or a
      directory or link inside `dest` whose creation succeeds. */
  ghost predicate Collecting(job: Job, fullPath: string) {
    FileInside(job, fullPath) || DirectoryInside(job, fullPath) || LinkInside(job, fullPath)
  }

  /** A directory that is created adds no message: a mkdirp is not collected. */
  lemma DirectoryAddsNothing(job: Job, pr: Progress, fullPath: string)
    requires DirectoryInside(job, fullPath)
    ensures var o := EntryStep(job, pr, fullPath);
      && o.fatal.None?
      && o.progress.errors == pr.errors
      && Failures(job.disk, o.progress.calls) == Failures(job.disk, pr.calls)
  {
    var mk := MakeDirs(Join(job.dest, Filename(fullPath)));
    assert job.disk(pr.calls, mk).Done?;
    DirectoryStep(job, pr, fullPath);
    FailuresSnoc(job.disk, pr.calls, mk);
  }

  /** A link that is created adds no message: neither the unlink, whose
      failure is ignored, nor the symlink is collected. */
  lemma LinkAddsNothing(job: Job, pr: Progress, fullPath: string)
    requires LinkInside(job, fullPath)
    ensures var o := EntryStep(job, pr, fullPath);
      && o.fatal.None?
      && o.progress.errors == pr.errors
      && Failures(job.disk, o.progress.calls) == Failures(job.disk, pr.calls)
  {
    var destFilename := Join(job.dest, Filename(fullPath));
    var link := job.archive.getFile(Filename(fullPath), job.followLinks).value.link;
    var sl := Symlink(LinkTarget(job.cwd, job.dest, destFilename, link), destFilename);
    assert job.disk(pr.calls + [Unlink(destFilename)], sl).Done?;
    LinkStep(job, pr, fullPath, link);
    SymlinkAddsNothing(job.disk, pr, destFilename, sl);
  }

  /** An unlink and a symlink that succeeds add no collected failure. */
  lemma SymlinkAddsNothing(disk: Disk, pr: Progress, destFilename: string, sl: Call)
    requires sl.Symlink?
    requires disk(pr.calls + [Unlink(destFilename)], sl).Done?
    ensures var o := Propagating(disk, Progress(pr.calls + [Unlink(destFilename)], pr.errors), sl);
      && o.fatal.None?
      && o.progress.errors == pr.errors
      && Failures(disk, o.progress.calls) == Failures(disk, pr.calls)
  {
    var u := Unlink(destFilename);
    var c1 := pr.calls + [u];
    FailuresSnoc(disk, pr.calls, u);
    assert CallError(u, disk(pr.calls, u)) == [];
    FailuresSnoc(disk, c1, sl);
    assert CallError(sl, disk(c1, sl)) == [];
    assert Propagating(disk, Progress(c1, pr.errors), sl) == EntryOutcome(Progress(c1 + [sl], pr.errors), None);
  }

  /** Every entry that does not abort adds exactly its read failure, or else
      the failure of a write or chmod it makes, and at most one message. */
  lemma EntryCollects(job: Job, pr: Progress, fullPath: string)
    requires Collecting(job, fullPath)
    ensures var o := EntryStep(job, pr, fullPath);
      var before := Failures(job.disk, pr.calls);
      && o.fatal.None?
      && IsPrefix(before, Failures(job.disk, o.progress.calls))
      && o.progress.errors == pr.errors + ReadFailure(job, fullPath) + Failures(job.disk, o.progress.calls)[|before|..]
      && |o.progress.errors| <= |pr.errors| + 1
      && |ReadFailure(job, fullPath)| + |Failures(job.disk, o.progress.calls)| <= |before| + 1
  {
    if FileInside(job, fullPath) {
      FileNeverAborts(job, pr, fullPath);
    } else {
      if DirectoryInside(job, fullPath) {
        DirectoryAddsNothing(job, pr, fullPath);
      } else {
        LinkAddsNothing(job, pr, fullPath);
      }
      var before := Failures(job.disk, pr.calls);
      assert ReadFailure(job, fullPath) == [];
      assert before[..|before|] == before && before[|before|..] == [];
    }
  }

  /** The loop body never aborts on `fullPath` and adds at most one message. */
  ghost predicate CollectsOne(step: Stepper, fullPath: string) {
    forall pr: Progress :: var o := step(pr, fullPath);
      o.fatal.None? && IsPrefix(pr.errors, o.progress.errors) && |o.progress.errors| <= |pr.errors| + 1
  }

  /** The loop body on `fullPath` never aborts and collects `lost` or the
      failure of a call it makes, and nothing else. */
  ghost predicate MergesOne(step: Stepper, disk: Disk, fullPath: string, lost: seq<string>) {
    forall pr: Progress :: var o := step(pr, fullPath); var before := Failures(disk, pr.calls);
      && o.fatal.None?
      && IsPrefix(before, Failures(disk, o.progress.calls))
      && o.progress.errors == pr.errors + lost + Failures(disk, o.progress.calls)[|before|..]
      && |lost| + |Failures(disk, o.progress.calls)| <= |before| + 1
  }

  /** Over entries that never abort, the loop runs to the end, collecting at
      most one message per entry. */
  lemma {:induction false} FilesAllReached(step: Stepper, pr: Progress, names: seq<string>)
    requires forall i :: 0 <= i < |names| ==> CollectsOne(step, names[i])
    ensures var o := ExtractEntries(step, pr, names);
      && o.fatal.None?
      && IsPrefix(pr.errors, o.progress.errors)
      && |o.progress.errors| <= |pr.errors| + |names|
    decreases |names|
  {
    if names == [] {
      assert pr.errors[..|pr.errors|] == pr.errors;
    } else {
      assert CollectsOne(step, names[0]);
      var o1 := step(pr, names[0]);
      assert forall i :: 0 <= i < |names[1..]| ==> names[1..][i] == names[i + 1];
      FilesAllReached(step, o1.progress, names[1..]);
      var o := ExtractEntries(step, o1.progress, names[1..]);
      assert o.progress.errors[..|pr.errors|] == o.progress.errors[..|o1.progress.errors|][..|pr.errors|];
    }
  }

  /** One entry that merges `lost` keeps the collection an interleaving. */
  lemma MergeStep(step: Stepper, disk: Disk, pr: Progress, fullPath: string, lost: seq<string>, readErrors: seq<string>)
    requires MergesOne(step, disk, fullPath, lost)
    requires Interleaving(pr.errors, readErrors, Failures(disk, pr.calls))
    ensures var o := step(pr, fullPath);
      o.fatal.None? && Interleaving(o.progress.errors, readErrors + lost, Failures(disk, o.progress.calls))
  {
    var o := step(pr, fullPath);
    var f0 := Failures(disk, pr.calls);
    var f1 := Failures(disk, o.progress.calls);
    var y := f1[|f0|..];
    assert o.fatal.None? && o.progress.errors == pr.errors + lost + y && f1 == f0 + y;
    InterleavingSnoc(pr.errors, readErrors, f0, lost, y);
  }

  /** Over entries that never abort, the collection grows by the read
      failures of those entries merged, in order, with the failed writes and
      chmods they make. */
  lemma {:induction false} FilesMerged(job: Job, step: Stepper, pr: Progress, names: seq<string>, readErrors: seq<string>)
    requires forall i :: 0 <= i < |names| ==> MergesOne(step, job.disk, names[i], ReadFailure(job, names[i]))
    requires Interleaving(pr.errors, readErrors, Failures(job.disk, pr.calls))
    ensures var o := ExtractEntries(step, pr, names);
      Interleaving(o.progress.errors, readErrors + ReadFailures(job, names), Failures(job.disk, o.progress.calls))
    decreases |names|
  {
    if names == [] {
      assert readErrors + [] == readErrors;
    } else {
      var o1 := step(pr, names[0]);
      MergeStep(step, job.disk, pr, names[0], ReadFailure(job, names[0]), readErrors);
      assert forall i :: 0 <= i < |names[1..]| ==> names[1..][i] == names[i + 1];
      FilesMerged(job, step, o1.progress, names[1..], readErrors + ReadFailure(job, names[0]));
      ReadFailuresCons(job, names);
      ConcatAssoc(readErrors, ReadFailure(job, names[0]), ReadFailures(job, names[1..]));
    }
  }

  /** The messages come entry by entry, in listing order: the i-th entry adds
      exactly its read failure, or else the failures of the calls it makes,
      to what the entries before it collected. */
  lemma FilesEntryMessages(job: Job, step: Stepper, pr: Progress, names: seq<string>, i: nat)
    requires i < |names|
    requires forall k :: 0 <= k < |names| ==> CollectsOne(step, names[k])
    requires forall k :: 0 <= k < |names| ==> MergesOne(step, job.disk, names[k], ReadFailure(job, names[k]))
    ensures var p := ExtractEntries(step, pr, names[..i]);
      var q := ExtractEntries(step, pr, names[..i + 1]);
      var before := Failures(job.disk, p.progress.calls);
      && p.fatal.None? && q.fatal.None?
      && IsPrefix(before, Failures(job.disk, q.progress.calls))
      && q.progress.errors == p.progress.errors + ReadFailure(job, names[i])
                              + Failures(job.disk, q.progress.calls)[|before|..]
  {
    assert forall k :: 0 <= k < i ==> names[..i][k] == names[k];
    FilesAllReached(step, pr, names[..i]);
    ExtractEntriesAppend(step, pr, names[..i], [names[i]]);
    assert names[..i] + [names[i]] == names[..i + 1];
    OneEntry(step, job.disk, ExtractEntries(step, pr, names[..i]).progress, names[i], ReadFailure(job, names[i]));
  }

  lemma OneEntry(step: Stepper, disk: Disk, pr: Progress, fullPath: string, lost: seq<string>)
    requires MergesOne(step, disk, fullPath, lost)
    ensures var q := ExtractEntries(step, pr, [fullPath]); var before := Failures(disk, pr.calls);
      && q.fatal.None?
      && IsPrefix(before, Failures(disk, q.progress.calls))
      && q.progress.errors == pr.errors + lost + Failures(disk, q.progress.calls)[|before|..]
  {
    var o := step(pr, fullPath);
    assert o.fatal.None?;
    assert ExtractEntries(step, pr, [fullPath]) == EntryOutcome(o.progress, None);
  }

  /** Every entry that does not abort is such an entry for the loop body. */
  lemma FilesStep(job: Job, names: seq<string>)
    requires forall i :: 0 <= i < |names| ==> Collecting(job, names[i])
    ensures forall i :: 0 <= i < |names| ==> CollectsOne(StepOf(job), names[i])
    ensures forall i :: 0 <= i < |names| ==> MergesOne(StepOf(job), job.disk, names[i], ReadFailure(job, names[i]))
  {
    forall i | 0 <= i < |names|
      ensures CollectsOne(StepOf(job), names[i])
      ensures MergesOne(StepOf(job), job.disk, names[i], ReadFailure(job, names[i]))
    {
      forall pr: Progress ensures var o := StepOf(job)(pr, names[i]);
        o.fatal.None? && IsPrefix(pr.errors, o.progress.errors) && |o.progress.errors| <= |pr.errors| + 1
      {
        EntryCollects(job, pr, names[i]);
      }
      forall pr: Progress ensures var o := StepOf(job)(pr, names[i]); var before := Failures(job.disk, pr.calls);
        && o.fatal.None?
        && IsPrefix(before, Failures(job.disk, o.progress.calls))
        && o.progress.errors == pr.errors + ReadFailure(job, names[i]) + Failures(job.disk, o.progress.calls)[|before|..]
        && |ReadFailure(job, names[i])| + |Failures(job.disk, o.progress.calls)| <= |before| + 1
      {
        EntryCollects(job, pr, names[i]);
      }
    }
  }

  /** An archive whose entries never abort (regular files inside `dest`, and
      directories and links inside `dest` whose creation succeeds) extracts
      cleanly exactly when no read, write or chmod failed; otherwise it throws
      the one aggregated error, whose messages are the read failures merged,
      in order, with the failed writes and chmods, at most one per entry. */
  lemma FilesAggregated(job: Job)
    requires forall i :: 0 <= i < |job.archive.listing| ==> Collecting(job, job.archive.listing[i])
    requires job.disk([], MakeDirs(job.dest)).Done?
    ensures var x := Extraction(job);
      var readErrors := ReadFailures(job, job.archive.listing);
      var failed := Failures(job.disk, x.calls);
      && (x.error.None? <==> readErrors == [] && failed == [])
      && (x.error.Some? ==>
            && x.error.value.ExtractionFailed?
            && 0 < |x.error.value.messages| <= |job.archive.listing|
            && Interleaving(x.error.value.messages, readErrors, failed)
            && (failed == [] ==> x.error.value.messages == readErrors)
            && (readErrors == [] ==> x.error.value.messages == failed))
  {
    var mk := MakeDirs(job.dest);
    assert [mk][..0] == [];
    assert Failures(job.disk, [mk]) == [];
    FilesStep(job, job.archive.listing);
    FilesAllReached(StepOf(job), Progress([mk], []), job.archive.listing);
    FilesMerged(job, StepOf(job), Progress([mk], []), job.archive.listing, []);
    var o := ExtractEntries(StepOf(job), Progress([mk], []), job.archive.listing);
    assert [] + ReadFailures(job, job.archive.listing) == ReadFailures(job, job.archive.listing);
    InterleavingLength(o.progress.errors, ReadFailures(job, job.archive.listing), Failures(job.disk, o.progress.calls));
    InterleavingOneSided(o.progress.errors, ReadFailures(job, job.archive.listing), Failures(job.disk, o.progress.calls));
  }

  // ---------------------------------------------------------------------------
  // What the `startsWith('..')` test lets through and what it stops

  /** A member whose name begins with two dots, such as `/..x`, lies inside
      `dest` and is still refused: the relative path `..x` starts with `..`. */
  lemma DotDotNameRefused(job: Job, pr: Progress, name: string)
    requires IsRooted(job.dest) && Plain(name) && StartsWith(name, "..")
    requires job.archive.getFile(name, job.followLinks).Succeeded?
    ensures Inside(job.cwd, job.dest, Join(job.dest, name))
    ensures EntryStep(job, pr, "/" + name)
         == EntryOutcome(pr, Some(WritesOutOfPackage("/" + name, Join(job.dest, name))))
  {
    var d := job.dest;
    var j := Join(d, name);
    JoinPlain(d, name);
    ResolveRooted(job.cwd, d);
    ResolveRooted(job.cwd, j);
    EscapesIff(job.cwd, d, j);
    assert Filename("/" + name) == name;
  }

  /** The text `a/b/..` is split into the segments `a`, `b` and `..`. */
  lemma ParentLinkSplit(a: string, b: string)
    requires Plain(a) && Plain(b)
    ensures Split(a + "/" + b + "/..", '/') == [a, b, ".."]
  {
    assert a + "/" + b + "/.." == a + ['/'] + (b + ['/'] + "..");
    SplitNoSep(a, '/');
    SplitNoSep(b, '/');
    SplitNoSep("..", '/');
    SplitConcat(b, "..", '/');
    SplitConcat(a, b + ['/'] + "..", '/');
  }

  /** Joined to `dest`, the text `a/b/..` names `dest/a`. */
  lemma ParentLinkParts(dest: string, a: string, b: string)
    requires IsRooted(dest) && Plain(a) && Plain(b)
    ensures Parse(Join(dest, a + "/" + b + "/..")) == Path(true, Parse(dest).parts + [a])
  {
    var d := Parse(dest).parts;
    ParentLinkSplit(a, b);
    assert [a, b, ".."] == [a, b] + [".."];
    FoldPlain(true, d, [a, b]);
    FoldAppend(true, d, [a, b], [".."]);
    assert Fold(true, d, [a, b, ".."]) == d + [a];
    JoinParse(dest, a + "/" + b + "/..");
  }

  /** The directory the target of `a/b/..` lies in is `dest` itself. */
  lemma ParentLinkSource(cwd: string, dest: string, a: string, b: string)
    requires IsRooted(dest) && Plain(a) && Plain(b)
    ensures Resolve(cwd, LinkSource(dest, a + "/" + b + "/..")) == Resolve(cwd, dest)
  {
    var link := a + "/" + b + "/..";
    ParentLinkParts(dest, a, b);
    DirnameParse(Join(dest, link));
    ResolveRooted(cwd, dest);
    ResolveRooted(cwd, LinkSource(dest, link));
  }

  /** A plain member not beginning with two dots is placed directly in `dest`. */
  lemma MemberInDest(cwd: string, dest: string, name: string)
    requires IsRooted(dest) && Plain(name) && !StartsWith(name, "..")
    ensures !Escapes(cwd, dest, Join(dest, name))
    ensures Resolve(cwd, Dirname(Join(dest, name))) == Resolve(cwd, dest)
  {
    var j := Join(dest, name);
    JoinPlain(dest, name);
    ResolveRooted(cwd, dest);
    ResolveRooted(cwd, j);
    EscapesIff(cwd, dest, j);
    DirnameParse(j);
    ResolveRooted(cwd, Dirname(j));
  }

  /** The last component of `a/b/..` is `..`. */
  lemma ParentLinkBase(a: string, b: string)
    requires Plain(a) && Plain(b)
    ensures Basename(a + "/" + b + "/..") == ".."
  {
    var link := a + "/" + b + "/..";
    var n := |link|;
    assert link[n - 1] == '.' && link[n - 2] == '.' && link[n - 3] == '/';
    assert TrimTrailingSlashes(link) == link;
    var r := AfterLast(link, '/');
    assert link[n - |r|..] == r;
    assert r == link[n - 2..];
  }

  /** `path.join("", "..")` is `..`. */
  lemma JoinParent()
    ensures Join("", "..") == ".."
  {
    SplitNoSep("..", '/');
    assert Fold(false, [], [".."]) == Step(false, Fold(false, [], []), "..");
  }

  /** A link that passes both tests is re-created: the old file is unlinked and
      a symlink to `LinkTarget` made in its place. */
  lemma LinkStep(job: Job, pr: Progress, fullPath: string, link: string)
    requires job.archive.getFile(Filename(fullPath), job.followLinks) == Succeeded(LinkEntry(link))
    requires !Escapes(job.cwd, job.dest, Join(job.dest, Filename(fullPath)))
    requires !Escapes(job.cwd, job.dest, LinkSource(job.dest, link))
    ensures var destFilename := Join(job.dest, Filename(fullPath));
      EntryStep(job, pr, fullPath)
      == Propagating(job.disk, Progress(pr.calls + [Unlink(destFilename)], pr.errors),
                     Symlink(LinkTarget(job.cwd, job.dest, destFilename, link), destFilename))
  {
  }

  /** For a member placed directly in `dest` that links to `a/b/..`, the link's
      source directory is `dest` and the symlink points to `..`. */
  lemma ParentLinkTarget(cwd: string, dest: string, name: string, a: string, b: string)
    requires IsRooted(dest) && Plain(name) && !StartsWith(name, "..") && Plain(a) && Plain(b)
    ensures !Escapes(cwd, dest, LinkSource(dest, a + "/" + b + "/.."))
    ensures LinkTarget(cwd, dest, Join(dest, name), a + "/" + b + "/..") == ".."
  {
    var link := a + "/" + b + "/..";
    var j := Join(dest, name);
    var src := LinkSource(dest, link);
    MemberInDest(cwd, dest, name);
    ParentLinkSource(cwd, dest, a, b);
    RelativeEmpty(cwd, dest, src);
    RelativeEmpty(cwd, Dirname(j), src);
    ParentLinkBase(a, b);
    JoinParent();
  }

  /** The link test looks only at the directory the target lies in, not at the
      target's last component: a member `/name` linking to `a/b/..` passes both
      tests, and the symlink made directly inside `dest` points to `..`, the
      parent of `dest`. */
  lemma ParentLinkAccepted(job: Job, pr: Progress, name: string, a: string, b: string)
    requires IsRooted(job.dest) && Plain(name) && !StartsWith(name, "..") && Plain(a) && Plain(b)
    requires job.archive.getFile(name, job.followLinks) == Succeeded(LinkEntry(a + "/" + b + "/.."))
    ensures Resolve(job.cwd, Dirname(Join(job.dest, name))) == Resolve(job.cwd, job.dest)
    ensures EntryStep(job, pr, "/" + name)
         == Propagating(job.disk, Progress(pr.calls + [Unlink(Join(job.dest, name))], pr.errors),
                        Symlink("..", Join(job.dest, name)))
  {
    assert Filename("/" + name) == name;
    MemberInDest(job.cwd, job.dest, name);
    ParentLinkTarget(job.cwd, job.dest, name, a, b);
    LinkStep(job, pr, "/" + name, a + "/" + b + "/..");
  }

  // ---------------------------------------------------------------------------
  // extractFile

  /** `extractFile`, lines 357-364: the contents of a regular file; a directory
      or a link (after following links when asked) is refused. */
  function ExtractFile(archive: Archive, filename: string, followLinks: bool): (r: Result<seq<bv8>>)
    ensures r.Ok? <==>
      archive.getFile(filename, followLinks).Succeeded?
      && archive.getFile(filename, followLinks).value.FileEntry?
      && archive.readFile(filename, archive.getFile(filename, followLinks).value).Succeeded?
    ensures r.Ok? ==> r.value == archive.readFile(filename, archive.getFile(filename, followLinks).value).value
    ensures archive.getFile(filename, followLinks).Succeeded? && !archive.getFile(filename, followLinks).value.FileEntry? ==>
      r == Err(NotAFile(filename))
  {
    match archive.getFile(filename, followLinks)
    case Threw(_) => Err(LookupFailed(filename))
    case Succeeded(file) =>
      if file.LinkEntry? || file.DirectoryEntry? then Err(NotAFile(filename))
      else
        match archive.readFile(filename, file)
        case Threw(m) => Err(IoFailure(m))
        case Succeeded(content) => Ok(content)
  }
}
