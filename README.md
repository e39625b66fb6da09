# asar packing and extraction core, modelled in Dafny

This project models the decision logic of `src/asar.ts` in asar, Electron's
archive format tool:

- **Ordering.** `createPackageFromFiles` can read an *ordering file*. Each line
  of it is normalised and expanded into the chain of its ancestor
  directories. That chain is then merged with the crawled filenames into the
  order in which entries are inserted, and the `missing` count is kept.
- **Unpack decision.** `isUnpackedDir` and `shouldUnpackPath` decide whether an
  entry is *unpacked*, that is, stored outside the archive. They use the
  `unpack` glob (a single pattern or a `{a,b}` list) and the `unpackDir` glob
  or prefix. Every directory that matched is remembered in `unpackDirs`, so
  that directories below it are unpacked too.
- **`handleFile`.** It finds the entry's type, tests the path that belongs to
  that type, and records the entry in `files`/`links` and in the archive's
  `Filesystem`.
- **Insertion drivers.** The `next` recursions of `createPackageFromFiles` and
  `createPackageFromStreams` handle the queued names one after another.
- **`extractAll`.** Every entry is re-created under `dest`. The escape test is
  `path.relative(dest, p).startsWith('..')`. It is applied first to the
  entry's destination. For a link, whatever is at the destination is then
  unlinked (lines 394-396, a failure there is ignored), and only after that is
  the test applied to the link's source directory (line 398). So a link that
  points out of `dest` still deletes the file at its destination before it
  throws. Failures to read, write or chmod a file are collected and thrown
  together after the loop. Every other failure aborts at once.
- **`extractFile`.** It refuses directories and links.

Files:

- `base.dfy` holds the shared option, result and error types.
- `paths.dfy` holds the subset of Node's POSIX `path` module that the source
  calls: `normalize`, `join`, `resolve`, `relative`, `dirname` and `basename`,
  over component sequences.
- `ordering.dfy` holds the ordering block.
- `unpack.dfy` holds the unpack rule as functions.
- `packer.dfy` holds `handleFile` and the drivers. The state that the closures
  share is a `Packer` class, whose methods mirror the source's loops and
  updates.
- `extract.dfy` holds extraction.

The interface to the outside world is passed in as parameters:

- The glob matcher `minimatch` is an uninterpreted function. It answers, or it
  throws (`None`).
- `determineFileType`, `fs.readFile` and the archive's `getFile` and reads are
  likewise functions that may throw (`Attempt`).
- The process working directory is a string parameter.
- The file system that extraction writes to is a function from the calls
  made so far and the next call to that call's outcome. Extraction's effect
  is the log of the calls it makes.
- An absent option is written `""`. JavaScript treats both as false.

The quirks of the `startsWith('..')` test are modelled exactly as the code
does it, and stated as lemmas:

- A member named like `..x` lies inside `dest` and is still refused
  (`Extract.DotDotNameRefused`).
- A link to `a/b/..` passes both tests, yet the symlink it creates points to
  `..`, the parent of `dest` (`Extract.ParentLinkAccepted`).

## Model

| member | source | states |
|---|---|---|
| `Paths.SplitFacts` | src/asar.ts:102 | Splitting gives at least one piece, no piece holds the separator, and joining the pieces again gives back the text |
| `Paths.AfterLast` | src/asar.ts:104-106 | `split(sep).pop()` is the suffix after the last separator and holds none; it is the whole text when there is no separator |
| `Paths.NormalizeParse` | src/asar.ts:87-91 | Normalising keeps the path it names, and is idempotent |
| `Paths.JoinParse` | src/asar.ts:119 | `path.join(a, b)` walks the segments of `b` from the normalised `a`, and the result is already normalised |
| `Paths.JoinJoin` | src/asar.ts:116-121 | Joining twice is joining once with the two texts separated by `/` |
| `Paths.ResolveNormal` | src/asar.ts:35 | A resolved path is absolute and has no `.` or `..` component |
| `Paths.RelativeEmpty` | src/asar.ts:35 | `path.relative(from, to)` is empty exactly when both resolve to the same place |
| `Paths.EscapesIff` | src/asar.ts:382 | The escape test fires exactly when `p` lies neither at nor below `dest`, or when its first component below `dest` begins with two dots |
| `Paths.NotEscapesInside` | src/asar.ts:382-384 | A path that passes the escape test resolves at or below `dest` |
| `Paths.DirnameParse` | src/asar.ts:191 | `dirname` keeps absoluteness and drops exactly the last component |
| `Paths.Basename` | src/asar.ts:397 | The base name holds no separator, and is the whole text when there is none |
| `Paths.BasenameLast` | src/asar.ts:397 | `path.basename(s)` is what follows the last `/` of `s` once its trailing separators are dropped, or all of that text when it holds no `/` |
| `Paths.Split` | src/asar.ts:102 | Definition of `split`; the body is the model (its properties: `Paths.SplitFacts`) |
| `Paths.Normalize` | src/asar.ts:87-91 | Definition of `path.normalize`; the body is the model (`Paths.NormalizeParse`) |
| `Paths.Join` | src/asar.ts:119 | Definition of `path.join`; the body is the model (`Paths.JoinParse`, `Paths.JoinJoin`) |
| `Paths.Resolve` | src/asar.ts:35 | Definition of `path.resolve` against the working directory; the body is the model (`Paths.ResolveNormal`) |
| `Paths.Relative` | src/asar.ts:35 | Definition of `path.relative`; the body is the model (`Paths.RelativeEmpty`, `Paths.RelativeChild`) |
| `Paths.RelativeChild` | src/asar.ts:191 | From a rooted directory to a rooted path one plain component below it, the relative path is that component |
| `Paths.Dirname` | src/asar.ts:191 | Definition of `path.dirname` for normalised text only; the body is the model (`Paths.DirnameParse`). On text such as `a/./b` or `a/b/..` it differs from Node, but every call site (lines 191, 390 and 391) passes the result of `normalize` or `join` |
| `Paths.DirnameChild` | src/asar.ts:191 | The parent of a path two components below `src` is one component below it |
| `Paths.Escapes` | src/asar.ts:382 | Definition of the `relative(dest, p).startsWith('..')` test; the body is the model (`Paths.EscapesIff`) |
| `Ordering.Trim` | src/asar.ts:107 | `trim` gives a text with no surrounding white space that is the middle of the line once the leading and trailing white space are dropped, and changes no already trimmed text |
| `Ordering.NormalizeLine` | src/asar.ts:103-111 | A cleaned line holds no `:`, and is the trimmed text after the last `:` with at most one leading `/` removed; a clean line is kept as it is |
| `Ordering.Walk` | src/asar.ts:116-121 | Definition of the inner loop's successive joins; the body is the model (`Ordering.WalkJoin`) |
| `Ordering.AncestorChain` | src/asar.ts:114-122 | Definition of the entries pushed for one line; the body is the model (`Ordering.AncestorChainPlain`, `Ordering.AncestorsFirst`) |
| `Ordering.Expansion` | src/asar.ts:114-122 | Definition of the whole `ordering` list; the body is the model (`Ordering.ExpandOrdering`) |
| `Ordering.OrderingLines` | src/asar.ts:100-112 | One cleaned line per `\n`-separated line of the file, in order |
| `Ordering.WalkJoin` | src/asar.ts:117-120 | After walking the components `c1..ck` from `src` with successive joins, the result is `join(src, c1 + "/" + ... + "/" + ck)` |
| `Ordering.AncestorChainPlain` | src/asar.ts:114-122 | The i-th entry pushed for a line is `src` followed by the line's first i+1 components |
| `Ordering.AncestorsFirst` | src/asar.ts:114-122 | In a line's chain, each earlier entry is a strict ancestor of each later one |
| `Ordering.ExpandOrdering` | src/asar.ts:114-122 | The nested loops build exactly the concatenation of every line's ancestor chain, in line order, one entry per component |
| `Ordering.KeepMembers` | src/asar.ts:127-131 | The kept entries are exactly those in both lists |
| `Ordering.DropMembers` | src/asar.ts:133-138 | The entries that remain are exactly those not excluded |
| `Ordering.DedupMembers` | src/asar.ts:128 | Removing later repeats keeps the same elements and leaves no duplicate |
| `Ordering.PlaceOrdered` | src/asar.ts:127-131 | The first loop places the ordering's entries that are crawled filenames, each once, in ordering order |
| `Ordering.AppendMissing` | src/asar.ts:133-138 | The second loop appends the filenames not yet placed, each once, in crawled order, counting each as missing |
| `Ordering.MergeOrdering` | src/asar.ts:124-138 | `filenamesSorted` has no duplicates and holds exactly the crawled filenames; `missing` is the number of distinct filenames that the ordering does not mention |
| `Ordering.MergeOrder` | src/asar.ts:127-138 | Placed entries come first, in ordering order; the rest follow in crawled order |
| `Ordering.MergeElems` | src/asar.ts:127-138 | The placed entries are the filenames the ordering mentions, the appended ones the filenames it does not, neither list with duplicates |
| `Ordering.CoverageCount` | src/asar.ts:124-140 | With distinct filenames, `total - missing` is the number of entries placed from the ordering |
| `Ordering.SortFilenames` | src/asar.ts:98-143 | With no ordering option the filenames are kept unchanged; a failed read propagates; otherwise the merge of the expanded cleaned lines is used, holding the same elements and no new duplicates |
| `Unpack.AnyMatch` | src/asar.ts:165-167 | Definition of `some` over the brace patterns; the body is the model (`Unpack.AnyMatchAllFalse`, `Unpack.AnyMatchFirst`, `Unpack.AnyMatchTrue`) |
| `Unpack.FilePatternMatch` | src/asar.ts:161-175 | Definition of the file-pattern `try` block; the body is the model (`Unpack.FilePatternMatchAny`) |
| `Unpack.UnpackedDir` | src/asar.ts:26-38 | Definition of `isUnpackedDir`; the body is the model (`Unpack.UnpackedDirMatch`, `Unpack.UnpackedDirNoMatch`, `Unpack.UnpackedDirGrows`) |
| `Unpack.ShouldUnpack` | src/asar.ts:155-181 | Definition of `shouldUnpackPath`; the body is the model (`Unpack.PatternFirst`, `Unpack.PatternMiss`, `Unpack.PatternErrorAborts`) |
| `Unpack.AnyMatchAllFalse` | src/asar.ts:165-167 | `some` answers false when every pattern answers false |
| `Unpack.AnyMatchFirst` | src/asar.ts:165-167 | `some` stops at the first pattern that does not answer false, and takes that pattern's answer |
| `Unpack.AnyMatchTrue` | src/asar.ts:165-167 | When `some` answers true, some pattern matched |
| `Unpack.BraceBody` | src/asar.ts:163-164 | The body of `{...}` is the text between the braces |
| `Unpack.FilePatternMatchAny` | src/asar.ts:161-175 | Both branches are one ordered search over the patterns; a throwing matcher becomes "Error matching unpack pattern" |
| `Unpack.Braced` | src/asar.ts:163 | Definition of the brace-list test `startsWith('{') && endsWith('}')`; the body is the model (`Unpack.FilePatternMatchAny`) |
| `Unpack.FilePatterns` | src/asar.ts:163-164 | Definition of the patterns the `unpack` option stands for, the split brace body or the option itself; the body is the model (`Unpack.FilePatternMatchAny`) |
| `Unpack.Covered` | src/asar.ts:33-36 | Definition of the `some` callback: `dirPath` starts with `d` and its path relative to `d` does not start with `..`; the body is the model (`Unpack.CoveredInside`) |
| `Unpack.AnyCovered` | src/asar.ts:33-36 | Definition of `unpackDirs.some(...)`; the body is the model (`Unpack.CoveredInside`, `Unpack.UnpackedDirNoMatch`) |
| `Unpack.CoveredInside` | src/asar.ts:33-36 | A directory covered by a remembered `d` resolves at or below `d` |
| `Unpack.UnpackedDirMatch` | src/asar.ts:27-31 | On a prefix or glob match the answer is true, `dirPath` is remembered, at most one entry is appended, and no duplicate is introduced |
| `Unpack.UnpackedDirPrefixFirst` | src/asar.ts:27 | A prefix match decides before the glob matcher is consulted |
| `Unpack.UnpackedDirNoMatch` | src/asar.ts:32-37 | Without a match the list is unchanged, and the answer is true exactly when some remembered directory covers `dirPath` |
| `Unpack.UnpackedDirGrows` | src/asar.ts:26-38 | `unpackDirs` only grows, and stays duplicate-free |
| `Unpack.PatternFirst` | src/asar.ts:160-179 | A file pattern that matches decides alone: `unpackDir` is not consulted and the memo is untouched |
| `Unpack.PatternMiss` | src/asar.ts:177-178 | When the file pattern is absent or answers false, a non-empty `unpackDir` hands the decision to `isUnpackedDir` on the relative path; without one the answer is false and the list unchanged |
| `Unpack.PatternErrorAborts` | src/asar.ts:171-175 | A throwing file-pattern match aborts with the unpack-pattern error |
| `Unpack.NoPatternIgnoresFilename` | src/asar.ts:177-179 | Without a file pattern, the decision is the directory test on the relative path alone |
| `Unpack.ShouldUnpackGrows` | src/asar.ts:155-181 | The decision only grows `unpackDirs`, and keeps it duplicate-free |
| `Packer.TestedPath` | src/asar.ts:184-209 | Definition of the path each type's unpack test looks at; the body is the model (`Packer.HandleDecision`) |
| `Packer.TestedPattern` | src/asar.ts:184-209 | Definition of the file pattern each type's unpack test uses; the body is the model (`Packer.HandleDecision`) |
| `Packer.TypedMetadata` | src/asar.ts:146-153 | A known name keeps `metadata` as it is; otherwise the lookup succeeds exactly when the probe answers a type, which is then cached under the name with every other entry kept; a throwing probe propagates and a `null` answer is "Unknown file type" |
| `Packer.Handle` | src/asar.ts:145-215 | Definition of `handleFile` on the closures' state; the body is the model (`Packer.HandleStep`, `Packer.HandleDecision`) |
| `Packer.HandleAll` | src/asar.ts:221-232 | Definition of the `next` driver; the body is the model (`Packer.HandleAllKeeps`, `Packer.HandleAllInOrder`) |
| `Packer.HandleDecision` | src/asar.ts:184-212 | A directory or a link is tested on `relative(src, filename)`, a file on `relative(src, dirname(filename))`, a directory without the file pattern; a failed lookup or test ends the call with its error, and otherwise the new `unpackDirs` and the recorded flag are the decision's |
| `Packer.FileInUnpackDir` | src/asar.ts:188-195 | A file whose parent is the `unpackDir` directly below `src`, and that the file pattern does not claim, is recorded unpacked, and that directory is remembered once |
| `Packer.NativeModuleUnpacked` | src/asar.ts:188-195 | With `src` "/s" and `unpackDir` "lib", the file "/s/lib/native.node" is recorded unpacked and "lib" is appended to `unpackDirs` |
| `Packer.Insert` | src/asar.ts:187-210 | Definition of the pushes onto `files`/`links` and the `Filesystem` inserts of lines 187, 195-196 and 209-210; the body is the model (`Packer.HandleDecision`, `Packer.InsertConsistent`) |
| `Packer.InsertConsistent` | src/asar.ts:184-212 | Recording a typed entry keeps `files` and `links` equal to the file and link insertions |
| `Packer.HandleStep` | src/asar.ts:145-215 | `handleFile` keeps the invariant and grows `unpackDirs`; it caches a probed type without changing known ones; an error inserts nothing; success inserts exactly this entry, with its type |
| `Packer.UnknownTypeThrows` | src/asar.ts:146-150 | An entry of unknown type with no metadata throws "Unknown file type" and changes nothing |
| `Packer.DirectoryIgnoresUnpack` | src/asar.ts:185-187 | A directory's decision does not depend on the `unpack` option |
| `Packer.HandlerWellBehaved` | src/asar.ts:145-215 | `handleFile` has, on every consistent state, the step properties the driver relies on |
| `Packer.HandleAllKeeps` | src/asar.ts:221-232 | The driver keeps the invariant and only grows `unpackDirs` |
| `Packer.InOrderCons` | src/asar.ts:223-229 | One insertion of the head followed by the rest, in order, is the whole list in order |
| `Packer.HandleAllInOrder` | src/asar.ts:221-232 | The driver inserts a prefix of the names, in order, each right after the last; with no error and no empty name, it inserts every name |
| `Packer.Packer.constructor` | src/asar.ts:93-96 | A fresh state: the given metadata and empty `unpackDirs`, `files`, `links` and insertions |
| `Packer.Packer.IsUnpackedDir` | src/asar.ts:26-38 | The `includes` and `some` loops compute the unpack rule's answer and update `unpackDirs` to exactly the rule's new list |
| `Packer.Packer.ShouldUnpackPath` | src/asar.ts:155-181 | The method returns the rule's decision and leaves the new `unpackDirs` in the object; nothing else changes |
| `Packer.Packer.HandleFile` | src/asar.ts:145-215 | One `handleFile` call on the object's fields |
| `Packer.Packer.InsertAll` | src/asar.ts:221-232 | The queue loop does what the `next` driver does |
| `Packer.NormalizeAll` | src/asar.ts:89-91 | Each filename is normalised, at its own position |
| `Packer.CreatePackageFromFiles` | src/asar.ts:80-232 | Normalise, order (or propagate a failed read), then drive the insertion of the ordered names from a fresh state |
| `Packer.NormalizedAllHandled` | src/asar.ts:89-91 | Normalised names are never empty, so unless a call throws every name is inserted |
| `Packer.StreamStep` | src/asar.ts:277-314 | Definition of the stream `handleFile`; the body is the model (`Packer.StreamsInOrder`) |
| `Packer.StreamAll` | src/asar.ts:321-333 | Definition of the stream `next` driver; the body is the model (`Packer.StreamsInOrder`, `Packer.PackStreams`) |
| `Packer.PackStreams` | src/asar.ts:321-333 | The stream queue loop performs the stream driver's steps in order |
| `Packer.StreamsInOrder` | src/asar.ts:277-333 | Every stream is inserted once, in order, with the call its type asks for, under its normalised path and with its own unpack flag; `files` and `links` hold exactly the file and the link streams, in order, each with its normalised name, no link or its `symlink`, its mode and its flag |
| `Extract.Filename` | src/asar.ts:379 | `substr(1)` drops the first character, if any |
| `Extract.Propagating` | src/asar.ts:386-387 | A file-system call outside the `try` block is logged; it throws exactly when it fails |
| `Extract.LinkSource` | src/asar.ts:390 | Definition of `dirname(join(dest, file.link))`; the body is the model (`Extract.ParentLinkSource`) |
| `Extract.LinkTarget` | src/asar.ts:391-397 | Definition of the symlink's target; the body is the model (`Extract.LinkStep`, `Extract.ParentLinkTarget`) |
| `Extract.ExtractContents` | src/asar.ts:405-414 | Definition of the file `try` block; the body is the model (`Extract.ContentsErrors`, `Extract.ContentsOnDestination`) |
| `Extract.EntryStep` | src/asar.ts:378-415 | Definition of one pass of the loop body; the body is the model (`Extract.EntryStepConfined` and the per-type lemmas) |
| `Extract.ExtractEntries` | src/asar.ts:377-416 | Definition of the loop for any loop body; the body is the model (`Extract.ExtractEntriesAppend`, `Extract.FatalStops`) |
| `Extract.Extraction` | src/asar.ts:366-423 | Definition of `extractAll`; the body is the model (`Extract.ExtractionConfined`, `Extract.FilesAggregated`) |
| `Extract.ExtractLink` | src/asar.ts:388-403 | Definition of the link branch; the body is the model (`Extract.LinkStep`, `Extract.LinkEscapeAborts`) |
| `Extract.CreateLink` | src/asar.ts:388-403 | The link branch as statements: unlink, the source-directory test, then the symlink, giving exactly the branch's outcome |
| `Extract.WriteContents` | src/asar.ts:405-414 | The `try` block as statements: read, write, chmod when executable, the first failure collected, giving exactly the block's outcome |
| `Extract.ExtractEntry` | src/asar.ts:378-418 | One pass of the loop body, as statements |
| `Extract.ExtractAll` | src/asar.ts:366-423 | `mkdirp(dest)`, then the loop over the listing, then the aggregated error when failures were collected |
| `Extract.EntryStepConfined` | src/asar.ts:380-403 | An entry only appends calls, all on its own destination, and only after that destination has passed the escape test |
| `Extract.ContentsErrors` | src/asar.ts:405-414 | The `try` block collects exactly the message of a read that throws, or else the failures of the write or chmod it makes; nothing when all succeed; at most one message |
| `Extract.ContentsOnDestination` | src/asar.ts:405-416 | Extracting a file's contents acts only on its destination and collects at most one failure |
| `Extract.EntryStepKeepsConfined` | src/asar.ts:380-403 | One pass of the loop body keeps every logged call on a path that passes the escape test |
| `Extract.StepOfConfined` | src/asar.ts:378-415 | The loop body of `extractAll` keeps the log confined on every state |
| `Extract.ExtractEntriesConfined` | src/asar.ts:377-416 | No call of the loop acts on a path that fails the escape test |
| `Extract.ExtractionConfined` | src/asar.ts:366-423 | No call extraction makes, `mkdirp(dest)` included, acts on a path that fails the escape test |
| `Extract.ExtractionInside` | src/asar.ts:366-423 | Every call that extraction makes names `dest` or a path lexically below it, whatever the archive holds; a symlink made earlier in the run can still redirect such a path on disk |
| `Extract.ExtractEntriesAppend` | src/asar.ts:377-416 | The loop over `a + b` is the loop over `a`, then, unless that aborted, the loop over `b` |
| `Extract.FatalStops` | src/asar.ts:377-416 | The first entry that throws ends extraction, and no later entry is extracted |
| `Extract.EscapeAborts` | src/asar.ts:382-384 | A destination that fails the escape test aborts at once, before any call is made for it |
| `Extract.LookupFailureAborts` | src/asar.ts:381 | A lookup that throws aborts at once, with no call made |
| `Extract.DirectoryStep` | src/asar.ts:385-387 | A directory that passes the escape test is created with `mkdirp`, and a failure there aborts |
| `Extract.FileStep` | src/asar.ts:404-417 | A file that passes the escape test has its contents extracted, never aborting |
| `Extract.LinkEscapeAborts` | src/asar.ts:392-402 | A link whose source directory fails the test aborts after the unlink, before the link is made |
| `Extract.LinkStep` | src/asar.ts:392-403 | A link that passes both tests is re-created: unlink, then a symlink to the relative target |
| `Extract.FileNeverAborts` | src/asar.ts:404-415 | A regular file inside `dest` never aborts; the collection grows by exactly the read's message if the read threw, or else by the failures of the write or chmod it makes, and is unchanged when all succeed |
| `Extract.DirectoryAddsNothing` | src/asar.ts:385-387 | A directory inside `dest` whose `mkdirp` succeeds does not abort and adds no message and no collected failure |
| `Extract.LinkAddsNothing` | src/asar.ts:388-403 | A link that passes both tests and whose `symlink` succeeds does not abort and adds no message; the unlink's failure, if any, is not collected |
| `Extract.EntryCollects` | src/asar.ts:377-415 | Every such entry (a regular file inside `dest`, or a directory or link inside `dest` whose creation succeeds) never aborts, and adds exactly its read failure, or else the failure of a write or chmod it makes, and at most one message |
| `Extract.FilesAllReached` | src/asar.ts:377-416 | Over entries that never abort and collect at most one message each, the loop runs to the end |
| `Extract.FilesEntryMessages` | src/asar.ts:377-415 | Over entries that never abort, the i-th entry adds to what the entries before it collected exactly its read failure, or else the failures of the calls it makes, so the messages come in listing order |
| `Extract.FilesMerged` | src/asar.ts:377-416 | Over such entries the collection is the read failures, in listing order, merged with the failed writes and chmods, in call order |
| `Extract.FilesStep` | src/asar.ts:377-415 | Every regular file inside `dest`, and every directory or link inside `dest` whose creation succeeds, is, for the loop body, an entry that never aborts and adds exactly its own failure |
| `Extract.FilesAggregated` | src/asar.ts:366-422 | For an archive whose entries are regular files, directories and links inside `dest`, where every `mkdirp` and `symlink` succeeds, extraction succeeds exactly when no read, write or chmod failed; otherwise it throws the one aggregated error whose messages, at most one per entry, are the read failures in listing order merged with the failed writes and chmods in call order, and are exactly one kind when the other is empty. Failed unlinks are not among them |
| `Extract.DotDotNameRefused` | src/asar.ts:382-384 | A member named `..x` lies inside `dest` and is still refused |
| `Extract.ParentLinkTarget` | src/asar.ts:394-403 | For a link to `a/b/..`, the source directory is `dest` itself and the link's target is `..` |
| `Extract.ParentLinkAccepted` | src/asar.ts:392-403 | A member directly in `dest` that links to `a/b/..` passes both tests and becomes a symlink to `..`, the parent of `dest` |
| `Extract.ExtractFile` | src/asar.ts:357-364 | Contents are returned exactly for a file whose lookup and read succeed; a directory or a link is refused with "Expected to find file" |

## Left out

- **Glob language.** The `minimatch` glob language is an uninterpreted matcher. Its options other than `matchBase` are not modelled.
- **Node's `path` module.** Only its POSIX form is modelled: `/` separators, and no Windows drive letters. `path.normalize` keeps a trailing separator; the model does not. `path.resolve` takes the working directory as a parameter.
- **Crawling and I/O.** Crawling (`crawlfs.js`), `determineFileType`, `fs.readFile`, `mkdirp`, `createReadStream`, `writeFileSync`, `symlinkSync`, `unlinkSync` and `chmodSync` are parameters that may fail. Their effects are not modelled beyond the logged calls.
- **`Filesystem` and the archive.** The `Filesystem` class (`insertDirectory`, `insertFile`, `insertLink`, `getFile`, `listFiles`) and the archive reader and writer (`writeFilesystem`, `streamFilesystem`, `readFilesystemSync`, `readFileSync`) are in `filesystem.js` and `disk.js`, which are not part of this model. Insertions are recorded as `Insertion` values. The archive is a listing plus lookup and read functions.
- **`insertsDone`.** It creates the archive's directory and writes the archive (lines 216-219 and 316-319). It is not modelled, because it only calls into `disk.js`. For the same reason `dest` and its normalisation at line 88 are not used.
- **Async plumbing.** The `async`/Promise plumbing is a plain sequential loop. The `await` on `insertFile` is not modelled.
- **Coverage message.** The percentage printed at line 140 is floating point sent to the console. Only `missing` is modelled.
- **`createPackage` and `createPackageWithOptions`.** `createPackage`, `createPackageWithOptions` (lines 40-69), `statFile`, `getRawHeader` and `listPackage` only forward to the crawler or to `disk.js`.
- **`followLinks`.** Link following on Windows (line 371) is the parameter `followLinks`.
- **Stream entries.** Only the `mode` of `stat` is kept, along with the path, the unpack flag and the link. Stream generators and the extra arguments of `insertLink` are dropped.
- **Error details.** The text of thrown messages, and stack traces in the aggregated error, are not modelled. Each error is a constructor that carries the values the message names.
- Extract.FilesAggregated: each directory's `mkdirp` and each link's `symlink` must succeed whatever calls came before it. A run in which one of them fails aborts instead; that case is stated by `Extract.DirectoryStep`, `Extract.LinkStep` and `Extract.FatalStops`, not by this lemma. A link whose source escapes `dest` aborts too (`Extract.LinkEscapeAborts`).
- Packer.Insert: `insertDirectory`, `insertFile` and `insertLink` of `Filesystem` are taken never to throw, and the promise of `insertFile` never to reject. A throw there would end `handleFile` and the `next` chain (line 228), so `Packer.HandleAllInOrder`'s "every name is inserted" holds only under that assumption.
- **Falsy checks.** `!metadata[filename]` is modelled as "no entry for the name". Values of the metadata map are never falsy.
