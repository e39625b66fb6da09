/** The unpack decision of `createPackageFromFiles`: `isUnpackedDir`
    (src/asar.ts:26-38) and the rule inside `shouldUnpackPath`
    (src/asar.ts:155-181), as functions over the list of directories already
    marked unpacked.  The class in packer.dfy runs them on its own state. */
module Unpack {
  import opened Base
  import opened Paths

  /** `minimatch(path, pattern, { matchBase })`: `Some(answer)`, or `None` when
      the matcher throws.  The glob language itself is not modelled. */
  type Matcher = (string, string, bool) -> Option<bool>

  /** JavaScript `s.endsWith(suffix)`. */
  predicate EndsWith(s: string, suffix: string) {
    |suffix| <= |s| && s[|s| - |suffix|..] == suffix
  }

  // ---------------------------------------------------------------------------
  // The file pattern (`unpack`)

  /** `patterns.some(p => minimatch(filename, p, { matchBase: true }))`: the
      patterns are tried in order, the first `true` ends the search, and a
      throwing matcher ends it with the exception. */
  function AnyMatch(m: Matcher, filename: string, patterns: seq<string>): Option<bool>
    decreases |patterns|
  {
    if patterns == [] then Some(false)
    else match m(filename, patterns[0], true)
      case None => None
      case Some(true) => Some(true)
      case Some(false) => AnyMatch(m, filename, patterns[1..])
  }

  /** When every pattern answers `false`, so does the search. */
  lemma {:induction false} AnyMatchAllFalse(m: Matcher, filename: string, patterns: seq<string>)
    requires forall i :: 0 <= i < |patterns| ==> m(filename, patterns[i], true) == Some(false)
    ensures AnyMatch(m, filename, patterns) == Some(false)
    decreases |patterns|
  {
    if patterns != [] {
      assert m(filename, patterns[0], true) == Some(false);
      AnyMatchAllFalse(m, filename, patterns[1..]);
    }
  }

  /** Otherwise the first pattern that does not answer `false` decides: its
      `true` or its exception is the result. */
  lemma {:induction false} AnyMatchFirst(m: Matcher, filename: string, patterns: seq<string>, i: nat)
    requires i < |patterns|
    requires forall k :: 0 <= k < i ==> m(filename, patterns[k], true) == Some(false)
    requires m(filename, patterns[i], true) != Some(false)
    ensures AnyMatch(m, filename, patterns) == m(filename, patterns[i], true)
    decreases i
  {
    if i > 0 {
      assert m(filename, patterns[0], true) == Some(false);
      assert patterns[1..][i - 1] == patterns[i];
      AnyMatchFirst(m, filename, patterns[1..], i - 1);
    }
  }

  /** A `true` search has a pattern that matched, after patterns that all answered `false`. */
  lemma {:induction false} AnyMatchTrue(m: Matcher, filename: string, patterns: seq<string>)
    requires AnyMatch(m, filename, patterns) == Some(true)
    ensures exists i :: 0 <= i < |patterns| && m(filename, patterns[i], true) == Some(true)
              && forall k :: 0 <= k < i ==> m(filename, patterns[k], true) == Some(false)
    decreases |patterns|
  {
    if m(filename, patterns[0], true) == Some(true) {
      assert 0 < |patterns| && m(filename, patterns[0], true) == Some(true);
    } else {
      AnyMatchTrue(m, filename, patterns[1..]);
      var j :| 0 <= j < |patterns[1..]| && m(filename, patterns[1..][j], true) == Some(true)
              && forall k :: 0 <= k < j ==> m(filename, patterns[1..][k], true) == Some(false);
      assert patterns[j + 1] == patterns[1..][j];
      forall k | 0 <= k < j + 1 ensures m(filename, patterns[k], true) == Some(false) {
        if k > 0 { assert patterns[k] == patterns[1..][k - 1]; }
      }
    }
  }

  /** `unpack` is a brace list `{...}`. */
  predicate Braced(unpack: string) {
    StartsWith(unpack, "{") && EndsWith(unpack, "}")
  }

  /** `unpack.slice(1, -1)` of a brace list: the text between the braces. */
  function BraceBody(unpack: string): (body: string)
    requires Braced(unpack)
    ensures "{" + body + "}" == unpack
  {
    assert unpack[..1][0] == '{' && unpack[|unpack| - 1..][0] == '}';
    assert |unpack| >= 2;
    assert unpack == unpack[..1] + unpack[1..|unpack| - 1] + unpack[|unpack| - 1..];
    unpack[1..|unpack| - 1]
  }

  /** The patterns `unpack` stands for: the comma-separated list inside
      `{...}`, or `unpack` itself. */
  function FilePatterns(unpack: string): seq<string> {
    if Braced(unpack) then Split(BraceBody(unpack), ',')
    else [unpack]
  }

  /** The `try` block at lines 162-171: a brace list is split on ',' and any
      pattern may match; otherwise `unpack` is one pattern.  Both match the
      entry's full `filename` with `matchBase`.  A throwing matcher becomes the
      "Error matching unpack pattern" error of lines 173-175. */
  function FilePatternMatch(m: Matcher, filename: string, unpack: string): Result<bool> {
    var answer :=
      if Braced(unpack) then AnyMatch(m, filename, Split(BraceBody(unpack), ','))
      else m(filename, unpack, true);
    match answer
      case None => Err(UnpackPatternError(unpack, filename))
      case Some(b) => Ok(b)
  }

  /** Both branches are one search over `FilePatterns(unpack)`. */
  lemma FilePatternMatchAny(m: Matcher, filename: string, unpack: string)
    ensures FilePatternMatch(m, filename, unpack) ==
      match AnyMatch(m, filename, FilePatterns(unpack))
        case None => Err(UnpackPatternError(unpack, filename))
        case Some(b) => Ok(b)
  {
    if !Braced(unpack) {
      assert [unpack][1..] == [];
    }
  }

  // ---------------------------------------------------------------------------
  // The directory pattern (`unpackDir`)

  /** The predicate of the `some` at lines 34-37: a remembered directory `d`
      covers `dirPath` when `dirPath` starts with `d` and the relative path
      from `d` to `dirPath` does not start with "..". */
  predicate Covered(cwd: string, d: string, dirPath: string) {
    StartsWith(dirPath, d) && !Escapes(cwd, d, dirPath)
  }

  predicate AnyCovered(cwd: string, dirs: seq<string>, dirPath: string) {
    exists i :: 0 <= i < |dirs| && Covered(cwd, dirs[i], dirPath)
  }

  /** A covered path resolves at or below the directory covering it. */
  lemma CoveredInside(cwd: string, d: string, dirPath: string)
    requires Covered(cwd, d, dirPath)
    ensures Inside(cwd, d, dirPath)
  {
    NotEscapesInside(cwd, d, dirPath);
  }

  /** The answer of an unpack test and the list of unpacked directories after it. */
  datatype Decision = Decision(unpack: bool, unpackDirs: seq<string>)

  /** `isUnpackedDir(dirPath, pattern, unpackDirs)`: a literal prefix wins
      without consulting the matcher; otherwise the glob is tried without
      `matchBase`.  On a match `dirPath` is remembered, once; without one the
      answer is whether a remembered directory covers `dirPath`.  A throwing
      matcher propagates. */
  function UnpackedDir(m: Matcher, cwd: string, dirPath: string, pattern: string, dirs: seq<string>): Result<Decision> {
    var hit := if StartsWith(dirPath, pattern) then Some(true) else m(dirPath, pattern, false);
    match hit
      case None => Err(DirPatternError(pattern, dirPath))
      case Some(true) => Ok(Decision(true, if dirPath in dirs then dirs else dirs + [dirPath]))
      case Some(false) => Ok(Decision(AnyCovered(cwd, dirs, dirPath), dirs))
  }

  /** Lines 27-31: on a match the answer is true and `dirPath` is remembered,
      appended only if it was absent, so no duplicate is introduced. */
  lemma UnpackedDirMatch(m: Matcher, cwd: string, dirPath: string, pattern: string, dirs: seq<string>)
    requires StartsWith(dirPath, pattern) || m(dirPath, pattern, false) == Some(true)
    ensures var r := UnpackedDir(m, cwd, dirPath, pattern, dirs);
      && r.Ok? && r.value.unpack
      && dirPath in r.value.unpackDirs
      && IsPrefix(dirs, r.value.unpackDirs)
      && |r.value.unpackDirs| <= |dirs| + 1
      && (NoDup(dirs) ==> NoDup(r.value.unpackDirs))
  {
    var r := UnpackedDir(m, cwd, dirPath, pattern, dirs);
    if dirPath !in dirs {
      assert r.value.unpackDirs == dirs + [dirPath];
      assert (dirs + [dirPath])[..|dirs|] == dirs;
      assert (dirs + [dirPath])[|dirs|] == dirPath;
    }
  }

  /** A literal prefix match never reaches the matcher. */
  lemma UnpackedDirPrefixFirst(m1: Matcher, m2: Matcher, cwd: string, dirPath: string, pattern: string, dirs: seq<string>)
    requires StartsWith(dirPath, pattern)
    ensures UnpackedDir(m1, cwd, dirPath, pattern, dirs) == UnpackedDir(m2, cwd, dirPath, pattern, dirs)
  {
  }

  /** Lines 32-37: without a match the list is unchanged and the answer is
      true exactly when some remembered directory covers `dirPath`; such a
      directory contains `dirPath`. */
  lemma UnpackedDirNoMatch(m: Matcher, cwd: string, dirPath: string, pattern: string, dirs: seq<string>)
    requires !StartsWith(dirPath, pattern) && m(dirPath, pattern, false) == Some(false)
    ensures var r := UnpackedDir(m, cwd, dirPath, pattern, dirs);
      && r.Ok? && r.value.unpackDirs == dirs
      && (r.value.unpack <==> exists i :: 0 <= i < |dirs| && Covered(cwd, dirs[i], dirPath))
      && (r.value.unpack ==> exists i :: 0 <= i < |dirs| && Inside(cwd, dirs[i], dirPath))
  {
    if AnyCovered(cwd, dirs, dirPath) {
      var i :| 0 <= i < |dirs| && Covered(cwd, dirs[i], dirPath);
      CoveredInside(cwd, dirs[i], dirPath);
    }
  }

  /** The list of unpacked directories only grows, and never gains a duplicate. */
  lemma UnpackedDirGrows(m: Matcher, cwd: string, dirPath: string, pattern: string, dirs: seq<string>)
    ensures var r := UnpackedDir(m, cwd, dirPath, pattern, dirs);
      r.Ok? ==> IsPrefix(dirs, r.value.unpackDirs) && (NoDup(dirs) ==> NoDup(r.value.unpackDirs))
  {
    var hit := if StartsWith(dirPath, pattern) then Some(true) else m(dirPath, pattern, false);
    if hit == Some(true) {
      UnpackedDirMatch(m, cwd, dirPath, pattern, dirs);
    }
  }

  // ---------------------------------------------------------------------------
  // `shouldUnpackPath`

  /** `shouldUnpackPath(relativePath, unpack, unpackDir)` for the entry
      `filename`: the file pattern first, and the directory rule only when the
      file pattern did not ask for unpacking.  An option that is `undefined`
      or empty is the empty string here; both are falsy in the source. */
  function ShouldUnpack(m: Matcher, cwd: string, filename: string, relativePath: string,
                        unpack: string, unpackDir: string, dirs: seq<string>): Result<Decision> {
    var byPattern := if unpack == "" then Ok(false) else FilePatternMatch(m, filename, unpack);
    match byPattern
      case Err(e) => Err(e)
      case Ok(true) => Ok(Decision(true, dirs))
      case Ok(false) =>
        if unpackDir == "" then Ok(Decision(false, dirs))
        else UnpackedDir(m, cwd, relativePath, unpackDir, dirs)
  }

  /** A file pattern that asks for unpacking decides on its own: the directory
      option is not consulted and the list is left alone. */
  lemma PatternFirst(m: Matcher, cwd: string, filename: string, relativePath: string,
                     unpack: string, unpackDir1: string, unpackDir2: string, dirs: seq<string>)
    requires unpack != "" && FilePatternMatch(m, filename, unpack) == Ok(true)
    ensures ShouldUnpack(m, cwd, filename, relativePath, unpack, unpackDir1, dirs) == Ok(Decision(true, dirs))
    ensures ShouldUnpack(m, cwd, filename, relativePath, unpack, unpackDir2, dirs) == Ok(Decision(true, dirs))
  {
  }

  /** Lines 177-178: when the file pattern is absent or does not match, the
      directory rule decides on `relativePath` alone, or the answer is false
      with the list unchanged when there is no directory option. */
  lemma PatternMiss(m: Matcher, cwd: string, filename: string, relativePath: string,
                    unpack: string, unpackDir: string, dirs: seq<string>)
    requires unpack == "" || FilePatternMatch(m, filename, unpack) == Ok(false)
    ensures unpackDir != "" ==>
      ShouldUnpack(m, cwd, filename, relativePath, unpack, unpackDir, dirs)
      == UnpackedDir(m, cwd, relativePath, unpackDir, dirs)
    ensures unpackDir == "" ==>
      ShouldUnpack(m, cwd, filename, relativePath, unpack, unpackDir, dirs) == Ok(Decision(false, dirs))
  {
  }

  /** A file pattern that throws aborts before the directory rule. */
  lemma PatternErrorAborts(m: Matcher, cwd: string, filename: string, relativePath: string,
                           unpack: string, unpackDir: string, dirs: seq<string>)
    requires unpack != "" && FilePatternMatch(m, filename, unpack).Err?
    ensures ShouldUnpack(m, cwd, filename, relativePath, unpack, unpackDir, dirs)
         == Err(UnpackPatternError(unpack, filename))
  {
  }

  /** Without a file pattern (the case of every directory) the answer depends
      only on the relative path and the directory rule, never on `filename`. */
  lemma NoPatternIgnoresFilename(m: Matcher, cwd: string, filename1: string, filename2: string,
                                 relativePath: string, unpackDir: string, dirs: seq<string>)
    ensures ShouldUnpack(m, cwd, filename1, relativePath, "", unpackDir, dirs)
         == ShouldUnpack(m, cwd, filename2, relativePath, "", unpackDir, dirs)
    ensures unpackDir != "" ==>
      ShouldUnpack(m, cwd, filename1, relativePath, "", unpackDir, dirs)
      == UnpackedDir(m, cwd, relativePath, unpackDir, dirs)
  {
  }

  /** Through the whole rule the list only grows and stays free of duplicates. */
  lemma ShouldUnpackGrows(m: Matcher, cwd: string, filename: string, relativePath: string,
                          unpack: string, unpackDir: string, dirs: seq<string>)
    ensures var r := ShouldUnpack(m, cwd, filename, relativePath, unpack, unpackDir, dirs);
      r.Ok? ==> IsPrefix(dirs, r.value.unpackDirs) && (NoDup(dirs) ==> NoDup(r.value.unpackDirs))
  {
    UnpackedDirGrows(m, cwd, relativePath, unpackDir, dirs);
  }
}
