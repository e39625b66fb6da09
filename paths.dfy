/** The part of Node's POSIX `path` module that `src/asar.ts` relies on, over
    sequences of path components: `split`, `normalize`, `join`, `resolve`,
    `relative`, `dirname` and `basename`.  Only '/' separates components, and
    the trailing separator that `path.normalize` keeps is not represented. */
module Paths {
  import opened Base

  /** JavaScript `s.startsWith(prefix)`. */
  predicate StartsWith(s: string, prefix: string) {
    |prefix| <= |s| && s[..|prefix|] == prefix
  }

  /** JavaScript `parts.join(sep)`. */
  function JoinWith(parts: seq<string>, sep: char): string
  {
    if parts == [] then ""
    else if |parts| == 1 then parts[0]
    else parts[0] + [sep] + JoinWith(parts[1..], sep)
  }

  /** JavaScript `s.split(sep)`: the pieces between the separators, so that
      joining them again gives back `s`. */
  function Split(s: string, sep: char): seq<string>
    decreases |s|
  {
    if s == [] then [""]
    else
      var rest := Split(s[1..], sep);
      if s[0] == sep then [""] + rest
      else [[s[0]] + rest[0]] + rest[1..]
  }

  /** The pieces hold no separator, and joining them again gives back `s`. */
  lemma {:induction false} SplitFacts(s: string, sep: char)
    ensures |Split(s, sep)| >= 1
    ensures forall i :: 0 <= i < |Split(s, sep)| ==> sep !in Split(s, sep)[i]
    ensures JoinWith(Split(s, sep), sep) == s
    decreases |s|
  {
    if s != [] {
      SplitFacts(s[1..], sep);
      var rest := Split(s[1..], sep);
      if s[0] == sep {
        assert s == [sep] + s[1..];
      } else {
        var parts := [[s[0]] + rest[0]] + rest[1..];
        assert |rest| > 1 ==> JoinWith(rest, sep) == rest[0] + [sep] + JoinWith(rest[1..], sep);
        assert parts[1..] == rest[1..];
      }
    }
  }

  /** JavaScript `s.split(sep).pop()`: the text after the last separator. */
  function AfterLast(s: string, sep: char): (r: string)
    ensures sep !in r
    ensures |r| <= |s| && s[|s| - |r|..] == r
    ensures |r| < |s| ==> s[|s| - |r| - 1] == sep
    ensures sep !in s ==> r == s
  {
    SplitFacts(s, sep);
    var parts := Split(s, sep);
    if |parts| == 1 then parts[0]
    else
      JoinWithSnoc(parts[..|parts| - 1], parts[|parts| - 1], sep);
      assert parts[..|parts| - 1] + [parts[|parts| - 1]] == parts;
      parts[|parts| - 1]
  }

  lemma {:induction false} JoinWithSnoc(parts: seq<string>, last: string, sep: char)
    requires |parts| >= 1
    ensures JoinWith(parts + [last], sep) == JoinWith(parts, sep) + [sep] + last
    decreases |parts|
  {
    if |parts| == 1 {
      assert parts + [last] == [parts[0], last];
    } else {
      assert (parts + [last])[1..] == parts[1..] + [last];
      JoinWithSnoc(parts[1..], last, sep);
    }
  }

  lemma {:induction false} SplitNoSep(s: string, sep: char)
    requires sep !in s
    ensures Split(s, sep) == [s]
    decreases |s|
  {
    if s != [] {
      SplitNoSep(s[1..], sep);
      assert [s[0]] + s[1..] == s;
    }
  }

  /** Splitting a text made of two texts around one separator splits each of them. */
  lemma {:induction false} SplitConcat(a: string, b: string, sep: char)
    ensures Split(a + [sep] + b, sep) == Split(a, sep) + Split(b, sep)
    decreases |a|
  {
    if a == [] {
      assert [sep] + b == a + [sep] + b;
      assert (a + [sep] + b)[1..] == b;
    } else {
      assert (a + [sep] + b)[1..] == a[1..] + [sep] + b;
      SplitConcat(a[1..], b, sep);
    }
  }

  /** `split` undoes `join` when no part contains the separator. */
  lemma {:induction false} SplitJoinWith(parts: seq<string>, sep: char)
    requires |parts| >= 1
    requires forall i :: 0 <= i < |parts| ==> sep !in parts[i]
    ensures Split(JoinWith(parts, sep), sep) == parts
    decreases |parts|
  {
    if |parts| == 1 {
      SplitNoSep(parts[0], sep);
    } else {
      SplitJoinWith(parts[1..], sep);
      SplitConcat(parts[0], JoinWith(parts[1..], sep), sep);
      SplitNoSep(parts[0], sep);
      assert [parts[0]] + parts[1..] == parts;
    }
  }

  // ---------------------------------------------------------------------------
  // Normalisation

  /** A component that survives normalisation unchanged and is not `..`. */
  predicate Plain(c: string) {
    c != "" && c != "." && c != ".." && '/' !in c
  }

  /** The normal form `path.normalize` produces: plain components, except a
      leading run of `..` in a relative path; a rooted path has no `..`. */
  ghost predicate Normal(rooted: bool, parts: seq<string>) {
    && (forall i :: 0 <= i < |parts| ==> Plain(parts[i]) || (!rooted && parts[i] == ".."))
    && (forall i, j :: 0 <= i < j < |parts| && parts[j] == ".." ==> parts[i] == "..")
  }

  /** One segment of Node's `normalizeString`: empty and `.` segments vanish,
      `..` removes the previous segment when there is one that is not itself
      `..`, and otherwise is kept only above a relative path's start. */
  function Step(rooted: bool, acc: seq<string>, c: string): seq<string> {
    if c == "" || c == "." then acc
    else if c == ".." then
      if |acc| > 0 && acc[|acc| - 1] != ".." then acc[..|acc| - 1]
      else if rooted then acc
      else acc + [".."]
    else acc + [c]
  }

  /** The segments `cs`, walked left to right from `acc`. */
  function Fold(rooted: bool, acc: seq<string>, cs: seq<string>): seq<string>
    decreases |cs|
  {
    if cs == [] then acc
    else Step(rooted, Fold(rooted, acc, cs[..|cs| - 1]), cs[|cs| - 1])
  }

  lemma StepNormal(rooted: bool, acc: seq<string>, c: string)
    requires Normal(rooted, acc) && '/' !in c
    ensures Normal(rooted, Step(rooted, acc, c))
  {
    if c == ".." && !(|acc| > 0 && acc[|acc| - 1] != "..") && !rooted {
      var r := acc + [".."];
      forall i, j | 0 <= i < j < |r| && r[j] == ".." ensures r[i] == ".." {
        if j == |acc| {
          assert acc[|acc| - 1] == "..";
        }
      }
    }
  }

  lemma {:induction false} FoldNormal(rooted: bool, acc: seq<string>, cs: seq<string>)
    requires Normal(rooted, acc)
    requires forall i :: 0 <= i < |cs| ==> '/' !in cs[i]
    ensures Normal(rooted, Fold(rooted, acc, cs))
    decreases |cs|
  {
    if cs != [] {
      FoldNormal(rooted, acc, cs[..|cs| - 1]);
      StepNormal(rooted, Fold(rooted, acc, cs[..|cs| - 1]), cs[|cs| - 1]);
    }
  }

  /** Walking `a` and then `b` is walking `a + b`. */
  lemma {:induction false} FoldAppend(rooted: bool, acc: seq<string>, a: seq<string>, b: seq<string>)
    ensures Fold(rooted, acc, a + b) == Fold(rooted, Fold(rooted, acc, a), b)
    decreases |b|
  {
    if b == [] {
      assert a + b == a;
    } else {
      assert (a + b)[..|a + b| - 1] == a + b[..|b| - 1];
      assert (a + b)[|a + b| - 1] == b[|b| - 1];
      FoldAppend(rooted, acc, a, b[..|b| - 1]);
    }
  }

  /** Plain segments are appended as they are. */
  lemma {:induction false} FoldPlain(rooted: bool, acc: seq<string>, cs: seq<string>)
    requires forall i :: 0 <= i < |cs| ==> Plain(cs[i])
    ensures Fold(rooted, acc, cs) == acc + cs
    decreases |cs|
  {
    if cs != [] {
      FoldPlain(rooted, acc, cs[..|cs| - 1]);
      assert acc + cs[..|cs| - 1] + [cs[|cs| - 1]] == acc + cs;
    }
  }

  /** Normalising what is already normal changes nothing. */
  lemma {:induction false} FoldNormalIdentity(rooted: bool, parts: seq<string>)
    requires Normal(rooted, parts)
    ensures Fold(rooted, [], parts) == parts
    decreases |parts|
  {
    if parts != [] {
      var init := parts[..|parts| - 1];
      TakeSnoc(parts, |parts| - 1);
      NormalPrefix(rooted, parts, |parts| - 1);
      FoldNormalIdentity(rooted, init);
      if parts[|parts| - 1] == ".." && init != [] {
        assert init[|init| - 1] == "..";
      }
    }
  }

  // ---------------------------------------------------------------------------
  // Parsed paths

  /** A normalised path: rooted (absolute) or relative, and its components. */
  datatype Path = Path(rooted: bool, parts: seq<string>)

  predicate IsRooted(s: string) {
    |s| > 0 && s[0] == '/'
  }

  /** The components `path.normalize(s)` keeps. */
  function Parse(s: string): (p: Path)
    ensures p.rooted == IsRooted(s)
  {
    Path(IsRooted(s), Fold(IsRooted(s), [], Split(s, '/')))
  }

  /** What `Parse` yields is in normal form. */
  lemma ParseNormal(s: string)
    ensures Normal(Parse(s).rooted, Parse(s).parts)
  {
    SplitFacts(s, '/');
    FoldNormal(IsRooted(s), [], Split(s, '/'));
  }

  /** The text of a normalised path: `/` for the root, `.` for the empty relative path. */
  function Render(p: Path): string {
    if p.rooted then "/" + JoinWith(p.parts, '/')
    else if p.parts == [] then "."
    else JoinWith(p.parts, '/')
  }

  lemma {:induction false} JoinWithHead(parts: seq<string>, sep: char)
    requires |parts| >= 1 && |parts[0]| >= 1
    ensures |JoinWith(parts, sep)| >= 1 && JoinWith(parts, sep)[0] == parts[0][0]
  {
  }

  /** Reading back the text of a normal path gives the same path. */
  lemma ParseRender(p: Path)
    requires Normal(p.rooted, p.parts)
    ensures Parse(Render(p)) == p
  {
    var s := Render(p);
    forall i | 0 <= i < |p.parts| ensures '/' !in p.parts[i] {
      assert Plain(p.parts[i]) || p.parts[i] == "..";
    }
    if p.rooted {
      SplitConcat("", JoinWith(p.parts, '/'), '/');
      assert s == "" + ['/'] + JoinWith(p.parts, '/');
      if p.parts == [] {
        assert Split(s, '/') == ["", ""];
      } else {
        SplitJoinWith(p.parts, '/');
        FoldAppend(true, [], [""], p.parts);
        assert Fold(true, [], [""]) == [];
        FoldNormalIdentity(true, p.parts);
      }
    } else if p.parts == [] {
      assert s == "." && s[1..] == "";
      assert Split(s[1..], '/') == [""];
      assert [s[0]] + "" == ".";
      assert Split(s, '/') == ["."];
    } else {
      assert Plain(p.parts[0]) || p.parts[0] == "..";
      JoinWithHead(p.parts, '/');
      SplitJoinWith(p.parts, '/');
      FoldNormalIdentity(false, p.parts);
    }
  }

  /** `path.normalize(s)`. */
  function Normalize(s: string): (r: string)
    ensures r != ""
  {
    ParseNormal(s);
    RenderNonEmpty(Parse(s));
    Render(Parse(s))
  }

  lemma RenderNonEmpty(p: Path)
    requires Normal(p.rooted, p.parts)
    ensures Render(p) != ""
  {
    if !p.rooted && p.parts != [] {
      assert Plain(p.parts[0]) || p.parts[0] == "..";
      JoinWithHead(p.parts, '/');
    }
  }

  /** Normalising keeps the path it names, and normalising twice is normalising once. */
  lemma NormalizeParse(s: string)
    ensures Parse(Normalize(s)) == Parse(s)
    ensures Normalize(Normalize(s)) == Normalize(s)
  {
    ParseNormal(s);
    ParseRender(Parse(s));
  }

  /** `path.join(a, b)`: empty arguments are dropped, the rest joined with '/'
      and normalised (an all-empty join gives "."). */
  function Join(a: string, b: string): (r: string)
    ensures r != ""
  {
    Normalize(if a == "" then b else if b == "" then a else a + "/" + b)
  }

  lemma JoinRawParse(a: string, b: string)
    requires a != ""
    ensures Parse(if b == "" then a else a + "/" + b)
         == Path(IsRooted(a), Fold(IsRooted(a), Parse(a).parts, Split(b, '/')))
  {
    if b == "" {
      assert Split(b, '/') == [""];
    } else {
      SplitConcat(a, b, '/');
      FoldAppend(IsRooted(a), [], Split(a, '/'), Split(b, '/'));
    }
  }

  /** Joining walks the segments of `b` from the normalised `a`; the result is normal. */
  lemma JoinParse(a: string, b: string)
    requires a != ""
    ensures Parse(Join(a, b)) == Path(IsRooted(a), Fold(IsRooted(a), Parse(a).parts, Split(b, '/')))
    ensures Normalize(Join(a, b)) == Join(a, b)
  {
    var raw := if b == "" then a else a + "/" + b;
    NormalizeParse(raw);
    JoinRawParse(a, b);
  }

  /** Joining twice is joining once with the two texts separated by '/'. */
  lemma JoinJoin(a: string, x: string, c: string)
    requires a != ""
    ensures Join(Join(a, x), c) == Join(a, x + "/" + c)
  {
    var j := Join(a, x);
    var rooted := IsRooted(a);
    JoinParse(a, x);
    JoinParse(j, c);
    JoinParse(a, x + "/" + c);
    assert IsRooted(j) == rooted;
    SplitConcat(x, c, '/');
    FoldAppend(rooted, Parse(a).parts, Split(x, '/'), Split(c, '/'));
    assert Parse(Join(j, c)) == Parse(Join(a, x + "/" + c));
  }

  /** `path.resolve(s)` with the process working directory `cwd` (an absolute path). */
  function Resolve(cwd: string, s: string): seq<string>
  {
    Fold(true, [], Split(if IsRooted(s) then s else cwd + "/" + s, '/'))
  }

  /** A resolved path is rooted and normal: it has no `..`. */
  lemma ResolveNormal(cwd: string, s: string)
    ensures Normal(true, Resolve(cwd, s))
  {
    SplitFacts(if IsRooted(s) then s else cwd + "/" + s, '/');
    FoldNormal(true, [], Split(if IsRooted(s) then s else cwd + "/" + s, '/'));
  }

  /** An absolute path resolves to its own normalised components. */
  lemma ResolveRooted(cwd: string, s: string)
    requires IsRooted(s)
    ensures Resolve(cwd, s) == Parse(s).parts
  {
  }

  /** Joining one plain component appends it. */
  lemma JoinPlain(a: string, c: string)
    requires a != "" && Plain(c)
    ensures Parse(Join(a, c)) == Path(IsRooted(a), Parse(a).parts + [c])
  {
    JoinParse(a, c);
    SplitNoSep(c, '/');
  }

  /** Length of the longest common prefix of two component sequences. */
  function CommonPrefixLength(a: seq<string>, b: seq<string>): (k: nat)
    ensures k <= |a| && k <= |b| && a[..k] == b[..k]
    ensures k < |a| && k < |b| ==> a[k] != b[k]
  {
    if a == [] || b == [] || a[0] != b[0] then 0
    else
      var k := 1 + CommonPrefixLength(a[1..], b[1..]);
      assert a[..k] == [a[0]] + a[1..][..k - 1];
      assert b[..k] == [b[0]] + b[1..][..k - 1];
      k
  }

  /** `n` parent-directory segments. */
  function Ups(n: nat): (r: seq<string>)
    ensures |r| == n && forall i :: 0 <= i < n ==> r[i] == ".."
  {
    seq(n, _ => "..")
  }

  /** `path.relative(from, to)`: climb from `from` to the longest common
      ancestor, then descend to `to`; "" when both resolve to the same place. */
  function Relative(cwd: string, from: string, to: string): string
  {
    var f := Resolve(cwd, from);
    var t := Resolve(cwd, to);
    var k := CommonPrefixLength(f, t);
    JoinWith(Ups(|f| - k) + t[k..], '/')
  }

  /** From a rooted directory to a rooted path one plain component below it,
      the relative path is that component. */
  lemma RelativeChild(cwd: string, from: string, to: string, c: string)
    requires IsRooted(from) && IsRooted(to) && Plain(c)
    requires Parse(to).parts == Parse(from).parts + [c]
    ensures Relative(cwd, from, to) == c
  {
    var f := Resolve(cwd, from);
    var t := Resolve(cwd, to);
    ResolveRooted(cwd, from);
    ResolveRooted(cwd, to);
    var k := CommonPrefixLength(f, t);
    assert k == |f|;
    assert Ups(|f| - k) + t[k..] == [c];
  }

  lemma JoinWithThree(a: string, b: string, c: string, sep: char)
    ensures JoinWith([a, b, c], sep) == a + [sep] + b + [sep] + c
  {
    assert [a, b, c][1..] == [b, c] && [b, c][1..] == [c];
    assert JoinWith([b, c], sep) == b + [sep] + c;
    assert JoinWith([a, b, c], sep) == a + [sep] + (b + [sep] + c);
  }

  /** A rooted path written as '/' and plain components separated by '/'
      parses back to those components. */
  lemma ParseRootedPlain(parts: seq<string>)
    requires forall i :: 0 <= i < |parts| ==> Plain(parts[i])
    ensures Parse("/" + JoinWith(parts, '/')) == Path(true, parts)
  {
    ParseRender(Path(true, parts));
  }

  /** The relative path is empty exactly when both paths resolve to the same place. */
  lemma RelativeEmpty(cwd: string, from: string, to: string)
    ensures Relative(cwd, from, to) == "" <==> Resolve(cwd, from) == Resolve(cwd, to)
  {
    var f := Resolve(cwd, from);
    var t := Resolve(cwd, to);
    ResolveNormal(cwd, from);
    ResolveNormal(cwd, to);
    RelativeShape(f, t, CommonPrefixLength(f, t));
  }

  lemma RelativeShape(f: seq<string>, t: seq<string>, k: nat)
    requires Normal(true, f) && Normal(true, t)
    requires k == CommonPrefixLength(f, t)
    ensures var rel := Ups(|f| - k) + t[k..];
      JoinWith(rel, '/') == "" <==> f == t
  {
    var rel := Ups(|f| - k) + t[k..];
    if rel != [] {
      assert rel[0] == ".." || Plain(rel[0]);
      JoinWithHead(rel, '/');
      assert JoinWith(rel, '/') != "";
      if f == t {
        assert false;
      }
    } else {
      assert f == f[..k] && t == t[..k];
    }
  }

  /** The test the source applies to a relative path: `relative(dest, p).startsWith('..')`. */
  predicate Escapes(cwd: string, dest: string, p: string) {
    StartsWith(Relative(cwd, dest, p), "..")
  }

  /** `p` resolves to `dest` itself or to something below it. */
  ghost predicate Inside(cwd: string, dest: string, p: string) {
    IsPrefix(Resolve(cwd, dest), Resolve(cwd, p))
  }

  lemma JoinWithStartsWithDots(parts: seq<string>)
    requires |parts| >= 1 && (Plain(parts[0]) || parts[0] == "..")
    ensures StartsWith(JoinWith(parts, '/'), "..") <==> StartsWith(parts[0], "..")
  {
    var s := JoinWith(parts, '/');
    if |parts| > 1 {
      assert s == parts[0] + ['/'] + JoinWith(parts[1..], '/');
      if |parts[0]| >= 2 {
        assert s[..2] == parts[0][..2];
      } else {
        assert parts[0][0] != '.';
        assert s[0] == parts[0][0];
      }
    }
  }

  /** The escape test, said in components: it fires exactly when `p` is not at
      or below `dest`, or when the first component below `dest` begins with
      two dots (so a member named `..x` is rejected too). */
  lemma EscapesIff(cwd: string, dest: string, p: string)
    ensures Escapes(cwd, dest, p) <==>
      (!Inside(cwd, dest, p) ||
       (|Resolve(cwd, p)| > |Resolve(cwd, dest)| && StartsWith(Resolve(cwd, p)[|Resolve(cwd, dest)|], "..")))
  {
    var f := Resolve(cwd, dest);
    var t := Resolve(cwd, p);
    ResolveNormal(cwd, dest);
    ResolveNormal(cwd, p);
    var k := CommonPrefixLength(f, t);
    var rel := Ups(|f| - k) + t[k..];
    assert Relative(cwd, dest, p) == JoinWith(rel, '/');
    if IsPrefix(f, t) {
      assert k == |f|;
      assert rel == t[|f|..];
      if rel != [] {
        assert Plain(t[|f|]);
        JoinWithStartsWithDots(rel);
      }
    } else {
      assert k < |f|;
      JoinWithStartsWithDots(rel);
    }
  }

  /** Whatever passes the escape test lies at or below `dest`. */
  lemma NotEscapesInside(cwd: string, dest: string, p: string)
    requires !Escapes(cwd, dest, p)
    ensures Inside(cwd, dest, p)
  {
    EscapesIff(cwd, dest, p);
  }

  /** `path.dirname(s)` for a normalised `s`: drop the last component (the root
      and the empty relative path are their own parents). Every call site in the
      source passes the result of `normalize` or `join`. */
  function Dirname(s: string): string
  {
    var p := Parse(s);
    Render(Path(p.rooted, if p.parts == [] then [] else p.parts[..|p.parts| - 1]))
  }

  /** The parent keeps the rootedness and all components but the last. */
  lemma DirnameParse(s: string)
    ensures Parse(Dirname(s)).rooted == Parse(s).rooted
    ensures Parse(s).parts == [] ==> Parse(Dirname(s)).parts == []
    ensures Parse(s).parts != [] ==>
      Parse(Dirname(s)).parts + [Parse(s).parts[|Parse(s).parts| - 1]] == Parse(s).parts
  {
    var p := Parse(s);
    ParseNormal(s);
    var parent := Path(p.rooted, if p.parts == [] then [] else p.parts[..|p.parts| - 1]);
    if p.parts != [] {
      NormalPrefix(p.rooted, p.parts, |p.parts| - 1);
      TakeSnoc(p.parts, |p.parts| - 1);
    }
    ParseRender(parent);
  }

  /** The parent of a path two components below `src` is one component below it. */
  lemma DirnameChild(f: string, src: string, dir: string, name: string)
    requires Parse(f) == Path(true, Parse(src).parts + [dir, name])
    ensures Parse(Dirname(f)).parts == Parse(src).parts + [dir]
  {
    DirnameParse(f);
    var d := Parse(Dirname(f)).parts;
    assert d + [name] == Parse(src).parts + [dir] + [name];
    assert d == (d + [name])[..|d|];
  }

  lemma NormalPrefix(rooted: bool, parts: seq<string>, k: nat)
    requires Normal(rooted, parts) && k <= |parts|
    ensures Normal(rooted, parts[..k])
  {
  }

  lemma TakeSnoc(s: seq<string>, j: nat)
    requires j < |s|
    ensures s[..j + 1] == s[..j] + [s[j]]
  {
  }

  /** `s` with its trailing separators removed. */
  function TrimTrailingSlashes(s: string): (r: string)
    ensures IsPrefix(r, s)
    ensures r == [] || r[|r| - 1] != '/'
    ensures forall i :: |r| <= i < |s| ==> s[i] == '/'
  {
    if s != [] && s[|s| - 1] == '/' then TrimTrailingSlashes(s[..|s| - 1]) else s
  }

  /** `path.basename(s)`: the last component, trailing separators ignored. */
  function Basename(s: string): (r: string)
    ensures '/' !in r
    ensures '/' !in s ==> r == s
  {
    AfterLast(TrimTrailingSlashes(s), '/')
  }

  /** The base name is what follows the last separator once the trailing
      separators are dropped, or all of that text when it holds none. */
  lemma BasenameLast(s: string)
    ensures var t := TrimTrailingSlashes(s); var r := Basename(s);
      && '/' !in r
      && |r| <= |t| && t[|t| - |r|..] == r
      && (|r| < |t| ==> t[|t| - |r| - 1] == '/')
  {
  }
}
