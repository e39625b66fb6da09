/** The ordering pass of `createPackageFromFiles` (src/asar.ts:99-143): each
    line of the ordering file is cleaned, expanded into the chain of its
    ancestor paths under `src`, and the crawled filenames are reordered so that
    those reached through the ordering come first. */
module Ordering {
  import opened Base
  import opened Paths

  // ---------------------------------------------------------------------------
  // Cleaning one line

  /** The characters JavaScript's `String.prototype.trim` removes: white space
      and line terminators. */
  predicate IsSpace(c: char) {
    || c == '\t' || c == '\n' || c == '\U{000B}' || c == '\U{000C}' || c == '\r' || c == ' '
    || c == '\U{00A0}' || c == '\U{1680}' || ('\U{2000}' <= c <= '\U{200A}')
    || c == '\U{2028}' || c == '\U{2029}' || c == '\U{202F}' || c == '\U{205F}'
    || c == '\U{3000}' || c == '\U{FEFF}'
  }

  /** Number of white-space characters `s` starts with. */
  function LeadingSpace(s: string): (n: nat)
    ensures n <= |s|
    ensures forall i :: 0 <= i < n ==> IsSpace(s[i])
    ensures n < |s| ==> !IsSpace(s[n])
  {
    if s == [] || !IsSpace(s[0]) then 0 else 1 + LeadingSpace(s[1..])
  }

  /** Number of white-space characters `s` ends with. */
  function TrailingSpace(s: string): (n: nat)
    ensures n <= |s|
    ensures forall i :: |s| - n <= i < |s| ==> IsSpace(s[i])
    ensures n < |s| ==> !IsSpace(s[|s| - n - 1])
  {
    if s == [] || !IsSpace(s[|s| - 1]) then 0 else 1 + TrailingSpace(s[..|s| - 1])
  }

  predicate Trimmed(s: string) {
    s == [] || (!IsSpace(s[0]) && !IsSpace(s[|s| - 1]))
  }

  /** `s.trim()`: the part of `s` between its leading and its trailing white space. */
  function Trim(s: string): (r: string)
    ensures Trimmed(r)
    ensures Trimmed(s) ==> r == s
    ensures LeadingSpace(s) + |r| <= |s| && r == s[LeadingSpace(s)..LeadingSpace(s) + |r|]
    ensures forall k :: LeadingSpace(s) + |r| <= k < |s| ==> IsSpace(s[k])
  {
    var i := LeadingSpace(s);
    var t := s[i..];
    var r := t[..|t| - TrailingSpace(t)];
    assert s[i..i + |r|] == r;
    r
  }

  /** One line of the ordering file, as the `map` at lines 103-112 rewrites it:
      only the text after the last ':' is kept, it is trimmed, and at most one
      leading '/' is removed. */
  function NormalizeLine(line: string): (r: string)
    ensures ':' !in r
    ensures r == [] || !IsSpace(r[|r| - 1])
    ensures var t := Trim(AfterLast(line, ':')); StartsWith(t, "/") ==> r == t[1..]
    ensures var t := Trim(AfterLast(line, ':')); !StartsWith(t, "/") ==> r == t
    ensures Trimmed(line) && ':' !in line && !StartsWith(line, "/") ==> r == line
  {
    var afterColon := if ':' in line then AfterLast(line, ':') else line;
    assert afterColon == AfterLast(line, ':');
    var trimmed := Trim(afterColon);
    assert ':' !in trimmed by {
      assert forall c :: c in trimmed ==> c in afterColon;
    }
    if StartsWith(trimmed, "/") then
      assert trimmed == "/" + trimmed[1..];
      trimmed[1..]
    else trimmed
  }

  /** The ordering file's text, split into lines and cleaned. */
  function OrderingLines(text: string): (lines: seq<string>)
    ensures |lines| == |Split(text, '\n')|
    ensures forall i :: 0 <= i < |lines| ==> lines[i] == NormalizeLine(Split(text, '\n')[i])
  {
    var raw := Split(text, '\n');
    seq<string>(|raw|, i requires 0 <= i < |raw| => NormalizeLine(raw[i]))
  }

  // ---------------------------------------------------------------------------
  // Expanding a line into its ancestor chain

  /** `src` joined with each component in turn, as the inner loop's `str` is. */
  function Walk(src: string, comps: seq<string>): string
    decreases |comps|
  {
    if comps == [] then src
    else Join(Walk(src, comps[..|comps| - 1]), comps[|comps| - 1])
  }

  lemma WalkSnoc(src: string, comps: seq<string>, j: nat)
    requires j < |comps|
    ensures Walk(src, comps[..j + 1]) == Join(Walk(src, comps[..j]), comps[j])
  {
    assert comps[..j + 1][..j] == comps[..j];
  }

  /** Walking the components one by one reaches what joining them all at once
      reaches. */
  lemma {:induction false} WalkJoin(src: string, comps: seq<string>)
    requires src != "" && comps != []
    ensures Walk(src, comps) == Join(src, JoinWith(comps, '/'))
    decreases |comps|
  {
    var init := comps[..|comps| - 1];
    var last := comps[|comps| - 1];
    if init == [] {
      assert comps == [last];
    } else {
      WalkJoin(src, init);
      assert init + [last] == comps;
      JoinWithSnoc(init, last, '/');
      JoinJoin(src, JoinWith(init, '/'), last);
    }
  }

  /** What one line with components `comps` contributes to `ordering`: the
      walk after the first one, two, ... components. */
  function AncestorChain(src: string, comps: seq<string>): (r: seq<string>)
    ensures |r| == |comps|
  {
    seq<string>(|comps|, i requires 0 <= i < |comps| => Walk(src, comps[..i + 1]))
  }

  /** Walking plain components appends them to the components of `src`. */
  lemma WalkPlain(src: string, cs: seq<string>)
    requires src != "" && cs != []
    requires forall k :: 0 <= k < |cs| ==> Plain(cs[k])
    ensures Parse(Walk(src, cs)) == Path(IsRooted(src), Parse(src).parts + cs)
  {
    WalkJoin(src, cs);
    JoinParse(src, JoinWith(cs, '/'));
    SplitJoinWith(cs, '/');
    FoldPlain(IsRooted(src), Parse(src).parts, cs);
  }

  /** When every component is a plain name, the i-th entry of the chain is
      `src` followed by the first i+1 components. */
  lemma AncestorChainPlain(src: string, comps: seq<string>, i: nat)
    requires src != ""
    requires forall k :: 0 <= k < |comps| ==> Plain(comps[k])
    requires i < |comps|
    ensures Parse(AncestorChain(src, comps)[i]) == Path(IsRooted(src), Parse(src).parts + comps[..i + 1])
  {
    WalkPlain(src, comps[..i + 1]);
  }

  /** Ancestors come before descendants: an earlier entry of the chain is a
      strict ancestor of a later one. */
  lemma AncestorsFirst(src: string, comps: seq<string>, i: nat, j: nat)
    requires src != ""
    requires forall k :: 0 <= k < |comps| ==> Plain(comps[k])
    requires i < j < |comps|
    ensures var a := Parse(AncestorChain(src, comps)[i]).parts;
            var d := Parse(AncestorChain(src, comps)[j]).parts;
            |a| < |d| && IsPrefix(a, d)
  {
    var base := Parse(src).parts;
    var a := Parse(AncestorChain(src, comps)[i]).parts;
    var d := Parse(AncestorChain(src, comps)[j]).parts;
    AncestorChainPlain(src, comps, i);
    AncestorChainPlain(src, comps, j);
    assert a == base + comps[..i + 1];
    assert d == base + comps[..j + 1];
    assert comps[..j + 1][..i + 1] == comps[..i + 1];
    assert d[..|a|] == a;
  }

  /** The whole `ordering` list: the chains of all lines, in line order. */
  function Expansion(src: string, lines: seq<string>): (r: seq<string>)
    decreases |lines|
  {
    if lines == [] then []
    else Expansion(src, lines[..|lines| - 1]) + AncestorChain(src, Split(lines[|lines| - 1], '/'))
  }

  /** The nested loops at lines 114-122. */
  method ExpandOrdering(src: string, lines: seq<string>) returns (ordering: seq<string>)
    ensures ordering == Expansion(src, lines)
  {
    ordering := [];
    for n := 0 to |lines|
      invariant ordering == Expansion(src, lines[..n])
    {
      var pathComponents := Split(lines[n], '/');
      ghost var chain := AncestorChain(src, pathComponents);
      ghost var before := ordering;
      var str := src;
      assert pathComponents[..0] == [];
      for j := 0 to |pathComponents|
        invariant ordering == before + chain[..j]
        invariant str == Walk(src, pathComponents[..j])
      {
        WalkSnoc(src, pathComponents, j);
        str := Join(str, pathComponents[j]);
        ordering := ordering + [str];
        TakeSnoc(chain, j);
      }
      assert chain[..|pathComponents|] == chain;
      assert lines[..n + 1][..n] == lines[..n];
    }
    assert lines[..|lines|] == lines;
  }

  // ---------------------------------------------------------------------------
  // Merging the ordering with the crawled filenames

  /** The elements of `s` that occur in `allowed`, in order. */
  function Keep(s: seq<string>, allowed: seq<string>): seq<string>
    decreases |s|
  {
    if s == [] then []
    else Keep(s[..|s| - 1], allowed) + (if s[|s| - 1] in allowed then [s[|s| - 1]] else [])
  }

  /** The elements of `s` that do not occur in `excluded`, in order. */
  function Drop(s: seq<string>, excluded: seq<string>): seq<string>
    decreases |s|
  {
    if s == [] then []
    else Drop(s[..|s| - 1], excluded) + (if s[|s| - 1] !in excluded then [s[|s| - 1]] else [])
  }

  /** The first occurrence of every element of `s`, in order. */
  function Dedup(s: seq<string>): seq<string>
    decreases |s|
  {
    if s == [] then []
    else
      var d := Dedup(s[..|s| - 1]);
      if s[|s| - 1] in d then d else d + [s[|s| - 1]]
  }

  /** `Keep` retains exactly the allowed elements. */
  lemma {:induction false} KeepMembers(s: seq<string>, allowed: seq<string>)
    ensures forall x :: x in Keep(s, allowed) <==> x in s && x in allowed
    decreases |s|
  {
    if s != [] {
      assert s == s[..|s| - 1] + [s[|s| - 1]];
      KeepMembers(s[..|s| - 1], allowed);
    }
  }

  /** `Drop` retains exactly the elements not excluded. */
  lemma {:induction false} DropMembers(s: seq<string>, excluded: seq<string>)
    ensures forall x :: x in Drop(s, excluded) <==> x in s && x !in excluded
    decreases |s|
  {
    if s != [] {
      assert s == s[..|s| - 1] + [s[|s| - 1]];
      DropMembers(s[..|s| - 1], excluded);
    }
  }

  /** `Dedup` keeps every element and repeats none. */
  lemma {:induction false} DedupMembers(s: seq<string>)
    ensures forall x :: x in Dedup(s) <==> x in s
    ensures NoDup(Dedup(s))
    decreases |s|
  {
    if s != [] {
      assert s == s[..|s| - 1] + [s[|s| - 1]];
      DedupMembers(s[..|s| - 1]);
    }
  }

  /** The loops at lines 124-138: `missing` counts the filenames appended by
      the second loop. */
  method MergeOrdering(ordering: seq<string>, filenames: seq<string>)
    returns (filenamesSorted: seq<string>, missing: nat)
    ensures filenamesSorted == Dedup(Keep(ordering, filenames)) + Dedup(Drop(filenames, ordering))
    ensures missing == |Dedup(Drop(filenames, ordering))|
    ensures NoDup(filenamesSorted)
    ensures forall x :: x in filenamesSorted <==> x in filenames
    ensures missing == |Elems(filenames) - Elems(ordering)|
  {
    var placed := PlaceOrdered(ordering, filenames);
    filenamesSorted, missing := AppendMissing(placed, ordering, filenames);
    MergeFacts(ordering, filenames);
  }

  /** The first loop (lines 124-131): the ordering's entries that were crawled,
      each once, in the ordering's order. */
  method PlaceOrdered(ordering: seq<string>, filenames: seq<string>) returns (filenamesSorted: seq<string>)
    ensures filenamesSorted == Dedup(Keep(ordering, filenames))
  {
    filenamesSorted := [];
    for i := 0 to |ordering|
      invariant filenamesSorted == Dedup(Keep(ordering[..i], filenames))
    {
      var file := ordering[i];
      ghost var kept := Keep(ordering[..i], filenames);
      TakeSnoc(ordering, i);
      KeepSnoc(ordering[..i], file, filenames);
      DedupSnoc(kept, file);
      if file !in filenamesSorted && file in filenames {
        filenamesSorted := filenamesSorted + [file];
      }
    }
    assert ordering[..|ordering|] == ordering;
  }

  /** The second loop (lines 132-138): every crawled filename not yet placed is
      appended, and counted in `missing`. */
  method AppendMissing(placed: seq<string>, ordering: seq<string>, filenames: seq<string>)
    returns (filenamesSorted: seq<string>, missing: nat)
    requires placed == Dedup(Keep(ordering, filenames))
    ensures filenamesSorted == placed + Dedup(Drop(filenames, ordering))
    ensures missing == |Dedup(Drop(filenames, ordering))|
  {
    filenamesSorted := placed;
    missing := 0;
    for j := 0 to |filenames|
      invariant filenamesSorted == placed + Dedup(Drop(filenames[..j], ordering))
      invariant missing == |Dedup(Drop(filenames[..j], ordering))|
    {
      var file := filenames[j];
      AppendStep(ordering, filenames, j);
      if file !in filenamesSorted {
        filenamesSorted := filenamesSorted + [file];
        missing := missing + 1;
      }
    }
    assert filenames[..|filenames|] == filenames;
  }

  /** One step of the second loop: the next filename is appended exactly when
      it is neither placed nor already appended. */
  lemma AppendStep(ordering: seq<string>, filenames: seq<string>, j: nat)
    requires j < |filenames|
    ensures var placed := Dedup(Keep(ordering, filenames));
            var before := Dedup(Drop(filenames[..j], ordering));
            var after := Dedup(Drop(filenames[..j + 1], ordering));
            var file := filenames[j];
            && (file in placed + before ==> after == before)
            && (file !in placed + before ==> after == before + [file])
  {
    var file := filenames[j];
    TakeSnoc(filenames, j);
    DropSnoc(filenames[..j], file, ordering);
    DedupSnoc(Drop(filenames[..j], ordering), file);
    PlacedMember(ordering, filenames, file);
  }

  /** A crawled filename is placed by the first loop exactly when the ordering names it. */
  lemma PlacedMember(ordering: seq<string>, filenames: seq<string>, x: string)
    requires x in filenames
    ensures x in Dedup(Keep(ordering, filenames)) <==> x in ordering
  {
    KeepMembers(ordering, filenames);
    DedupMembers(Keep(ordering, filenames));
  }

  /** The merged list holds every filename once, and the second loop appends
      exactly the filenames the ordering does not name. */
  lemma MergeFacts(ordering: seq<string>, filenames: seq<string>)
    ensures var placed := Dedup(Keep(ordering, filenames));
            var rest := Dedup(Drop(filenames, ordering));
            && NoDup(placed + rest)
            && (forall x :: x in placed + rest <==> x in filenames)
            && |rest| == |Elems(filenames) - Elems(ordering)|
  {
    var placed := Dedup(Keep(ordering, filenames));
    var rest := Dedup(Drop(filenames, ordering));
    KeepMembers(ordering, filenames);
    DedupMembers(Keep(ordering, filenames));
    DropMembers(filenames, ordering);
    DedupMembers(Drop(filenames, ordering));
    DisjointNoDup(placed, rest);
    DistinctCount(rest);
    assert Elems(rest) == Elems(filenames) - Elems(ordering);
  }

  lemma KeepSnoc(s: seq<string>, x: string, allowed: seq<string>)
    ensures Keep(s + [x], allowed) == if x in allowed then Keep(s, allowed) + [x] else Keep(s, allowed)
  {
    assert (s + [x])[..|s|] == s;
    assert Keep(s, allowed) + [] == Keep(s, allowed);
  }

  lemma DropSnoc(s: seq<string>, x: string, excluded: seq<string>)
    ensures Drop(s + [x], excluded) == if x !in excluded then Drop(s, excluded) + [x] else Drop(s, excluded)
  {
    assert (s + [x])[..|s|] == s;
    assert Drop(s, excluded) + [] == Drop(s, excluded);
  }

  lemma DedupSnoc(s: seq<string>, x: string)
    ensures Dedup(s + [x]) == if x in Dedup(s) then Dedup(s) else Dedup(s) + [x]
  {
    assert (s + [x])[..|s|] == s;
  }

  lemma DisjointNoDup(p: seq<string>, q: seq<string>)
    requires NoDup(p) && NoDup(q)
    requires forall x :: x in p ==> x !in q
    ensures NoDup(p + q)
  {
    var r := p + q;
    forall i, j | 0 <= i < j < |r| ensures r[i] != r[j] {
      if i < |p| && j >= |p| {
        assert r[i] in p && r[j] == q[j - |p|];
      }
    }
  }

  /** A sequence without repetitions has as many elements as its set. */
  lemma {:induction false} DistinctCount(s: seq<string>)
    requires NoDup(s)
    ensures |Elems(s)| == |s|
    decreases |s|
  {
    if s != [] {
      var init := s[..|s| - 1];
      assert NoDup(init);
      DistinctCount(init);
      assert Elems(s) == Elems(init) + {s[|s| - 1]};
      assert s[|s| - 1] !in Elems(init);
    }
  }

  // ---------------------------------------------------------------------------
  // Order of the merged list

  /** Index of the first occurrence of `x` in `s`. */
  function FirstIndex(s: seq<string>, x: string): (i: nat)
    requires x in s
    ensures i < |s| && s[i] == x
    ensures forall j :: 0 <= j < i ==> s[j] != x
  {
    if s[0] == x then 0 else 1 + FirstIndex(s[1..], x)
  }

  /** `x` first occurs in `s` before `y` first does. */
  predicate Precedes(s: seq<string>, x: string, y: string) {
    x in s && y in s && FirstIndex(s, x) < FirstIndex(s, y)
  }

  lemma FirstIndexSnoc(s: seq<string>, z: string, x: string)
    requires x in s + [z]
    ensures x in s ==> FirstIndex(s + [z], x) == FirstIndex(s, x)
    ensures x !in s ==> FirstIndex(s + [z], x) == |s|
  {
    var i := FirstIndex(s + [z], x);
    if x in s {
      var k := FirstIndex(s, x);
      assert (s + [z])[k] == x;
    }
  }

  lemma FirstIndexConcat(p: seq<string>, q: seq<string>, x: string)
    requires x in p + q
    ensures x in p ==> FirstIndex(p + q, x) == FirstIndex(p, x)
    ensures x !in p ==> FirstIndex(p + q, x) == |p| + FirstIndex(q, x)
  {
    var i := FirstIndex(p + q, x);
    if x in p {
      var k := FirstIndex(p, x);
      assert (p + q)[k] == x;
    } else {
      var k := FirstIndex(q, x);
      assert (p + q)[|p| + k] == x;
      assert i >= |p|;
      assert q[i - |p|] == x;
    }
  }

  /** Removing repetitions keeps the order of first occurrences. */
  lemma {:induction false} DedupPrecedes(s: seq<string>, x: string, y: string)
    ensures Precedes(Dedup(s), x, y) <==> Precedes(s, x, y)
    decreases |s|
  {
    if s != [] {
      var init := s[..|s| - 1];
      var z := s[|s| - 1];
      assert s == init + [z];
      var d := Dedup(init);
      DedupMembers(init);
      DedupPrecedes(init, x, y);
      if x in s && y in s {
        if x in init { FirstIndexSnoc(init, z, x); }
        if y in init { FirstIndexSnoc(init, z, y); }
        if x !in init { FirstIndexSnoc(init, z, x); }
        if y !in init { FirstIndexSnoc(init, z, y); }
        if z !in d {
          if x in d { FirstIndexSnoc(d, z, x); } else { FirstIndexSnoc(d, z, x); }
          if y in d { FirstIndexSnoc(d, z, y); } else { FirstIndexSnoc(d, z, y); }
        }
      }
    }
  }

  /** Keeping the allowed elements keeps their relative order. */
  lemma {:induction false} KeepPrecedes(s: seq<string>, allowed: seq<string>, x: string, y: string)
    ensures Precedes(Keep(s, allowed), x, y) <==> (Precedes(s, x, y) && x in allowed && y in allowed)
    decreases |s|
  {
    if s != [] {
      var init := s[..|s| - 1];
      var z := s[|s| - 1];
      assert s == init + [z];
      var k := Keep(init, allowed);
      KeepMembers(init, allowed);
      KeepPrecedes(init, allowed, x, y);
      if x in s && y in s {
        FirstIndexSnoc(init, z, x);
        FirstIndexSnoc(init, z, y);
        if z in allowed {
          if x in k || x == z { FirstIndexSnoc(k, z, x); }
          if y in k || y == z { FirstIndexSnoc(k, z, y); }
        } else {
          assert Keep(s, allowed) == k;
        }
      }
    }
  }

  /** Dropping the excluded elements keeps the relative order of the rest. */
  lemma {:induction false} DropPrecedes(s: seq<string>, excluded: seq<string>, x: string, y: string)
    ensures Precedes(Drop(s, excluded), x, y) <==> (Precedes(s, x, y) && x !in excluded && y !in excluded)
    decreases |s|
  {
    if s != [] {
      var init := s[..|s| - 1];
      var z := s[|s| - 1];
      assert s == init + [z];
      var k := Drop(init, excluded);
      DropMembers(init, excluded);
      DropPrecedes(init, excluded, x, y);
      if x in s && y in s {
        FirstIndexSnoc(init, z, x);
        FirstIndexSnoc(init, z, y);
        if z !in excluded {
          if x in k || x == z { FirstIndexSnoc(k, z, x); }
          if y in k || y == z { FirstIndexSnoc(k, z, y); }
        } else {
          assert Drop(s, excluded) == k;
        }
      }
    }
  }

  /** The order of the merged list: entries reached through the ordering come
      first and keep the ordering's order; the remaining filenames follow in
      their crawled order. */
  lemma MergeOrder(ordering: seq<string>, filenames: seq<string>, x: string, y: string)
    ensures var placed := Dedup(Keep(ordering, filenames));
            var rest := Dedup(Drop(filenames, ordering));
            var sorted := placed + rest;
            && (x in placed && y in placed ==> (Precedes(sorted, x, y) <==> Precedes(ordering, x, y)))
            && (x in placed && y in rest ==> Precedes(sorted, x, y))
            && (x in rest && y in rest ==> (Precedes(sorted, x, y) <==> Precedes(filenames, x, y)))
  {
    var placed := Dedup(Keep(ordering, filenames));
    var rest := Dedup(Drop(filenames, ordering));
    var sorted := placed + rest;
    KeepMembers(ordering, filenames);
    DedupMembers(Keep(ordering, filenames));
    DropMembers(filenames, ordering);
    DedupMembers(Drop(filenames, ordering));
    if x in sorted { FirstIndexConcat(placed, rest, x); }
    if y in sorted { FirstIndexConcat(placed, rest, y); }
    if x in placed && y in placed {
      DedupPrecedes(Keep(ordering, filenames), x, y);
      KeepPrecedes(ordering, filenames, x, y);
    }
    if x in rest && y in rest {
      assert x !in placed && y !in placed;
      DedupPrecedes(Drop(filenames, ordering), x, y);
      DropPrecedes(filenames, ordering, x, y);
    }
  }

  /** With distinct filenames, `total - missing` is the number of entries placed
      from the ordering list. */
  lemma CoverageCount(ordering: seq<string>, filenames: seq<string>)
    requires NoDup(filenames)
    ensures |filenames| - |Dedup(Drop(filenames, ordering))| == |Dedup(Keep(ordering, filenames))|
  {
    var placed := Dedup(Keep(ordering, filenames));
    var rest := Dedup(Drop(filenames, ordering));
    MergeElems(ordering, filenames);
    DistinctCount(filenames);
    DistinctCount(placed);
    DistinctCount(rest);
    SplitCard(Elems(filenames), Elems(ordering));
  }

  /** The placed entries are the filenames the ordering mentions, the rest
      those it does not, each list without duplicates. */
  lemma MergeElems(ordering: seq<string>, filenames: seq<string>)
    ensures var placed := Dedup(Keep(ordering, filenames));
            var rest := Dedup(Drop(filenames, ordering));
      && NoDup(placed) && NoDup(rest)
      && Elems(placed) == Elems(filenames) * Elems(ordering)
      && Elems(rest) == Elems(filenames) - Elems(ordering)
  {
    KeepMembers(ordering, filenames);
    DedupMembers(Keep(ordering, filenames));
    DropMembers(filenames, ordering);
    DedupMembers(Drop(filenames, ordering));
  }

  lemma SplitCard(a: set<string>, b: set<string>)
    ensures |a| == |a * b| + |a - b|
  {
    assert a == (a * b) + (a - b);
    assert (a * b) !! (a - b);
  }

  /** Lines 98-143.  `orderingPath` is the `ordering` option ("" when it is
      absent, both being falsy) and `readFile` stands for `fs.readFile`.
      With an ordering file its cleaned lines are expanded and merged with the
      filenames; a failed read propagates; without one the filenames are kept
      as they are. */
  method SortFilenames(src: string, filenames: seq<string>, orderingPath: string,
                       readFile: string -> Attempt<string>)
    returns (r: Result<seq<string>>)
    ensures orderingPath == "" ==> r == Ok(filenames)
    ensures orderingPath != "" && readFile(orderingPath).Threw? ==> r == Err(IoFailure(readFile(orderingPath).message))
    ensures orderingPath != "" && readFile(orderingPath).Succeeded? ==>
      var ordering := Expansion(src, OrderingLines(readFile(orderingPath).value));
      r == Ok(Dedup(Keep(ordering, filenames)) + Dedup(Drop(filenames, ordering)))
    ensures r.Ok? ==> forall x :: x in r.value <==> x in filenames
    ensures r.Ok? && NoDup(filenames) ==> NoDup(r.value)
  {
    if orderingPath != "" {
      match readFile(orderingPath)
      case Threw(message) =>
        r := Err(IoFailure(message));
      case Succeeded(text) =>
        var orderingFiles := OrderingLines(text);
        var ordering := ExpandOrdering(src, orderingFiles);
        var filenamesSorted, missing := MergeOrdering(ordering, filenames);
        r := Ok(filenamesSorted);
    } else {
      r := Ok(filenames);
    }
  }
}
