/** The markdown scanner: fences, headings, and one block per heading-free section. Lines
    are those of `splitlines()`, so they hold no line break. */
module Markdown {
  import opened Prelude
  import opened Text
  import opened Chunking

  datatype Heading = Heading(level: nat, title: string)
  datatype Parsed = Blocks(blocks: seq<Block>) | ParseError

  // ----- one line -----

  predicate IsFence(line: string) {
    |line| >= 3 && (line[..3] == "```" || line[..3] == "~~~")
  }

  function HashRun(s: string): (n: nat)
    ensures n <= |s|
  {
    if s != "" && s[0] == '#' then 1 + HashRun(s[1..]) else 0
  }

  function DropHashes(s: string): string {
    if s != "" && s[0] == '#' then DropHashes(s[1..]) else s
  }

  /** `\s*#*\s*$` matches all of `s`. */
  predicate ClosesHeading(s: string) {
    StripLeft(DropHashes(StripLeft(s))) == ""
  }

  /** The lazy `.+?`: the shortest prefix of length at least `n` whose rest closes the heading. */
  function TitleLength(s: string, n: nat): (len: nat)
    requires 1 <= n <= |s|
    ensures n <= len <= |s| && ClosesHeading(s[len..])
    ensures forall m :: n <= m < len ==> !ClosesHeading(s[m..])
    decreases |s| - n
  {
    if n == |s| || ClosesHeading(s[n..]) then n else TitleLength(s, n + 1)
  }

  /** How much of what follows the hashes `\s+` takes: all the whitespace, but for the one
      character the text needs. */
  function Gap(rest: string): nat
    requires rest != ""
  {
    Min(SpaceRun(rest, 0), |rest| - 1)
  }

  /** What `(.+?)` captures in what follows the hashes. */
  function Captured(rest: string): string
    requires rest != ""
  {
    var text := rest[Gap(rest)..];
    text[..TitleLength(text, 1)]
  }

  /** `^(#{1,6})\s+(.+?)\s*#*\s*$`: one to six hashes, whitespace, and something after it. */
  function HeadingOf(line: string): (h: Option<Heading>)
    ensures h.Some? ==> 1 <= h.value.level <= 6
  {
    var level := HashRun(line);
    var rest := line[level..];
    if 1 <= level <= 6 && |rest| >= 2 && IsSpace(rest[0]) then Some(Heading(level, Strip(Captured(rest))))
    else None
  }

  // ----- what the heading expression matches -----

  ghost predicate Spaces(s: string, lo: nat, hi: nat) {
    lo <= hi <= |s| && forall j :: lo <= j < hi ==> IsSpace(s[j])
  }

  ghost predicate Hashes(s: string, lo: nat, hi: nat) {
    lo <= hi <= |s| && forall j :: lo <= j < hi ==> s[j] == '#'
  }

  /** `\s*#*\s*$` from position `i`. */
  ghost predicate Tail(s: string, i: nat) {
    exists a: nat, b: nat :: Spaces(s, i, a) && Hashes(s, a, b) && Spaces(s, b, |s|)
  }

  /** A way for the expression to match: `level` hashes, whitespace up to `text`, the captured
      text up to `end`, and a tail. */
  ghost predicate Matches(line: string, level: nat, text: nat, end: nat) {
    && 1 <= level <= 6 && level < text < end <= |line|
    && Hashes(line, 0, level) && Spaces(line, level, text) && Tail(line, end)
  }

  lemma {:induction false} HashRunIs(s: string, n: nat)
    requires Hashes(s, 0, n) && (n < |s| ==> s[n] != '#')
    ensures HashRun(s) == n && DropHashes(s) == s[n..]
  {
    if n > 0 {
      assert s[1..][n - 1..] == s[n..];
      HashRunIs(s[1..], n - 1);
    }
  }

  lemma {:induction false} HashRunStops(s: string)
    ensures Hashes(s, 0, HashRun(s)) && (HashRun(s) < |s| ==> s[HashRun(s)] != '#')
    ensures DropHashes(s) == s[HashRun(s)..]
  {
    if s != "" && s[0] == '#' {
      HashRunStops(s[1..]);
      assert forall j :: 0 < j < HashRun(s) ==> s[j] == s[1..][j - 1];
      assert s[1..][HashRun(s) - 1..] == s[HashRun(s)..];
    }
  }

  lemma {:induction false} SpacesStop(s: string)
    ensures exists a: nat :: Spaces(s, 0, a) && StripLeft(s) == s[a..] && (a < |s| ==> !IsSpace(s[a]))
  {
    if s != "" && IsSpace(s[0]) {
      SpacesStop(s[1..]);
      var a: nat :| Spaces(s[1..], 0, a) && StripLeft(s[1..]) == s[1..][a..] && (a < |s[1..]| ==> !IsSpace(s[1..][a]));
      assert forall j :: 0 < j < a + 1 ==> s[j] == s[1..][j - 1];
      assert s[1..][a..] == s[a + 1..];
      assert Spaces(s, 0, a + 1);
    } else {
      assert Spaces(s, 0, 0) && s[0..] == s;
    }
  }

  lemma {:induction false} AllSpaceStrips(s: string)
    ensures StripLeft(s) == "" <==> Spaces(s, 0, |s|)
  {
    SpacesStop(s);
    if Spaces(s, 0, |s|) {
      var a: nat :| Spaces(s, 0, a) && StripLeft(s) == s[a..] && (a < |s| ==> !IsSpace(s[a]));
      assert a == |s|;
    }
  }

  /** However a tail is cut, the whitespace after the longest run of hashes reaches the end. */
  lemma TailIsMaximal(s: string, a: nat, b: nat)
    requires Spaces(s, 0, a) && (a < |s| ==> !IsSpace(s[a]))
    requires Hashes(s, a, b) && (b < |s| ==> s[b] != '#') && Tail(s, 0)
    ensures Spaces(s, b, |s|)
  {
    var x: nat, y: nat :| Spaces(s, 0, x) && Hashes(s, x, y) && Spaces(s, y, |s|);
    assert x <= a;
    assert x < y ==> s[x] == '#' && !IsSpace(s[x]);
    assert x < a ==> IsSpace(s[x]);
    if x == y {
      assert a == |s|;
    } else {
      assert x == a && y <= b;
    }
  }

  /** The recursive check is the expression's tail. */
  lemma ClosesIsTail(s: string)
    ensures ClosesHeading(s) <==> Tail(s, 0)
  {
    SpacesStop(s);
    var a: nat :| Spaces(s, 0, a) && StripLeft(s) == s[a..] && (a < |s| ==> !IsSpace(s[a]));
    HashRunStops(s[a..]);
    var b := a + HashRun(s[a..]);
    assert s[a..][b - a..] == s[b..];
    AllSpaceStrips(s[b..]);
    assert ClosesHeading(s) <==> Spaces(s[b..], 0, |s[b..]|);
    assert forall j :: b <= j < |s| ==> s[j] == s[b..][j - b];
    assert forall j :: a <= j < |s| ==> s[j] == s[a..][j - a];
    assert Hashes(s, a, b);
    if Tail(s, 0) { TailIsMaximal(s, a, b); }
  }

  lemma TailShifts(s: string, i: nat)
    requires i <= |s|
    ensures Tail(s, i) <==> Tail(s[i..], 0)
  {
    assert forall j :: i <= j < |s| ==> s[j] == s[i..][j - i];
    if Tail(s, i) {
      var a: nat, b: nat :| Spaces(s, i, a) && Hashes(s, a, b) && Spaces(s, b, |s|);
      assert Spaces(s[i..], 0, a - i) && Hashes(s[i..], a - i, b - i) && Spaces(s[i..], b - i, |s[i..]|);
    }
    if Tail(s[i..], 0) {
      var a: nat, b: nat :| Spaces(s[i..], 0, a) && Hashes(s[i..], a, b) && Spaces(s[i..], b, |s[i..]|);
      assert Spaces(s, i, a + i) && Hashes(s, a + i, b + i) && Spaces(s, b + i, |s|);
    }
  }

  /** Some match exists exactly when the line has one to six hashes, then whitespace, then
      something more; and the hashes of any match are all those the line starts with. */
  lemma MatchesIff(line: string)
    ensures HeadingOf(line).Some? <==> exists level: nat, text: nat, end: nat :: Matches(line, level, text, end)
    ensures forall level: nat, text: nat, end: nat :: Matches(line, level, text, end) ==> level == HashRun(line)
  {
    forall level: nat, text: nat, end: nat | Matches(line, level, text, end)
      ensures level == HashRun(line) && HeadingOf(line).Some?
    {
      assert IsSpace(line[level]);
      HashRunIs(line, level);
    }
    if HeadingOf(line).Some? {
      var level := HashRun(line);
      HashRunStops(line);
      assert IsSpace(line[level..][0]);
      assert Spaces(line, |line|, |line|) && Hashes(line, |line|, |line|);
      assert Matches(line, level, level + 1, |line|);
    }
  }

  lemma {:induction false} SpaceRunIsLongest(s: string, i: nat, n: nat)
    requires Spaces(s, i, i + n)
    ensures n <= SpaceRun(s, i)
    decreases n
  {
    if n > 0 { SpaceRunIsLongest(s, i + 1, n - 1); }
  }

  /** Where `HeadingOf` takes the text to begin and end. */
  function TextStart(line: string): nat
    requires HeadingOf(line).Some?
  {
    HashRun(line) + Gap(line[HashRun(line)..])
  }

  function TextOf(line: string): string
    requires HeadingOf(line).Some?
  {
    Captured(line[HashRun(line)..])
  }

  function TextEnd(line: string): nat
    requires HeadingOf(line).Some?
  {
    TextStart(line) + |TextOf(line)|
  }

  lemma SpacesShift(s: string, i: nat, lo: nat, hi: nat)
    requires i <= lo <= hi <= |s|
    ensures Spaces(s, lo, hi) <==> Spaces(s[i..], lo - i, hi - i)
  {
    assert forall j :: lo <= j < hi ==> s[j] == s[i..][j - i];
    assert forall j :: lo - i <= j < hi - i ==> s[i..][j] == s[j + i];
  }

  lemma TailCloses(s: string, i: nat)
    requires i <= |s|
    ensures ClosesHeading(s[i..]) <==> Tail(s, i)
  {
    ClosesIsTail(s[i..]);
    TailShifts(s, i);
  }

  /** The text starts after at least one whitespace character, and is not empty. */
  lemma TextIsInside(line: string)
    requires HeadingOf(line).Some?
    ensures 1 <= HashRun(line) <= 6 && HashRun(line) < TextStart(line) < |line|
    ensures Hashes(line, 0, HashRun(line)) && Spaces(line, HashRun(line), TextStart(line))
  {
    var level := HashRun(line);
    var rest := line[level..];
    HashRunStops(line);
    assert SpaceRun(rest, 0) >= 1;
    assert Spaces(rest, 0, TextStart(line) - level);
    SpacesShift(line, level, level, TextStart(line));
  }

  lemma CapturedIs(rest: string)
    requires rest != ""
    ensures var text, n := rest[Gap(rest)..], |Captured(rest)|;
      1 <= n <= |text| && Captured(rest) == text[..n] && n == TitleLength(text, 1)
  {
  }

  lemma CapturedSlice(line: string, level: nat)
    requires level < |line|
    ensures var rest := line[level..];
      var start := level + Gap(rest);
      start + |Captured(rest)| <= |line| && Captured(rest) == line[start..start + |Captured(rest)|]
  {
    var rest := line[level..];
    CapturedIs(rest);
    DropDropTake(line, level, level + Gap(rest), |Captured(rest)|);
  }

  lemma TextIsSlice(line: string)
    requires HeadingOf(line).Some?
    ensures TextEnd(line) <= |line| && TextOf(line) == line[TextStart(line)..TextEnd(line)]
  {
    CapturedSlice(line, HashRun(line));
  }

  lemma TextCloses(line: string)
    requires HeadingOf(line).Some?
    ensures TextStart(line) < TextEnd(line) <= |line| && Tail(line, TextEnd(line))
  {
    CapturedIs(line[HashRun(line)..]);
    DropTwice(line, HashRun(line), TextStart(line));
    DropTwice(line, TextStart(line), TextEnd(line));
    TailCloses(line, TextEnd(line));
  }

  lemma HeadingMatches(line: string)
    requires HeadingOf(line).Some?
    ensures Matches(line, HashRun(line), TextStart(line), TextEnd(line))
    ensures TextOf(line) == line[TextStart(line)..TextEnd(line)]
    ensures HeadingOf(line) == Some(Heading(HashRun(line), Strip(TextOf(line))))
  {
    TextIsInside(line);
    TextCloses(line);
    TextIsSlice(line);
  }

  /** The match is the expression's own. The greedy whitespace takes all it can ... */
  lemma GapIsGreedy(line: string, text: nat, end: nat)
    requires HeadingOf(line).Some? && Matches(line, HashRun(line), text, end)
    ensures text <= TextStart(line)
  {
    SpacesShift(line, HashRun(line), HashRun(line), text);
    SpaceRunIsLongest(line[HashRun(line)..], 0, text - HashRun(line));
  }

  /** ... and the lazy text then ends as early as it can. */
  lemma TextIsLazy(line: string, end: nat)
    requires HeadingOf(line).Some? && Matches(line, HashRun(line), TextStart(line), end)
    ensures TextEnd(line) <= end
  {
    TailCloses(line, end);
    CapturedIs(line[HashRun(line)..]);
    DropTwice(line, HashRun(line), TextStart(line));
    DropTwice(line, TextStart(line), end);
  }

  // ----- the document -----

  /** An odd number of fence lines precede line `i`. */
  predicate InFence(lines: seq<string>, i: nat)
    requires i <= |lines|
  {
    i > 0 && (InFence(lines, i - 1) != IsFence(lines[i - 1]))
  }

  /** The heading a line is, if it is one: `# ...` inside a fence is code. */
  function ReadLine(line: string, inFence: bool): Option<Heading> {
    if IsFence(line) || inFence then None else HeadingOf(line)
  }

  function HeadingAt(lines: seq<string>, i: nat): Option<Heading>
    requires i < |lines|
  {
    ReadLine(lines[i], InFence(lines, i))
  }

  /** The heading each line is, if any. The theory below sees only these and the lines. */
  function Marks(lines: seq<string>): seq<Option<Heading>> {
    seq(|lines|, i requires 0 <= i < |lines| => HeadingAt(lines, i))
  }

  /** Line `k` is no heading, or one below heading `j`. */
  ghost predicate Deeper(marks: seq<Option<Heading>>, j: nat, k: nat)
    requires j < |marks| && k < |marks| && marks[j].Some?
  {
    marks[k].Some? ==> marks[k].value.level > marks[j].value.level
  }

  /** Heading `j` still encloses position `i`: no later heading up to there has its level or a lower one. */
  ghost predicate Encloses(marks: seq<Option<Heading>>, j: nat, i: nat)
    requires j < i <= |marks|
  {
    marks[j].Some? && forall k :: j < k < i ==> Deeper(marks, j, k)
  }

  /** Heading `j`, if it encloses position `i`. */
  ghost function EnclosingHead(marks: seq<Option<Heading>>, j: nat, i: nat): seq<Heading>
    requires j < i <= |marks|
  {
    if Encloses(marks, j, i) then [marks[j].value] else []
  }

  /** The headings from line `j` on that enclose position `i`, in document order. */
  ghost function EnclosingFrom(marks: seq<Option<Heading>>, j: nat, i: nat): seq<Heading>
    requires j <= i <= |marks|
    decreases i - j
  {
    if j == i then []
    else EnclosingHead(marks, j, i) + EnclosingFrom(marks, j + 1, i)
  }

  ghost function Enclosing(marks: seq<Option<Heading>>, i: nat): seq<Heading>
    requires i <= |marks|
  {
    EnclosingFrom(marks, 0, i)
  }

  function Titles(hs: seq<Heading>): seq<string> {
    seq(|hs|, i requires 0 <= i < |hs| => hs[i].title)
  }

  // ----- the heading stack -----

  ghost predicate Increasing(hs: seq<Heading>) {
    forall i, j :: 0 <= i < j < |hs| ==> hs[i].level < hs[j].level
  }

  ghost function Below(hs: seq<Heading>, level: nat): seq<Heading> {
    if hs == [] then [] else (if hs[0].level < level then [hs[0]] else []) + Below(hs[1..], level)
  }

  lemma {:induction false} BelowAppend(a: seq<Heading>, b: seq<Heading>, level: nat)
    ensures Below(a + b, level) == Below(a, level) + Below(b, level)
  {
    if a == [] {
      assert a + b == b;
    } else {
      assert (a + b)[1..] == a[1..] + b && (a + b)[0] == a[0];
      BelowAppend(a[1..], b, level);
      Shift(if a[0].level < level then [a[0]] else [], Below(a[1..], level), Below(b, level));
    }
  }

  lemma {:induction false} BelowAll(hs: seq<Heading>, level: nat)
    requires forall i :: 0 <= i < |hs| ==> hs[i].level < level
    ensures Below(hs, level) == hs
  {
    if hs != [] { BelowAll(hs[1..], level); }
  }

  lemma EnclosesNext(marks: seq<Option<Heading>>, j: nat, i: nat)
    requires j < i < |marks|
    ensures EnclosingHead(marks, j, i + 1)
         == if marks[i].None? then EnclosingHead(marks, j, i)
            else Below(EnclosingHead(marks, j, i), marks[i].value.level)
  {
    assert Encloses(marks, j, i) ==> (Encloses(marks, j, i + 1) <==> Deeper(marks, j, i));
  }

  /** The enclosing headings after line `i`, when those before it are `hs`. */
  ghost function After(hs: seq<Heading>, mark: Option<Heading>): seq<Heading> {
    if mark.None? then hs else Below(hs, mark.value.level) + [mark.value]
  }

  ghost predicate Follows(marks: seq<Option<Heading>>, j: nat, i: nat)
    requires j <= i < |marks|
  {
    EnclosingFrom(marks, j, i + 1) == After(EnclosingFrom(marks, j, i), marks[i])
  }

  lemma EnclosingStep(marks: seq<Option<Heading>>, j: nat, i: nat)
    requires j < i < |marks| && Follows(marks, j + 1, i)
    ensures Follows(marks, j, i)
  {
    EnclosesNext(marks, j, i);
    var head, tail := EnclosingHead(marks, j, i), EnclosingFrom(marks, j + 1, i);
    if marks[i].Some? {
      var h := marks[i].value;
      BelowAppend(head, tail, h.level);
      Shift(Below(head, h.level), Below(tail, h.level), [h]);
    }
  }

  lemma EnclosingStart(marks: seq<Option<Heading>>, i: nat)
    requires i < |marks|
    ensures Follows(marks, i, i)
  {
    assert EnclosingFrom(marks, i + 1, i + 1) == [];
    assert Encloses(marks, i, i + 1) <==> marks[i].Some?;
  }

  /** A heading keeps the enclosing ones above its level and joins them; any other line changes nothing. */
  lemma {:induction false} EnclosingNext(marks: seq<Option<Heading>>, j: nat, i: nat)
    requires j <= i < |marks|
    ensures Follows(marks, j, i)
    decreases i - j
  {
    if j == i {
      EnclosingStart(marks, i);
    } else {
      EnclosingNext(marks, j + 1, i);
      EnclosingStep(marks, j, i);
    }
  }

  lemma IncreasingCons(h: Heading, below: seq<Heading>, hs: seq<Heading>)
    requires hs != [] && hs[0] == h && Increasing(hs) && Increasing(below)
    requires forall x :: x in below ==> x in hs[1..]
    ensures Increasing([h] + below)
  {
    assert forall i :: 0 <= i < |below| ==> below[i] in hs[1..];
  }

  lemma {:induction false} BelowIncreasing(hs: seq<Heading>, level: nat)
    requires Increasing(hs)
    ensures Increasing(Below(hs, level))
    ensures forall h :: h in Below(hs, level) ==> h in hs && h.level < level
  {
    if hs != [] {
      BelowIncreasing(hs[1..], level);
      IncreasingCons(hs[0], Below(hs[1..], level), hs);
    }
  }

  lemma PushIncreases(hs: seq<Heading>, h: Heading)
    requires Increasing(hs)
    ensures Increasing(Below(hs, h.level) + [h])
  {
    BelowIncreasing(hs, h.level);
    var kept := Below(hs, h.level);
    assert forall i :: 0 <= i < |kept| ==> kept[i] in kept;
  }

  /** The enclosing levels strictly increase. */
  lemma {:induction false} EnclosingIncreases(marks: seq<Option<Heading>>, i: nat)
    requires i <= |marks|
    ensures Increasing(Enclosing(marks, i))
  {
    if i > 0 {
      EnclosingIncreases(marks, i - 1);
      EnclosingNext(marks, 0, i - 1);
      if marks[i - 1].Some? { PushIncreases(Enclosing(marks, i - 1), marks[i - 1].value); }
    }
  }

  /** `stack` is `before` with some headings popped that `level` had to displace. */
  ghost predicate Popped(before: seq<Heading>, stack: seq<Heading>, level: nat) {
    stack <= before && Below(before[|stack|..], level) == []
  }

  lemma PopOne(before: seq<Heading>, stack: seq<Heading>, level: nat)
    requires Popped(before, stack, level) && stack != [] && stack[|stack| - 1].level >= level
    ensures Popped(before, stack[..|stack| - 1], level)
  {
    var n := |stack| - 1;
    assert before[n..][1..] == before[n + 1..];
  }

  lemma PopDone(before: seq<Heading>, stack: seq<Heading>, level: nat)
    requires Increasing(before) && Popped(before, stack, level)
    requires stack != [] ==> stack[|stack| - 1].level < level
    ensures stack == Below(before, level)
  {
    assert before == stack + before[|stack|..];
    BelowAppend(stack, before[|stack|..], level);
    BelowAll(stack, level);
  }

  /** What a flush appends: the stripped section text with its heading path, if any text is left. */
  function Section(buf: seq<string>, stack: seq<Heading>): seq<Block> {
    var text := Strip(Join(buf, '\n'));
    if text == "" then [] else [Block(text, Meta(None, Some(Titles(stack))))]
  }

  class Scanner {
    var blocks: seq<Block>
    var headingStack: seq<Heading>
    var buf: seq<string>
    var inFence: bool

    constructor ()
      ensures blocks == [] && headingStack == [] && buf == [] && !inFence
    {
      blocks, headingStack, buf, inFence := [], [], [], false;
    }

    method Flush()
      modifies this
      ensures blocks == old(blocks) + Section(old(buf), headingStack)
      ensures buf == [] && headingStack == old(headingStack) && inFence == old(inFence)
    {
      var text := Strip(Join(buf, '\n'));
      buf := [];
      if text != "" {
        blocks := blocks + [Block(text, Meta(None, Some(Titles(headingStack))))];
      }
    }

    /** Pop every heading of this level or deeper, then push. */
    method PushHeading(h: Heading)
      requires Increasing(headingStack)
      modifies this`headingStack
      ensures headingStack == Below(old(headingStack), h.level) + [h]
    {
      ghost var before := headingStack;
      while headingStack != [] && headingStack[|headingStack| - 1].level >= h.level
        invariant Popped(before, headingStack, h.level)
        decreases |headingStack|
      {
        PopOne(before, headingStack, h.level);
        headingStack := headingStack[..|headingStack| - 1];
      }
      PopDone(before, headingStack, h.level);
      headingStack := headingStack + [h];
    }
  }

  // ----- the blocks -----

  /** The sections from line `i` on, when the current one began at line `from`. */
  ghost function SectionsFrom(lines: seq<string>, marks: seq<Option<Heading>>, from: nat, i: nat): seq<Block>
    requires from <= i <= |lines| == |marks|
    decreases |lines| - i
  {
    if i == |lines| then Section(lines[from..i], Enclosing(marks, i))
    else if marks[i].Some? then
      Section(lines[from..i], Enclosing(marks, i)) + SectionsFrom(lines, marks, i + 1, i + 1)
    else SectionsFrom(lines, marks, from, i + 1)
  }

  ghost function Sections(lines: seq<string>): seq<Block> {
    SectionsFrom(lines, Marks(lines), 0, 0)
  }

  /** Where the scanner stands before line `i`, its buffer holding the lines since `from`. */
  ghost predicate Scanned(lines: seq<string>, from: nat, i: nat, blocks: seq<Block>, stack: seq<Heading>, buf: seq<string>)
    requires i <= |lines|
  {
    && from <= i && buf == lines[from..i]
    && stack == Enclosing(Marks(lines), i)
    && blocks + SectionsFrom(lines, Marks(lines), from, i) == Sections(lines)
  }

  lemma ScanText(lines: seq<string>, from: nat, i: nat, blocks: seq<Block>, stack: seq<Heading>, buf: seq<string>)
    requires i < |lines| && HeadingAt(lines, i).None? && Scanned(lines, from, i, blocks, stack, buf)
    ensures Scanned(lines, from, i + 1, blocks, stack, buf + [lines[i]])
  {
    EnclosingNext(Marks(lines), 0, i);
    SliceSnoc(lines, from, i);
  }

  lemma ScanHeading(lines: seq<string>, from: nat, i: nat, blocks: seq<Block>, stack: seq<Heading>, buf: seq<string>, h: Heading)
    requires i < |lines| && HeadingAt(lines, i) == Some(h) && Scanned(lines, from, i, blocks, stack, buf)
    ensures Scanned(lines, i + 1, i + 1, blocks + Section(buf, stack), Below(stack, h.level) + [h], [])
    ensures Increasing(stack)
  {
    EnclosingNext(Marks(lines), 0, i);
    EnclosingIncreases(Marks(lines), i);
    Shift(blocks, Section(buf, stack), SectionsFrom(lines, Marks(lines), i + 1, i + 1));
  }

  lemma ScanStart(lines: seq<string>)
    ensures Scanned(lines, 0, 0, [], [], [])
  {
  }

  /** The scanner yields the sections, each under the headings that enclose it, and refuses
      a document without body text. */
  method ParseMarkdown(lines: seq<string>) returns (r: Parsed)
    ensures r == if Sections(lines) == [] then ParseError else Blocks(Sections(lines))
  {
    var s := new Scanner();
    ghost var from: nat := 0;
    ScanStart(lines);
    for i := 0 to |lines|
      invariant fresh(s)
      invariant s.inFence == InFence(lines, i)
      invariant Scanned(lines, from, i, s.blocks, s.headingStack, s.buf)
    {
      if IsFence(lines[i]) {
        ScanText(lines, from, i, s.blocks, s.headingStack, s.buf);
        s.inFence := !s.inFence;
        s.buf := s.buf + [lines[i]];
        continue;
      }
      var heading := if s.inFence then None else HeadingOf(lines[i]);
      if heading.None? {
        ScanText(lines, from, i, s.blocks, s.headingStack, s.buf);
        s.buf := s.buf + [lines[i]];
        continue;
      }
      ScanHeading(lines, from, i, s.blocks, s.headingStack, s.buf, heading.value);
      s.Flush();
      s.PushHeading(heading.value);
      from := i + 1;
    }
    s.Flush();
    r := if s.blocks == [] then ParseError else Blocks(s.blocks);
  }

  // ----- nothing is lost, and everything is filed under its headings -----

  /** A word and the heading path it stands under. */
  datatype Filed = Filed(word: string, path: seq<string>)

  function FileUnder(words: seq<string>, path: seq<string>): seq<Filed> {
    seq(|words|, i requires 0 <= i < |words| => Filed(words[i], path))
  }

  /** The words of the body lines `i..end`, each under the headings that enclose its line. */
  ghost function FiledLines(lines: seq<string>, marks: seq<Option<Heading>>, i: nat, end: nat): seq<Filed>
    requires i <= end <= |lines| == |marks|
    decreases end - i
  {
    if i == end then []
    else
      (if marks[i].Some? then [] else FileUnder(Words(lines[i]), Titles(Enclosing(marks, i))))
      + FiledLines(lines, marks, i + 1, end)
  }

  /** The words of the blocks, each under its block's heading path. */
  function FiledBlocks(blocks: seq<Block>): seq<Filed> {
    if blocks == [] then []
    else
      FileUnder(Words(blocks[0].text), if blocks[0].meta.headings.Some? then blocks[0].meta.headings.value else [])
      + FiledBlocks(blocks[1..])
  }

  lemma {:induction false} FiledBlocksAppend(a: seq<Block>, b: seq<Block>)
    ensures FiledBlocks(a + b) == FiledBlocks(a) + FiledBlocks(b)
  {
    if a == [] {
      assert a + b == b;
    } else {
      assert (a + b)[1..] == a[1..] + b;
      FiledBlocksAppend(a[1..], b);
    }
  }

  lemma FiledSection(buf: seq<string>, stack: seq<Heading>)
    ensures FiledBlocks(Section(buf, stack)) == FileUnder(WordsOfAll(buf), Titles(stack))
  {
    var text := Strip(Join(buf, '\n'));
    WordsOfStrip(Join(buf, '\n'));
    WordsOfJoin(buf, '\n');
    if text != "" {
      assert FiledBlocks(Section(buf, stack)[1..]) == [];
    } else {
      StripEmpty(Join(buf, '\n'));
    }
  }

  lemma FileUnderAppend(a: seq<string>, b: seq<string>, path: seq<string>)
    ensures FileUnder(a + b, path) == FileUnder(a, path) + FileUnder(b, path)
  {
  }

  lemma FiledLine(lines: seq<string>, from: nat, end: nat, path: seq<string>)
    requires from < end <= |lines|
    ensures FileUnder(WordsOfAll(lines[from..end]), path)
         == FileUnder(Words(lines[from]), path) + FileUnder(WordsOfAll(lines[from + 1..end]), path)
  {
    WordsOfAllCons(lines[from], lines[from + 1..end]);
    FileUnderAppend(Words(lines[from]), WordsOfAll(lines[from + 1..end]), path);
    assert lines[from..end] == [lines[from]] + lines[from + 1..end];
  }

  /** Between headings the path does not change, so a section's lines are filed as one. */
  lemma {:induction false} FiledRun(lines: seq<string>, marks: seq<Option<Heading>>, from: nat, end: nat)
    requires from <= end <= |lines| == |marks|
    requires forall k :: from <= k < end ==> marks[k].None?
    ensures Enclosing(marks, from) == Enclosing(marks, end)
    ensures FiledLines(lines, marks, from, end) == FileUnder(WordsOfAll(lines[from..end]), Titles(Enclosing(marks, end)))
    decreases end - from
  {
    if from < end {
      EnclosingNext(marks, 0, from);
      FiledRun(lines, marks, from + 1, end);
      FiledLine(lines, from, end, Titles(Enclosing(marks, end)));
    }
  }

  lemma {:induction false} FiledSplit(lines: seq<string>, marks: seq<Option<Heading>>, a: nat, b: nat, c: nat)
    requires a <= b <= c <= |lines| == |marks|
    ensures FiledLines(lines, marks, a, c) == FiledLines(lines, marks, a, b) + FiledLines(lines, marks, b, c)
    decreases b - a
  {
    if a < b { FiledSplit(lines, marks, a + 1, b, c); }
  }

  lemma SectionFiled(lines: seq<string>, marks: seq<Option<Heading>>, from: nat, i: nat)
    requires from <= i <= |lines| == |marks|
    requires forall k :: from <= k < i ==> marks[k].None?
    ensures FiledBlocks(Section(lines[from..i], Enclosing(marks, i))) == FiledLines(lines, marks, from, i)
  {
    FiledRun(lines, marks, from, i);
    FiledSection(lines[from..i], Enclosing(marks, i));
  }

  lemma NothingBefore<T>(s: seq<T>)
    ensures [] + s == s
  {
  }

  lemma FiledHeading(lines: seq<string>, marks: seq<Option<Heading>>, from: nat, i: nat)
    requires from <= i < |lines| == |marks| && marks[i].Some?
    ensures FiledLines(lines, marks, from, |lines|)
         == FiledLines(lines, marks, from, i) + FiledLines(lines, marks, i + 1, |lines|)
  {
    FiledSplit(lines, marks, from, i, |lines|);
    NothingBefore(FiledLines(lines, marks, i + 1, |lines|));
  }

  lemma {:induction false} SectionsFiled(lines: seq<string>, marks: seq<Option<Heading>>, from: nat, i: nat)
    requires from <= i <= |lines| == |marks|
    requires forall k :: from <= k < i ==> marks[k].None?
    ensures FiledBlocks(SectionsFrom(lines, marks, from, i)) == FiledLines(lines, marks, from, |lines|)
    decreases |lines| - i
  {
    if i == |lines| {
      SectionFiled(lines, marks, from, i);
    } else if marks[i].Some? {
      SectionsFiled(lines, marks, i + 1, i + 1);
      FiledHeading(lines, marks, from, i);
      SectionFiled(lines, marks, from, i);
      FiledBlocksAppend(Section(lines[from..i], Enclosing(marks, i)), SectionsFrom(lines, marks, i + 1, i + 1));
    } else {
      SectionsFiled(lines, marks, from, i + 1);
    }
  }

  /** Every word of every body line is in exactly one block, in order, under exactly the
      headings that enclose its line. */
  lemma BodyIsFiled(lines: seq<string>)
    ensures FiledBlocks(Sections(lines)) == FiledLines(lines, Marks(lines), 0, |lines|)
  {
    SectionsFiled(lines, Marks(lines), 0, 0);
  }

  lemma SectionHasText(buf: seq<string>, stack: seq<Heading>)
    ensures forall b :: b in Section(buf, stack) ==> Words(b.text) != []
  {
    WordsOfStrip(Join(buf, '\n'));
    StripEmpty(Join(buf, '\n'));
  }

  /** Every block has a word. */
  lemma {:induction false} SectionsHaveText(lines: seq<string>, marks: seq<Option<Heading>>, from: nat, i: nat)
    requires from <= i <= |lines| == |marks|
    ensures forall b :: b in SectionsFrom(lines, marks, from, i) ==> Words(b.text) != []
    decreases |lines| - i
  {
    SectionHasText(lines[from..i], Enclosing(marks, i));
    if i < |lines| {
      SectionsHaveText(lines, marks, if marks[i].Some? then i + 1 else from, i + 1);
    }
  }
}
