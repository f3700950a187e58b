/** What the markdown scanner yields, said of whole documents: code between fences is not
    headings, a heading cuts a document in two, a run of lines without headings is one block,
    and a block stands under the titles of the headings still open there. */
module MarkdownLaws {
  import opened Prelude
  import opened Text
  import opened Chunking
  import opened Markdown

  // ----- fences -----

  /** A fence line begins with three backticks or three tildes. */
  lemma FenceIs(line: string)
    ensures IsFence(line) <==> exists rest :: line == "```" + rest || line == "~~~" + rest
  {
    if IsFence(line) {
      assert line == line[..3] + line[3..];
    }
    if exists rest :: line == "```" + rest || line == "~~~" + rest {
      var rest :| line == "```" + rest || line == "~~~" + rest;
      assert line[..3] == if line == "```" + rest then "```" else "~~~";
    }
  }

  ghost predicate NoFence(lines: seq<string>) {
    forall i :: 0 <= i < |lines| ==> !IsFence(lines[i])
  }

  /** Whether line `n + i` is inside a fence: what comes before line `n`, and what comes after. */
  lemma {:induction false} FenceShift(lines: seq<string>, n: nat, i: nat)
    requires n + i <= |lines|
    ensures InFence(lines, n + i) <==> (InFence(lines, n) != InFence(lines[n..], i))
  {
    if i > 0 {
      FenceShift(lines, n, i - 1);
      assert lines[n..][i - 1] == lines[n + i - 1];
    }
  }

  lemma {:induction false} FenceOfPrefix(a: seq<string>, b: seq<string>, i: nat)
    requires i <= |a|
    ensures InFence(a + b, i) == InFence(a, i)
  {
    if i > 0 { FenceOfPrefix(a, b, i - 1); }
  }

  lemma {:induction false} StillOutside(lines: seq<string>, i: nat)
    requires i <= |lines| && NoFence(lines[..i])
    ensures !InFence(lines, i)
  {
    if i > 0 {
      assert lines[..i][i - 1] == lines[i - 1] && lines[..i][..i - 1] == lines[..i - 1];
      StillOutside(lines, i - 1);
    }
  }

  function Fences(lines: seq<string>): seq<bool> {
    seq(|lines|, i requires 0 <= i < |lines| => InFence(lines, i))
  }

  /** The marks are the lines, each read with whether it is inside a fence. */
  lemma MarksAreRead(lines: seq<string>)
    ensures Marks(lines) == ZipMap(ReadLine, lines, Fences(lines))
  {
  }

  lemma FencesOfRest(lines: seq<string>, n: nat)
    requires n <= |lines| && !InFence(lines, n)
    ensures Fences(lines)[n..] == Fences(lines[n..])
  {
    forall i | 0 <= i < |lines| - n
      ensures Fences(lines)[n..][i] == Fences(lines[n..])[i]
    {
      FenceShift(lines, n, i);
    }
  }

  lemma FencesOfPrefix(a: seq<string>, b: seq<string>)
    ensures Fences(a + b)[..|a|] == Fences(a)
  {
    forall i | 0 <= i < |a|
      ensures Fences(a + b)[i] == Fences(a)[i]
    {
      FenceOfPrefix(a, b, i);
    }
  }

  /** From a line outside any fence on, the marks are those of the rest alone. */
  lemma MarksOfRest(lines: seq<string>, n: nat)
    requires n <= |lines| && !InFence(lines, n)
    ensures Marks(lines)[n..] == Marks(lines[n..])
  {
    MarksAreRead(lines);
    MarksAreRead(lines[n..]);
    FencesOfRest(lines, n);
    ZipMapDrop(ReadLine, lines, Fences(lines), n);
  }

  /** What comes after a line does not change how it is read. */
  lemma MarksOfPrefix(a: seq<string>, b: seq<string>)
    ensures Marks(a + b)[..|a|] == Marks(a)
    ensures forall i :: 0 <= i < |a| ==> Marks(a + b)[i] == Marks(a)[i]
  {
    MarksAreRead(a + b);
    MarksAreRead(a);
    FencesOfPrefix(a, b);
    ZipMapDrop(ReadLine, a + b, Fences(a + b), |a|);
    assert (a + b)[..|a|] == a;
    assert forall i :: 0 <= i < |a| ==> Marks(a + b)[i] == Marks(a + b)[..|a|][i];
  }

  /** Without fence lines every line is read by itself. */
  lemma PlainMarks(lines: seq<string>)
    requires NoFence(lines)
    ensures forall i :: 0 <= i < |lines| ==> Marks(lines)[i] == HeadingOf(lines[i])
  {
    forall i | 0 <= i < |lines|
      ensures Marks(lines)[i] == HeadingOf(lines[i])
    {
      StillOutside(lines, i);
    }
  }

  /** After a fence line, up to the next one, no line is a heading. */
  lemma {:induction false} InsideFence(a: seq<string>, fence: string, code: seq<string>, i: nat)
    requires NoFence(a) && IsFence(fence) && NoFence(code) && i <= |code|
    ensures InFence(a + [fence] + code, |a| + 1 + i)
  {
    var lines := a + [fence] + code;
    if i == 0 {
      assert lines[..|a|] == a && lines[|a|] == fence;
      StillOutside(lines, |a|);
    } else {
      InsideFence(a, fence, code, i - 1);
      assert lines[|a| + i] == code[i - 1];
    }
  }

  /** Lines `a` are read one by one. */
  ghost predicate ReadPlainly(marks: seq<Option<Heading>>, a: seq<string>) {
    |a| <= |marks| && forall i :: 0 <= i < |a| ==> marks[i] == HeadingOf(a[i])
  }

  /** Lines `lo` to `hi` are no headings. */
  ghost predicate AllCode(marks: seq<Option<Heading>>, lo: nat, hi: nat) {
    hi <= |marks| && forall i :: lo <= i < hi ==> marks[i].None?
  }

  lemma PlainPrefix(a: seq<string>, rest: seq<string>)
    requires NoFence(a)
    ensures ReadPlainly(Marks(a + rest), a)
  {
    MarksOfPrefix(a, rest);
    PlainMarks(a);
  }

  lemma CodeInside(a: seq<string>, fence: string, code: seq<string>)
    requires NoFence(a) && IsFence(fence) && NoFence(code)
    ensures AllCode(Marks(a + [fence] + code), |a|, |a| + 1 + |code|)
  {
    var lines := a + [fence] + code;
    assert lines[|a|] == fence;
    forall i | |a| <= i < |lines|
      ensures Marks(lines)[i].None?
    {
      if i > |a| { InsideFence(a, fence, code, i - |a| - 1); }
    }
  }

  /** A fence that is never closed: the rest of the document is code. */
  lemma UnclosedFence(a: seq<string>, fence: string, code: seq<string>)
    requires NoFence(a) && IsFence(fence) && NoFence(code)
    ensures var marks := Marks(a + [fence] + code);
      ReadPlainly(marks, a) && AllCode(marks, |a|, |marks|)
  {
    CodeInside(a, fence, code);
    assert a + [fence] + code == a + ([fence] + code);
    PlainPrefix(a, [fence] + code);
  }

  lemma CodePrefix(head: seq<string>, rest: seq<string>, lo: nat)
    requires AllCode(Marks(head), lo, |head|)
    ensures AllCode(Marks(head + rest), lo, |head|)
  {
    MarksOfPrefix(head, rest);
  }

  lemma AfterFence(head: seq<string>, close: string, b: seq<string>)
    requires InFence(head, |head|) && IsFence(close)
    ensures Marks(head + [close] + b)[|head| + 1..] == Marks(b)
    ensures Marks(head + [close] + b)[|head|].None?
  {
    var lines := head + [close] + b;
    assert lines == head + ([close] + b) && lines[|head|] == close && lines[|head| + 1..] == b;
    FenceOfPrefix(head, [close] + b, |head|);
    MarksOfRest(lines, |head| + 1);
  }

  /** A fenced block: before it every line is read by itself, in it no line is a heading, and
      after it the document goes on as if it began there. */
  lemma FencedBlock(a: seq<string>, open: string, code: seq<string>, close: string, b: seq<string>)
    requires NoFence(a) && IsFence(open) && NoFence(code) && IsFence(close)
    ensures var marks := Marks(a + [open] + code + [close] + b);
      && ReadPlainly(marks, a) && AllCode(marks, |a|, |a| + |code| + 2)
      && marks[|a| + |code| + 2..] == Marks(b)
  {
    var head := a + [open] + code;
    var lines := head + [close] + b;
    assert lines == a + ([open] + code + [close] + b) && lines == head + ([close] + b);
    PlainPrefix(a, [open] + code + [close] + b);
    CodeInside(a, open, code);
    CodePrefix(head, [close] + b, |a|);
    InsideFence(a, open, code, |code|);
    AfterFence(head, close, b);
  }

  // ----- the texts of the blocks -----

  /** What `flush` makes of a run of lines. */
  function RunText(run: seq<string>): seq<string> {
    var text := Strip(Join(run, '\n'));
    if text == "" then [] else [text]
  }

  ghost function TextsFrom(lines: seq<string>, marks: seq<Option<Heading>>, from: nat, i: nat): seq<string>
    requires from <= i <= |lines| == |marks|
    decreases |lines| - i
  {
    if i == |lines| then RunText(lines[from..i])
    else if marks[i].Some? then RunText(lines[from..i]) + TextsFrom(lines, marks, i + 1, i + 1)
    else TextsFrom(lines, marks, from, i + 1)
  }

  lemma TextsAppend(a: seq<Block>, b: seq<Block>)
    ensures BlockTexts(a + b) == BlockTexts(a) + BlockTexts(b)
  {
  }

  lemma SectionText(run: seq<string>, stack: seq<Heading>)
    ensures BlockTexts(Section(run, stack)) == RunText(run)
  {
  }

  lemma {:induction false} TextsOfSections(lines: seq<string>, marks: seq<Option<Heading>>, from: nat, i: nat)
    requires from <= i <= |lines| == |marks|
    ensures BlockTexts(SectionsFrom(lines, marks, from, i)) == TextsFrom(lines, marks, from, i)
    decreases |lines| - i
  {
    SectionText(lines[from..i], Enclosing(marks, i));
    if i < |lines| {
      if marks[i].Some? {
        TextsOfSections(lines, marks, i + 1, i + 1);
        TextsAppend(Section(lines[from..i], Enclosing(marks, i)), SectionsFrom(lines, marks, i + 1, i + 1));
      } else {
        TextsOfSections(lines, marks, from, i + 1);
      }
    }
  }

  lemma SliceShift<T>(s: seq<T>, n: nat, from: nat, i: nat)
    requires from <= i && n + i <= |s|
    ensures s[n..][from..i] == s[n + from..n + i]
  {
  }

  lemma {:induction false} TextsShift(lines: seq<string>, marks: seq<Option<Heading>>, n: nat, from: nat, i: nat)
    requires from <= i && n + i <= |lines| == |marks|
    ensures TextsFrom(lines, marks, n + from, n + i) == TextsFrom(lines[n..], marks[n..], from, i)
    decreases |lines| - n - i
  {
    SliceShift(lines, n, from, i);
    if n + i < |lines| {
      assert marks[n..][i] == marks[n + i];
      if marks[n + i].Some? {
        TextsShift(lines, marks, n, i + 1, i + 1);
      } else {
        TextsShift(lines, marks, n, from, i + 1);
      }
    }
  }

  /** The texts up to a heading at line `n`, and those after it. */
  lemma {:induction false} TextsToHeading(lines: seq<string>, marks: seq<Option<Heading>>, n: nat, from: nat, i: nat)
    requires from <= i <= n < |lines| == |marks| && marks[n].Some?
    ensures TextsFrom(lines, marks, from, i)
         == TextsFrom(lines[..n], marks[..n], from, i) + TextsFrom(lines, marks, n + 1, n + 1)
    decreases n - i
  {
    assert lines[..n][from..i] == lines[from..i];
    if i < n {
      assert marks[..n][i] == marks[i];
      if marks[i].Some? {
        TextsToHeading(lines, marks, n, i + 1, i + 1);
        Shift(RunText(lines[from..i]), TextsFrom(lines[..n], marks[..n], i + 1, i + 1), TextsFrom(lines, marks, n + 1, n + 1));
      } else {
        TextsToHeading(lines, marks, n, from, i + 1);
      }
    }
  }

  lemma TextsCut(lines: seq<string>, marks: seq<Option<Heading>>, n: nat)
    requires n < |lines| == |marks| && marks[n].Some?
    ensures TextsFrom(lines, marks, 0, 0)
         == TextsFrom(lines[..n], marks[..n], 0, 0) + TextsFrom(lines[n + 1..], marks[n + 1..], 0, 0)
  {
    TextsToHeading(lines, marks, n, 0, 0);
    TextsShift(lines, marks, n + 1, 0, 0);
  }

  lemma SectionTexts(lines: seq<string>)
    ensures BlockTexts(Sections(lines)) == TextsFrom(lines, Marks(lines), 0, 0)
  {
    TextsOfSections(lines, Marks(lines), 0, 0);
  }

  lemma ThreeParts<T>(a: seq<T>, x: T, b: seq<T>)
    ensures var s := a + [x] + b;
      s == a + ([x] + b) && s[..|a|] == a && s[|a|] == x && s[|a| + 1..] == b
  {
  }

  lemma MarksCut(a: seq<string>, heading: string, b: seq<string>)
    requires !InFence(a, |a|) && !IsFence(heading) && HeadingOf(heading).Some?
    ensures var marks := Marks(a + [heading] + b);
      marks[|a|].Some? && marks[..|a|] == Marks(a) && marks[|a| + 1..] == Marks(b)
  {
    ThreeParts(a, heading, b);
    FenceOfPrefix(a, [heading] + b, |a|);
    MarksOfPrefix(a, [heading] + b);
    MarksOfRest(a + [heading] + b, |a| + 1);
  }

  /** A heading, outside any fence, cuts the document: its blocks have the texts of what is
      before it and then those of what is after it. */
  lemma HeadingCuts(a: seq<string>, heading: string, b: seq<string>)
    requires !InFence(a, |a|) && !IsFence(heading) && HeadingOf(heading).Some?
    ensures BlockTexts(Sections(a + [heading] + b)) == BlockTexts(Sections(a)) + BlockTexts(Sections(b))
  {
    var lines := a + [heading] + b;
    ThreeParts(a, heading, b);
    MarksCut(a, heading, b);
    TextsCut(lines, Marks(lines), |a|);
    SectionTexts(lines);
    SectionTexts(a);
    SectionTexts(b);
  }

  lemma {:induction false} NoCut(lines: seq<string>, marks: seq<Option<Heading>>, i: nat)
    requires i <= |lines| == |marks| && forall k :: i <= k < |lines| ==> marks[k].None?
    ensures TextsFrom(lines, marks, 0, i) == RunText(lines)
    decreases |lines| - i
  {
    if i < |lines| {
      NoCut(lines, marks, i + 1);
    } else {
      assert lines[0..i] == lines;
    }
  }

  /** Lines without a heading, one or more, are one block if they hold a word: the lines, with a
      newline between each two, but for the whitespace around. */
  lemma RunIsBlock(lines: seq<string>) returns (pre: string, post: string)
    requires lines != [] && forall i :: 0 <= i < |lines| ==> Marks(lines)[i].None? && OneLine(lines[i])
    ensures WordsOfAll(lines) == [] ==> BlockTexts(Sections(lines)) == []
    ensures WordsOfAll(lines) != [] ==>
      var texts := BlockTexts(Sections(lines));
      && |texts| == 1 && texts[0] != "" && SplitLines(pre + texts[0] + post) == lines
      && Stripped(pre + texts[0] + post, texts[0], pre, post)
  {
    var joined := Join(lines, '\n');
    TextsOfSections(lines, Marks(lines), 0, 0);
    NoCut(lines, Marks(lines), 0);
    pre, post := StripIs(joined);
    SplitJoins(lines);
    WordsOfJoin(lines, '\n');
    StripEmpty(joined);
  }

  // ----- the paths of the blocks -----

  /** `at` are the headings that enclose position `i`, all of them, in document order. */
  ghost predicate EnclosingAt(marks: seq<Option<Heading>>, i: nat, at: seq<nat>)
    requires i <= |marks|
  {
    && (forall x, y :: 0 <= x < y < |at| ==> at[x] < at[y])
    && (forall x :: 0 <= x < |at| ==> at[x] < i && Encloses(marks, at[x], i))
    && (forall j :: 0 <= j < i && Encloses(marks, j, i) ==> j in at)
  }

  ghost predicate EnclosingPart(marks: seq<Option<Heading>>, lo: nat, i: nat, at: seq<nat>)
    requires lo <= i <= |marks|
  {
    && (forall x, y :: 0 <= x < y < |at| ==> at[x] < at[y])
    && (forall x :: 0 <= x < |at| ==> lo <= at[x] < i && Encloses(marks, at[x], i))
    && (forall j :: lo <= j < i && Encloses(marks, j, i) ==> j in at)
  }

  lemma PartCons(marks: seq<Option<Heading>>, lo: nat, i: nat, at: seq<nat>)
    requires lo < i <= |marks| && EnclosingPart(marks, lo + 1, i, at)
    ensures EnclosingPart(marks, lo, i, if Encloses(marks, lo, i) then [lo] + at else at)
  {
    if Encloses(marks, lo, i) {
      var all := [lo] + at;
      forall j | lo <= j < i && Encloses(marks, j, i)
        ensures j in all
      {
        if j == lo { assert all[0] == lo; } else { assert j in at; }
      }
    }
  }

  /** `hs` are the headings at these lines. */
  ghost predicate Lists(marks: seq<Option<Heading>>, hs: seq<Heading>, at: seq<nat>) {
    |hs| == |at| && forall x :: 0 <= x < |at| ==> at[x] < |marks| && marks[at[x]] == Some(hs[x])
  }

  lemma ListsCons(marks: seq<Option<Heading>>, h: Heading, hs: seq<Heading>, lo: nat, at: seq<nat>)
    requires Lists(marks, hs, at) && lo < |marks| && marks[lo] == Some(h)
    ensures Lists(marks, [h] + hs, [lo] + at)
  {
  }

  ghost function PlacesFrom(marks: seq<Option<Heading>>, lo: nat, i: nat): seq<nat>
    requires lo <= i <= |marks|
    decreases i - lo
  {
    if lo == i then []
    else if Encloses(marks, lo, i) then [lo] + PlacesFrom(marks, lo + 1, i)
    else PlacesFrom(marks, lo + 1, i)
  }

  lemma {:induction false} PlacesArePart(marks: seq<Option<Heading>>, lo: nat, i: nat)
    requires lo <= i <= |marks|
    ensures EnclosingPart(marks, lo, i, PlacesFrom(marks, lo, i))
    decreases i - lo
  {
    if lo < i {
      PlacesArePart(marks, lo + 1, i);
      PartCons(marks, lo, i, PlacesFrom(marks, lo + 1, i));
    }
  }

  lemma {:induction false} PlacesAreListed(marks: seq<Option<Heading>>, lo: nat, i: nat)
    requires lo <= i <= |marks|
    ensures Lists(marks, EnclosingFrom(marks, lo, i), PlacesFrom(marks, lo, i))
    decreases i - lo
  {
    if lo < i {
      PlacesAreListed(marks, lo + 1, i);
      if Encloses(marks, lo, i) {
        ListsCons(marks, marks[lo].value, EnclosingFrom(marks, lo + 1, i), lo, PlacesFrom(marks, lo + 1, i));
      } else {
        NothingBefore(EnclosingFrom(marks, lo + 1, i));
      }
    }
  }

  /** The enclosing list holds the headings that enclose the position, in document order. */
  lemma EnclosingIs(marks: seq<Option<Heading>>, i: nat) returns (at: seq<nat>)
    requires i <= |marks|
    ensures EnclosingAt(marks, i, at) && Lists(marks, Enclosing(marks, i), at)
  {
    at := PlacesFrom(marks, 0, i);
    PlacesArePart(marks, 0, i);
    PlacesAreListed(marks, 0, i);
  }

  /** The block stands under the titles of the headings that enclose some position, outermost first. */
  ghost predicate UnderHeadings(marks: seq<Option<Heading>>, b: Block, i: nat, at: seq<nat>) {
    && i <= |marks| && EnclosingAt(marks, i, at) && b.meta.page.None? && b.meta.headings.Some?
    && |b.meta.headings.value| == |at|
    && forall x :: 0 <= x < |at| ==> marks[at[x]].Some? && b.meta.headings.value[x] == marks[at[x]].value.title
  }

  lemma SectionPath(marks: seq<Option<Heading>>, buf: seq<string>, i: nat, b: Block)
    requires i <= |marks| && b in Section(buf, Enclosing(marks, i))
    ensures exists at :: UnderHeadings(marks, b, i, at)
  {
    var at := EnclosingIs(marks, i);
    assert UnderHeadings(marks, b, i, at);
  }

  /** Every block's heading path lists, outermost first, the titles of the headings that enclose
      its place in the document: those not closed by a later one of their level or above. */
  lemma {:induction false} BlockPaths(lines: seq<string>, marks: seq<Option<Heading>>, from: nat, i: nat, b: Block)
    requires from <= i <= |lines| == |marks| && b in SectionsFrom(lines, marks, from, i)
    ensures exists end, at :: UnderHeadings(marks, b, end, at)
    decreases |lines| - i
  {
    var here := Section(lines[from..i], Enclosing(marks, i));
    if b in here {
      SectionPath(marks, lines[from..i], i, b);
    } else if i < |lines| {
      BlockPaths(lines, marks, if marks[i].Some? then i + 1 else from, i + 1, b);
    }
  }
}
