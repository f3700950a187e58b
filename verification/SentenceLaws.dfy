/** What the sentence scanner yields: the regex split, exactly; whole pieces where they fit and
    runs of whole words where they do not; and each sentence with the metadata of its block. */
module SentenceLaws {
  import opened Prelude
  import opened Text
  import opened Chunking

  // ----- `(?<=[.!?])\s+|\n{2,}` -----

  /** The first alternative: whitespace right after `.`, `!` or `?`. */
  ghost predicate AfterStop(s: string, i: nat, n: nat) {
    && n >= 1 && i + n <= |s| && i > 0 && (s[i - 1] == '.' || s[i - 1] == '!' || s[i - 1] == '?')
    && forall j :: i <= j < i + n ==> IsSpace(s[j])
  }

  /** The second: two newlines or more. */
  ghost predicate Newlines(s: string, i: nat, n: nat) {
    n >= 2 && i + n <= |s| && forall j :: i <= j < i + n ==> s[j] == '\n'
  }

  ghost predicate Matches(s: string, i: nat) {
    exists n: nat :: AfterStop(s, i, n) || Newlines(s, i, n)
  }

  /** The match the engine takes: the first alternative if it matches at all, and as much as it can. */
  ghost predicate Takes(s: string, i: nat, n: nat) {
    if exists m: nat :: AfterStop(s, i, m) then AfterStop(s, i, n) && forall m: nat :: AfterStop(s, i, m) ==> m <= n
    else Newlines(s, i, n) && forall m: nat :: Newlines(s, i, m) ==> m <= n
  }

  lemma {:induction false} SpaceRunIsMost(s: string, i: nat, m: nat)
    requires i + m <= |s| && forall j :: i <= j < i + m ==> IsSpace(s[j])
    ensures m <= SpaceRun(s, i)
    decreases m
  {
    if m > 0 { SpaceRunIsMost(s, i + 1, m - 1); }
  }

  lemma {:induction false} NewlineRunIsMost(s: string, i: nat, m: nat)
    requires i + m <= |s| && forall j :: i <= j < i + m ==> s[j] == '\n'
    ensures m <= NewlineRun(s, i)
    decreases m
  {
    if m > 0 { NewlineRunIsMost(s, i + 1, m - 1); }
  }

  lemma {:induction false} NewlineRunIs(s: string, i: nat)
    requires i <= |s|
    ensures forall j :: i <= j < i + NewlineRun(s, i) ==> s[j] == '\n'
    decreases |s| - i
  {
    if i < |s| && s[i] == '\n' { NewlineRunIs(s, i + 1); }
  }

  predicate EndsSentence(s: string, i: nat)
    requires i < |s|
  {
    0 < i && s[i - 1] in ".!?" && IsSpace(s[i])
  }

  lemma StopIs(c: char)
    ensures c in ".!?" <==> c == '.' || c == '!' || c == '?'
  {
    assert ".!?"[0] == '.' && ".!?"[1] == '!' && ".!?"[2] == '?';
  }

  lemma StopTakes(s: string, i: nat)
    requires i < |s| && EndsSentence(s, i)
    ensures SeparatorAt(s, i) == SpaceRun(s, i) && AfterStop(s, i, SpaceRun(s, i))
    ensures forall m: nat :: AfterStop(s, i, m) ==> m <= SpaceRun(s, i)
  {
    StopIs(s[i - 1]);
    SpaceRunIsMost(s, i, 1);
    forall m: nat | AfterStop(s, i, m)
      ensures m <= SpaceRun(s, i)
    {
      SpaceRunIsMost(s, i, m);
    }
  }

  lemma NoStop(s: string, i: nat, m: nat)
    requires i < |s| && AfterStop(s, i, m)
    ensures EndsSentence(s, i)
  {
    StopIs(s[i - 1]);
  }

  lemma NewlinesTake(s: string, i: nat)
    requires i < |s| && !EndsSentence(s, i)
    ensures SeparatorAt(s, i) == if NewlineRun(s, i) >= 2 then NewlineRun(s, i) else 0
    ensures NewlineRun(s, i) >= 2 ==> Newlines(s, i, NewlineRun(s, i))
    ensures forall m: nat :: Newlines(s, i, m) ==> m <= NewlineRun(s, i)
  {
    NewlineRunIs(s, i);
    forall m: nat | Newlines(s, i, m)
      ensures m <= NewlineRun(s, i)
    {
      NewlineRunIsMost(s, i, m);
    }
  }

  /** The function takes what the engine takes, and nothing where the expression does not match. */
  lemma SeparatorIs(s: string, i: nat)
    requires i < |s|
    ensures SeparatorAt(s, i) > 0 <==> Matches(s, i)
    ensures forall n: nat :: Matches(s, i) && Takes(s, i, n) <==> n > 0 && n == SeparatorAt(s, i)
  {
    if EndsSentence(s, i) {
      StopTakes(s, i);
    } else {
      NewlinesTake(s, i);
      forall m: nat | AfterStop(s, i, m)
        ensures false
      {
        NoStop(s, i, m);
      }
    }
  }

  /** One piece of the text: characters `lo` to `hi`. */
  datatype Cut = Cut(lo: nat, hi: nat)

  ghost predicate InsidePiece(s: string, c: Cut) {
    c.lo <= c.hi <= |s| && forall i :: c.lo <= i < c.hi ==> !Matches(s, i)
  }

  ghost predicate Gap(s: string, from: nat, to: nat) {
    from < to <= |s| && Matches(s, from) && Takes(s, from, to - from)
  }

  /** The cuts a left-to-right split makes from `start` on: the expression matches nowhere inside
      a piece, a gap is the match the engine takes there, and the last piece ends the text. */
  ghost predicate IsSplit(s: string, start: nat, cuts: seq<Cut>) {
    && cuts != [] && cuts[0].lo == start && cuts[|cuts| - 1].hi == |s|
    && (forall k :: 0 <= k < |cuts| ==> InsidePiece(s, cuts[k]))
    && (forall k :: 0 <= k < |cuts| - 1 ==> Gap(s, cuts[k].hi, cuts[k + 1].lo))
  }

  function Pieces(s: string, cuts: seq<Cut>): seq<string>
    requires forall k :: 0 <= k < |cuts| ==> cuts[k].lo <= cuts[k].hi <= |s|
  {
    seq(|cuts|, k requires 0 <= k < |cuts| => s[cuts[k].lo..cuts[k].hi])
  }

  lemma CutsCons(s: string, start: nat, i: nat, next: nat, cuts: seq<Cut>)
    requires start <= i && InsidePiece(s, Cut(start, i)) && Gap(s, i, next) && IsSplit(s, next, cuts)
    ensures IsSplit(s, start, [Cut(start, i)] + cuts)
    ensures Pieces(s, [Cut(start, i)] + cuts) == [s[start..i]] + Pieces(s, cuts)
  {
    var all := [Cut(start, i)] + cuts;
    forall k | 0 <= k < |all|
      ensures InsidePiece(s, all[k])
    {
      if k > 0 { assert InsidePiece(s, cuts[k - 1]); }
    }
    forall k | 0 <= k < |all| - 1
      ensures Gap(s, all[k].hi, all[k + 1].lo)
    {
      if k > 0 { assert Gap(s, cuts[k - 1].hi, cuts[k].lo); }
    }
  }

  lemma InsideGrows(s: string, start: nat, i: nat)
    requires i < |s| && InsidePiece(s, Cut(start, i)) && SeparatorAt(s, i) == 0
    ensures InsidePiece(s, Cut(start, i + 1))
  {
    SeparatorIs(s, i);
  }

  lemma GapHere(s: string, i: nat)
    requires i < |s| && SeparatorAt(s, i) > 0
    ensures Gap(s, i, i + SeparatorAt(s, i))
  {
    SeparatorIs(s, i);
  }

  /** The split makes such cuts ... */
  lemma {:induction false} SplitMakes(s: string, start: nat, i: nat) returns (cuts: seq<Cut>)
    requires start <= i <= |s| && InsidePiece(s, Cut(start, i))
    ensures IsSplit(s, start, cuts) && SplitFrom(s, start, i) == Pieces(s, cuts)
    decreases |s| - i
  {
    if i == |s| {
      cuts := [Cut(start, i)];
      assert s[start..] == s[start..i];
    } else {
      var n := SeparatorAt(s, i);
      if n == 0 {
        InsideGrows(s, start, i);
        cuts := SplitMakes(s, start, i + 1);
      } else {
        var rest := SplitMakes(s, i + n, i + n);
        GapHere(s, i);
        CutsCons(s, start, i, i + n, rest);
        SplitStops(s, start, i, n);
        cuts := [Cut(start, i)] + rest;
      }
    }
  }

  lemma CutsTail(s: string, start: nat, cuts: seq<Cut>)
    requires IsSplit(s, start, cuts) && |cuts| > 1
    ensures IsSplit(s, cuts[1].lo, cuts[1..]) && Pieces(s, cuts) == [s[start..cuts[0].hi]] + Pieces(s, cuts[1..])
  {
    var rest := cuts[1..];
    forall k | 0 <= k < |rest|
      ensures InsidePiece(s, rest[k])
    {
      assert InsidePiece(s, cuts[k + 1]);
    }
    forall k | 0 <= k < |rest| - 1
      ensures Gap(s, rest[k].hi, rest[k + 1].lo)
    {
      assert Gap(s, cuts[k + 1].hi, cuts[k + 2].lo);
    }
  }

  /** Inside the first piece the split goes on; where the piece ends it cuts. */
  lemma {:induction false} SplitReaches(s: string, start: nat, i: nat, hi: nat)
    requires start <= i <= hi <= |s| && forall j :: i <= j < hi ==> !Matches(s, j)
    ensures SplitFrom(s, start, i) == SplitFrom(s, start, hi)
    decreases hi - i
  {
    if i < hi {
      SeparatorIs(s, i);
      SplitReaches(s, start, i + 1, hi);
    }
  }

  /** ... and there are no others. */
  lemma CutStops(s: string, start: nat, cuts: seq<Cut>)
    requires start <= |s| && IsSplit(s, start, cuts) && |cuts| > 1
    ensures start <= cuts[0].hi && cuts[1].lo <= |s|
    ensures SplitFrom(s, start, start) == [s[start..cuts[0].hi]] + SplitFrom(s, cuts[1].lo, cuts[1].lo)
  {
    var hi := cuts[0].hi;
    assert InsidePiece(s, cuts[0]);
    SplitReaches(s, start, start, hi);
    assert Gap(s, hi, cuts[1].lo);
    SeparatorIs(s, hi);
    SplitStops(s, start, hi, SeparatorAt(s, hi));
  }

  lemma {:induction false} SplitIsOnly(s: string, start: nat, cuts: seq<Cut>)
    requires start <= |s| && IsSplit(s, start, cuts)
    ensures SplitFrom(s, start, start) == Pieces(s, cuts)
    decreases |cuts|
  {
    if |cuts| == 1 {
      assert InsidePiece(s, cuts[0]);
      SplitReaches(s, start, start, |s|);
      assert s[start..] == s[start..|s|];
    } else {
      CutStops(s, start, cuts);
      CutsTail(s, start, cuts);
      SplitIsOnly(s, cuts[1].lo, cuts[1..]);
    }
  }

  /** The regex split of a text, exactly. */
  lemma SplitExact(s: string, pieces: seq<string>)
    ensures pieces == SplitFrom(s, 0, 0) <==> exists cuts :: IsSplit(s, 0, cuts) && pieces == Pieces(s, cuts)
  {
    var cuts := SplitMakes(s, 0, 0);
    if exists cuts :: IsSplit(s, 0, cuts) && pieces == Pieces(s, cuts) {
      var others :| IsSplit(s, 0, others) && pieces == Pieces(s, others);
      SplitIsOnly(s, 0, others);
    }
  }

  // ----- pieces that fit, and pieces that do not -----

  lemma StepIs(limit: int)
    ensures limit <= 1 ==> StepFor(limit) == 1
    ensures limit >= 2 ==> 4 * StepFor(limit) <= 3 * limit < 4 * (StepFor(limit) + 1)
  {
  }

  /** Every sentence has `step` words but the last, which may have fewer. */
  ghost predicate InRuns(ss: seq<Sentence>, step: nat) {
    forall k :: 0 <= k < |ss| ==>
      if k < |ss| - 1 then |Words(ss[k].text)| == step else 1 <= |Words(ss[k].text)| <= step
  }

  lemma RunsCons(s: Sentence, ss: seq<Sentence>, step: nat)
    requires InRuns(ss, step) && (if ss == [] then 1 <= |Words(s.text)| <= step else |Words(s.text)| == step)
    ensures InRuns([s] + ss, step)
  {
  }

  lemma PieceWords(words: seq<string>, meta: Meta)
    requires AllWords(words)
    ensures Words(PieceOf(words, meta).text) == words
  {
    WordsJoinRoundTrip(words);
  }

  lemma {:induction false} HardSplitRuns(words: seq<string>, step: nat, meta: Meta)
    requires AllWords(words) && step >= 1
    ensures InRuns(HardSplit(words, step, meta), step)
    decreases |words|
  {
    if words != [] {
      var n := Min(step, |words|);
      HardSplitRuns(words[n..], step, meta);
      PieceWords(words[..n], meta);
      RunsCons(PieceOf(words[..n], meta), HardSplit(words[n..], step, meta), step);
    }
  }

  /** What a piece of the split yields: nothing if blank; itself, its whitespace collapsed, if it
      fits; and otherwise runs of its words. `SentencesKeepWords` says the words are kept. */
  lemma PieceYields(raw: string, limit: int, meta: Meta)
    ensures var ss := RawSentences(raw, limit, meta);
      && (Words(raw) == [] ==> ss == [])
      && (Words(raw) != [] && EstimateTokens(raw) <= limit ==>
            ss == [Sentence(Join(Words(raw), ' '), EstimateTokens(raw), meta)])
      && (Words(raw) != [] && EstimateTokens(raw) > limit ==> InRuns(ss, StepFor(limit)))
  {
    WordsJoinRoundTrip(Words(raw));
    HardSplitRuns(Words(raw), StepFor(limit), meta);
    if Join(Words(raw), ' ') == "" { assert Words("") == []; }
  }

  // ----- the metadata -----

  datatype Tagged = Tagged(word: string, meta: Meta)

  function Tag(words: seq<string>, meta: Meta): seq<Tagged> {
    seq(|words|, i requires 0 <= i < |words| => Tagged(words[i], meta))
  }

  /** The words of the sentences, each with its sentence's metadata. */
  function TaggedSentences(ss: seq<Sentence>): seq<Tagged> {
    if ss == [] then [] else Tag(Words(ss[0].text), ss[0].meta) + TaggedSentences(ss[1..])
  }

  function TaggedBlocks(bs: seq<Block>): seq<Tagged> {
    if bs == [] then [] else Tag(Words(bs[0].text), bs[0].meta) + TaggedBlocks(bs[1..])
  }

  lemma TagAppend(a: seq<string>, b: seq<string>, meta: Meta)
    ensures Tag(a + b, meta) == Tag(a, meta) + Tag(b, meta)
  {
  }

  lemma {:induction false} TaggedAppend(a: seq<Sentence>, b: seq<Sentence>)
    ensures TaggedSentences(a + b) == TaggedSentences(a) + TaggedSentences(b)
  {
    if a == [] {
      assert a + b == b;
    } else {
      assert (a + b)[1..] == a[1..] + b;
      TaggedAppend(a[1..], b);
    }
  }

  ghost predicate AllWith(ss: seq<Sentence>, meta: Meta) {
    forall i :: 0 <= i < |ss| ==> ss[i].meta == meta
  }

  lemma TextsCons(ss: seq<Sentence>)
    requires ss != []
    ensures WordsOfAll(SentenceTexts(ss)) == Words(ss[0].text) + WordsOfAll(SentenceTexts(ss[1..]))
  {
    assert SentenceTexts(ss)[1..] == SentenceTexts(ss[1..]);
  }

  /** Sentences of one block are tagged as one. */
  lemma {:induction false} TaggedAlike(ss: seq<Sentence>, meta: Meta)
    requires AllWith(ss, meta)
    ensures TaggedSentences(ss) == Tag(WordsOfAll(SentenceTexts(ss)), meta)
  {
    if ss != [] {
      TaggedAlike(ss[1..], meta);
      TextsCons(ss);
      TagAppend(Words(ss[0].text), WordsOfAll(SentenceTexts(ss[1..])), meta);
    }
  }

  lemma {:induction false} HardSplitWith(words: seq<string>, step: nat, meta: Meta)
    requires step >= 1
    ensures AllWith(HardSplit(words, step, meta), meta)
    decreases |words|
  {
    if words != [] { HardSplitWith(words[Min(step, |words|)..], step, meta); }
  }

  lemma {:induction false} RawsWith(raws: seq<string>, limit: int, meta: Meta)
    ensures AllWith(RawsSentences(raws, limit, meta), meta)
  {
    if raws != [] {
      HardSplitWith(Words(Join(Words(raws[0]), ' ')), StepFor(limit), meta);
      RawsWith(raws[1..], limit, meta);
    }
  }

  /** Every word keeps the metadata of its block. */
  lemma {:induction false} SentencesKeepMeta(blocks: seq<Block>, limit: int)
    ensures TaggedSentences(SentencesOf(blocks, limit)) == TaggedBlocks(blocks)
  {
    if blocks != [] {
      var b := blocks[0];
      var here := RawsSentences(SplitFrom(b.text, 0, 0), limit, b.meta);
      SentencesKeepMeta(blocks[1..], limit);
      TaggedAppend(here, SentencesOf(blocks[1..], limit));
      RawsWith(SplitFrom(b.text, 0, 0), limit, b.meta);
      TaggedAlike(here, b.meta);
      RawsKeep(SplitFrom(b.text, 0, 0), limit, b.meta);
      SplitKeepsWords(b.text, 0, 0);
      assert b.text[0..] == b.text;
    }
  }
}
