/** Blocks to sentences to chunks: the sentence scanner, the hard splitter and the
    greedy packer that carries trailing sentences forward as overlap. */
module Chunking {
  import opened Prelude
  import opened Text

  datatype Meta = Meta(page: Option<nat>, headings: Option<seq<string>>)
  datatype Block = Block(text: string, meta: Meta)
  datatype Sentence = Sentence(text: string, tokens: nat, meta: Meta)
  datatype PageRange = PageRange(first: nat, last: nat)
  datatype ChunkMeta = ChunkMeta(pages: Option<PageRange>, headings: Option<seq<string>>)
  datatype ChunkDraft = ChunkDraft(text: string, tokenCount: nat, meta: ChunkMeta)
  datatype Result<+T> = Ok(value: T) | ValueError

  // ----- token estimates -----

  /** `round(words / 0.75)` never ties, so it is this integer quotient. */
  function TokensForWords(words: nat): nat {
    if words == 0 then 1 else (4 * words + 1) / 3
  }

  function Distance(a: int, b: int): nat { if a < b then b - a else a - b }

  /** It is the one integer nearest to `words / 0.75`, that is to `4 * words / 3`. */
  lemma TokensAreRounded(words: nat, n: int)
    requires words > 0 && n != TokensForWords(words)
    ensures Distance(3 * TokensForWords(words), 4 * words) < Distance(3 * n, 4 * words)
  {
  }

  function EstimateTokens(text: string): nat {
    TokensForWords(|Words(text)|)
  }

  // ----- the sentence scanner -----

  function SpaceRun(s: string, i: nat): (n: nat)
    requires i <= |s|
    ensures i + n <= |s| && forall j :: i <= j < i + n ==> IsSpace(s[j])
    decreases |s| - i
  {
    if i < |s| && IsSpace(s[i]) then 1 + SpaceRun(s, i + 1) else 0
  }

  function NewlineRun(s: string, i: nat): (n: nat)
    requires i <= |s|
    ensures i + n <= |s| && forall j :: i <= j < i + n ==> IsSpace(s[j])
    decreases |s| - i
  {
    if i < |s| && s[i] == '\n' then 1 + NewlineRun(s, i + 1) else 0
  }

  /** How much a separator matches at `i`: whitespace right after `.`, `!` or `?`, or else
      two or more newlines. Zero means no match. */
  function SeparatorAt(s: string, i: nat): (n: nat)
    requires i < |s|
    ensures i + n <= |s| && forall j :: i <= j < i + n ==> IsSpace(s[j])
  {
    if 0 < i && s[i - 1] in ".!?" && IsSpace(s[i]) then SpaceRun(s, i)
    else if NewlineRun(s, i) >= 2 then NewlineRun(s, i)
    else 0
  }

  /** The regex split, from position `i` of a piece that began at `start`. */
  function SplitFrom(s: string, start: nat, i: nat): seq<string>
    requires start <= i <= |s|
    decreases |s| - i
  {
    if i == |s| then [s[start..]]
    else
      var n := SeparatorAt(s, i);
      if n == 0 then SplitFrom(s, start, i + 1)
      else [s[start..i]] + SplitFrom(s, i + n, i + n)
  }

  lemma WordsOfOne(s: string)
    ensures WordsOfAll([s]) == Words(s)
  {
    WordsOfAllCons(s, []);
    assert [s] + [] == [s];
  }

  lemma SplitStops(s: string, start: nat, i: nat, n: nat)
    requires start <= i < |s| && n == SeparatorAt(s, i) > 0
    ensures SplitFrom(s, start, i) == [s[start..i]] + SplitFrom(s, i + n, i + n)
  {
  }

  lemma SplitFromGap(s: string, start: nat, i: nat, n: nat)
    requires start <= i < |s| && n == SeparatorAt(s, i) > 0
    ensures WordsOfAll(SplitFrom(s, start, i)) == Words(s[start..i]) + WordsOfAll(SplitFrom(s, i + n, i + n))
  {
    SplitStops(s, start, i, n);
    WordsOfAllCons(s[start..i], SplitFrom(s, i + n, i + n));
  }

  lemma WordsAcrossGap(s: string, start: nat, i: nat, n: nat)
    requires start <= i && 1 <= n && i + n <= |s| && forall j :: i <= j < i + n ==> IsSpace(s[j])
    ensures Words(s[start..]) == Words(s[start..i]) + Words(s[i + n..])
  {
    WordsAround(s[start..i], s[i..i + n], s[i + n..]);
    assert s[start..] == s[start..i] + s[i..i + n] + s[i + n..];
  }

  lemma SplitAtGap(s: string, start: nat, i: nat, n: nat)
    requires start <= i < |s| && n == SeparatorAt(s, i) > 0
    requires WordsOfAll(SplitFrom(s, i + n, i + n)) == Words(s[i + n..])
    ensures WordsOfAll(SplitFrom(s, start, i)) == Words(s[start..])
  {
    SplitFromGap(s, start, i, n);
    WordsAcrossGap(s, start, i, n);
  }

  /** Splitting at separators drops whitespace only. */
  lemma {:induction false} SplitKeepsWords(s: string, start: nat, i: nat)
    requires start <= i <= |s|
    ensures WordsOfAll(SplitFrom(s, start, i)) == Words(s[start..])
    decreases |s| - i
  {
    if i == |s| {
      WordsOfOne(s[start..]);
      return;
    }
    var n := SeparatorAt(s, i);
    var next := if n == 0 then start else i + n;
    SplitKeepsWords(s, next, Max(i + 1, next));
    if n > 0 { SplitAtGap(s, start, i, n); }
  }

  function PieceOf(words: seq<string>, meta: Meta): Sentence {
    var text := Join(words, ' ');
    Sentence(text, EstimateTokens(text), meta)
  }

  /** Runs of `step` words, the last one possibly shorter. */
  function HardSplit(words: seq<string>, step: nat, meta: Meta): seq<Sentence>
    requires step >= 1
  {
    if words == [] then []
    else
      var n := Min(step, |words|);
      [PieceOf(words[..n], meta)] + HardSplit(words[n..], step, meta)
  }

  function StepFor(limit: int): nat {
    Max(1, 3 * limit / 4)
  }

  /** The sentences one raw split piece yields. */
  function RawSentences(raw: string, limit: int, meta: Meta): seq<Sentence> {
    var words := Words(raw);
    var text := Join(words, ' ');
    if text == "" then []
    else if EstimateTokens(text) <= limit then [Sentence(text, EstimateTokens(text), meta)]
    else HardSplit(Words(text), StepFor(limit), meta)
  }

  function RawsSentences(raws: seq<string>, limit: int, meta: Meta): seq<Sentence> {
    if raws == [] then [] else RawSentences(raws[0], limit, meta) + RawsSentences(raws[1..], limit, meta)
  }

  function SentencesOf(blocks: seq<Block>, limit: int): seq<Sentence> {
    if blocks == [] then []
    else RawsSentences(SplitFrom(blocks[0].text, 0, 0), limit, blocks[0].meta) + SentencesOf(blocks[1..], limit)
  }

  /** `out` are the pieces before word `i`. */
  ghost predicate PiecesBefore(words: seq<string>, step: nat, meta: Meta, i: nat, out: seq<Sentence>)
    requires step >= 1
  {
    out + HardSplit(words[Min(i, |words|)..], step, meta) == HardSplit(words, step, meta)
  }

  lemma HardSplitHead(words: seq<string>, step: nat, meta: Meta, i: nat)
    requires i < |words| && step >= 1
    ensures var end := Min(i + step, |words|);
      HardSplit(words[i..], step, meta) == [PieceOf(words[i..end], meta)] + HardSplit(words[end..], step, meta)
  {
    var end := Min(i + step, |words|);
    DropDropTake(words, i, i, end - i);
    DropTwice(words, i, end);
    assert words[i..][0..] == words[i..];
  }

  lemma HardSplitStep(words: seq<string>, step: nat, meta: Meta, i: nat, out: seq<Sentence>)
    requires i < |words| && step >= 1 && PiecesBefore(words, step, meta, i, out)
    ensures PiecesBefore(words, step, meta, i + step, out + [PieceOf(words[i..Min(i + step, |words|)], meta)])
  {
    var end := Min(i + step, |words|);
    HardSplitHead(words, step, meta, i);
    Shift(out, [PieceOf(words[i..end], meta)], HardSplit(words[end..], step, meta));
  }

  /** The inner loop of the generator: an oversized run of words, cut by `step`. */
  method YieldPieces(words: seq<string>, step: nat, meta: Meta) returns (out: seq<Sentence>)
    requires step >= 1
    ensures out == HardSplit(words, step, meta)
  {
    out := [];
    var i := 0;
    while i < |words|
      invariant 0 <= i
      invariant PiecesBefore(words, step, meta, i, out)
    {
      HardSplitStep(words, step, meta, i, out);
      out := out + [PieceOf(words[i..Min(i + step, |words|)], meta)];
      i := i + step;
    }
  }

  /** One split piece: skip it if blank, keep it if it fits, cut it otherwise. */
  method YieldRaw(raw: string, hardLimit: int, meta: Meta) returns (out: seq<Sentence>)
    ensures out == RawSentences(raw, hardLimit, meta)
  {
    var text := Join(Words(raw), ' ');
    if text == "" {
      return [];
    }
    var tokens := EstimateTokens(text);
    if tokens <= hardLimit {
      return [Sentence(text, tokens, meta)];
    }
    out := YieldPieces(Words(text), StepFor(hardLimit), meta);
  }

  method YieldBlock(block: Block, hardLimit: int) returns (out: seq<Sentence>)
    ensures out == RawsSentences(SplitFrom(block.text, 0, 0), hardLimit, block.meta)
  {
    out := [];
    var raws, meta := SplitFrom(block.text, 0, 0), block.meta;
    for r := 0 to |raws|
      invariant out + RawsSentences(raws[r..], hardLimit, meta) == RawsSentences(raws, hardLimit, meta)
    {
      assert raws[r..][1..] == raws[r + 1..];
      var yielded := YieldRaw(raws[r], hardLimit, meta);
      Shift(out, yielded, RawsSentences(raws[r + 1..], hardLimit, meta));
      out := out + yielded;
    }
  }

  /** The generator: what it yields over all blocks, in order. */
  method Sentences(blocks: seq<Block>, hardLimit: int) returns (out: seq<Sentence>)
    ensures out == SentencesOf(blocks, hardLimit)
  {
    out := [];
    for b := 0 to |blocks|
      invariant out + SentencesOf(blocks[b..], hardLimit) == SentencesOf(blocks, hardLimit)
    {
      assert blocks[b..][1..] == blocks[b + 1..];
      Shift(out, RawsSentences(SplitFrom(blocks[b].text, 0, 0), hardLimit, blocks[b].meta), SentencesOf(blocks[b + 1..], hardLimit));
      var yielded := YieldBlock(blocks[b], hardLimit);
      out := out + yielded;
    }
  }

  // ----- what the scanner keeps -----

  function SentenceTexts(ss: seq<Sentence>): seq<string> {
    seq(|ss|, i requires 0 <= i < |ss| => ss[i].text)
  }

  function BlockTexts(bs: seq<Block>): seq<string> {
    seq(|bs|, i requires 0 <= i < |bs| => bs[i].text)
  }

  /** A sentence is a space-joined nonempty list of words, counted by the estimate, and
      within the budget whenever there is one. */
  ghost predicate WellFormed(s: Sentence, limit: int) {
    && Words(s.text) != []
    && s.text == Join(Words(s.text), ' ')
    && s.tokens == EstimateTokens(s.text)
    && (limit >= 1 ==> s.tokens <= limit)
  }

  ghost predicate AllWellFormed(ss: seq<Sentence>, limit: int) {
    forall i :: 0 <= i < |ss| ==> WellFormed(ss[i], limit)
  }

  lemma SentenceTextsAppend(a: seq<Sentence>, b: seq<Sentence>)
    ensures WordsOfAll(SentenceTexts(a + b)) == WordsOfAll(SentenceTexts(a)) + WordsOfAll(SentenceTexts(b))
  {
    assert SentenceTexts(a + b) == SentenceTexts(a) + SentenceTexts(b);
    WordsOfAllAppend(SentenceTexts(a), SentenceTexts(b));
  }

  lemma WordsOfOneSentence(s: Sentence)
    ensures WordsOfAll(SentenceTexts([s])) == Words(s.text)
  {
    assert SentenceTexts([s]) == [s.text];
    assert WordsOfAll([s.text][1..]) == [];
  }

  lemma PieceKeeps(words: seq<string>, limit: int, meta: Meta)
    requires AllWords(words) && 1 <= |words| <= StepFor(limit)
    ensures WordsOfAll(SentenceTexts([PieceOf(words, meta)])) == words
    ensures WellFormed(PieceOf(words, meta), limit)
  {
    WordsJoinRoundTrip(words);
    WordsOfOneSentence(PieceOf(words, meta));
  }

  lemma {:induction false} HardSplitWords(words: seq<string>, limit: int, meta: Meta)
    requires AllWords(words)
    ensures WordsOfAll(SentenceTexts(HardSplit(words, StepFor(limit), meta))) == words
    decreases |words|
  {
    if words != [] {
      var n := Min(StepFor(limit), |words|);
      PieceKeeps(words[..n], limit, meta);
      HardSplitWords(words[n..], limit, meta);
      SentenceTextsAppend([PieceOf(words[..n], meta)], HardSplit(words[n..], StepFor(limit), meta));
      assert words == words[..n] + words[n..];
    }
  }

  lemma {:induction false} HardSplitFits(words: seq<string>, limit: int, meta: Meta)
    requires AllWords(words)
    ensures AllWellFormed(HardSplit(words, StepFor(limit), meta), limit)
    decreases |words|
  {
    if words != [] {
      var n := Min(StepFor(limit), |words|);
      PieceKeeps(words[..n], limit, meta);
      HardSplitFits(words[n..], limit, meta);
    }
  }

  lemma RawKeeps(raw: string, limit: int, meta: Meta)
    ensures WordsOfAll(SentenceTexts(RawSentences(raw, limit, meta))) == Words(raw)
    ensures AllWellFormed(RawSentences(raw, limit, meta), limit)
  {
    var words := Words(raw);
    var text := Join(words, ' ');
    WordsJoinRoundTrip(words);
    HardSplitWords(words, limit, meta);
    HardSplitFits(words, limit, meta);
    if text == "" {
      assert Words("") == [];
    } else {
      if words == [] { assert false; }
      WordsOfOneSentence(Sentence(text, EstimateTokens(text), meta));
    }
  }

  lemma {:induction false} RawsKeep(raws: seq<string>, limit: int, meta: Meta)
    ensures WordsOfAll(SentenceTexts(RawsSentences(raws, limit, meta))) == WordsOfAll(raws)
    ensures AllWellFormed(RawsSentences(raws, limit, meta), limit)
  {
    if raws != [] {
      RawKeeps(raws[0], limit, meta);
      RawsKeep(raws[1..], limit, meta);
      SentenceTextsAppend(RawSentences(raws[0], limit, meta), RawsSentences(raws[1..], limit, meta));
    }
  }

  /** No word is lost or reordered between blocks and sentences, every sentence is
      whitespace-normalised, and none exceeds a budget of at least one token. */
  lemma {:induction false} SentencesKeepWords(blocks: seq<Block>, limit: int)
    ensures WordsOfAll(SentenceTexts(SentencesOf(blocks, limit))) == WordsOfAll(BlockTexts(blocks))
    ensures AllWellFormed(SentencesOf(blocks, limit), limit)
  {
    if blocks != [] {
      var head := blocks[0];
      var raws := SplitFrom(head.text, 0, 0);
      SplitKeepsWords(head.text, 0, 0);
      RawsKeep(raws, limit, head.meta);
      SentencesKeepWords(blocks[1..], limit);
      SentenceTextsAppend(RawsSentences(raws, limit, head.meta), SentencesOf(blocks[1..], limit));
      assert BlockTexts(blocks)[1..] == BlockTexts(blocks[1..]);
      assert head.text[0..] == head.text;
    }
  }
}
