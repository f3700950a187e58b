/** What the packing gives its readers: chunk sizes, total storage, honest token counts,
    and a document that can be read back from its chunks. */
module ChunkBounds {
  import opened Prelude
  import opened Text
  import opened Chunking
  import opened Packing

  /** What `SentencesKeepWords` gives for a budget of at least one token. */
  ghost predicate Fitting(ss: seq<Sentence>, target: int) {
    forall i :: 0 <= i < |ss| ==> 1 <= ss[i].tokens <= target
  }

  lemma ScannedSentencesPositive(blocks: seq<Block>, target: int)
    ensures Positive(SentencesOf(blocks, target))
  {
    SentencesKeepWords(blocks, target);
    var ss := SentencesOf(blocks, target);
    forall i | 0 <= i < |ss|
      ensures ss[i].tokens >= 1
    {
      assert WellFormed(ss[i], target);
    }
  }

  lemma ScannedSentencesFit(blocks: seq<Block>, target: int)
    requires target >= 1
    ensures Fitting(SentencesOf(blocks, target), target) && Positive(SentencesOf(blocks, target))
  {
    SentencesKeepWords(blocks, target);
    ScannedSentencesPositive(blocks, target);
    var ss := SentencesOf(blocks, target);
    forall i | 0 <= i < |ss|
      ensures ss[i].tokens <= target
    {
      assert WellFormed(ss[i], target);
    }
  }

  /** Where chunk `i`'s new sentences start. */
  function FreshFrom(ws: seq<Window>, i: nat): nat
    requires i < |ws|
  {
    if i == 0 then 0 else ws[i - 1].hi
  }

  lemma PackingAt(ss: seq<Sentence>, target: int, overlap: int, ws: seq<Window>, i: nat)
    requires IsPacking(ss, target, overlap, ws) && i < |ws|
    ensures ws[i].lo < ws[i].hi <= |ss|
    ensures ws[i].lo <= FreshFrom(ws, i) < ws[i].hi
    ensures i == 0 ==> ws[i].lo == 0
    ensures i > 0 ==> Follows(ss, target, overlap, ws[i - 1], ws[i])
    ensures FilledGreedily(ss, target, ws[i], FreshFrom(ws, i))
    ensures i + 1 == |ws| <==> ws[i].hi == |ss|
  {
    if i > 0 { LinkedAt(ss, target, overlap, ws, i - 1); }
    if i + 1 < |ws| { LinkedAt(ss, target, overlap, ws, i); }
  }

  /** No chunk exceeds target plus overlap; one above target is carried overlap and exactly
      one new sentence; a chunk that is not the last could not have taken the next sentence. */
  ghost predicate SizedRight(ss: seq<Sentence>, target: int, overlap: int, ws: seq<Window>, i: nat)
    requires i < |ws| && ws[i].lo < ws[i].hi <= |ss| && FreshFrom(ws, i) < ws[i].hi
  {
    var size := Span(ss, ws[i].lo, ws[i].hi);
    && size <= target + overlap
    && Span(ss, ws[i].lo, FreshFrom(ws, i)) <= overlap
    && (size > target ==> ws[i].hi == FreshFrom(ws, i) + 1 && ws[i].lo < FreshFrom(ws, i))
    && (i + 1 < |ws| ==> ws[i].hi < |ss| && size + ss[ws[i].hi].tokens > target)
  }

  lemma WindowSize(ss: seq<Sentence>, target: int, overlap: int, w: Window, from: nat)
    requires Fitting(ss, target) && 0 <= overlap < target
    requires w.lo <= from < w.hi <= |ss| && Span(ss, w.lo, from) <= overlap
    requires FilledGreedily(ss, target, w, from)
    ensures Span(ss, w.lo, w.hi) <= target + overlap
    ensures Span(ss, w.lo, w.hi) > target ==> w.hi == from + 1 && w.lo < from
  {
    var last := w.hi - 1;
    assert Span(ss, w.lo, w.hi) == Span(ss, w.lo, last) + ss[last].tokens;
    if from < last {
      assert Fits(ss, target, w.lo, last);
    }
  }

  lemma PackingSize(ss: seq<Sentence>, target: int, overlap: int, ws: seq<Window>, i: nat)
    requires Fitting(ss, target) && 0 <= overlap < target
    requires IsPacking(ss, target, overlap, ws) && i < |ws|
    ensures ws[i].lo < ws[i].hi <= |ss| && FreshFrom(ws, i) < ws[i].hi
    ensures SizedRight(ss, target, overlap, ws, i)
  {
    PackingAt(ss, target, overlap, ws, i);
    WindowSize(ss, target, overlap, ws[i], FreshFrom(ws, i));
    if i + 1 < |ws| { LinkedAt(ss, target, overlap, ws, i); }
  }

  lemma DraftTokens(ss: seq<Sentence>, ws: seq<Window>, i: nat)
    requires InRange(ss, ws) && i < |ws|
    ensures Drafts(ss, ws)[i].tokenCount == Span(ss, ws[i].lo, ws[i].hi)
  {
    TotalOfSlice(ss, ws[i].lo, ws[i].hi);
  }

  /** No chunk's `token_count` exceeds target plus overlap. One above target is carried overlap
      and exactly one new sentence, and one that is not the last could not have taken the
      next sentence. */
  lemma ChunkSizeBounds(blocks: seq<Block>, target: int, overlap: int, i: nat)
    requires 0 <= overlap < target && i < |ChunksOf(blocks, target, overlap)|
    ensures var ss := SentencesOf(blocks, target);
      var ws := AllWindows(ss, target, overlap);
      var tokens := ChunksOf(blocks, target, overlap)[i].tokenCount;
      && FreshFrom(ws, i) < ws[i].hi <= |ss|
      && Span(ss, ws[i].lo, FreshFrom(ws, i)) <= overlap
      && tokens <= target + overlap
      && (tokens > target ==> ws[i].hi == FreshFrom(ws, i) + 1 && ws[i].lo < FreshFrom(ws, i))
      && (i + 1 < |ws| ==> ws[i].hi < |ss| && tokens + ss[ws[i].hi].tokens > target)
  {
    var ss := SentencesOf(blocks, target);
    var ws := AllWindows(ss, target, overlap);
    ScannedSentencesFit(blocks, target);
    PackingExact(ss, target, overlap, ws);
    PackingSize(ss, target, overlap, ws, i);
    DraftTokens(ss, ws, i);
  }

  /** Chunks advance: both ends move right, and consecutive chunks leave no gap. */
  lemma WindowsAdvance(ss: seq<Sentence>, target: int, overlap: int, i: nat)
    requires Positive(ss) && i + 1 < |AllWindows(ss, target, overlap)|
    ensures var ws := AllWindows(ss, target, overlap);
      ws[i].lo < ws[i + 1].lo <= ws[i].hi < ws[i + 1].hi
  {
    var ws := AllWindows(ss, target, overlap);
    PackingExact(ss, target, overlap, ws);
    PackingAt(ss, target, overlap, ws, i + 1);
  }

  function StoredTokens(ss: seq<Sentence>, ws: seq<Window>): nat
    requires InRange(ss, ws)
  {
    if ws == [] then 0 else Span(ss, ws[0].lo, ws[0].hi) + StoredTokens(ss, ws[1..])
  }

  lemma StoredStep(ss: seq<Sentence>, rest: seq<Window>, lo: nat, hi: nat, next: nat, overlap: nat, extra: nat)
    requires lo < next <= hi < |ss| && InRange(ss, rest)
    requires Span(ss, next, hi) <= overlap
    requires StoredTokens(ss, rest) <= Span(ss, next, |ss|) + extra
    ensures StoredTokens(ss, [Window(lo, hi)] + rest) <= Span(ss, lo, |ss|) + overlap + extra
  {
    SpanSplit(ss, lo, hi, |ss|);
    SpanSplit(ss, next, hi, |ss|);
    assert ([Window(lo, hi)] + rest)[1..] == rest;
  }

  lemma NextLoFits(ss: seq<Sentence>, lo: nat, hi: nat, overlap: nat)
    requires lo < hi <= |ss| && Positive(ss)
    ensures Span(ss, NextLo(ss, lo, hi, overlap), hi) <= overlap
  {
    NextLoIsLongest(ss, lo, hi, overlap);
  }

  /** The stored tokens of `ws`, which cover the sentences from `lo` on, are bounded. */
  ghost predicate Bounded(ss: seq<Sentence>, ws: seq<Window>, lo: nat, overlap: nat) {
    ws != [] && InRange(ss, ws) && StoredTokens(ss, ws) <= Span(ss, lo, |ss|) + Times(|ws| - 1, overlap)
  }

  lemma BoundedStep(ss: seq<Sentence>, rest: seq<Window>, lo: nat, hi: nat, next: nat, overlap: nat)
    requires lo < next <= hi < |ss| && Span(ss, next, hi) <= overlap && Bounded(ss, rest, next, overlap)
    ensures Bounded(ss, [Window(lo, hi)] + rest, lo, overlap)
  {
    StoredStep(ss, rest, lo, hi, next, overlap, Times(|rest| - 1, overlap));
    assert Times(|rest|, overlap) == overlap + Times(|rest| - 1, overlap);
  }

  lemma BoundedLast(ss: seq<Sentence>, lo: nat, overlap: nat)
    requires lo < |ss|
    ensures Bounded(ss, [Window(lo, |ss|)], lo, overlap)
  {
    assert StoredTokens(ss, [Window(lo, |ss|)][1..]) == 0;
  }

  lemma {:induction false} StoredFrom(ss: seq<Sentence>, target: int, overlap: nat, lo: nat, hi: nat)
    requires lo < hi <= |ss| && Positive(ss)
    ensures Bounded(ss, Windows(ss, target, overlap, lo, hi), lo, overlap)
    decreases |ss| - hi
  {
    if hi == |ss| {
      BoundedLast(ss, lo, overlap);
    } else if Fits(ss, target, lo, hi) {
      StoredFrom(ss, target, overlap, lo, hi + 1);
    } else {
      var next := NextLo(ss, lo, hi, overlap);
      StoredFrom(ss, target, overlap, next, hi + 1);
      NextLoFits(ss, lo, hi, overlap);
      BoundedStep(ss, Windows(ss, target, overlap, next, hi + 1), lo, hi, next, overlap);
    }
  }

  function TokensIn(chunks: seq<ChunkDraft>): int {
    if chunks == [] then 0 else chunks[0].tokenCount + TokensIn(chunks[1..])
  }

  lemma {:induction false} TokensAreStored(ss: seq<Sentence>, ws: seq<Window>)
    requires InRange(ss, ws)
    ensures TokensIn(Drafts(ss, ws)) == StoredTokens(ss, ws)
  {
    if ws != [] {
      DraftTokens(ss, ws, 0);
      TokensAreStored(ss, ws[1..]);
      assert Drafts(ss, ws)[1..] == Drafts(ss, ws[1..]);
    }
  }

  lemma AllBounded(ss: seq<Sentence>, target: int, overlap: nat)
    requires Positive(ss) && ss != []
    ensures Bounded(ss, AllWindows(ss, target, overlap), 0, overlap)
  {
    StoredFrom(ss, target, overlap, 0, 1);
  }

  lemma BoundedDrafts(ss: seq<Sentence>, ws: seq<Window>, overlap: nat)
    requires Bounded(ss, ws, 0, overlap)
    ensures TokensIn(Drafts(ss, ws)) <= Total(ss) + Times(|ws| - 1, overlap)
  {
    TokensAreStored(ss, ws);
  }

  lemma StorageTimes(blocks: seq<Block>, target: int, overlap: nat)
    requires SentencesOf(blocks, target) != []
    ensures var chunks := ChunksOf(blocks, target, overlap);
      chunks != [] && TokensIn(chunks) <= Total(SentencesOf(blocks, target)) + Times(|chunks| - 1, overlap)
  {
    var ss := SentencesOf(blocks, target);
    ScannedSentencesPositive(blocks, target);
    AllBounded(ss, target, overlap);
    BoundedDrafts(ss, AllWindows(ss, target, overlap), overlap);
  }

  lemma AtMostProduct(tokens: int, total: int, n: nat, k: nat)
    requires tokens <= total + Times(n, k)
    ensures tokens <= total + n * k
  {
    TimesIsProduct(n, k);
  }

  /** Overlap costs at most `overlap` stored tokens for each chunk after the first. */
  lemma StorageBound(blocks: seq<Block>, target: int, overlap: nat)
    requires SentencesOf(blocks, target) != []
    ensures var chunks := ChunksOf(blocks, target, overlap);
      TokensIn(chunks) <= Total(SentencesOf(blocks, target)) + (|chunks| - 1) * overlap
  {
    var chunks := ChunksOf(blocks, target, overlap);
    StorageTimes(blocks, target, overlap);
    AtMostProduct(TokensIn(chunks), Total(SentencesOf(blocks, target)), |chunks| - 1, overlap);
  }

  // ----- token counts -----

  /** `n` rounded estimates are off by at most a third of a token each. */
  ghost predicate Drifts(words: nat, tokens: int, n: nat) {
    4 * words - n <= 3 * tokens <= 4 * words + n
  }

  lemma DriftOfOne(s: Sentence, limit: int)
    requires WellFormed(s, limit)
    ensures Drifts(|Words(s.text)|, s.tokens, 1)
  {
    assert |Words(s.text)| > 0;
  }

  lemma WordsSnoc(ss: seq<Sentence>, n: nat)
    requires n < |ss|
    ensures WordsOfAll(SentenceTexts(ss[..n + 1])) == WordsOfAll(SentenceTexts(ss[..n])) + Words(ss[n].text)
  {
    SentenceTextsAppend(ss[..n], [ss[n]]);
    WordsOfOneSentence(ss[n]);
    PrefixSnoc(ss, n);
  }

  lemma {:induction false} DriftOfSentences(ss: seq<Sentence>, n: nat, limit: int)
    requires n <= |ss| && AllWellFormed(ss, limit)
    ensures Drifts(|WordsOfAll(SentenceTexts(ss[..n]))|, Span(ss, 0, n), n)
  {
    if n == 0 {
      assert SentenceTexts(ss[..0]) == [];
    } else {
      DriftOfSentences(ss, n - 1, limit);
      WordsSnoc(ss, n - 1);
      DriftOfOne(ss[n - 1], limit);
    }
  }

  /** The words of sentences `lo..hi`. */
  function WordsIn(ss: seq<Sentence>, lo: nat, hi: nat): seq<string>
    requires lo <= hi <= |ss|
  {
    WordsOfAll(SentenceTexts(ss[lo..hi]))
  }

  lemma WordsOfSlice(ss: seq<Sentence>, lo: nat, mid: nat, hi: nat)
    requires lo <= mid <= hi <= |ss|
    ensures WordsIn(ss, lo, hi) == WordsIn(ss, lo, mid) + WordsIn(ss, mid, hi)
  {
    SentenceTextsAppend(ss[lo..mid], ss[mid..hi]);
    assert ss[lo..hi] == ss[lo..mid] + ss[mid..hi];
  }

  /** A chunk's stored `token_count` differs from the estimate of its text by at most
      `(n + 1) / 3`, for `n` sentences. */
  lemma TokenCountDrift(ss: seq<Sentence>, limit: int)
    requires ss != [] && AllWellFormed(ss, limit)
    ensures var d := Draft(ss);
      -(|ss| + 1) <= 3 * (d.tokenCount - EstimateTokens(d.text)) <= |ss| + 1
  {
    DriftOfSentences(ss, |ss|, limit);
    assert ss[..|ss|] == ss;
    WordsOfJoin(SentenceTexts(ss), ' ');
    WordsOfSlice(ss, 0, 1, |ss|);
    WordsOfOneSentence(ss[0]);
    assert ss[0..1] == [ss[0]] && ss[0..|ss|] == ss;
    assert WellFormed(ss[0], limit);
  }

  // ----- reading the document back -----

  /** How many leading words of chunk `i` are carried over from chunk `i - 1`. */
  function CarriedWords(ss: seq<Sentence>, ws: seq<Window>, i: nat): nat
    requires i < |ws| && ws[i].lo <= FreshFrom(ws, i) <= |ss|
  {
    |WordsIn(ss, ws[i].lo, FreshFrom(ws, i))|
  }

  predicate Overlapping(ss: seq<Sentence>, ws: seq<Window>) {
    && InRange(ss, ws)
    && forall i {:trigger FreshFrom(ws, i)} :: 0 <= i < |ws| ==> ws[i].lo <= FreshFrom(ws, i) <= ws[i].hi
  }

  /** The words of a chunk text past its first `carried`. */
  function Without(text: string, carried: nat): seq<string> {
    var words := Words(text);
    if carried <= |words| then words[carried..] else []
  }

  /** The words of the texts from `i` on, each without its first `carried[i]`. */
  function Unrepeated(texts: seq<string>, carried: seq<nat>, i: nat): seq<string>
    requires i <= |texts| == |carried|
    decreases |texts| - i
  {
    if i == |texts| then [] else Without(texts[i], carried[i]) + Unrepeated(texts, carried, i + 1)
  }

  function DraftTexts(chunks: seq<ChunkDraft>): seq<string> {
    seq(|chunks|, i requires 0 <= i < |chunks| => chunks[i].text)
  }

  function CarriedOf(ss: seq<Sentence>, ws: seq<Window>): seq<nat>
    requires Overlapping(ss, ws)
  {
    seq(|ws|, i requires 0 <= i < |ws| => CarriedWords(ss, ws, i))
  }

  /** The words of the chunks from `i` on, each without its carried words. */
  function FreshWords(ss: seq<Sentence>, ws: seq<Window>, i: nat): seq<string>
    requires Overlapping(ss, ws) && i <= |ws|
  {
    Unrepeated(DraftTexts(Drafts(ss, ws)), CarriedOf(ss, ws), i)
  }

  lemma WindowWords(ss: seq<Sentence>, ws: seq<Window>, i: nat)
    requires InRange(ss, ws) && i < |ws|
    ensures Words(Drafts(ss, ws)[i].text) == WordsIn(ss, ws[i].lo, ws[i].hi)
  {
    WordsOfJoin(SentenceTexts(ss[ws[i].lo..ws[i].hi]), ' ');
  }

  lemma ChunkWords(ss: seq<Sentence>, ws: seq<Window>, i: nat)
    requires Overlapping(ss, ws) && i < |ws|
    ensures Words(Drafts(ss, ws)[i].text)
         == WordsIn(ss, ws[i].lo, FreshFrom(ws, i)) + WordsIn(ss, FreshFrom(ws, i), ws[i].hi)
  {
    WindowWords(ss, ws, i);
    WordsOfSlice(ss, ws[i].lo, FreshFrom(ws, i), ws[i].hi);
  }

  lemma ChunkWithoutCarried(ss: seq<Sentence>, ws: seq<Window>, i: nat)
    requires Overlapping(ss, ws) && i < |ws|
    ensures Without(Drafts(ss, ws)[i].text, CarriedWords(ss, ws, i)) == WordsIn(ss, FreshFrom(ws, i), ws[i].hi)
  {
    ChunkWords(ss, ws, i);
    var carried, fresh_ := WordsIn(ss, ws[i].lo, FreshFrom(ws, i)), WordsIn(ss, FreshFrom(ws, i), ws[i].hi);
    assert (carried + fresh_)[|carried|..] == fresh_;
  }

  /** The texts without their repeated words are the parts. */
  ghost predicate Cut(texts: seq<string>, carried: seq<nat>, parts: seq<seq<string>>) {
    |texts| == |carried| == |parts| && forall i :: 0 <= i < |parts| ==> Without(texts[i], carried[i]) == parts[i]
  }

  lemma {:induction false} UnrepeatedIsSum(texts: seq<string>, carried: seq<nat>, parts: seq<seq<string>>, i: nat)
    requires Cut(texts, carried, parts) && i <= |parts|
    ensures Unrepeated(texts, carried, i) == SumFrom(parts, i)
    decreases |parts| - i
  {
    if i < |parts| { UnrepeatedIsSum(texts, carried, parts, i + 1); }
  }

  /** The words of each sentence. */
  function SentenceWords(ss: seq<Sentence>): seq<seq<string>> {
    seq(|ss|, i requires 0 <= i < |ss| => Words(ss[i].text))
  }

  lemma FirstWords(ss: seq<Sentence>, lo: nat, hi: nat)
    requires lo < hi <= |ss|
    ensures WordsIn(ss, lo, hi) == Words(ss[lo].text) + WordsIn(ss, lo + 1, hi)
  {
    WordsOfSlice(ss, lo, lo + 1, hi);
    assert ss[lo..lo + 1] == [ss[lo]];
    WordsOfOneSentence(ss[lo]);
  }

  lemma {:induction false} WordsInIsSum(ss: seq<Sentence>, lo: nat, hi: nat)
    requires lo <= hi <= |ss|
    ensures WordsIn(ss, lo, hi) == SumBetween(SentenceWords(ss), lo, hi)
    decreases hi - lo
  {
    if lo == hi {
      assert SentenceTexts(ss[lo..hi]) == [];
    } else {
      WordsInIsSum(ss, lo + 1, hi);
      FirstWords(ss, lo, hi);
    }
  }

  /** The parts are what the windows add. */
  ghost predicate Added(ss: seq<Sentence>, ws: seq<Window>, words: seq<seq<string>>, parts: seq<seq<string>>)
    requires Overlapping(ss, ws) && |words| == |ss|
  {
    |parts| == |ws| && forall i {:trigger parts[i]} :: 0 <= i < |ws| ==> parts[i] == SumBetween(words, FreshFrom(ws, i), ws[i].hi)
  }

  lemma {:induction false} AddedIsAll(ss: seq<Sentence>, ws: seq<Window>, words: seq<seq<string>>, parts: seq<seq<string>>, i: nat)
    requires Overlapping(ss, ws) && i < |ws| && ws[|ws| - 1].hi == |ss| == |words| && Added(ss, ws, words, parts)
    ensures SumFrom(parts, i) == SumBetween(words, FreshFrom(ws, i), |ss|)
    decreases |ws| - i
  {
    if i + 1 < |ws| {
      AddedIsAll(ss, ws, words, parts, i + 1);
      SumSplit(words, FreshFrom(ws, i), ws[i].hi, |ss|);
    } else {
      assert SumFrom(parts, i + 1) == [];
    }
  }

  function PartsOf(ss: seq<Sentence>, ws: seq<Window>): seq<seq<string>>
    requires Overlapping(ss, ws)
  {
    seq(|ws|, i requires 0 <= i < |ws| => SumBetween(SentenceWords(ss), FreshFrom(ws, i), ws[i].hi))
  }

  lemma ChunksAreCut(ss: seq<Sentence>, ws: seq<Window>)
    requires Overlapping(ss, ws)
    ensures Cut(DraftTexts(Drafts(ss, ws)), CarriedOf(ss, ws), PartsOf(ss, ws))
  {
    forall i | 0 <= i < |ws|
      ensures Without(DraftTexts(Drafts(ss, ws))[i], CarriedOf(ss, ws)[i]) == PartsOf(ss, ws)[i]
    {
      ChunkWithoutCarried(ss, ws, i);
      WordsInIsSum(ss, FreshFrom(ws, i), ws[i].hi);
    }
  }

  lemma FreshWordsAre(ss: seq<Sentence>, ws: seq<Window>)
    requires Overlapping(ss, ws) && ws != [] && ws[|ws| - 1].hi == |ss|
    ensures FreshWords(ss, ws, 0) == WordsIn(ss, 0, |ss|)
  {
    ChunksAreCut(ss, ws);
    UnrepeatedIsSum(DraftTexts(Drafts(ss, ws)), CarriedOf(ss, ws), PartsOf(ss, ws), 0);
    AddedIsAll(ss, ws, SentenceWords(ss), PartsOf(ss, ws), 0);
    WordsInIsSum(ss, 0, |ss|);
  }

  lemma PackingOverlaps(ss: seq<Sentence>, target: int, overlap: int)
    requires Positive(ss)
    ensures var ws := AllWindows(ss, target, overlap);
      Overlapping(ss, ws) && (ss != [] ==> ws != [] && ws[|ws| - 1].hi == |ss|)
  {
    var ws := AllWindows(ss, target, overlap);
    PackingExact(ss, target, overlap, ws);
    forall i | 0 <= i < |ws|
      ensures ws[i].lo <= FreshFrom(ws, i) <= ws[i].hi
    {
      PackingAt(ss, target, overlap, ws, i);
    }
  }

  /** Dropping each chunk's carried words leaves every word of the sentences, in order, once. */
  lemma ChunksCoverSentences(ss: seq<Sentence>, target: int, overlap: int)
    requires Positive(ss)
    ensures var ws := AllWindows(ss, target, overlap);
      Overlapping(ss, ws) && FreshWords(ss, ws, 0) == WordsOfAll(SentenceTexts(ss))
  {
    var ws := AllWindows(ss, target, overlap);
    PackingOverlaps(ss, target, overlap);
    if ss != [] {
      FreshWordsAre(ss, ws);
      assert ss[0..|ss|] == ss;
    } else {
      assert SentenceTexts(ss) == [];
    }
  }

  /** The first `n` of `here` are the last `n` of `before`. */
  ghost predicate Repeats<T>(before: seq<T>, here: seq<T>, n: nat) {
    n <= |before| && n <= |here| && here[..n] == before[|before| - n..]
  }

  lemma BeforeWords(ss: seq<Sentence>, ws: seq<Window>, i: nat)
    requires Overlapping(ss, ws) && 0 < i < |ws| && ws[i - 1].lo <= ws[i].lo <= ws[i - 1].hi
    ensures Words(Drafts(ss, ws)[i - 1].text)
         == WordsIn(ss, ws[i - 1].lo, ws[i].lo) + WordsIn(ss, ws[i].lo, FreshFrom(ws, i))
  {
    WindowWords(ss, ws, i - 1);
    WordsOfSlice(ss, ws[i - 1].lo, ws[i].lo, ws[i - 1].hi);
  }

  lemma SharedMiddle<T>(lead: seq<T>, shared: seq<T>, tail: seq<T>)
    ensures Repeats(lead + shared, shared + tail, |shared|)
  {
  }

  lemma SuffixWords(ss: seq<Sentence>, ws: seq<Window>, i: nat)
    requires Overlapping(ss, ws) && 0 < i < |ws| && ws[i - 1].lo <= ws[i].lo <= ws[i - 1].hi
    ensures Repeats(Words(Drafts(ss, ws)[i - 1].text), Words(Drafts(ss, ws)[i].text), CarriedWords(ss, ws, i))
  {
    ChunkWords(ss, ws, i);
    BeforeWords(ss, ws, i);
    SharedMiddle(WordsIn(ss, ws[i - 1].lo, ws[i].lo), WordsIn(ss, ws[i].lo, FreshFrom(ws, i)),
                 WordsIn(ss, FreshFrom(ws, i), ws[i].hi));
  }

  /** The carried words of a chunk are the last words of the chunk before it. */
  lemma CarriedIsSuffix(ss: seq<Sentence>, target: int, overlap: int, i: nat)
    requires Positive(ss) && 0 < i < |AllWindows(ss, target, overlap)|
    ensures var ws := AllWindows(ss, target, overlap);
      && Overlapping(ss, ws)
      && Repeats(Words(Drafts(ss, ws)[i - 1].text), Words(Drafts(ss, ws)[i].text), CarriedWords(ss, ws, i))
  {
    var ws := AllWindows(ss, target, overlap);
    PackingOverlaps(ss, target, overlap);
    WindowsAdvance(ss, target, overlap, i - 1);
    SuffixWords(ss, ws, i);
  }

  /** Joining normalised texts gives a normalised text. */
  lemma {:induction false} JoinIsNormal(ss: seq<Sentence>, limit: int)
    requires ss != [] && AllWellFormed(ss, limit)
    ensures Join(SentenceTexts(ss), ' ') == Join(WordsOfAll(SentenceTexts(ss)), ' ')
  {
    assert WellFormed(ss[0], limit);
    if |ss| == 1 {
      assert ss == [ss[0]] && SentenceTexts(ss) == [ss[0].text];
      WordsOfOneSentence(ss[0]);
    } else {
      JoinIsNormal(ss[1..], limit);
      assert SentenceTexts(ss)[1..] == SentenceTexts(ss[1..]);
      assert WellFormed(ss[1], limit);
      assert SentenceTexts(ss[1..])[0] == ss[1].text;
      JoinAppend(Words(ss[0].text), WordsOfAll(SentenceTexts(ss[1..])), ' ');
    }
  }

  /** A chunk's text is its words with one space between each two. */
  lemma ChunkIsNormal(blocks: seq<Block>, target: int, overlap: int, i: nat)
    requires i < |ChunksOf(blocks, target, overlap)|
    ensures var text := ChunksOf(blocks, target, overlap)[i].text; text == Join(Words(text), ' ')
  {
    var ss := SentencesOf(blocks, target);
    var ws := AllWindows(ss, target, overlap);
    SentencesKeepWords(blocks, target);
    JoinIsNormal(ss[ws[i].lo..ws[i].hi], target);
    WindowWords(ss, ws, i);
  }
}
