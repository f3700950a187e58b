/** Where a chunk says it begins: its heading path is that of its first word in the document. */
module Provenance {
  import opened Prelude
  import opened Text
  import opened Chunking
  import opened Packing
  import opened SentenceLaws
  import ChunkBounds
  import Markdown

  function PathOf(meta: Meta): seq<string> {
    if meta.headings.Some? then meta.headings.value else []
  }

  /** Tagged words as filed words: of the metadata only the heading path. */
  function Filed(ts: seq<Tagged>): seq<Markdown.Filed> {
    seq(|ts|, i requires 0 <= i < |ts| => Markdown.Filed(ts[i].word, PathOf(ts[i].meta)))
  }

  lemma FiledTag(words: seq<string>, meta: Meta, rest: seq<Tagged>)
    ensures Filed(Tag(words, meta) + rest) == Markdown.FileUnder(words, PathOf(meta)) + Filed(rest)
  {
  }

  lemma {:induction false} FiledBlocksAre(bs: seq<Block>)
    ensures Filed(TaggedBlocks(bs)) == Markdown.FiledBlocks(bs)
  {
    if bs != [] {
      FiledBlocksAre(bs[1..]);
      FiledTag(Words(bs[0].text), bs[0].meta, TaggedBlocks(bs[1..]));
    }
  }

  lemma {:induction false} TaggedSize(ss: seq<Sentence>)
    ensures |TaggedSentences(ss)| == |WordsOfAll(SentenceTexts(ss))|
  {
    if ss != [] {
      TaggedSize(ss[1..]);
      TextsCons(ss);
    } else {
      assert SentenceTexts(ss) == [];
    }
  }

  lemma TagFirst(ss: seq<Sentence>)
    requires ss != [] && Words(ss[0].text) != []
    ensures TaggedSentences(ss) != [] && TaggedSentences(ss)[0] == Tagged(Words(ss[0].text)[0], ss[0].meta)
  {
  }

  /** The word at which sentence `n` begins carries that sentence's metadata. */
  lemma TagAt(ss: seq<Sentence>, n: nat)
    requires n < |ss| && Words(ss[n].text) != []
    ensures var p := |ChunkBounds.WordsIn(ss, 0, n)|;
      p < |TaggedSentences(ss)| && TaggedSentences(ss)[p] == Tagged(Words(ss[n].text)[0], ss[n].meta)
  {
    assert ss == ss[..n] + ss[n..] && ss[0..n] == ss[..n];
    TaggedAppend(ss[..n], ss[n..]);
    TaggedSize(ss[..n]);
    TagFirst(ss[n..]);
  }

  /** The document's words as the parser files them are those of its sentences. */
  lemma SentencesAreFiled(lines: seq<string>, target: int)
    ensures Filed(TaggedSentences(SentencesOf(Markdown.Sections(lines), target)))
         == Markdown.FiledLines(lines, Markdown.Marks(lines), 0, |lines|)
  {
    SentencesKeepMeta(Markdown.Sections(lines), target);
    FiledBlocksAre(Markdown.Sections(lines));
    Markdown.BodyIsFiled(lines);
  }

  lemma FirstOfChunk(ss: seq<Sentence>, ws: seq<Window>, i: nat)
    requires InRange(ss, ws) && i < |ws| && Words(ss[ws[i].lo].text) != []
    ensures var chunk := Drafts(ss, ws)[i];
      && HeadingsRight(ss[ws[i].lo..ws[i].hi], chunk.meta.headings)
      && Words(chunk.text) != [] && Words(chunk.text)[0] == Words(ss[ws[i].lo].text)[0]
  {
    var w := ws[i];
    MergeMetaIs(ss[w.lo..w.hi]);
    ChunkBounds.WindowWords(ss, ws, i);
    ChunkBounds.FirstWords(ss, w.lo, w.hi);
  }

  /** Which word of the body chunk `i` begins with: those of the sentences before it come first. */
  function BeginsAt(ss: seq<Sentence>, ws: seq<Window>, i: nat): nat
    requires InRange(ss, ws) && i < |ws|
  {
    |ChunkBounds.WordsIn(ss, 0, ws[i].lo)|
  }

  /** Every chunk begins with some word of the body, and its heading path is exactly that of the
      headings enclosing that word's line; none, if there are none. */
  lemma HeadingsAreHonest(lines: seq<string>, target: int, overlap: int, i: nat)
    requires i < |ChunksOf(Markdown.Sections(lines), target, overlap)|
    ensures var ss := SentencesOf(Markdown.Sections(lines), target);
      var p := BeginsAt(ss, AllWindows(ss, target, overlap), i);
      var body := Markdown.FiledLines(lines, Markdown.Marks(lines), 0, |lines|);
      var chunk := ChunksOf(Markdown.Sections(lines), target, overlap)[i];
      && p < |body| && Words(chunk.text) != [] && Words(chunk.text)[0] == body[p].word
      && chunk.meta.headings == if body[p].path == [] then None else Some(body[p].path)
  {
    var ss := SentencesOf(Markdown.Sections(lines), target);
    var ws := AllWindows(ss, target, overlap);
    SentencesKeepWords(Markdown.Sections(lines), target);
    assert WellFormed(ss[ws[i].lo], target);
    FirstOfChunk(ss, ws, i);
    TagAt(ss, ws[i].lo);
    SentencesAreFiled(lines, target);
  }
}
