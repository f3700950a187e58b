/** From markdown lines to stored chunks: no word of the body is lost, repeated or moved. */
module EndToEnd {
  import opened Prelude
  import opened Text
  import opened Chunking
  import opened Packing
  import ChunkBounds
  import Markdown

  /** The words of all lines that are not headings, in order. */
  function BodyWords(lines: seq<string>, marks: seq<Option<Markdown.Heading>>, i: nat): seq<string>
    requires i <= |lines| == |marks|
    decreases |lines| - i
  {
    if i == |lines| then []
    else (if marks[i].Some? then [] else Words(lines[i])) + BodyWords(lines, marks, i + 1)
  }

  function Unfiled(fs: seq<Markdown.Filed>): seq<string> {
    seq(|fs|, i requires 0 <= i < |fs| => fs[i].word)
  }

  lemma UnfiledAppend(ws: seq<string>, path: seq<string>, rest: seq<Markdown.Filed>)
    ensures Unfiled(Markdown.FileUnder(ws, path) + rest) == ws + Unfiled(rest)
  {
  }

  lemma {:induction false} UnfiledBlocks(bs: seq<Block>)
    ensures Unfiled(Markdown.FiledBlocks(bs)) == WordsOfAll(BlockTexts(bs))
  {
    if bs != [] {
      UnfiledBlocks(bs[1..]);
      UnfiledAppend(Words(bs[0].text), if bs[0].meta.headings.Some? then bs[0].meta.headings.value else [],
                    Markdown.FiledBlocks(bs[1..]));
      WordsOfAllCons(bs[0].text, BlockTexts(bs[1..]));
      assert BlockTexts(bs) == [bs[0].text] + BlockTexts(bs[1..]);
    }
  }

  lemma {:induction false} UnfiledLines(lines: seq<string>, marks: seq<Option<Markdown.Heading>>, i: nat)
    requires i <= |lines| == |marks|
    ensures Unfiled(Markdown.FiledLines(lines, marks, i, |lines|)) == BodyWords(lines, marks, i)
    decreases |lines| - i
  {
    if i < |lines| {
      UnfiledLines(lines, marks, i + 1);
      var rest := Markdown.FiledLines(lines, marks, i + 1, |lines|);
      if marks[i].None? {
        UnfiledAppend(Words(lines[i]), Markdown.Titles(Markdown.Enclosing(marks, i)), rest);
      } else {
        assert Markdown.FiledLines(lines, marks, i, |lines|) == rest;
      }
    }
  }

  /** Parse, split, collapse, hard-split and pack: the chunks without their carried words
      read as the body of the document, whatever the budget and the overlap. */
  lemma NoWordLost(lines: seq<string>, target: int, overlap: int)
    ensures var ss := SentencesOf(Markdown.Sections(lines), target);
      var ws := AllWindows(ss, target, overlap);
      && ChunkBounds.Overlapping(ss, ws)
      && ChunkBounds.FreshWords(ss, ws, 0) == BodyWords(lines, Markdown.Marks(lines), 0)
  {
    var blocks := Markdown.Sections(lines);
    ChunkBounds.ScannedSentencesPositive(blocks, target);
    ChunkBounds.ChunksCoverSentences(SentencesOf(blocks, target), target, overlap);
    SentencesKeepWords(blocks, target);
    UnfiledBlocks(blocks);
    Markdown.BodyIsFiled(lines);
    UnfiledLines(lines, Markdown.Marks(lines), 0);
  }

  datatype Outcome = Chunks(chunks: seq<ChunkDraft>) | Unparseable | BadConfig

  /** A document parses exactly when its body has a word. */
  lemma ParsesIffBody(lines: seq<string>)
    ensures Markdown.Sections(lines) == [] <==> BodyWords(lines, Markdown.Marks(lines), 0) == []
  {
    UnfiledBlocks(Markdown.Sections(lines));
    Markdown.BodyIsFiled(lines);
    UnfiledLines(lines, Markdown.Marks(lines), 0);
    Markdown.SectionsHaveText(lines, Markdown.Marks(lines), 0, 0);
    var blocks := Markdown.Sections(lines);
    if blocks != [] {
      assert BlockTexts(blocks)[0] == blocks[0].text;
    }
  }

  lemma ChunksIffBody(lines: seq<string>, target: int, overlap: int)
    ensures var ss := SentencesOf(Markdown.Sections(lines), target);
      AllWindows(ss, target, overlap) == [] <==> BodyWords(lines, Markdown.Marks(lines), 0) == []
  {
    var ss := SentencesOf(Markdown.Sections(lines), target);
    SentencesKeepWords(Markdown.Sections(lines), target);
    UnfiledBlocks(Markdown.Sections(lines));
    Markdown.BodyIsFiled(lines);
    UnfiledLines(lines, Markdown.Marks(lines), 0);
    if ss != [] {
      assert WellFormed(ss[0], target);
      assert SentenceTexts(ss)[0] == ss[0].text;
    }
  }

  /** `_parse_and_chunk` on a markdown upload. */
  method ParseAndChunk(lines: seq<string>, target: int, overlap: int) returns (r: Outcome)
    ensures r.Unparseable? <==> BodyWords(lines, Markdown.Marks(lines), 0) == []
    ensures r.BadConfig? <==> BodyWords(lines, Markdown.Marks(lines), 0) != [] && overlap >= target
    ensures r.Chunks? ==>
      r.chunks == ChunksOf(Markdown.Sections(lines), target, overlap) && r.chunks != []
  {
    var parsed := Markdown.ParseMarkdown(lines);
    ParsesIffBody(lines);
    if parsed.ParseError? {
      return Unparseable;
    }
    var chunks := ChunkBlocks(parsed.blocks, target, overlap);
    if chunks.ValueError? {
      return BadConfig;
    }
    r := Chunks(chunks.value);
    ChunksIffBody(lines, target, overlap);
  }
}
