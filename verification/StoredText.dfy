/** What the rows of a completed markdown document hold: read in order without the words they
    repeat, they are the document's body. Here the lifecycle and the text pipeline meet. */
module StoredText {
  import opened Prelude
  import opened Text
  import opened Chunking
  import opened Packing
  import opened Lifecycle
  import opened LifecycleSafety
  import ChunkBounds
  import EndToEnd
  import IngestionService
  import Markdown

  /** How payloads are read: `lines` is decoding and `splitlines`, `None` for bad UTF-8. */
  datatype Reader = Reader(lines: string -> Option<seq<string>>, embed: string -> seq<real>, target: int, overlap: int)

  function PiecesFrom(embed: string -> seq<real>, chunks: seq<ChunkDraft>): seq<Piece> {
    seq(|chunks|, i requires 0 <= i < |chunks| => Piece(chunks[i].text, chunks[i].tokenCount, embed(chunks[i].text)))
  }

  /** Parse, chunk and embed, for markdown. */
  ghost function MarkdownPieces(r: Reader, payload: string): Option<seq<Piece>> {
    var lines := r.lines(payload);
    if lines.None? || Markdown.Sections(lines.value) == [] then None
    else Some(PiecesFrom(r.embed, ChunksOf(Markdown.Sections(lines.value), r.target, r.overlap)))
  }

  /** `_parse_and_chunk`, `_embed_all` and the strict zip of `process`. */
  method ReadPayload(r: Reader, payload: string, batch: int) returns (pieces: Option<seq<Piece>>)
    requires r.overlap < r.target && batch > 0
    ensures pieces == MarkdownPieces(r, payload)
  {
    var lines := r.lines(payload);
    if lines.None? {
      return None;
    }
    var parsed := EndToEnd.ParseAndChunk(lines.value, r.target, r.overlap);
    EndToEnd.ParsesIffBody(lines.value);
    if parsed.Unparseable? {
      return None;
    }
    var texts := seq(|parsed.chunks|, i requires 0 <= i < |parsed.chunks| => parsed.chunks[i].text);
    var embeddings := IngestionService.EmbedAll(r.embed, texts, batch);
    pieces := Some(seq(|texts|, i requires 0 <= i < |texts| =>
      Piece(texts[i], parsed.chunks[i].tokenCount, embeddings.value[i])));
    assert parsed.chunks == ChunksOf(Markdown.Sections(lines.value), r.target, r.overlap);
    assert pieces.value == PiecesFrom(r.embed, parsed.chunks);
  }

  /** The lifecycle's `pieces` is what the code computes for markdown. */
  ghost predicate Reads(c: Config, r: Reader) {
    r.overlap < r.target && forall payload :: c.pieces(Kind.Markdown, payload) == MarkdownPieces(r, payload)
  }

  /** The stored text of the document's chunk `i`. */
  ghost function TextAt(w: World, id: DocId, i: nat): string
    requires HasIndex(w, id, i)
  {
    var cid :| cid in w.chunks && w.chunks[cid].doc == id && w.chunks[cid].index == i;
    w.chunks[cid].piece.content
  }

  /** The stored texts of the document's chunks 0 to `n`. */
  ghost function Texts(w: World, id: DocId, n: nat): seq<string>
    requires forall i :: 0 <= i < n ==> HasIndex(w, id, i)
  {
    seq(n, i requires 0 <= i < n => TextAt(w, id, i))
  }

  ghost predicate RepeatsAt(texts: seq<string>, carried: seq<nat>, i: nat)
    requires 0 < i < |texts| == |carried|
  {
    ChunkBounds.Repeats(Words(texts[i - 1]), Words(texts[i]), carried[i])
  }

  /** The document's rows, of which row `i` repeats `carried[i]` words from the end of the row
      before, read as `body`. */
  ghost predicate ReadsAs(w: World, id: DocId, carried: seq<nat>, body: seq<string>) {
    && (forall i :: 0 <= i < |carried| ==> HasIndex(w, id, i))
    && var texts := Texts(w, id, |carried|);
      && (carried != [] ==> carried[0] == 0)
      && (forall i :: 0 < i < |carried| ==> RepeatsAt(texts, carried, i))
      && ChunkBounds.Unrepeated(texts, carried, 0) == body
  }

  lemma TextIsPiece(w: World, id: DocId, tenant: nat, ps: seq<Piece>, i: nat)
    requires HoldsExactly(w, id, tenant, ps) && i < |ps|
    ensures HasIndex(w, id, i) && TextAt(w, id, i) == ps[i].content
  {
    assert HasIndex(w, id, i);
    var cid :| cid in w.chunks && w.chunks[cid].doc == id && w.chunks[cid].index == i
               && TextAt(w, id, i) == w.chunks[cid].piece.content;
    assert IsPiece(w.chunks[cid], tenant, ps);
  }

  /** The stored texts are those of the chunks. */
  ghost predicate Stored(w: World, id: DocId, chunks: seq<ChunkDraft>) {
    && (forall i :: 0 <= i < |chunks| ==> HasIndex(w, id, i))
    && Texts(w, id, |chunks|) == ChunkBounds.DraftTexts(chunks)
  }

  lemma FirstIsFresh(ss: seq<Sentence>, ws: seq<Window>, target: int, overlap: int)
    requires ws == AllWindows(ss, target, overlap) && ws != []
    ensures ws[0].lo == 0 && ChunkBounds.CarriedWords(ss, ws, 0) == 0
  {
    assert ss[0..0] == [];
    assert SentenceTexts([]) == [];
  }

  lemma StoredReadsBack(w: World, id: DocId, lines: seq<string>, target: int, overlap: int) returns (carried: seq<nat>)
    requires Stored(w, id, ChunksOf(Markdown.Sections(lines), target, overlap))
    ensures |carried| == |ChunksOf(Markdown.Sections(lines), target, overlap)|
    ensures ReadsAs(w, id, carried, EndToEnd.BodyWords(lines, Markdown.Marks(lines), 0))
  {
    var ss := SentencesOf(Markdown.Sections(lines), target);
    var ws := AllWindows(ss, target, overlap);
    var chunks := ChunksOf(Markdown.Sections(lines), target, overlap);
    EndToEnd.NoWordLost(lines, target, overlap);
    ChunkBounds.ScannedSentencesPositive(Markdown.Sections(lines), target);
    carried := ChunkBounds.CarriedOf(ss, ws);
    if ws != [] { FirstIsFresh(ss, ws, target, overlap); }
    forall i | 0 < i < |ws|
      ensures RepeatsAt(Texts(w, id, |carried|), carried, i)
    {
      ChunkBounds.CarriedIsSuffix(ss, target, overlap, i);
    }
  }

  lemma PiecesAreStored(c: Config, r: Reader, w: World, id: DocId, chunks: seq<ChunkDraft>)
    requires id in w.docs && Full(c, w, id) && PiecesOf(c, w.docs[id]) == Some(PiecesFrom(r.embed, chunks))
    ensures Stored(w, id, chunks)
  {
    forall i | 0 <= i < |chunks|
      ensures HasIndex(w, id, i) && TextAt(w, id, i) == chunks[i].text
    {
      TextIsPiece(w, id, w.docs[id].tenant, PiecesFrom(r.embed, chunks), i);
    }
    assert Texts(w, id, |chunks|) == ChunkBounds.DraftTexts(chunks);
  }

  /** In every reachable world each row of a markdown document, completed or not, holds the text
      and token count of the payload's chunk with the row's index, and that text's embedding. */
  lemma RowsAreEmbedded(c: Config, r: Reader, es: seq<Event>, cid: ChunkId)
    requires Reads(c, r) && Exec(c, es).Some? && cid in Exec(c, es).value.chunks
    requires Exec(c, es).value.chunks[cid].doc in Exec(c, es).value.docs
    requires Exec(c, es).value.docs[Exec(c, es).value.chunks[cid].doc].kind == Kind.Markdown
    ensures var w := Exec(c, es).value;
      var row := w.chunks[cid];
      var d := w.docs[row.doc];
      && d.payload.Some? && r.lines(d.payload.value).Some?
      && var chunks := ChunksOf(Markdown.Sections(r.lines(d.payload.value).value), r.target, r.overlap);
      && row.index < |chunks| && row.tenant == d.tenant
      && row.piece == Piece(chunks[row.index].text, chunks[row.index].tokenCount, r.embed(chunks[row.index].text))
  {
    var w := Exec(c, es).value;
    var row := w.chunks[cid];
    AtomicChunkSets(c, es, row.doc);
    assert c.pieces(Kind.Markdown, w.docs[row.doc].payload.value) == MarkdownPieces(r, w.docs[row.doc].payload.value);
    assert IsPiece(row, w.docs[row.doc].tenant, PiecesOf(c, w.docs[row.doc]).value);
  }

  /** In every reachable world, whatever deliveries overlapped: the stored rows of a completed
      markdown document, as many as `chunk_count` says, read as the body of its payload. */
  lemma CompletedReadsAsBody(c: Config, r: Reader, es: seq<Event>, id: DocId) returns (carried: seq<nat>)
    requires Reads(c, r) && Exec(c, es).Some? && id in Exec(c, es).value.docs
    requires Exec(c, es).value.docs[id].status == Completed && Exec(c, es).value.docs[id].kind == Kind.Markdown
    ensures var w := Exec(c, es).value;
      && w.docs[id].payload.Some? && r.lines(w.docs[id].payload.value).Some?
      && w.docs[id].chunkCount == Some(|carried|)
      && var lines := r.lines(w.docs[id].payload.value).value;
         ReadsAs(w, id, carried, EndToEnd.BodyWords(lines, Markdown.Marks(lines), 0))
  {
    var w := Exec(c, es).value;
    AtomicChunkSets(c, es, id);
    InvAlways(c, es);
    assert DocOk(c, w, id);
    var payload := w.docs[id].payload.value;
    assert c.pieces(Kind.Markdown, payload) == MarkdownPieces(r, payload);
    var lines := r.lines(payload).value;
    PiecesAreStored(c, r, w, id, ChunksOf(Markdown.Sections(lines), r.target, r.overlap));
    carried := StoredReadsBack(w, id, lines, r.target, r.overlap);
  }
}
