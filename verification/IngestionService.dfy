/** The code that takes the steps: `register`, `process`, `mark_failed`, the worker task and
    the embedding loop, on the tables they write. While no other task moves, each is a run of
    the lifecycle's steps; the lifecycle says what happens when such runs interleave. */
module IngestionService {
  import opened Prelude
  import opened MapSum
  import opened Lifecycle
  import opened ServiceRuns

  // ----- embedding in batches -----

  function EmbedEach<V>(embed: string -> V, texts: seq<string>): seq<V> {
    seq(|texts|, i requires 0 <= i < |texts| => embed(texts[i]))
  }

  /** `_embed_all`: batches give what embedding the whole list gives. `range` refuses a zero
      step, and a negative one never starts. */
  method EmbedAll<V>(embed: string -> V, texts: seq<string>, batch: int) returns (r: Option<seq<V>>)
    ensures batch > 0 ==> r == Some(EmbedEach(embed, texts))
    ensures batch == 0 ==> r == None
    ensures batch < 0 ==> r == Some([])
  {
    if batch == 0 {
      return None;
    }
    var embeddings := [];
    var start := 0;
    while batch > 0 && start < |texts|
      invariant 0 <= start
      invariant batch > 0 ==> embeddings == EmbedEach(embed, texts[..if start < |texts| then start else |texts|])
      invariant batch < 0 ==> embeddings == []
      decreases |texts| - start
    {
      var end := if start + batch < |texts| then start + batch else |texts|;
      embeddings := embeddings + EmbedEach(embed, texts[start..end]);
      start := start + batch;
    }
    assert texts[..|texts|] == texts;
    r := Some(embeddings);
  }

  // ----- the service -----

  /** Where a transient exception strikes, if anywhere. */
  datatype Fault = NoFault | AtLoad | AtProcessingCommit | AtWork | AtStore | AtMark | AtDisposal

  datatype Outcome = Done | NotFound | ParseError | Transient

  /** What `register` answers. */
  datatype Registration = Created(id: DocId) | QuotaExceeded | DuplicateDocument

  /** A transient exception strikes this delivery of the document before it ends. */
  predicate Strikes(c: Config, docs: map<DocId, Doc>, id: DocId, fault: Fault) {
    if fault == AtLoad then true
    else if id !in docs || docs[id].status == Completed || docs[id].payload.None? then false
    else
      fault == AtProcessingCommit || fault == AtWork
      || (if PiecesOf(c, docs[id]).None? then fault == AtMark else fault == AtStore)
  }

  /** How an attempt that no fault strikes ends. */
  function Answer(c: Config, docs: map<DocId, Doc>, id: DocId): Outcome {
    if id !in docs then NotFound
    else if docs[id].status == Completed then Done
    else if PiecesOf(c, docs[id]).None? then ParseError
    else Done
  }

  /** What the `try` of an attempt leaves, of a document loaded as `seen` and now PROCESSING: as
      it was after a fault, FAILED with the parse reason, or COMPLETED with its rows replaced. */
  ghost function Worked(c: Config, w: World, id: DocId, seen: Doc, fault: Fault): World {
    match PiecesOf(c, seen)
    case None =>
      if fault == AtWork || fault == AtMark then w
      else w.(docs := w.docs[id := seen.(status := Failed, error := Some(Unparseable))])
    case Some(ps) =>
      if fault == AtWork || fault == AtStore then w
      else w.(
        docs := w.docs[id := seen.(status := Completed, chunkCount := Some(|ps|), error := None)],
        chunks := (w.chunks - RowIds(w.chunks, id)) + NewRows(id, seen.tenant, ps, w.nextChunk),
        nextChunk := w.nextChunk + |ps|)
  }

  /** The tables one attempt at a document leaves, by where a fault strikes it. */
  ghost function Tried(c: Config, w: World, id: DocId, fault: Fault): World {
    if fault == AtLoad || id !in w.docs || w.docs[id].status == Completed || w.docs[id].payload.None? then w
    else if fault == AtProcessingCommit then w
    else
      var seen := w.docs[id];
      Worked(c, w.(docs := w.docs[id := seen.(status := Processing)]), id, seen, fault)
  }

  /** The tables after a delivery: those of its attempt, and the exhaustion mark only when a fault
      strikes with the retry counter spent. */
  ghost function Delivered(c: Config, w: World, m: Message, fault: Fault): World {
    var tried := Tried(c, w, m.doc, fault);
    if (fault == AtDisposal || Strikes(c, w.docs, m.doc, fault)) && m.retries >= c.maxRetries && m.doc in tried.docs then
      tried.(docs := tried.docs[m.doc := tried.docs[m.doc].(status := Failed, error := Some(Exhausted))])
    else tried
  }

  /** What the CLI's `ingest` comes to. */
  datatype Ingested = Refused(registration: Registration) | Processed(id: DocId, outcome: Outcome)

  class Service {
    const c: Config
    var docs: map<DocId, Doc>
    var issued: set<DocId>
    var chunks: map<ChunkId, ChunkRow>
    var nextChunk: nat

    constructor (c: Config)
      ensures this.c == c && docs == map[] && issued == {} && chunks == map[] && nextChunk == 0
    {
      this.c := c;
      docs, issued, chunks, nextChunk := map[], {}, map[], 0;
    }

    /** The world around these tables: the tasks, and the history, are those of `o`. */
    ghost function View(o: World): World
      reads this
    {
      o.(docs := docs, issued := issued, chunks := chunks, nextChunk := nextChunk)
    }

    ghost function Tables(): World
      reads this
    {
      View(EMPTY)
    }

    /** `SELECT coalesce(sum(size_bytes), 0) WHERE tenant_id = ...`. */
    method SumSizes(tenant: nat) returns (used: nat)
      ensures used == UsedBytes(docs, tenant)
    {
      used := 0;
      var rest := docs;
      ghost var f := (d: Doc) => SizeFor(d, tenant);
      while rest != map[]
        invariant used + SumOver(rest, f) == SumOver(docs, f)
        decreases |rest|
      {
        var id :| id in rest;
        SumRemove(rest, id, f);
        if rest[id].tenant == tenant {
          used := used + rest[id].size;
        }
        rest := rest - {id};
      }
      assert SumOver(docs, f) == UsedBytes(docs, tenant);
    }

    /** `register`: quota, then insert, and the unique constraint decides about duplicates. */
    method Register(tenant: nat, kind: Kind, raw: string, id: DocId, ghost o: World, ghost t: TaskId)
      returns (r: Registration, ghost trace: seq<Event>)
      requires id !in issued && docs.Keys <= issued && t !in o.tasks
      modifies this
      ensures chunks == old(chunks) && nextChunk == old(nextChunk) && docs.Keys <= issued
      ensures r.QuotaExceeded? <==> c.quota > 0 && UsedBytes(old(docs), tenant) + |raw| > c.quota
      ensures !r.Created? ==> docs == old(docs)
      ensures issued == if r.Created? then old(issued) + {id} else old(issued)
      ensures !r.QuotaExceeded? ==> (r.DuplicateDocument? <==> Known(old(docs), tenant, c.hash(raw)))
      ensures r.Created? ==> r.id == id
      ensures r.Created? ==> docs == old(docs)[id := Doc(tenant, c.hash(raw), kind, Some(raw), |raw|, Pending, None, None)]
      ensures |raw| <= c.maxUpload ==>
        RunFrom(c, old(View(o)), trace)
          == Some(if r.Created? then SetTask(View(o), t, Uploading(Registered(id))) else View(o))
    {
      trace := [];
      if c.quota > 0 {
        var used := SumSizes(tenant);
        if used + |raw| > c.quota {
          return QuotaExceeded, [];
        }
      }
      ghost var w0 := View(o);
      ghost var w1 := SetTask(w0, t, Uploading(Admitted(tenant, kind, raw)));
      ghost var admit := [Admit(t, tenant, kind, raw)];
      if |raw| <= c.maxUpload { AdmitRuns(c, w0, t, tenant, kind, raw); }
      if Known(docs, tenant, c.hash(raw)) {
        RejectRuns(c, w0, t, tenant, kind, raw);
        if |raw| <= c.maxUpload { RunSnoc(c, w0, admit, w1, RejectDuplicate(t)); }
        return DuplicateDocument, admit + [RejectDuplicate(t)];
      }
      InsertRuns(c, w0, t, id, tenant, kind, raw);
      if |raw| <= c.maxUpload { RunSnoc(c, w0, admit, w1, Insert(t, id)); }
      docs := docs[id := NewRow(c, tenant, kind, raw)];
      issued := issued + {id};
      return Created(id), admit + [Insert(t, id)];
    }

    /** `mark_failed` on a fresh session. */
    method MarkFailed(id: DocId, why: Reason)
      modifies this`docs
      ensures docs == Marked(old(docs), id, why, id in old(docs) && old(docs)[id].status == Failed)
    {
      if id !in docs {
        return;
      }
      docs := docs[id := docs[id].(status := Failed, error := Some(why))];
    }

    /** Delivery `t` at `pc`, among the other tasks of `o`. */
    ghost function At(o: World, t: TaskId, m: Message, pc: Pc): World
      reads this
    {
      Moved(View(o), t, m, pc)
    }

    /** `except ParseError`: roll back, and mark the row failed. */
    method RejectPayload(m: Message, seen: Doc, fault: Fault, ghost o: World, ghost t: TaskId)
      returns (r: Outcome, ghost pc: Pc, ghost trace: seq<Event>)
      requires m.doc in docs && docs[m.doc].status == Processing && PiecesOf(c, seen).None?
      modifies this`docs
      ensures RunFrom(c, old(At(o, t, m, Working(seen))), trace) == Some(At(o, t, m, pc))
      ensures if fault == AtMark then r == Transient && CanFail(pc) && docs == old(docs)
              else r == ParseError && pc == Leaving
                   && docs == old(docs)[m.doc := old(docs)[m.doc].(status := Failed, error := Some(Unparseable))]
    {
      ghost var w := View(o);
      if fault == AtMark {
        ParseFailRuns(c, w, t, m, seen, [ReadForMark(t)]);
        ReadRuns(c, w, t, m, Unparseable);
        return Transient, MarkWrite(Unparseable, false), [ParseFails(t)] + [ReadForMark(t)];
      }
      ParseFailRuns(c, w, t, m, seen, MarkTrace(w, t, m));
      MarkRuns(c, w, t, m, Unparseable);
      MarkFailed(m.doc, Unparseable);
      return ParseError, Leaving, [ParseFails(t)] + MarkTrace(w, t, m);
    }

    /** Delete the stale rows, insert the new ones, complete the document, in one commit; a
        fault before it rolls the DELETE back. */
    method ReplaceChunks(m: Message, seen: Doc, ps: seq<Piece>, fault: Fault, ghost o: World, ghost t: TaskId)
      returns (r: Outcome, ghost pc: Pc, ghost trace: seq<Event>)
      requires m.doc in docs && docs[m.doc] == seen.(status := Processing) && PiecesOf(c, seen) == Some(ps)
      modifies this
      ensures issued == old(issued)
      ensures RunFrom(c, old(At(o, t, m, Working(seen))), trace) == Some(At(o, t, m, pc))
      ensures if fault == AtStore then
                r == Transient && CanFail(pc) && docs == old(docs) && chunks == old(chunks) && nextChunk == old(nextChunk)
              else
                && r == Done && pc == Leaving
                && docs == old(docs)[m.doc := seen.(status := Completed, chunkCount := Some(|ps|), error := None)]
                && chunks == (old(chunks) - RowIds(old(chunks), m.doc)) + NewRows(m.doc, seen.tenant, ps, old(nextChunk))
                && nextChunk == old(nextChunk) + |ps|
    {
      var id := m.doc;
      var gone := RowIds(chunks, id);
      EraseRuns(c, View(o), t, m, seen);
      if fault == AtStore {
        return Transient, Erased(seen, gone), [Erase(t)];
      }
      StoreRuns(c, View(o), t, m, seen);
      chunks := (chunks - gone) + NewRows(id, seen.tenant, ps, nextChunk);
      nextChunk := nextChunk + |ps|;
      docs := docs[id := CompletedRow(docs[id], seen, |ps|)];
      return Done, Leaving, [Erase(t)] + [Store(t)];
    }

    /** The `try` of `process`. */
    method Work(m: Message, seen: Doc, fault: Fault, ghost o: World, ghost t: TaskId)
      returns (r: Outcome, ghost pc: Pc, ghost trace: seq<Event>)
      requires m.doc in docs && docs[m.doc] == seen.(status := Processing)
      modifies this
      ensures RunFrom(c, old(At(o, t, m, Working(seen))), trace) == Some(At(o, t, m, pc))
      ensures if r == Transient then CanFail(pc) else pc == Leaving
      ensures r == Transient <==> fault == AtWork || (if PiecesOf(c, seen).None? then fault == AtMark else fault == AtStore)
      ensures r != Transient ==> r == if PiecesOf(c, seen).None? then ParseError else Done
      ensures Tables() == Worked(c, old(Tables()), m.doc, seen, fault)
    {
      if fault == AtWork {
        return Transient, Working(seen), [];
      }
      var drafts := PiecesOf(c, seen);
      if drafts.None? {
        r, pc, trace := RejectPayload(m, seen, fault, o, t);
      } else {
        r, pc, trace := ReplaceChunks(m, seen, drafts.value, fault, o, t);
      }
    }

    /** Write PROCESSING, and work. */
    method Attempt(m: Message, seen: Doc, fault: Fault, ghost o: World, ghost t: TaskId)
      returns (r: Outcome, ghost pc: Pc, ghost trace: seq<Event>)
      requires m.doc in docs && docs[m.doc] == seen && seen.payload.Some? && seen.status != Completed
      modifies this
      ensures RunFrom(c, old(At(o, t, m, Loaded(seen))), trace) == Some(At(o, t, m, pc))
      ensures if r == Transient then CanFail(pc) else pc == Leaving
      ensures fault != AtLoad ==> (r == Transient <==> Strikes(c, old(docs), m.doc, fault))
      ensures r != Transient ==> r == if PiecesOf(c, seen).None? then ParseError else Done
      ensures fault != AtLoad ==> Tables() == Tried(c, old(Tables()), m.doc, fault)
    {
      if fault == AtProcessingCommit {
        return Transient, Loaded(seen), [];
      }
      ProcessingRuns(c, View(o), t, m, seen);
      docs := docs[m.doc := seen.(status := Processing)];
      ghost var rest;
      r, pc, rest := Work(m, seen, fault, o, t);
      RunConcat(c, old(At(o, t, m, Loaded(seen))), [WriteProcessing(t)], rest);
      trace := [WriteProcessing(t)] + rest;
    }

    /** `process`: load, then mark PROCESSING, work, replace the chunk rows, complete. */
    method Process(m: Message, fault: Fault, ghost o: World, ghost t: TaskId)
      returns (r: Outcome, ghost pc: Pc, ghost trace: seq<Event>)
      modifies this
      ensures RunFrom(c, old(At(o, t, m, Start)), trace) == Some(At(o, t, m, pc))
      ensures if r == Transient then CanFail(pc) else pc == Leaving
      ensures r == Transient <==> Strikes(c, old(docs), m.doc, fault)
      ensures r != Transient ==> r == Answer(c, old(docs), m.doc)
      ensures Tables() == Tried(c, old(Tables()), m.doc, fault)
    {
      var id := m.doc;
      if fault == AtLoad {
        return Transient, Start, [];
      }
      LoadRuns(c, View(o), t, m);
      trace := [Load(t)];
      if id !in docs {
        return NotFound, Leaving, trace;
      }
      var seen := docs[id];
      if seen.status == Completed {
        return Done, Leaving, trace;
      }
      if seen.payload.None? {
        return ParseError, Leaving, trace;
      }
      ghost var rest;
      r, pc, rest := Attempt(m, seen, fault, o, t);
      RunConcat(c, old(At(o, t, m, Start)), trace, rest);
      trace := trace + rest;
    }

    /** `ingest`, the CLI's way: register and process in one go, with nobody to retry. */
    method Ingest(tenant: nat, kind: Kind, raw: string, id: DocId, fault: Fault) returns (r: Ingested)
      requires id !in issued && docs.Keys <= issued
      modifies this
      ensures r.Refused? ==> docs == old(docs) && chunks == old(chunks) && issued == old(issued)
      ensures r.Refused? <==> (c.quota > 0 && UsedBytes(old(docs), tenant) + |raw| > c.quota)
                              || Known(old(docs), tenant, c.hash(raw))
      ensures r.Processed? ==>
        var row := Doc(tenant, c.hash(raw), kind, Some(raw), |raw|, Pending, None, None);
        && r.id == id && (r.outcome == Transient <==> Strikes(c, old(docs)[id := row], id, fault))
        && (r.outcome != Transient ==> r.outcome == if c.pieces(kind, raw).None? then ParseError else Done)
        && Tables() == Tried(c, old(Tables()).(docs := old(docs)[id := row], issued := old(issued) + {id}), id, fault)
    {
      var registered, _ := Register(tenant, kind, raw, id, EMPTY, 0);
      if !registered.Created? {
        return Refused(registered);
      }
      var outcome, _, _ := Process(Message(id, 0, 0), fault, EMPTY, 0);
      r := Processed(id, outcome);
    }

    /** `_process`: the service on its own engine, whose disposal may raise as well. */
    method ProcessOnce(m: Message, fault: Fault, ghost o: World, ghost t: TaskId)
      returns (r: Outcome, ghost pc: Pc, ghost trace: seq<Event>)
      modifies this
      ensures RunFrom(c, old(At(o, t, m, Start)), trace) == Some(At(o, t, m, pc))
      ensures if r == Transient then CanFail(pc) else pc == Leaving
      ensures r == Transient <==> fault == AtDisposal || Strikes(c, old(docs), m.doc, fault)
      ensures r != Transient ==> r == Answer(c, old(docs), m.doc)
      ensures Tables() == Tried(c, old(Tables()), m.doc, fault)
    {
      r, pc, trace := Process(m, fault, o, t);
      if fault == AtDisposal {
        r := Transient;
      }
    }

    /** Retries are spent: read the row, mark it failed, acknowledge the message. */
    method GiveUp(m: Message, ghost o: World, ghost t: TaskId) returns (ghost trace: seq<Event>)
      modifies this`docs
      ensures docs == Marked(old(docs), m.doc, Exhausted, m.doc in old(docs) && old(docs)[m.doc].status == Failed)
      ensures RunFrom(c, old(At(o, t, m, MarkRead(Exhausted))), trace) == Some(EndTask(View(o), t))
    {
      ghost var w := View(o);
      MarkRuns(c, w, t, m, Exhausted);
      MarkFailed(m.doc, Exhausted);
      AckRuns(c, View(o), t, m, Acking);
      RunConcat(c, Moved(w, t, m, MarkRead(Exhausted)), MarkTrace(w, t, m), [Ack(t)]);
      trace := MarkTrace(w, t, m) + [Ack(t)];
    }

    /** What is left of delivery `t`: the message to retry it, if any. */
    ghost function After(o: World, t: TaskId, next: Option<Message>): World
      reads this
    {
      if next.Some? then SetTask(View(o), t, Queued(next.value)) else EndTask(View(o), t)
    }

    /** `except Exception`: retry with backoff, or give up when the counter is spent. */
    method OnFailure(m: Message, ghost pc: Pc, ghost o: World, ghost t: TaskId)
      returns (next: Option<Message>, ghost trace: seq<Event>)
      requires CanFail(pc)
      modifies this`docs
      ensures RunFrom(c, old(At(o, t, m, pc)), trace) == Some(After(o, t, next))
      ensures next == if m.retries >= c.maxRetries then None
                      else Some(Message(m.doc, m.retries + 1, m.waited + c.backoff * Pow2(m.retries)))
      ensures docs == if next.Some? || m.doc !in old(docs) then old(docs)
                      else old(docs)[m.doc := old(docs)[m.doc].(status := Failed, error := Some(Exhausted))]
    {
      FailRuns(c, View(o), t, m, pc);
      if m.retries < c.maxRetries {
        next := Some(Message(m.doc, m.retries + 1, m.waited + c.backoff * Pow2(m.retries)));
        return next, [Fail(t)];
      }
      ghost var rest := GiveUp(m, o, t);
      RunConcat(c, old(At(o, t, m, pc)), [Fail(t)], rest);
      return None, [Fail(t)] + rest;
    }

    /** `ingest_document`: permanent outcomes end the message; anything else goes to the
        exception branch. No call leaves the document in flight without a message. */
    method IngestDocument(m: Message, fault: Fault, ghost o: World, ghost t: TaskId)
      returns (next: Option<Message>, ghost trace: seq<Event>)
      modifies this
      ensures Tables() == Delivered(c, old(Tables()), m, fault)
      ensures Continues(c, old(At(o, t, m, Start)), trace, After(o, t, next))
      ensures next.Some? ==> next.value == Message(m.doc, m.retries + 1, m.waited + c.backoff * Pow2(m.retries))
      ensures next.Some? <==> m.retries < c.maxRetries && (fault == AtDisposal || Strikes(c, old(docs), m.doc, fault))
      ensures next.None? && m.doc in docs && old(docs)[m.doc].payload.Some? ==> docs[m.doc].status.Terminal()
    {
      var r;
      ghost var pc;
      r, pc, trace := ProcessOnce(m, fault, o, t);
      ghost var rest;
      if r == Transient {
        next, rest := OnFailure(m, pc, o, t);
      } else {
        AckRuns(c, View(o), t, m, pc);
        next, rest := None, [Ack(t)];
      }
      RunConcat(c, old(At(o, t, m, Start)), trace, rest);
      trace := trace + rest;
      Continue(c, old(At(o, t, m, Start)), trace, After(o, t, next));
    }
  }
}
