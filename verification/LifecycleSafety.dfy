/** What every step of the lifecycle keeps, and so every run: chunk sets are all or nothing,
    and a document still in flight is never forgotten. */
module LifecycleSafety {
  import opened Prelude
  import opened Lifecycle

  // ----- the invariant -----

  /** Everything a document is born with. */
  ghost predicate SameBirth(a: Doc, b: Doc) {
    a.tenant == b.tenant && a.digest == b.digest && a.kind == b.kind && a.payload == b.payload && a.size == b.size
  }

  ghost predicate NoRows(w: World, id: DocId) {
    forall cid :: cid in w.chunks ==> w.chunks[cid].doc != id
  }

  ghost predicate IsPiece(row: ChunkRow, tenant: nat, ps: seq<Piece>) {
    row.index < |ps| && row.piece == ps[row.index] && row.tenant == tenant
  }

  ghost predicate HasIndex(w: World, id: DocId, i: nat) {
    exists cid :: cid in w.chunks && w.chunks[cid].doc == id && w.chunks[cid].index == i
  }

  /** The document's chunk rows are exactly one row for each of the `pieces`, under its index
      and the document's tenant. */
  ghost predicate HoldsExactly(w: World, id: DocId, tenant: nat, ps: seq<Piece>) {
    && (forall cid :: cid in w.chunks ==> (w.chunks[cid].doc == id ==> IsPiece(w.chunks[cid], tenant, ps)))
    && (forall i :: 0 <= i < |ps| ==> HasIndex(w, id, i))
    && (forall a, b :: a in w.chunks && b in w.chunks && a != b && w.chunks[a].doc == w.chunks[b].doc == id ==>
          w.chunks[a].index != w.chunks[b].index)
  }

  ghost predicate Full(c: Config, w: World, id: DocId)
    requires id in w.docs
  {
    PiecesOf(c, w.docs[id]).Some? && HoldsExactly(w, id, w.docs[id].tenant, PiecesOf(c, w.docs[id]).value)
  }

  ghost predicate DocOk(c: Config, w: World, id: DocId)
    requires id in w.docs
  {
    var d := w.docs[id];
    && id in w.issued
    && d.payload.Some? && d.size == |d.payload.value| <= Cap(c) && d.digest == c.hash(d.payload.value)
    && (d.chunkCount.Some? ==> PiecesOf(c, d).Some? && d.chunkCount.value == |PiecesOf(c, d).value|)
    && (NoRows(w, id) || Full(c, w, id))
    && (d.status == Completed ==> Full(c, w, id) && d.chunkCount.Some?)
  }

  /** A loaded copy may be old, but not about what the row was born with. */
  ghost predicate CopyOk(w: World, id: DocId, seen: Doc) {
    && seen.payload.Some?
    && (id in w.docs ==> SameBirth(seen, w.docs[id]))
    && (id in w.docs && seen.chunkCount.Some? ==> w.docs[id].chunkCount == seen.chunkCount)
  }

  ghost predicate MessageOk(c: Config, w: World, m: Message) {
    m.doc in w.issued && m.retries <= c.maxRetries && m.waited == c.backoff * (Pow2(m.retries) - 1)
  }

  ghost predicate TaskOk(c: Config, w: World, task: Task) {
    match task
    case Uploading(up) => if up.Admitted? then |up.payload| <= Cap(c) else up.doc in w.issued
    case Queued(m) => MessageOk(c, w, m)
    case Running(m, pc) =>
      && MessageOk(c, w, m)
      && match pc {
           case Loaded(seen) => CopyOk(w, m.doc, seen)
           case Working(seen) => CopyOk(w, m.doc, seen)
           case Erased(seen, gone) =>
             && CopyOk(w, m.doc, seen) && PiecesOf(c, seen).Some?
             && (forall cid :: cid in gone ==> cid < w.nextChunk)
             && (forall cid :: cid in gone && cid in w.chunks ==> w.chunks[cid].doc == m.doc)
           case MarkRead(why) => why == Exhausted ==> m.retries == c.maxRetries
           case MarkWrite(why, _) => why == Exhausted ==> m.retries == c.maxRetries
           case _ => true
         }
  }

  ghost predicate ChunksOk(w: World) {
    forall cid :: cid in w.chunks ==> cid < w.nextChunk && w.chunks[cid].doc in w.docs
  }

  /** This task will still move the document, or leave a message that will. */
  ghost predicate Obliged(task: Task, id: DocId) {
    && DocOf(task) == Some(id)
    && (task.Running? ==>
          match task.pc
          case MarkWrite(_, seenFailed) => !seenFailed
          case Leaving => false
          case Acking => false
          case _ => true)
  }

  ghost predicate HasObligation(w: World, id: DocId) {
    exists t :: t in w.tasks && Obliged(w.tasks[t], id)
  }

  ghost predicate NotForgotten(w: World, id: DocId)
    requires id in w.docs
  {
    w.docs[id].status.Terminal() || HasObligation(w, id) || id in w.dropped
  }

  /** A tenant has no two documents with one content hash. */
  ghost predicate NoTwins(w: World) {
    forall a, b :: a in w.docs && b in w.docs && a != b && w.docs[a].tenant == w.docs[b].tenant ==>
      w.docs[a].digest != w.docs[b].digest
  }

  ghost predicate Inv(c: Config, w: World) {
    && ChunksOk(w) && NoTwins(w)
    && (forall id :: id in w.docs ==> DocOk(c, w, id))
    && (forall t :: t in w.tasks ==> TaskOk(c, w, w.tasks[t]))
    && (forall id :: id in w.docs ==> NotForgotten(w, id))
  }

  // ----- every step keeps it -----

  lemma ChunksUntouched(c: Config, w: World, e: Event)
    requires Enabled(c, w, e) && !e.Store? && !e.Delete?
    ensures Apply(c, w, e).chunks == w.chunks && Apply(c, w, e).nextChunk == w.nextChunk
    ensures w.docs.Keys <= Apply(c, w, e).docs.Keys
  {
  }

  lemma ChunksKept(c: Config, w: World, e: Event)
    requires Inv(c, w) && Enabled(c, w, e)
    ensures ChunksOk(Apply(c, w, e))
  {
    if !e.Store? && !e.Delete? { ChunksUntouched(c, w, e); }
  }

  /** When the unique constraint lets the commit through, the DELETE had taken every old row. */
  lemma StoreErasedAll(c: Config, w: World, t: TaskId, cid: ChunkId)
    requires Inv(c, w) && Enabled(c, w, Store(t))
    requires cid in w.chunks && w.chunks[cid].doc == w.tasks[t].msg.doc
    ensures cid in w.tasks[t].pc.gone
  {
    var ps := PiecesOf(c, w.tasks[t].pc.seen).value;
    assert TaskOk(c, w, w.tasks[t]) && DocOk(c, w, w.tasks[t].msg.doc);
    assert w.chunks[cid].index < |ps|;
  }

  lemma StoreHasIndex(c: Config, w: World, t: TaskId, i: nat)
    requires Enabled(c, w, Store(t)) && i < |PiecesOf(c, w.tasks[t].pc.seen).value|
    ensures HasIndex(Apply(c, w, Store(t)), w.tasks[t].msg.doc, i)
  {
    assert Apply(c, w, Store(t)).chunks[w.nextChunk + i].index == i;
  }

  /** After the store the document has no other rows than those the store wrote. */
  lemma StoredRows(c: Config, w: World, t: TaskId, cid: ChunkId)
    requires Inv(c, w) && Enabled(c, w, Store(t))
    requires cid in Apply(c, w, Store(t)).chunks && Apply(c, w, Store(t)).chunks[cid].doc == w.tasks[t].msg.doc
    ensures var ps := PiecesOf(c, w.tasks[t].pc.seen).value;
      && w.nextChunk <= cid < w.nextChunk + |ps|
      && Apply(c, w, Store(t)).chunks[cid]
           == ChunkRow(w.tasks[t].msg.doc, w.tasks[t].pc.seen.tenant, cid - w.nextChunk, ps[cid - w.nextChunk])
  {
    if cid in w.chunks && w.chunks[cid].doc == w.tasks[t].msg.doc { StoreErasedAll(c, w, t, cid); }
  }

  /** Storing replaces whatever rows the document had by exactly its pieces. */
  lemma StoreFills(c: Config, w: World, t: TaskId)
    requires Inv(c, w) && Enabled(c, w, Store(t))
    ensures var w', id := Apply(c, w, Store(t)), w.tasks[t].msg.doc;
      id in w'.docs && Full(c, w', id)
  {
    var w', id := Apply(c, w, Store(t)), w.tasks[t].msg.doc;
    assert TaskOk(c, w, w.tasks[t]);
    forall cid | cid in w'.chunks && w'.chunks[cid].doc == id
      ensures w'.chunks[cid].index == cid - w.nextChunk
      ensures IsPiece(w'.chunks[cid], w'.docs[id].tenant, PiecesOf(c, w'.docs[id]).value)
    {
      StoredRows(c, w, t, cid);
    }
    forall i | 0 <= i < |PiecesOf(c, w.tasks[t].pc.seen).value|
      ensures HasIndex(w', id, i)
    {
      StoreHasIndex(c, w, t, i);
    }
  }

  /** The rows of a document are the same rows in both worlds. */
  ghost predicate SameRows(w: World, w': World, id: DocId) {
    forall cid :: (cid in w.chunks && w.chunks[cid].doc == id) || (cid in w'.chunks && w'.chunks[cid].doc == id) ==>
      cid in w.chunks && cid in w'.chunks && w.chunks[cid] == w'.chunks[cid]
  }

  lemma SameRowsFull(w: World, w': World, id: DocId, tenant: nat, ps: seq<Piece>)
    requires SameRows(w, w', id) && HoldsExactly(w, id, tenant, ps)
    ensures HoldsExactly(w', id, tenant, ps)
  {
    forall i | 0 <= i < |ps|
      ensures HasIndex(w', id, i)
    {
      assert HasIndex(w, id, i);
    }
  }

  lemma StoreLeavesOthers(c: Config, w: World, t: TaskId, id: DocId)
    requires Inv(c, w) && Enabled(c, w, Store(t)) && w.tasks[t].msg.doc != id
    ensures SameRows(w, Apply(c, w, Store(t)), id)
  {
    assert TaskOk(c, w, w.tasks[t]);
  }

  /** Only a document's own store, or its deletion, touches its rows. */
  lemma OtherRowsSame(c: Config, w: World, e: Event, id: DocId)
    requires Inv(c, w) && Enabled(c, w, e)
    requires id in w.docs && id in Apply(c, w, e).docs
    requires e.Store? ==> w.tasks[e.t].msg.doc != id
    ensures SameRows(w, Apply(c, w, e), id)
  {
    if e.Store? {
      StoreLeavesOthers(c, w, e.t, id);
    } else if e.Delete? {
      assert id != e.id;
    } else {
      ChunksUntouched(c, w, e);
    }
  }

  lemma BirthKept(c: Config, w: World, e: Event, id: DocId)
    requires Enabled(c, w, e) && id in w.docs && id in w.issued && id in Apply(c, w, e).docs
    ensures SameBirth(w.docs[id], Apply(c, w, e).docs[id])
  {
  }

  /** Only its own store completes a document or counts its chunks. */
  lemma OnlyStoreCompletes(c: Config, w: World, e: Event, id: DocId)
    requires Enabled(c, w, e) && id in w.docs && id in Apply(c, w, e).docs && id in w.issued
    requires e.Store? ==> w.tasks[e.t].msg.doc != id
    ensures Apply(c, w, e).docs[id].status == Completed ==> w.docs[id].status == Completed
    ensures Apply(c, w, e).docs[id].chunkCount == w.docs[id].chunkCount
  {
  }

  /** A chunk count, once written, is never changed: the payload does not change either. */
  lemma CountKept(c: Config, w: World, e: Event, id: DocId)
    requires Inv(c, w) && Enabled(c, w, e) && id in w.docs && id in Apply(c, w, e).docs
    ensures w.docs[id].chunkCount.Some? ==> Apply(c, w, e).docs[id].chunkCount == w.docs[id].chunkCount
  {
    assert DocOk(c, w, id);
    if e.Store? {
      assert TaskOk(c, w, w.tasks[e.t]);
    } else {
      OnlyStoreCompletes(c, w, e, id);
    }
  }

  lemma DocBirthKept(c: Config, w: World, e: Event, id: DocId)
    requires Inv(c, w) && Enabled(c, w, e)
    requires id in w.docs && id in Apply(c, w, e).docs
    ensures SameBirth(w.docs[id], Apply(c, w, e).docs[id])
    ensures w.docs[id].chunkCount.Some? ==> Apply(c, w, e).docs[id].chunkCount == w.docs[id].chunkCount
  {
    assert DocOk(c, w, id);
    BirthKept(c, w, e, id);
    CountKept(c, w, e, id);
  }

  lemma StoredDocOk(c: Config, w: World, t: TaskId)
    requires Inv(c, w) && Enabled(c, w, Store(t))
    ensures DocOk(c, Apply(c, w, Store(t)), w.tasks[t].msg.doc)
  {
    assert TaskOk(c, w, w.tasks[t]) && DocOk(c, w, w.tasks[t].msg.doc);
    StoreFills(c, w, t);
  }

  lemma RowsKept(c: Config, w: World, e: Event, id: DocId)
    requires Inv(c, w) && Enabled(c, w, e) && id in w.docs && id in Apply(c, w, e).docs
    requires e.Store? ==> w.tasks[e.t].msg.doc != id
    ensures NoRows(w, id) ==> NoRows(Apply(c, w, e), id)
    ensures Full(c, w, id) ==> Full(c, Apply(c, w, e), id)
  {
    DocBirthKept(c, w, e, id);
    OtherRowsSame(c, w, e, id);
    if Full(c, w, id) { SameRowsFull(w, Apply(c, w, e), id, w.docs[id].tenant, PiecesOf(c, w.docs[id]).value); }
  }

  lemma OtherDocOk(c: Config, w: World, e: Event, id: DocId)
    requires Inv(c, w) && Enabled(c, w, e) && id in w.docs && id in Apply(c, w, e).docs
    requires e.Store? ==> w.tasks[e.t].msg.doc != id
    ensures DocOk(c, Apply(c, w, e), id)
  {
    assert DocOk(c, w, id);
    DocBirthKept(c, w, e, id);
    OnlyStoreCompletes(c, w, e, id);
    RowsKept(c, w, e, id);
  }

  lemma NewDocOk(c: Config, w: World, e: Event, id: DocId)
    requires Inv(c, w) && Enabled(c, w, e) && id !in w.docs && id in Apply(c, w, e).docs
    ensures DocOk(c, Apply(c, w, e), id)
  {
    assert e.Insert? && Apply(c, w, e).chunks == w.chunks;
    assert TaskOk(c, w, w.tasks[e.t]);
  }

  lemma DocKept(c: Config, w: World, e: Event, id: DocId)
    requires Inv(c, w) && Enabled(c, w, e) && id in Apply(c, w, e).docs
    ensures DocOk(c, Apply(c, w, e), id)
  {
    if id !in w.docs {
      NewDocOk(c, w, e, id);
    } else if e.Store? && w.tasks[e.t].msg.doc == id {
      StoredDocOk(c, w, e.t);
    } else {
      OtherDocOk(c, w, e, id);
    }
  }

  lemma ReturnsNever(c: Config, w: World, e: Event, id: DocId)
    requires Enabled(c, w, e) && id in w.issued
    ensures id in Apply(c, w, e).issued && (id in Apply(c, w, e).docs ==> id in w.docs)
  {
  }

  /** No step touches what a copy and its row must agree on, and no id comes back. */
  lemma CopyStays(c: Config, w: World, e: Event, id: DocId, seen: Doc)
    requires Inv(c, w) && Enabled(c, w, e) && id in w.issued && CopyOk(w, id, seen)
    ensures CopyOk(Apply(c, w, e), id, seen)
  {
    ReturnsNever(c, w, e, id);
    if id in w.docs && id in Apply(c, w, e).docs { DocBirthKept(c, w, e, id); }
  }

  /** New rows get new ids, so the rows a delivery has deleted are still its document's own. */
  lemma GoneStays(c: Config, w: World, e: Event, id: DocId, gone: set<ChunkId>)
    requires Inv(c, w) && Enabled(c, w, e)
    requires forall cid :: cid in gone ==> cid < w.nextChunk
    requires forall cid :: cid in gone && cid in w.chunks ==> w.chunks[cid].doc == id
    ensures forall cid :: cid in gone ==> cid < Apply(c, w, e).nextChunk
    ensures forall cid :: cid in gone && cid in Apply(c, w, e).chunks ==> Apply(c, w, e).chunks[cid].doc == id
  {
    if !e.Store? && !e.Delete? { ChunksUntouched(c, w, e); }
  }

  /** A well task stays well in the world after a step. */
  lemma TaskStaysOk(c: Config, w: World, e: Event, task: Task)
    requires Inv(c, w) && Enabled(c, w, e) && TaskOk(c, w.(issued := Apply(c, w, e).issued), task)
    requires task.Running? ==> task.msg.doc in w.issued
    ensures TaskOk(c, Apply(c, w, e), task)
  {
    if task.Running? && (task.pc.Loaded? || task.pc.Working? || task.pc.Erased?) {
      CopyStays(c, w, e, task.msg.doc, task.pc.seen);
      if task.pc.Erased? { GoneStays(c, w, e, task.msg.doc, task.pc.gone); }
    }
  }

  /** The same message again, or the first one of an upload. */
  ghost predicate CopyOf(m: Message, task: Task) {
    if task.Uploading? then !task.up.Admitted? && m == Message(task.up.doc, 0, 0) else m == task.msg
  }

  /** A step writes the one it acts on, and at most one fresh message. */
  lemma StepWrites(c: Config, w: World, e: Event, t: TaskId)
    requires Enabled(c, w, e) && t in Apply(c, w, e).tasks && (!e.Delete? ==> t != e.t)
    ensures t in w.tasks ==> Apply(c, w, e).tasks[t] == w.tasks[t]
    ensures t !in w.tasks ==> Apply(c, w, e).tasks[t].Queued?
    ensures t !in w.tasks ==> !e.Delete? && e.t in w.tasks && CopyOf(Apply(c, w, e).tasks[t].msg, w.tasks[e.t])
  {
  }

  lemma LoadedTaskOk(c: Config, w: World, t: TaskId)
    requires Inv(c, w) && Enabled(c, w, Load(t))
    ensures LoadStep(w, t).tasks[t].Running? && LoadStep(w, t).tasks[t].msg == w.tasks[t].msg
    ensures TaskOk(c, w, LoadStep(w, t).tasks[t]) && w.tasks[t].msg.doc in w.issued
  {
    assert TaskOk(c, w, w.tasks[t]);
    if w.tasks[t].msg.doc in w.docs { assert DocOk(c, w, w.tasks[t].msg.doc); }
  }

  ghost predicate MovedOk(c: Config, w: World, w': World, t: TaskId)
    requires t in w'.tasks
  {
    TaskOk(c, w.(issued := w'.issued), w'.tasks[t]) && (w'.tasks[t].Running? ==> w'.tasks[t].msg.doc in w.issued)
  }

  lemma UploadMovesOk(c: Config, w: World, e: Event)
    requires Inv(c, w) && Enabled(c, w, e) && !e.Delete? && e.t in Apply(c, w, e).tasks
    requires e.t in w.tasks ==> w.tasks[e.t].Uploading?
    ensures MovedOk(c, w, Apply(c, w, e), e.t)
  {
    if e.t in w.tasks { assert TaskOk(c, w, w.tasks[e.t]); }
  }

  lemma DeliveryMovesOk(c: Config, w: World, e: Event)
    requires Inv(c, w) && Enabled(c, w, e) && !e.Delete? && !e.Load? && e.t in Apply(c, w, e).tasks
    requires e.t in w.tasks && !w.tasks[e.t].Uploading?
    ensures MovedOk(c, w, Apply(c, w, e), e.t)
  {
    assert TaskOk(c, w, w.tasks[e.t]);
  }

  lemma MovedTaskOk(c: Config, w: World, e: Event)
    requires Inv(c, w) && Enabled(c, w, e) && !e.Delete? && e.t in Apply(c, w, e).tasks
    ensures MovedOk(c, w, Apply(c, w, e), e.t)
  {
    if e.Load? {
      LoadedTaskOk(c, w, e.t);
    } else if e.t in w.tasks && !w.tasks[e.t].Uploading? {
      DeliveryMovesOk(c, w, e);
    } else {
      UploadMovesOk(c, w, e);
    }
  }

  lemma IssuedGrows(c: Config, w: World, e: Event)
    requires Enabled(c, w, e)
    ensures w.issued <= Apply(c, w, e).issued
  {
  }

  lemma OtherTaskOk(c: Config, w: World, e: Event, t: TaskId)
    requires Inv(c, w) && Enabled(c, w, e) && t in Apply(c, w, e).tasks && (!e.Delete? ==> t != e.t)
    ensures MovedOk(c, w, Apply(c, w, e), t)
  {
    StepWrites(c, w, e, t);
    IssuedGrows(c, w, e);
    if t in w.tasks {
      assert TaskOk(c, w, w.tasks[t]);
    } else {
      assert TaskOk(c, w, w.tasks[e.t]);
    }
  }

  /** Moved or not, a task is well in the world the step started in. */
  lemma TouchedTaskOk(c: Config, w: World, e: Event, t: TaskId)
    requires Inv(c, w) && Enabled(c, w, e) && t in Apply(c, w, e).tasks
    ensures MovedOk(c, w, Apply(c, w, e), t)
  {
    if !e.Delete? && t == e.t {
      MovedTaskOk(c, w, e);
    } else {
      OtherTaskOk(c, w, e, t);
    }
  }

  lemma TaskKept(c: Config, w: World, e: Event, t: TaskId)
    requires Inv(c, w) && Enabled(c, w, e) && t in Apply(c, w, e).tasks
    ensures TaskOk(c, Apply(c, w, e), Apply(c, w, e).tasks[t])
  {
    var w' := Apply(c, w, e);
    TouchedTaskOk(c, w, e, t);
    TaskStaysOk(c, w, e, w'.tasks[t]);
  }

  /** A step leaves every task but the one it acts on. */
  lemma OthersStay(c: Config, w: World, e: Event, t: TaskId)
    requires Enabled(c, w, e) && t in w.tasks && (!e.Delete? ==> e.t != t)
    ensures t in Apply(c, w, e).tasks && Apply(c, w, e).tasks[t] == w.tasks[t]
  {
  }

  /** The step left an obligation at its task, settled the document, or dropped it. */
  ghost predicate HandsOn(w': World, id: DocId, t: TaskId)
    requires id in w'.docs
  {
    (t in w'.tasks && Obliged(w'.tasks[t], id)) || w'.docs[id].status.Terminal() || id in w'.dropped
  }

  lemma UploadHandsOn(c: Config, w: World, e: Event, id: DocId)
    requires Enabled(c, w, e) && !e.Delete? && id in w.docs && id in Apply(c, w, e).docs
    requires e.t in w.tasks && Obliged(w.tasks[e.t], id) && !w.tasks[e.t].Running?
    ensures HandsOn(Apply(c, w, e), id, e.t)
  {
  }

  lemma LoadHandsOn(c: Config, w: World, t: TaskId, id: DocId)
    requires Inv(c, w) && Enabled(c, w, Load(t)) && id in w.docs && w.tasks[t].msg.doc == id
    ensures LoadStep(w, t).docs == w.docs && HandsOn(LoadStep(w, t), id, t)
  {
    assert DocOk(c, w, id);
  }

  lemma MarkHandsOn(c: Config, w: World, e: Event, id: DocId)
    requires Enabled(c, w, e) && (e.ReadForMark? || e.WriteMark?) && id in w.docs
    requires Obliged(w.tasks[e.t], id)
    ensures id in Apply(c, w, e).docs && HandsOn(Apply(c, w, e), id, e.t)
  {
  }

  lemma WorkHandsOn(c: Config, w: World, e: Event, id: DocId)
    requires Enabled(c, w, e) && !e.Delete? && !e.Load? && !e.ReadForMark? && !e.WriteMark?
    requires id in w.docs && id in Apply(c, w, e).docs
    requires e.t in w.tasks && Obliged(w.tasks[e.t], id) && w.tasks[e.t].Running?
    ensures HandsOn(Apply(c, w, e), id, e.t)
  {
  }

  lemma DeliveryHandsOn(c: Config, w: World, e: Event, id: DocId)
    requires Inv(c, w) && Enabled(c, w, e) && !e.Delete? && id in w.docs && id in Apply(c, w, e).docs
    requires e.t in w.tasks && Obliged(w.tasks[e.t], id) && w.tasks[e.t].Running?
    ensures HandsOn(Apply(c, w, e), id, e.t)
  {
    if e.Load? {
      LoadHandsOn(c, w, e.t, id);
    } else if e.ReadForMark? || e.WriteMark? {
      MarkHandsOn(c, w, e, id);
    } else {
      WorkHandsOn(c, w, e, id);
    }
  }

  /** The obligation of a document that stays in flight survives the step, moves on, or is dropped. */
  lemma ObligationMoves(c: Config, w: World, e: Event, id: DocId, t: TaskId)
    requires Inv(c, w) && Enabled(c, w, e) && id in w.docs && id in Apply(c, w, e).docs
    requires t in w.tasks && Obliged(w.tasks[t], id)
    ensures NotForgotten(Apply(c, w, e), id)
  {
    if !e.Delete? && e.t == t {
      if w.tasks[t].Running? { DeliveryHandsOn(c, w, e, id); } else { UploadHandsOn(c, w, e, id); }
    } else {
      OthersStay(c, w, e, t);
    }
  }

  lemma NewDocObliged(c: Config, w: World, e: Event, id: DocId)
    requires Enabled(c, w, e) && id !in w.docs && id in Apply(c, w, e).docs
    ensures HasObligation(Apply(c, w, e), id)
  {
    assert e.Insert? && Obliged(Apply(c, w, e).tasks[e.t], id);
  }

  /** The only step out of a terminal status is a delivery's PROCESSING write. */
  lemma OnlyWriteReopens(c: Config, w: World, e: Event, id: DocId)
    requires Enabled(c, w, e) && id in w.docs && id in w.issued && id in Apply(c, w, e).docs
    requires w.docs[id].status.Terminal() && !Apply(c, w, e).docs[id].status.Terminal()
    ensures e.WriteProcessing? && w.tasks[e.t].msg.doc == id
  {
  }

  lemma ReopenedObliged(c: Config, w: World, e: Event, id: DocId)
    requires Inv(c, w) && Enabled(c, w, e) && id in w.docs && id in Apply(c, w, e).docs
    requires w.docs[id].status.Terminal() && !Apply(c, w, e).docs[id].status.Terminal()
    ensures HasObligation(Apply(c, w, e), id)
  {
    assert DocOk(c, w, id);
    OnlyWriteReopens(c, w, e, id);
    assert Obliged(Apply(c, w, e).tasks[e.t], id);
  }

  lemma DropsStay(c: Config, w: World, e: Event)
    requires Enabled(c, w, e)
    ensures w.dropped <= Apply(c, w, e).dropped
  {
  }

  lemma ObligationKept(c: Config, w: World, e: Event, id: DocId)
    requires Inv(c, w) && Enabled(c, w, e) && id in Apply(c, w, e).docs
    ensures NotForgotten(Apply(c, w, e), id)
  {
    if id !in w.docs {
      NewDocObliged(c, w, e, id);
    } else if w.docs[id].status.Terminal() {
      if !Apply(c, w, e).docs[id].status.Terminal() { ReopenedObliged(c, w, e, id); }
    } else if HasObligation(w, id) {
      var t :| t in w.tasks && Obliged(w.tasks[t], id);
      ObligationMoves(c, w, e, id, t);
    } else {
      assert NotForgotten(w, id);
      DropsStay(c, w, e);
    }
  }

  /** A row was there before with this tenant and hash, or it is the one just inserted, which
      the unique constraint let in. */
  lemma OldOrInserted(c: Config, w: World, e: Event, id: DocId)
    requires Inv(c, w) && Enabled(c, w, e) && id in Apply(c, w, e).docs
    ensures var d := Apply(c, w, e).docs[id];
      if id in w.docs then d.tenant == w.docs[id].tenant && d.digest == w.docs[id].digest
      else e.Insert? && id == e.id && !Known(w.docs, d.tenant, d.digest)
  {
    if id in w.docs {
      assert DocOk(c, w, id);
      BirthKept(c, w, e, id);
    }
  }

  lemma TwinsKept(c: Config, w: World, e: Event)
    requires Inv(c, w) && Enabled(c, w, e)
    ensures NoTwins(Apply(c, w, e))
  {
    var w' := Apply(c, w, e);
    forall a, b | a in w'.docs && b in w'.docs && a != b && w'.docs[a].tenant == w'.docs[b].tenant
      ensures w'.docs[a].digest != w'.docs[b].digest
    {
      OldOrInserted(c, w, e, a);
      OldOrInserted(c, w, e, b);
    }
  }

  lemma InvKept(c: Config, w: World, e: Event)
    requires Inv(c, w) && Enabled(c, w, e)
    ensures Inv(c, Apply(c, w, e))
  {
    var w' := Apply(c, w, e);
    ChunksKept(c, w, e);
    TwinsKept(c, w, e);
    forall id | id in w'.docs
      ensures DocOk(c, w', id) && NotForgotten(w', id)
    {
      DocKept(c, w, e, id);
      ObligationKept(c, w, e, id);
    }
    forall t | t in w'.tasks
      ensures TaskOk(c, w', w'.tasks[t])
    {
      TaskKept(c, w, e, t);
    }
  }

  lemma {:induction false} InvAlways(c: Config, es: seq<Event>)
    ensures Exec(c, es).Some? ==> Inv(c, Exec(c, es).value)
  {
    if es != [] && Exec(c, es).Some? {
      InvAlways(c, es[..|es| - 1]);
      InvKept(c, Exec(c, es[..|es| - 1]).value, es[|es| - 1]);
    }
  }

  // ----- the safety theorems -----

  /** In every reachable world, whatever deliveries overlap: a document's chunk rows are none
      or exactly its pieces; a completed document has them all, and counts them; no row
      outlives its document. */
  lemma AtomicChunkSets(c: Config, es: seq<Event>, id: DocId)
    requires Exec(c, es).Some?
    ensures var w := Exec(c, es).value;
      && (id !in w.docs ==> NoRows(w, id))
      && (id in w.docs ==> NoRows(w, id) || Full(c, w, id))
      && (id in w.docs && w.docs[id].status == Completed ==>
            Full(c, w, id) && w.docs[id].chunkCount == Some(|PiecesOf(c, w.docs[id]).value|))
  {
    InvAlways(c, es);
    var w := Exec(c, es).value;
    if id in w.docs { assert DocOk(c, w, id); }
  }

  /** Deduplication: in every reachable world a tenant's documents have different hashes, each
      the hash of its own payload. */
  lemma NoDuplicates(c: Config, es: seq<Event>, a: DocId, b: DocId)
    requires Exec(c, es).Some? && a in Exec(c, es).value.docs && b in Exec(c, es).value.docs && a != b
    ensures var da, db := Exec(c, es).value.docs[a], Exec(c, es).value.docs[b];
      && da.payload.Some? && db.payload.Some?
      && (da.tenant == db.tenant ==> c.hash(da.payload.value) != c.hash(db.payload.value))
  {
    InvAlways(c, es);
    assert DocOk(c, Exec(c, es).value, a) && DocOk(c, Exec(c, es).value, b);
  }

  /** Step `i` of the run dropped an obligation of this document. */
  ghost predicate DropsAt(c: Config, es: seq<Event>, i: nat, id: DocId)
    requires i < |es|
  {
    && es[i].Drop? && Exec(c, es[..i]).Some?
    && es[i].t in Exec(c, es[..i]).value.tasks
    && DocOf(Exec(c, es[..i]).value.tasks[es[i].t]) == Some(id)
  }

  lemma {:induction false} DroppedBySome(c: Config, es: seq<Event>, id: DocId)
    requires Exec(c, es).Some? && id in Exec(c, es).value.dropped
    ensures exists i :: 0 <= i < |es| && DropsAt(c, es, i, id)
  {
    var n := |es| - 1;
    var w := Exec(c, es[..n]).value;
    if id in w.dropped {
      DroppedBySome(c, es[..n], id);
      var i :| 0 <= i < n && DropsAt(c, es[..n], i, id);
      assert es[..n][..i] == es[..i];
      assert DropsAt(c, es, i, id);
    } else {
      assert DropsAt(c, es, n, id);
    }
  }

  /** Under any interleaving of retries, crashes, redeliveries, duplicates and deletes, a
      document that is not completed or failed still has an upload about to enqueue it, a
      message, or a delivery that will move it, unless the run dropped an obligation of this
      very document. */
  lemma NeverStuck(c: Config, es: seq<Event>, id: DocId)
    requires Exec(c, es).Some? && id in Exec(c, es).value.docs
    requires !Exec(c, es).value.docs[id].status.Terminal()
    ensures HasObligation(Exec(c, es).value, id) || exists i :: 0 <= i < |es| && DropsAt(c, es, i, id)
  {
    InvAlways(c, es);
    assert NotForgotten(Exec(c, es).value, id);
    if id in Exec(c, es).value.dropped { DroppedBySome(c, es, id); }
  }

  ghost predicate Reliable(es: seq<Event>) {
    forall i :: 0 <= i < |es| ==> !es[i].Drop?
  }

  /** So when queue, workers and uploads are idle, every document is completed or failed. */
  lemma IdleMeansTerminal(c: Config, es: seq<Event>, id: DocId)
    requires Reliable(es) && Exec(c, es).Some?
    requires Exec(c, es).value.tasks == map[] && id in Exec(c, es).value.docs
    ensures Exec(c, es).value.docs[id].status.Terminal()
  {
    if !Exec(c, es).value.docs[id].status.Terminal() { NeverStuck(c, es, id); }
  }

  lemma Go(c: Config, es: seq<Event>, e: Event) returns (es': seq<Event>, w: World)
    requires Exec(c, es).Some? && Enabled(c, Exec(c, es).value, e)
    ensures es' == es + [e] && w == Apply(c, Exec(c, es).value, e) && Exec(c, es') == Some(w)
  {
    ExecSnoc(c, es, e);
    es', w := es + [e], Apply(c, Exec(c, es).value, e);
  }
}
