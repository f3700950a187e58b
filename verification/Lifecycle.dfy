/** The ingestion lifecycle as a step system: API uploads, an at-least-once broker, and
    worker deliveries that interleave on one database. Every step is one transaction, one
    read, or one broker operation. */
module Lifecycle {
  import opened Prelude
  import opened MapSum

  type DocId = nat
  type ChunkId = nat
  type TaskId = nat

  datatype Status = Pending | Processing | Completed | Failed {
    predicate Terminal() { Completed? || Failed? }
  }

  datatype Kind = Pdf | Markdown | Html
  datatype Reason = NotEnqueued | Unparseable | Exhausted

  /** One chunk's content as parse, chunk and embed produce it. */
  datatype Piece = Piece(content: string, tokenCount: int, embedding: seq<real>)

  /** A row of `documents`; `digest` is the content hash. */
  datatype Doc = Doc(tenant: nat, digest: nat, kind: Kind, payload: Option<string>, size: nat,
                     status: Status, chunkCount: Option<nat>, error: Option<Reason>)

  /** A row of `chunks`. */
  datatype ChunkRow = ChunkRow(doc: DocId, tenant: nat, index: nat, piece: Piece)

  /** `pieces` is parse, chunk and embed on the payload, `None` for a `ParseError`; `hash` is the
      content hash, of which only its being a function is used. */
  datatype Config = Config(pieces: (Kind, string) -> Option<seq<Piece>>, hash: string -> nat, maxRetries: nat,
                           backoff: nat, quota: nat, maxUpload: nat)

  /** A broker message: the retry counter, and the countdowns it has waited out. */
  datatype Message = Message(doc: DocId, retries: nat, waited: nat)

  datatype Upload =
    | Admitted(tenant: nat, kind: Kind, payload: string) // quota passed, INSERT to come
    | Registered(doc: DocId)                                          // row committed, enqueue to come
    | Unqueued(doc: DocId)                                            // enqueue raised, mark_failed to come

  /** Where a delivery stands. `seen` is the row as its session loaded it. */
  datatype Pc =
    | Start
    | Loaded(seen: Doc)
    | Working(seen: Doc)
    | Erased(seen: Doc, gone: set<ChunkId>)       // DELETE executed; INSERT, UPDATE and COMMIT to come
    | MarkRead(why: Reason)
    | MarkWrite(why: Reason, seenFailed: bool)
    | Leaving                                     // process() is done; disposal and ack to come
    | Acking                                      // the exhaustion mark is done; only the ack to come

  datatype Task =
    | Uploading(up: Upload)
    | Queued(msg: Message)
    | Running(msg: Message, pc: Pc)

  /** `dropped` is history: the documents one of whose obligations was lost. */
  datatype World = World(docs: map<DocId, Doc>, issued: set<DocId>, chunks: map<ChunkId, ChunkRow>,
                         nextChunk: nat, tasks: map<TaskId, Task>, dropped: set<DocId>)

  datatype Event =
    | Admit(t: TaskId, tenant: nat, kind: Kind, payload: string)
    | Insert(t: TaskId, id: DocId)
    | RejectDuplicate(t: TaskId)
    | AbortUpload(t: TaskId)
    | Enqueue(t: TaskId)
    | EnqueueFails(t: TaskId, delivered: Option<TaskId>) // the message may have got through all the same
    | EnqueueMark(t: TaskId)
    | Deliver(t: TaskId)
    | Duplicate(t: TaskId, copy: TaskId)
    | Crash(t: TaskId)
    | Load(t: TaskId)
    | WriteProcessing(t: TaskId)
    | ParseFails(t: TaskId)
    | Erase(t: TaskId)
    | Store(t: TaskId)
    | Fail(t: TaskId)
    | ReadForMark(t: TaskId)
    | WriteMark(t: TaskId)
    | Ack(t: TaskId)
    | Delete(id: DocId)
    | Drop(t: TaskId)

  const EMPTY := World(map[], {}, map[], 0, map[], {})

  /** The largest payload an upload can be admitted with: the quota may be below the file limit. */
  function Cap(c: Config): nat { if 0 < c.quota < c.maxUpload then c.quota else c.maxUpload }

  function Pow2(n: nat): nat { if n == 0 then 1 else 2 * Pow2(n - 1) }

  /** What processing this row's payload yields. */
  function PiecesOf(c: Config, d: Doc): Option<seq<Piece>> {
    if d.payload.None? then None else c.pieces(d.kind, d.payload.value)
  }

  function SizeFor(d: Doc, tenant: nat): nat { if d.tenant == tenant then d.size else 0 }

  /** `SELECT coalesce(sum(size_bytes), 0) WHERE tenant_id = ...`. */
  ghost function UsedBytes(docs: map<DocId, Doc>, tenant: nat): nat {
    SumOver(docs, (d: Doc) => SizeFor(d, tenant))
  }

  /** The unique constraint on (tenant, content hash). */
  predicate Known(docs: map<DocId, Doc>, tenant: nat, digest: nat) {
    exists d :: d in docs && docs[d].tenant == tenant && docs[d].digest == digest
  }

  predicate IsKnown(c: Config, w: World, u: Upload)
    requires u.Admitted?
  {
    Known(w.docs, u.tenant, c.hash(u.payload))
  }

  /** The row `register` inserts. */
  function NewRow(c: Config, tenant: nat, kind: Kind, payload: string): Doc {
    Doc(tenant, c.hash(payload), kind, Some(payload), |payload|, Pending, None, None)
  }

  /** The chunk rows of a document. */
  function RowIds(chunks: map<ChunkId, ChunkRow>, id: DocId): set<ChunkId> {
    set cid | cid in chunks && chunks[cid].doc == id
  }

  predicate IsUpload(w: World, t: TaskId) { t in w.tasks && w.tasks[t].Uploading? }
  predicate IsQueued(w: World, t: TaskId) { t in w.tasks && w.tasks[t].Queued? }
  predicate IsRunning(w: World, t: TaskId) { t in w.tasks && w.tasks[t].Running? }

  /** Exceptions here reach the `except Exception` of `ingest_document`. */
  predicate CanFail(pc: Pc) {
    match pc
    case MarkRead(why) => why == Unparseable
    case MarkWrite(why, _) => why == Unparseable
    case Acking => false
    case _ => true
  }

  /** Losing these breaks a promise: a lost message, an upload that dies before its enqueue
      outcome, a delivery whose message is acknowledged without its work being done. That is a
      killed pool process, or a `mark_failed` at exhaustion that fails. */
  predicate CanDrop(task: Task) { task.Uploading? ==> !task.up.Admitted? }

  /** The unique constraint on (document, index), against rows this session did not delete. */
  predicate Conflicts(w: World, id: DocId, gone: set<ChunkId>, n: nat) {
    exists cid :: cid in w.chunks && cid !in gone && w.chunks[cid].doc == id && w.chunks[cid].index < n
  }

  ghost predicate Enabled(c: Config, w: World, e: Event) {
    match e
    case Admit(t, tenant, _, payload) =>
      t !in w.tasks && |payload| <= c.maxUpload
      && (c.quota > 0 ==> UsedBytes(w.docs, tenant) + |payload| <= c.quota)
    case Insert(t, id) => IsUpload(w, t) && w.tasks[t].up.Admitted? && !IsKnown(c, w, w.tasks[t].up) && id !in w.issued
    case RejectDuplicate(t) => IsUpload(w, t) && w.tasks[t].up.Admitted? && IsKnown(c, w, w.tasks[t].up)
    case AbortUpload(t) => IsUpload(w, t) && w.tasks[t].up.Admitted?
    case Enqueue(t) => IsUpload(w, t) && w.tasks[t].up.Registered?
    case EnqueueFails(t, delivered) =>
      IsUpload(w, t) && w.tasks[t].up.Registered? && (delivered.Some? ==> delivered.value !in w.tasks)
    case EnqueueMark(t) => IsUpload(w, t) && w.tasks[t].up.Unqueued?
    case Deliver(t) => IsQueued(w, t)
    case Duplicate(t, copy) => (IsQueued(w, t) || IsRunning(w, t)) && copy !in w.tasks
    case Crash(t) => IsRunning(w, t)
    case Load(t) => IsRunning(w, t) && w.tasks[t].pc.Start?
    case WriteProcessing(t) =>
      IsRunning(w, t) && w.tasks[t].pc.Loaded?
      && (w.tasks[t].pc.seen.status == Processing || w.tasks[t].msg.doc in w.docs)
    case ParseFails(t) => IsRunning(w, t) && w.tasks[t].pc.Working? && PiecesOf(c, w.tasks[t].pc.seen).None?
    case Erase(t) => IsRunning(w, t) && w.tasks[t].pc.Working? && PiecesOf(c, w.tasks[t].pc.seen).Some?
    case Store(t) =>
      IsRunning(w, t) && w.tasks[t].pc.Erased? && w.tasks[t].msg.doc in w.docs
      && PiecesOf(c, w.tasks[t].pc.seen).Some?
      && !Conflicts(w, w.tasks[t].msg.doc, w.tasks[t].pc.gone, |PiecesOf(c, w.tasks[t].pc.seen).value|)
    case Fail(t) => IsRunning(w, t) && CanFail(w.tasks[t].pc)
    case ReadForMark(t) => IsRunning(w, t) && w.tasks[t].pc.MarkRead?
    case WriteMark(t) => IsRunning(w, t) && w.tasks[t].pc.MarkWrite?
    case Ack(t) => IsRunning(w, t) && (w.tasks[t].pc.Leaving? || w.tasks[t].pc.Acking?)
    case Delete(id) => id in w.docs
    case Drop(t) => t in w.tasks && CanDrop(w.tasks[t])
  }

  function SetTask(w: World, t: TaskId, task: Task): World { w.(tasks := w.tasks[t := task]) }
  function EndTask(w: World, t: TaskId): World { w.(tasks := w.tasks - {t}) }
  function SetPc(w: World, t: TaskId, pc: Pc): World
    requires IsRunning(w, t)
  {
    SetTask(w, t, Running(w.tasks[t].msg, pc))
  }

  /** `mark_failed`: a row already seen as failed gets no status update from the ORM. */
  function Marked(docs: map<DocId, Doc>, id: DocId, why: Reason, seenFailed: bool): map<DocId, Doc> {
    if id !in docs then docs
    else docs[id := docs[id].(status := if seenFailed then docs[id].status else Failed, error := Some(why))]
  }

  function AfterMark(why: Reason): Pc { if why == Exhausted then Acking else Leaving }

  /** The exception branch of `ingest_document`: retry with backoff, or mark when the counter is spent. */
  function AfterFailure(c: Config, m: Message): Task {
    if m.retries >= c.maxRetries then Running(m, MarkRead(Exhausted))
    else Queued(Message(m.doc, m.retries + 1, m.waited + c.backoff * Pow2(m.retries)))
  }

  predicate Assigned(cid: ChunkId, base: nat, n: nat) { base <= cid < base + n }

  function NewRows(id: DocId, tenant: nat, ps: seq<Piece>, base: nat): map<ChunkId, ChunkRow> {
    map cid: nat | base <= cid < base + |ps| && Assigned(cid, base, |ps|) :: ChunkRow(id, tenant, cid - base, ps[cid - base])
  }

  /** The ORM writes only attributes that differ from the loaded ones. */
  function CompletedRow(row: Doc, seen: Doc, n: nat): Doc {
    row.(status := Completed,
         chunkCount := if seen.chunkCount == Some(n) then row.chunkCount else Some(n),
         error := if seen.error.None? then row.error else None)
  }

  function LoadStep(w: World, t: TaskId): World
    requires IsRunning(w, t)
  {
    var id := w.tasks[t].msg.doc;
    if id !in w.docs || w.docs[id].status == Completed || w.docs[id].payload.None? then SetPc(w, t, Leaving)
    else SetPc(w, t, Loaded(w.docs[id]))
  }

  function StoreStep(c: Config, w: World, t: TaskId): World
    requires IsRunning(w, t) && w.tasks[t].pc.Erased? && w.tasks[t].msg.doc in w.docs
    requires PiecesOf(c, w.tasks[t].pc.seen).Some?
  {
    var id, seen := w.tasks[t].msg.doc, w.tasks[t].pc.seen;
    var ps := PiecesOf(c, seen).value;
    SetPc(w, t, Leaving).(
      docs := w.docs[id := CompletedRow(w.docs[id], seen, |ps|)],
      chunks := (w.chunks - w.tasks[t].pc.gone) + NewRows(id, seen.tenant, ps, w.nextChunk),
      nextChunk := w.nextChunk + |ps|)
  }

  function DocOf(task: Task): Option<DocId> {
    match task
    case Uploading(up) => if up.Admitted? then None else Some(up.doc)
    case Queued(msg) => Some(msg.doc)
    case Running(msg, _) => Some(msg.doc)
  }

  ghost function Apply(c: Config, w: World, e: Event): World
    requires Enabled(c, w, e)
  {
    match e
    case Admit(t, tenant, kind, payload) => SetTask(w, t, Uploading(Admitted(tenant, kind, payload)))
    case Insert(t, id) =>
      var u := w.tasks[t].up;
      SetTask(w, t, Uploading(Registered(id))).(
        docs := w.docs[id := NewRow(c, u.tenant, u.kind, u.payload)],
        issued := w.issued + {id})
    case RejectDuplicate(t) => EndTask(w, t)
    case AbortUpload(t) => EndTask(w, t)
    case Enqueue(t) => SetTask(w, t, Queued(Message(w.tasks[t].up.doc, 0, 0)))
    case EnqueueFails(t, delivered) =>
      var id := w.tasks[t].up.doc;
      var w' := SetTask(w, t, Uploading(Unqueued(id)));
      if delivered.None? then w' else SetTask(w', delivered.value, Queued(Message(id, 0, 0)))
    case EnqueueMark(t) => EndTask(w, t).(docs := Marked(w.docs, w.tasks[t].up.doc, NotEnqueued, false))
    case Deliver(t) => SetTask(w, t, Running(w.tasks[t].msg, Start))
    case Duplicate(t, copy) => SetTask(w, copy, Queued(w.tasks[t].msg))
    case Crash(t) => SetTask(w, t, Queued(w.tasks[t].msg))
    case Load(t) => LoadStep(w, t)
    case WriteProcessing(t) =>
      var id, seen := w.tasks[t].msg.doc, w.tasks[t].pc.seen;
      SetPc(w, t, Working(seen)).(
        docs := if seen.status == Processing then w.docs else w.docs[id := w.docs[id].(status := Processing)])
    case ParseFails(t) => SetPc(w, t, MarkRead(Unparseable))
    case Erase(t) => SetPc(w, t, Erased(w.tasks[t].pc.seen, RowIds(w.chunks, w.tasks[t].msg.doc)))
    case Store(t) => StoreStep(c, w, t)
    case Fail(t) => SetTask(w, t, AfterFailure(c, w.tasks[t].msg))
    case ReadForMark(t) =>
      var id, why := w.tasks[t].msg.doc, w.tasks[t].pc.why;
      SetPc(w, t, if id !in w.docs then AfterMark(why) else MarkWrite(why, w.docs[id].status == Failed))
    case WriteMark(t) =>
      var pc := w.tasks[t].pc;
      SetPc(w, t, AfterMark(pc.why)).(docs := Marked(w.docs, w.tasks[t].msg.doc, pc.why, pc.seenFailed))
    case Ack(t) => EndTask(w, t)
    case Delete(id) => w.(docs := w.docs - {id}, chunks := w.chunks - RowIds(w.chunks, id))
    case Drop(t) => EndTask(w, t).(dropped := w.dropped + {DocOf(w.tasks[t]).value})
  }

  /** The world after a run from the empty one; `None` if some step was not enabled. */
  ghost function Exec(c: Config, es: seq<Event>): Option<World> {
    if es == [] then Some(EMPTY)
    else
      var before, e := Exec(c, es[..|es| - 1]), es[|es| - 1];
      if before.Some? && Enabled(c, before.value, e) then Some(Apply(c, before.value, e)) else None
  }

  /** The world after `es` from world `w`. */
  ghost function RunFrom(c: Config, w: World, es: seq<Event>): Option<World>
    decreases |es|
  {
    if es == [] then Some(w)
    else if Enabled(c, w, es[0]) then RunFrom(c, Apply(c, w, es[0]), es[1..])
    else None
  }

  lemma ExecSnoc(c: Config, es: seq<Event>, e: Event)
    requires Exec(c, es).Some? && Enabled(c, Exec(c, es).value, e)
    ensures Exec(c, es + [e]) == Some(Apply(c, Exec(c, es).value, e))
  {
    assert (es + [e])[..|es|] == es;
  }

  lemma MoveOne<T>(a: seq<T>, b: seq<T>)
    requires b != []
    ensures a + b == a + [b[0]] + b[1..]
  {
  }

  /** A piece of code that runs as steps from a reachable world extends that world's run. */
  lemma {:induction false} RunExtends(c: Config, es: seq<Event>, w: World, more: seq<Event>)
    requires Exec(c, es) == Some(w) && RunFrom(c, w, more).Some?
    ensures Exec(c, es + more) == RunFrom(c, w, more)
    decreases |more|
  {
    if more == [] {
      assert es + more == es;
    } else {
      ExecSnoc(c, es, more[0]);
      RunExtends(c, es + [more[0]], Apply(c, w, more[0]), more[1..]);
      MoveOne(es, more);
    }
  }

  lemma {:induction false} RunConcat(c: Config, w: World, a: seq<Event>, b: seq<Event>)
    requires RunFrom(c, w, a).Some?
    ensures RunFrom(c, w, a + b) == RunFrom(c, RunFrom(c, w, a).value, b)
    decreases |a|
  {
    if a == [] {
      assert a + b == b;
    } else {
      assert (a + b)[1..] == a[1..] + b;
      RunConcat(c, Apply(c, w, a[0]), a[1..], b);
    }
  }

  /** One more step at the end of a run. */
  lemma RunSnoc(c: Config, w: World, es: seq<Event>, v: World, e: Event)
    requires RunFrom(c, w, es) == Some(v) && Enabled(c, v, e)
    ensures RunFrom(c, w, es + [e]) == Some(Apply(c, v, e))
  {
    RunConcat(c, w, es, [e]);
    assert RunFrom(c, Apply(c, v, e), [e][1..]) == Some(Apply(c, v, e));
  }
}
