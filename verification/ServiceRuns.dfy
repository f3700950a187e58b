/** The steps that pieces of `register`, `process` and the worker's task take, for a delivery or
    upload `t` among any other tasks, none of which moves meanwhile. */
module ServiceRuns {
  import opened Prelude
  import opened Lifecycle

  /** `w` with delivery `t` at `pc`. */
  ghost function Moved(w: World, t: TaskId, m: Message, pc: Pc): World { SetTask(w, t, Running(m, pc)) }

  lemma SetTwice(w: World, t: TaskId, a: Task, b: Task)
    ensures SetTask(SetTask(w, t, a), t, b) == SetTask(w, t, b)
    ensures EndTask(SetTask(w, t, a), t) == EndTask(w, t)
  {
    assert w.tasks[t := a][t := b] == w.tasks[t := b];
    assert w.tasks[t := a] - {t} == w.tasks - {t};
  }

  lemma OneStep(c: Config, w: World, e: Event)
    requires Enabled(c, w, e)
    ensures RunFrom(c, w, [e]) == Some(Apply(c, w, e))
  {
    RunSnoc(c, w, [], w, e);
    assert [] + [e] == [e];
  }

  lemma Chain(c: Config, w: World, trace: seq<Event>, v: World, steps: seq<Event>, v': World)
    requires RunFrom(c, w, trace) == Some(v) && RunFrom(c, v, steps) == Some(v')
    ensures RunFrom(c, w, trace + steps) == Some(v')
  {
    RunConcat(c, w, trace, steps);
  }

  /** The run takes `w` to `w'`, and carries any run that ends in `w` on to `w'`. */
  ghost predicate Continues(c: Config, w: World, trace: seq<Event>, w': World) {
    && RunFrom(c, w, trace) == Some(w')
    && forall es :: Exec(c, es) == Some(w) ==> Exec(c, es + trace) == Some(w')
  }

  lemma Continue(c: Config, w: World, trace: seq<Event>, w': World)
    requires RunFrom(c, w, trace) == Some(w')
    ensures Continues(c, w, trace, w')
  {
    forall es | Exec(c, es) == Some(w)
      ensures Exec(c, es + trace) == Some(w')
    {
      RunExtends(c, es, w, trace);
    }
  }

  // ----- a delivery -----

  lemma LoadRuns(c: Config, w: World, t: TaskId, m: Message)
    ensures RunFrom(c, Moved(w, t, m, Start), [Load(t)]) == Some(Moved(w, t, m,
      if m.doc !in w.docs || w.docs[m.doc].status == Completed || w.docs[m.doc].payload.None? then Leaving
      else Loaded(w.docs[m.doc])))
  {
    OneStep(c, Moved(w, t, m, Start), Load(t));
    var pc := LoadStep(Moved(w, t, m, Start), t).tasks[t].pc;
    SetTwice(w, t, Running(m, Start), Running(m, pc));
  }

  lemma ProcessingRuns(c: Config, w: World, t: TaskId, m: Message, seen: Doc)
    requires m.doc in w.docs && w.docs[m.doc] == seen
    ensures RunFrom(c, Moved(w, t, m, Loaded(seen)), [WriteProcessing(t)])
         == Some(Moved(w, t, m, Working(seen)).(docs := w.docs[m.doc := seen.(status := Processing)]))
  {
    OneStep(c, Moved(w, t, m, Loaded(seen)), WriteProcessing(t));
    SetTwice(w, t, Running(m, Loaded(seen)), Running(m, Working(seen)));
    if seen.status == Processing { assert w.docs[m.doc := seen.(status := Processing)] == w.docs; }
  }

  lemma ReadRuns(c: Config, w: World, t: TaskId, m: Message, why: Reason)
    requires m.doc in w.docs
    ensures RunFrom(c, Moved(w, t, m, MarkRead(why)), [ReadForMark(t)])
         == Some(Moved(w, t, m, MarkWrite(why, w.docs[m.doc].status == Failed)))
  {
    OneStep(c, Moved(w, t, m, MarkRead(why)), ReadForMark(t));
    SetTwice(w, t, Running(m, MarkRead(why)), Running(m, MarkWrite(why, w.docs[m.doc].status == Failed)));
  }

  lemma WriteRuns(c: Config, w: World, t: TaskId, m: Message, why: Reason, seenFailed: bool)
    ensures var before := Moved(w, t, m, MarkWrite(why, seenFailed));
      && Enabled(c, before, WriteMark(t))
      && Apply(c, before, WriteMark(t)) == Moved(w, t, m, AfterMark(why)).(docs := Marked(w.docs, m.doc, why, seenFailed))
  {
    SetTwice(w, t, Running(m, MarkWrite(why, seenFailed)), Running(m, AfterMark(why)));
  }

  /** `mark_failed` read and written, or only read for a document that is gone. */
  ghost function MarkTrace(w: World, t: TaskId, m: Message): seq<Event> {
    if m.doc in w.docs then [ReadForMark(t)] + [WriteMark(t)] else [ReadForMark(t)]
  }

  lemma MarkRuns(c: Config, w: World, t: TaskId, m: Message, why: Reason)
    ensures RunFrom(c, Moved(w, t, m, MarkRead(why)), MarkTrace(w, t, m))
         == Some(Moved(w, t, m, AfterMark(why)).(
              docs := Marked(w.docs, m.doc, why, m.doc in w.docs && w.docs[m.doc].status == Failed)))
  {
    if m.doc in w.docs {
      var seenFailed := w.docs[m.doc].status == Failed;
      ReadRuns(c, w, t, m, why);
      WriteRuns(c, w, t, m, why, seenFailed);
      RunSnoc(c, Moved(w, t, m, MarkRead(why)), [ReadForMark(t)], Moved(w, t, m, MarkWrite(why, seenFailed)), WriteMark(t));
    } else {
      OneStep(c, Moved(w, t, m, MarkRead(why)), ReadForMark(t));
      SetTwice(w, t, Running(m, MarkRead(why)), Running(m, AfterMark(why)));
    }
  }

  lemma ParseFailRuns(c: Config, w: World, t: TaskId, m: Message, seen: Doc, more: seq<Event>)
    requires PiecesOf(c, seen).None?
    ensures RunFrom(c, Moved(w, t, m, Working(seen)), [ParseFails(t)] + more)
         == RunFrom(c, Moved(w, t, m, MarkRead(Unparseable)), more)
  {
    SetTwice(w, t, Running(m, Working(seen)), Running(m, MarkRead(Unparseable)));
    OneStep(c, Moved(w, t, m, Working(seen)), ParseFails(t));
    RunConcat(c, Moved(w, t, m, Working(seen)), [ParseFails(t)], more);
  }

  lemma EraseRuns(c: Config, w: World, t: TaskId, m: Message, seen: Doc)
    requires PiecesOf(c, seen).Some?
    ensures RunFrom(c, Moved(w, t, m, Working(seen)), [Erase(t)])
         == Some(Moved(w, t, m, Erased(seen, RowIds(w.chunks, m.doc))))
  {
    OneStep(c, Moved(w, t, m, Working(seen)), Erase(t));
    SetTwice(w, t, Running(m, Working(seen)), Running(m, Erased(seen, RowIds(w.chunks, m.doc))));
  }

  lemma StoreRuns(c: Config, w: World, t: TaskId, m: Message, seen: Doc)
    requires PiecesOf(c, seen).Some? && m.doc in w.docs
    ensures var ps := PiecesOf(c, seen).value;
      RunFrom(c, Moved(w, t, m, Working(seen)), [Erase(t)] + [Store(t)]) == Some(Moved(w, t, m, Leaving).(
        docs := w.docs[m.doc := CompletedRow(w.docs[m.doc], seen, |ps|)],
        chunks := (w.chunks - RowIds(w.chunks, m.doc)) + NewRows(m.doc, seen.tenant, ps, w.nextChunk),
        nextChunk := w.nextChunk + |ps|))
  {
    var erased := Erased(seen, RowIds(w.chunks, m.doc));
    EraseRuns(c, w, t, m, seen);
    RunSnoc(c, Moved(w, t, m, Working(seen)), [Erase(t)], Moved(w, t, m, erased), Store(t));
    SetTwice(w, t, Running(m, erased), Running(m, Leaving));
  }

  lemma AckRuns(c: Config, w: World, t: TaskId, m: Message, pc: Pc)
    requires pc.Leaving? || pc.Acking?
    ensures RunFrom(c, Moved(w, t, m, pc), [Ack(t)]) == Some(EndTask(w, t))
  {
    OneStep(c, Moved(w, t, m, pc), Ack(t));
    SetTwice(w, t, Running(m, pc), Running(m, pc));
  }

  lemma FailRuns(c: Config, w: World, t: TaskId, m: Message, pc: Pc)
    requires CanFail(pc)
    ensures RunFrom(c, Moved(w, t, m, pc), [Fail(t)]) == Some(SetTask(w, t, AfterFailure(c, m)))
  {
    OneStep(c, Moved(w, t, m, pc), Fail(t));
    SetTwice(w, t, Running(m, pc), AfterFailure(c, m));
  }

  // ----- an upload -----

  lemma AdmitRuns(c: Config, w: World, t: TaskId, tenant: nat, kind: Kind, raw: string)
    requires t !in w.tasks && |raw| <= c.maxUpload && (c.quota > 0 ==> UsedBytes(w.docs, tenant) + |raw| <= c.quota)
    ensures RunFrom(c, w, [Admit(t, tenant, kind, raw)]) == Some(SetTask(w, t, Uploading(Admitted(tenant, kind, raw))))
  {
    OneStep(c, w, Admit(t, tenant, kind, raw));
  }

  lemma RejectRuns(c: Config, w: World, t: TaskId, tenant: nat, kind: Kind, raw: string)
    requires t !in w.tasks && Known(w.docs, tenant, c.hash(raw))
    ensures var w1 := SetTask(w, t, Uploading(Admitted(tenant, kind, raw)));
      Enabled(c, w1, RejectDuplicate(t)) && Apply(c, w1, RejectDuplicate(t)) == w
  {
    assert w.tasks[t := Uploading(Admitted(tenant, kind, raw))] - {t} == w.tasks;
  }

  lemma InsertRuns(c: Config, w: World, t: TaskId, id: DocId, tenant: nat, kind: Kind, raw: string)
    requires t !in w.tasks && !Known(w.docs, tenant, c.hash(raw)) && id !in w.issued
    ensures var w1 := SetTask(w, t, Uploading(Admitted(tenant, kind, raw)));
      && Enabled(c, w1, Insert(t, id))
      && Apply(c, w1, Insert(t, id)) == SetTask(w, t, Uploading(Registered(id))).(
           docs := w.docs[id := NewRow(c, tenant, kind, raw)], issued := w.issued + {id})
  {
    SetTwice(w, t, Uploading(Admitted(tenant, kind, raw)), Uploading(Registered(id)));
  }

  lemma EnqueueRuns(c: Config, w: World, t: TaskId, id: DocId)
    ensures RunFrom(c, SetTask(w, t, Uploading(Registered(id))), [Enqueue(t)])
         == Some(SetTask(w, t, Queued(Message(id, 0, 0))))
  {
    OneStep(c, SetTask(w, t, Uploading(Registered(id))), Enqueue(t));
    SetTwice(w, t, Uploading(Registered(id)), Queued(Message(id, 0, 0)));
  }

  /** How an enqueue that raised ends: the mark, and the message, at `copy`, if it got through. */
  ghost function RaisedTrace(t: TaskId, copy: Option<TaskId>): seq<Event> {
    [EnqueueFails(t, copy)] + [EnqueueMark(t)]
  }

  lemma RaisedRuns(c: Config, w: World, t: TaskId, id: DocId, copy: Option<TaskId>)
    requires t !in w.tasks && (copy.Some? ==> copy.value !in w.tasks && copy.value != t)
    ensures RunFrom(c, SetTask(w, t, Uploading(Registered(id))), RaisedTrace(t, copy))
         == Some((if copy.Some? then SetTask(w, copy.value, Queued(Message(id, 0, 0))) else w).(
              docs := Marked(w.docs, id, NotEnqueued, false)))
  {
    var w0 := SetTask(w, t, Uploading(Registered(id)));
    var w1 := Apply(c, w0, EnqueueFails(t, copy));
    OneStep(c, w0, EnqueueFails(t, copy));
    RunSnoc(c, w0, [EnqueueFails(t, copy)], w1, EnqueueMark(t));
    assert w1.tasks - {t} == if copy.Some? then w.tasks[copy.value := Queued(Message(id, 0, 0))] else w.tasks;
  }
}
