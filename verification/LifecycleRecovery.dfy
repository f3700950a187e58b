/** What "stuck" means: a document in flight can still settle exactly when an upload, a message
    or a delivery of it is left. */
module LifecycleRecovery {
  import opened Prelude
  import opened Lifecycle
  import opened LifecycleSafety
  import opened LifecycleFinality

  /** Some upload, message or delivery of the document is left. */
  ghost predicate InFlight(w: World, id: DocId) {
    exists t :: t in w.tasks && DocOf(w.tasks[t]) == Some(id)
  }

  ghost predicate SettlesIn(c: Config, es: seq<Event>, more: seq<Event>, id: DocId) {
    && Exec(c, es + more).Some? && id in Exec(c, es + more).value.docs
    && Exec(c, es + more).value.docs[id].status.Terminal()
  }

  /** Some continuation of the run completes or fails the document. */
  ghost predicate CanSettle(c: Config, es: seq<Event>, id: DocId) {
    exists more :: SettlesIn(c, es, more, id)
  }

  // ----- nothing left: stuck for good -----

  lemma NoFlightStep(c: Config, w: World, e: Event, id: DocId)
    requires Inv(c, w) && Enabled(c, w, e) && id in w.docs && !InFlight(w, id)
    ensures !InFlight(Apply(c, w, e), id)
    ensures id in Apply(c, w, e).docs ==> Apply(c, w, e).docs[id].status == w.docs[id].status
  {
    assert DocOk(c, w, id);
    forall t | t in Apply(c, w, e).tasks
      ensures DocOf(Apply(c, w, e).tasks[t]) != Some(id)
    {
      NoNewThreat(c, w, e, id, t);
    }
    if id in Apply(c, w, e).docs { StatusMover(c, w, e, id); }
  }

  lemma NoFlightOnce(c: Config, es: seq<Event>, status: Status, id: DocId)
    requires es != [] && Exec(c, es).Some? && id in Exec(c, es).value.docs
    requires id in Exec(c, es[..|es| - 1]).value.docs
    requires Exec(c, es[..|es| - 1]).value.docs[id].status == status && !InFlight(Exec(c, es[..|es| - 1]).value, id)
    ensures Exec(c, es).value.docs[id].status == status && !InFlight(Exec(c, es).value, id)
  {
    InvAlways(c, es[..|es| - 1]);
    NoFlightStep(c, Exec(c, es[..|es| - 1]).value, es[|es| - 1], id);
  }

  lemma {:induction false} NoFlightStays(c: Config, es: seq<Event>, n: nat, id: DocId)
    requires n <= |es| && Exec(c, es[..n]).Some? && id in Exec(c, es[..n]).value.docs
    requires !InFlight(Exec(c, es[..n]).value, id)
    requires Exec(c, es).Some? && id in Exec(c, es).value.docs
    ensures Exec(c, es).value.docs[id].status == Exec(c, es[..n]).value.docs[id].status
    ensures !InFlight(Exec(c, es).value, id)
    decreases |es|
  {
    if n == |es| {
      assert es[..n] == es;
    } else {
      PrefixOfPrefix(es, |es| - 1, n);
      StillThere(c, es, n, id);
      NoFlightStays(c, es[..|es| - 1], n, id);
      NoFlightOnce(c, es, Exec(c, es[..n]).value.docs[id].status, id);
    }
  }

  // ----- something left: it can settle -----

  /** The document's row and the delivery working on it. */
  ghost predicate WorkingAt(w: World, t: TaskId, id: DocId, m: Message, row: Doc) {
    && m.doc == id && id in w.docs && w.docs[id].status == Processing
    && t in w.tasks && w.tasks[t] == Running(m, Working(row))
  }

  lemma WorkStarts(c: Config, es: seq<Event>, id: DocId, t: TaskId, m: Message) returns (es': seq<Event>, w: World)
    requires Exec(c, es).Some? && id in Exec(c, es).value.docs && m.doc == id
    requires t in Exec(c, es).value.tasks && Exec(c, es).value.tasks[t] == Queued(m)
    requires !Exec(c, es).value.docs[id].status.Terminal()
    ensures es' == es + [Deliver(t), Load(t), WriteProcessing(t)] && Exec(c, es') == Some(w)
    ensures WorkingAt(w, t, id, m, Exec(c, es).value.docs[id])
    ensures w.tasks == Exec(c, es).value.tasks[t := Running(m, Working(Exec(c, es).value.docs[id]))]
  {
    var row := Exec(c, es).value.docs[id];
    InvAlways(c, es);
    assert DocOk(c, Exec(c, es).value, id);
    es', w := Go(c, es, Deliver(t));
    es', w := Go(c, es', Load(t));
    assert w.tasks[t] == Running(m, Loaded(row)) && w.docs == Exec(c, es).value.docs;
    es', w := Go(c, es', WriteProcessing(t));
    assert es' == es + [Deliver(t), Load(t), WriteProcessing(t)];
  }

  lemma WorkFails(c: Config, es: seq<Event>, w: World, t: TaskId, id: DocId, m: Message, row: Doc)
    requires Exec(c, es) == Some(w) && WorkingAt(w, t, id, m, row) && PiecesOf(c, row).None?
    ensures SettlesIn(c, es, [ParseFails(t), ReadForMark(t), WriteMark(t)], id)
  {
    var e1, w1 := Go(c, es, ParseFails(t));
    assert w1.tasks[t] == Running(m, MarkRead(Unparseable));
    var e2, w2 := Go(c, e1, ReadForMark(t));
    assert w2.tasks[t] == Running(m, MarkWrite(Unparseable, false));
    var e3, w3 := Go(c, e2, WriteMark(t));
    assert e3 == es + [ParseFails(t), ReadForMark(t), WriteMark(t)];
  }

  lemma WorkCompletes(c: Config, es: seq<Event>, w: World, t: TaskId, id: DocId, m: Message, row: Doc)
    requires Exec(c, es) == Some(w) && WorkingAt(w, t, id, m, row) && PiecesOf(c, row).Some?
    ensures SettlesIn(c, es, [Erase(t), Store(t)], id)
  {
    var e1, w1 := Go(c, es, Erase(t));
    assert w1.tasks[t] == Running(m, Erased(row, RowIds(w.chunks, id)));
    assert !Conflicts(w1, id, RowIds(w.chunks, id), |PiecesOf(c, row).value|);
    var e2, w2 := Go(c, e1, Store(t));
    assert e2 == es + [Erase(t), Store(t)];
  }

  lemma QueuedSettles(c: Config, es: seq<Event>, id: DocId, t: TaskId) returns (more: seq<Event>)
    requires Exec(c, es).Some? && id in Exec(c, es).value.docs
    requires IsQueued(Exec(c, es).value, t) && Exec(c, es).value.tasks[t].msg.doc == id
    requires !Exec(c, es).value.docs[id].status.Terminal()
    ensures SettlesIn(c, es, more, id)
  {
    var row, m := Exec(c, es).value.docs[id], Exec(c, es).value.tasks[t].msg;
    var start, w := WorkStarts(c, es, id, t, m);
    var rest;
    if PiecesOf(c, row).None? {
      rest := [ParseFails(t), ReadForMark(t), WriteMark(t)];
      WorkFails(c, start, w, t, id, m, row);
    } else {
      rest := [Erase(t), Store(t)];
      WorkCompletes(c, start, w, t, id, m, row);
    }
    more := [Deliver(t), Load(t), WriteProcessing(t)] + rest;
    assert es + more == start + rest;
  }

  lemma SettlesLater(c: Config, es: seq<Event>, e: Event, rest: seq<Event>, id: DocId)
    requires SettlesIn(c, es + [e], rest, id)
    ensures SettlesIn(c, es, [e] + rest, id)
  {
    assert es + ([e] + rest) == es + [e] + rest;
  }

  lemma FlightSettles(c: Config, es: seq<Event>, id: DocId, t: TaskId) returns (more: seq<Event>)
    requires Exec(c, es).Some? && id in Exec(c, es).value.docs
    requires !Exec(c, es).value.docs[id].status.Terminal()
    requires t in Exec(c, es).value.tasks && DocOf(Exec(c, es).value.tasks[t]) == Some(id)
    ensures SettlesIn(c, es, more, id)
  {
    match Exec(c, es).value.tasks[t]
    case Queued(_) =>
      more := QueuedSettles(c, es, id, t);
    case Running(_, _) =>
      ExecSnoc(c, es, Crash(t));
      var rest := QueuedSettles(c, es + [Crash(t)], id, t);
      SettlesLater(c, es, Crash(t), rest, id);
      more := [Crash(t)] + rest;
    case Uploading(up) =>
      if up.Registered? {
        ExecSnoc(c, es, Enqueue(t));
        var rest := QueuedSettles(c, es + [Enqueue(t)], id, t);
        SettlesLater(c, es, Enqueue(t), rest, id);
        more := [Enqueue(t)] + rest;
      } else {
        ExecSnoc(c, es, EnqueueMark(t));
        more := [EnqueueMark(t)];
      }
  }

  /** A document that is neither completed nor failed can still become so exactly when an
      upload, a message or a delivery of it is left. */
  lemma RecoverableIff(c: Config, es: seq<Event>, id: DocId)
    requires Exec(c, es).Some? && id in Exec(c, es).value.docs
    requires !Exec(c, es).value.docs[id].status.Terminal()
    ensures CanSettle(c, es, id) <==> InFlight(Exec(c, es).value, id)
  {
    var w := Exec(c, es).value;
    if InFlight(w, id) {
      var t :| t in w.tasks && DocOf(w.tasks[t]) == Some(id);
      var more := FlightSettles(c, es, id, t);
    } else if CanSettle(c, es, id) {
      var more :| SettlesIn(c, es, more, id);
      assert (es + more)[..|es|] == es;
      NoFlightStays(c, es + more, |es|, id);
    }
  }

  /** So a document of a reliable run can always still settle. */
  lemma AlwaysRecoverable(c: Config, es: seq<Event>, id: DocId)
    requires Reliable(es) && Exec(c, es).Some? && id in Exec(c, es).value.docs
    ensures CanSettle(c, es, id)
  {
    if Exec(c, es).value.docs[id].status.Terminal() {
      assert es + [] == es;
      assert SettlesIn(c, es, [], id);
    } else {
      NeverStuck(c, es, id);
      var t :| t in Exec(c, es).value.tasks && Obliged(Exec(c, es).value.tasks[t], id);
      RecoverableIff(c, es, id);
    }
  }

  // ----- the reliability assumption is needed -----

  /** Losing one obligation of a document in flight ends its chances exactly when it was the
      last upload, message or delivery of it. */
  lemma LossIsFatalIff(c: Config, es: seq<Event>, t: TaskId, id: DocId)
    requires Exec(c, es).Some? && Enabled(c, Exec(c, es).value, Drop(t))
    requires DocOf(Exec(c, es).value.tasks[t]) == Some(id)
    requires id in Exec(c, es).value.docs && !Exec(c, es).value.docs[id].status.Terminal()
    ensures !CanSettle(c, es + [Drop(t)], id)
       <==> forall s :: s in Exec(c, es).value.tasks && s != t ==> DocOf(Exec(c, es).value.tasks[s]) != Some(id)
  {
    var w := Exec(c, es).value;
    var es', w' := Go(c, es, Drop(t));
    assert forall s :: s in w'.tasks <==> s in w.tasks && s != t;
    RecoverableIff(c, es', id);
  }

  /** One upload of an empty markdown file, registered as document 0 and enqueued. */
  lemma FirstMessage(c: Config) returns (es: seq<Event>, w: World)
    ensures Exec(c, es) == Some(w)
    ensures w.tasks == map[0 := Queued(Message(0, 0, 0))]
    ensures w.docs == map[0 := NewRow(c, 0, Markdown, "")]
  {
    es := [];
    es, w := Go(c, es, Admit(0, 0, Markdown, ""));
    assert w.docs == map[] && w.tasks[0] == Uploading(Admitted(0, Markdown, ""));
    es, w := Go(c, es, Insert(0, 0));
    assert w.tasks[0] == Uploading(Registered(0));
    es, w := Go(c, es, Enqueue(0));
  }

  /** Every attempt of the document's only message fails, until its retries are spent. */
  lemma {:induction false} Exhausts(c: Config, es: seq<Event>, m: Message) returns (es': seq<Event>, w: World, last: Message)
    requires Exec(c, es).Some? && Exec(c, es).value.tasks == map[0 := Queued(m)] && m.doc in Exec(c, es).value.docs
    requires !Exec(c, es).value.docs[m.doc].status.Terminal()
    ensures Exec(c, es') == Some(w) && w.tasks == map[0 := Running(last, MarkRead(Exhausted))] && last.doc == m.doc
    ensures m.doc in w.docs && w.docs[m.doc].status == Processing
    decreases c.maxRetries - m.retries
  {
    es', w := WorkStarts(c, es, m.doc, 0, m);
    es', w := Go(c, es', Fail(0));
    if m.retries < c.maxRetries {
      es', w, last := Exhausts(c, es', w.tasks[0].msg);
    } else {
      last := m;
    }
  }

  /** If the one `mark_failed` at exhaustion fails, the row stays in PROCESSING for good. */
  lemma LostMarkSticks(c: Config)
    ensures exists es ::
      && Exec(c, es).Some? && 0 in Exec(c, es).value.docs && Exec(c, es).value.docs[0].status == Processing
      && !CanSettle(c, es, 0)
  {
    var es, w := FirstMessage(c);
    var last;
    es, w, last := Exhausts(c, es, Message(0, 0, 0));
    es, w := Go(c, es, Drop(0));
    RecoverableIff(c, es, 0);
  }
}
