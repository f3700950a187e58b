/** "once a document reaches one, its status never changes again" (the upload routes, of the
    terminal states): false in general, true of runs with exactly-once delivery. */
module LifecycleFinality {
  import opened Prelude
  import opened Lifecycle
  import opened LifecycleSafety

  // ----- it is false -----

  lemma ReprocessFailed(c: Config, es: seq<Event>, w: World)
    requires Exec(c, es) == Some(w) && w.tasks == map[1 := Queued(Message(0, 0, 0))]
    requires 0 in w.docs && w.docs[0].status == Failed && w.docs[0].payload.Some?
    ensures exists more :: Exec(c, es + more).Some? && 0 in Exec(c, es + more).value.docs
              && Exec(c, es + more).value.docs[0].status == Processing
  {
    var more := [Deliver(1), Load(1), WriteProcessing(1)];
    var e1, e2 := es + [Deliver(1)], es + [Deliver(1)] + [Load(1)];
    ExecSnoc(c, es, Deliver(1));
    assert Exec(c, e1).value.tasks[1] == Running(Message(0, 0, 0), Start);
    ExecSnoc(c, e1, Load(1));
    assert Exec(c, e2).value.tasks[1].pc == Loaded(w.docs[0]);
    ExecSnoc(c, e2, WriteProcessing(1));
    assert es + more == e2 + [WriteProcessing(1)];
  }

  /** One ambiguous enqueue failure is enough: the row is marked failed, and the message that
      did get through takes it back to PROCESSING. */
  lemma TerminalCanChange(c: Config)
    ensures exists es, more ::
      && Exec(c, es).Some? && 0 in Exec(c, es).value.docs && Exec(c, es).value.docs[0].status == Failed
      && Exec(c, es + more).Some? && 0 in Exec(c, es + more).value.docs
      && Exec(c, es + more).value.docs[0].status == Processing
  {
    var es, w := [], EMPTY;
    es, w := Go(c, es, Admit(0, 0, Markdown, ""));
    assert w.docs == map[] && w.tasks[0] == Uploading(Admitted(0, Markdown, ""));
    es, w := Go(c, es, Insert(0, 0));
    assert w.tasks == map[0 := Uploading(Registered(0))];
    es, w := Go(c, es, EnqueueFails(0, Some(1)));
    assert w.tasks == map[0 := Uploading(Unqueued(0)), 1 := Queued(Message(0, 0, 0))];
    es, w := Go(c, es, EnqueueMark(0));
    assert w.docs[0].status == Failed && w.tasks == map[1 := Queued(Message(0, 0, 0))];
    ReprocessFailed(c, es, w);
  }

  // ----- when it is true -----

  /** Exactly-once delivery: no duplicate or crash, an enqueue error means no message, and
      nothing raises after process() has committed. */
  ghost predicate Clean(w: World, e: Event) {
    && !e.Duplicate? && !e.Crash? && !e.Drop?
    && (e.EnqueueFails? ==> e.delivered.None?)
    && (e.Fail? && IsRunning(w, e.t) ==> !w.tasks[e.t].pc.Leaving?)
  }

  ghost predicate CleanRun(c: Config, es: seq<Event>) {
    es == [] ||
    (var n := |es| - 1;
     CleanRun(c, es[..n]) && Exec(c, es).Some? && Clean(Exec(c, es[..n]).value, es[n]))
  }

  function Rank(s: Status): nat {
    match s
    case Pending => 0
    case Processing => 1
    case Completed => 2
    case Failed => 2
  }

  /** Never backwards, and a terminal status stays exactly as it is. */
  predicate Climbs(a: Status, b: Status) {
    Rank(a) <= Rank(b) && (a.Terminal() ==> a == b)
  }

  /** In a clean world a task's place tells its document's status. */
  ghost predicate Fits(task: Task, d: Doc) {
    match task
    case Uploading(_) => d.status == Pending
    case Queued(_) => !d.status.Terminal()
    case Running(_, pc) =>
      match pc
      case Start => !d.status.Terminal()
      case Loaded(seen) => seen.status == d.status && !d.status.Terminal()
      case Working(_) => d.status == Processing
      case Erased(_, _) => d.status == Processing
      case MarkRead(_) => !d.status.Terminal()
      case MarkWrite(_, seenFailed) => !seenFailed && !d.status.Terminal()
      case Leaving => d.status.Terminal()
      case Acking => d.status.Terminal()
  }

  /** One task per document, each in its document's place. */
  ghost predicate OneChain(w: World) {
    && (forall a, b :: a in w.tasks && b in w.tasks && a != b && DocOf(w.tasks[a]).Some? ==>
          DocOf(w.tasks[a]) != DocOf(w.tasks[b]))
    && (forall t :: t in w.tasks && DocOf(w.tasks[t]).Some? && DocOf(w.tasks[t]).value in w.docs ==>
          Fits(w.tasks[t], w.docs[DocOf(w.tasks[t]).value]))
  }

  /** Without duplicates a task stays with its document, and only an insert brings a new one. */
  lemma StaysWithDoc(c: Config, w: World, e: Event, t: TaskId, id: DocId)
    requires Enabled(c, w, e) && Clean(w, e)
    requires t in Apply(c, w, e).tasks && DocOf(Apply(c, w, e).tasks[t]) == Some(id)
    ensures (t in w.tasks && DocOf(w.tasks[t]) == Some(id)) || (e.Insert? && t == e.t && id !in w.issued)
  {
  }

  lemma OneTaskEach(c: Config, w: World, e: Event, a: TaskId, b: TaskId)
    requires Inv(c, w) && OneChain(w) && Enabled(c, w, e) && Clean(w, e)
    requires a in Apply(c, w, e).tasks && b in Apply(c, w, e).tasks && a != b
    requires DocOf(Apply(c, w, e).tasks[a]).Some?
    ensures DocOf(Apply(c, w, e).tasks[a]) != DocOf(Apply(c, w, e).tasks[b])
  {
    if a in w.tasks { assert TaskOk(c, w, w.tasks[a]); }
    if b in w.tasks { assert TaskOk(c, w, w.tasks[b]); }
    var id := DocOf(Apply(c, w, e).tasks[a]).value;
    StaysWithDoc(c, w, e, a, id);
    if DocOf(Apply(c, w, e).tasks[b]) == Some(id) { StaysWithDoc(c, w, e, b, id); }
  }

  /** Only a document's own task moves its status. */
  lemma StatusMover(c: Config, w: World, e: Event, id: DocId)
    requires Enabled(c, w, e) && id in w.docs && id in w.issued && id in Apply(c, w, e).docs
    ensures Apply(c, w, e).docs[id].status == w.docs[id].status
         || (!e.Delete? && e.t in w.tasks && DocOf(w.tasks[e.t]) == Some(id))
  {
  }

  /** The step left this task alone, and so its document's status. */
  lemma UntouchedFits(c: Config, w: World, e: Event, t: TaskId, id: DocId)
    requires Inv(c, w) && OneChain(w) && Enabled(c, w, e) && Clean(w, e)
    requires t in w.tasks && DocOf(w.tasks[t]) == Some(id) && id in Apply(c, w, e).docs
    requires e.Delete? || e.t != t
    ensures id in w.docs && Apply(c, w, e).docs[id].status == w.docs[id].status
  {
    assert TaskOk(c, w, w.tasks[t]);
    ReturnsNever(c, w, e, id);
    StatusMover(c, w, e, id);
  }

  lemma LoadFits(c: Config, w: World, t: TaskId)
    requires Inv(c, w) && OneChain(w) && Enabled(c, w, Load(t)) && w.tasks[t].msg.doc in w.docs
    ensures LoadStep(w, t).docs == w.docs && t in LoadStep(w, t).tasks
    ensures Fits(LoadStep(w, t).tasks[t], w.docs[w.tasks[t].msg.doc])
  {
    assert DocOk(c, w, w.tasks[t].msg.doc);
  }

  lemma UploadFits(c: Config, w: World, e: Event, id: DocId)
    requires Inv(c, w) && OneChain(w) && Enabled(c, w, e) && Clean(w, e) && !e.Delete?
    requires e.t in w.tasks ==> w.tasks[e.t].Uploading?
    requires e.t in Apply(c, w, e).tasks && DocOf(Apply(c, w, e).tasks[e.t]) == Some(id)
    requires id in Apply(c, w, e).docs
    ensures Fits(Apply(c, w, e).tasks[e.t], Apply(c, w, e).docs[id])
  {
  }

  lemma MarkFits(c: Config, w: World, e: Event, id: DocId)
    requires Enabled(c, w, e) && (e.ReadForMark? || e.WriteMark?)
    requires w.tasks[e.t].msg.doc == id && id in w.docs && id in Apply(c, w, e).docs && Fits(w.tasks[e.t], w.docs[id])
    ensures e.t in Apply(c, w, e).tasks && Fits(Apply(c, w, e).tasks[e.t], Apply(c, w, e).docs[id])
  {
  }

  lemma WorkFits(c: Config, w: World, e: Event, id: DocId)
    requires Enabled(c, w, e) && Clean(w, e) && !e.Delete? && !e.Load? && !e.ReadForMark? && !e.WriteMark?
    requires e.t in w.tasks && !w.tasks[e.t].Uploading? && w.tasks[e.t].msg.doc == id
    requires id in w.docs && Fits(w.tasks[e.t], w.docs[id])
    requires e.t in Apply(c, w, e).tasks && id in Apply(c, w, e).docs
    ensures Fits(Apply(c, w, e).tasks[e.t], Apply(c, w, e).docs[id])
  {
  }

  /** A delivery's message keeps its document. */
  lemma SameDoc(c: Config, w: World, e: Event)
    requires Enabled(c, w, e) && !e.Delete? && e.t in w.tasks && !w.tasks[e.t].Uploading? && e.t in Apply(c, w, e).tasks
    ensures DocOf(Apply(c, w, e).tasks[e.t]) == DocOf(w.tasks[e.t])
  {
  }

  lemma DeliveryFits(c: Config, w: World, e: Event, id: DocId)
    requires Inv(c, w) && OneChain(w) && Enabled(c, w, e) && Clean(w, e) && !e.Delete?
    requires !e.Load? && e.t in w.tasks && !w.tasks[e.t].Uploading?
    requires e.t in Apply(c, w, e).tasks && DocOf(Apply(c, w, e).tasks[e.t]) == Some(id)
    requires id in Apply(c, w, e).docs
    ensures Fits(Apply(c, w, e).tasks[e.t], Apply(c, w, e).docs[id])
  {
    SameDoc(c, w, e);
    assert TaskOk(c, w, w.tasks[e.t]);
    ReturnsNever(c, w, e, id);
    assert Fits(w.tasks[e.t], w.docs[id]);
    if e.ReadForMark? || e.WriteMark? {
      MarkFits(c, w, e, id);
    } else {
      WorkFits(c, w, e, id);
    }
  }

  lemma MovedFits(c: Config, w: World, e: Event, id: DocId)
    requires Inv(c, w) && OneChain(w) && Enabled(c, w, e) && Clean(w, e) && !e.Delete?
    requires e.t in Apply(c, w, e).tasks && DocOf(Apply(c, w, e).tasks[e.t]) == Some(id)
    requires id in Apply(c, w, e).docs
    ensures Fits(Apply(c, w, e).tasks[e.t], Apply(c, w, e).docs[id])
  {
    if e.Load? {
      LoadFits(c, w, e.t);
    } else if e.t in w.tasks && !w.tasks[e.t].Uploading? {
      DeliveryFits(c, w, e, id);
    } else {
      UploadFits(c, w, e, id);
    }
  }

  lemma FitKept(c: Config, w: World, e: Event, t: TaskId)
    requires Inv(c, w) && OneChain(w) && Enabled(c, w, e) && Clean(w, e)
    requires t in Apply(c, w, e).tasks && DocOf(Apply(c, w, e).tasks[t]).Some?
    requires DocOf(Apply(c, w, e).tasks[t]).value in Apply(c, w, e).docs
    ensures Fits(Apply(c, w, e).tasks[t], Apply(c, w, e).docs[DocOf(Apply(c, w, e).tasks[t]).value])
  {
    var id := DocOf(Apply(c, w, e).tasks[t]).value;
    if !e.Delete? && e.t == t {
      MovedFits(c, w, e, id);
    } else {
      assert t in w.tasks && Apply(c, w, e).tasks[t] == w.tasks[t];
      UntouchedFits(c, w, e, t, id);
    }
  }

  lemma OneChainKept(c: Config, w: World, e: Event)
    requires Inv(c, w) && OneChain(w) && Enabled(c, w, e) && Clean(w, e)
    ensures OneChain(Apply(c, w, e))
  {
    var w' := Apply(c, w, e);
    forall a, b | a in w'.tasks && b in w'.tasks && a != b && DocOf(w'.tasks[a]).Some?
      ensures DocOf(w'.tasks[a]) != DocOf(w'.tasks[b])
    {
      OneTaskEach(c, w, e, a, b);
    }
    forall t | t in w'.tasks && DocOf(w'.tasks[t]).Some? && DocOf(w'.tasks[t]).value in w'.docs
      ensures Fits(w'.tasks[t], w'.docs[DocOf(w'.tasks[t]).value])
    {
      FitKept(c, w, e, t);
    }
  }

  lemma {:induction false} CleanRunsChain(c: Config, es: seq<Event>)
    requires CleanRun(c, es)
    ensures Exec(c, es).Some? && Inv(c, Exec(c, es).value) && OneChain(Exec(c, es).value)
  {
    InvAlways(c, es);
    if es != [] {
      var n := |es| - 1;
      CleanRunsChain(c, es[..n]);
      OneChainKept(c, Exec(c, es[..n]).value, es[n]);
    }
  }

  lemma MoverClimbs(c: Config, w: World, e: Event, id: DocId)
    requires Enabled(c, w, e) && Clean(w, e) && id in w.docs && id in Apply(c, w, e).docs
    requires !e.Delete? && e.t in w.tasks && DocOf(w.tasks[e.t]) == Some(id) && Fits(w.tasks[e.t], w.docs[id])
    ensures Climbs(w.docs[id].status, Apply(c, w, e).docs[id].status)
  {
  }

  lemma CleanStepClimbs(c: Config, w: World, e: Event, id: DocId)
    requires Inv(c, w) && OneChain(w) && Enabled(c, w, e) && Clean(w, e)
    requires id in w.docs && id in Apply(c, w, e).docs
    ensures Climbs(w.docs[id].status, Apply(c, w, e).docs[id].status)
  {
    assert DocOk(c, w, id);
    StatusMover(c, w, e, id);
    if !e.Delete? && e.t in w.tasks && DocOf(w.tasks[e.t]) == Some(id) { MoverClimbs(c, w, e, id); }
  }

  /** A deleted id does not come back. */
  lemma {:induction false} IssuedStays(c: Config, es: seq<Event>, n: nat, id: DocId)
    requires n <= |es| && Exec(c, es).Some?
    requires Exec(c, es[..n]).Some? && id in Exec(c, es[..n]).value.issued
    ensures id in Exec(c, es).value.issued
    ensures id in Exec(c, es).value.docs ==> id in Exec(c, es[..n]).value.docs
    decreases |es|
  {
    if n < |es| {
      var m := |es| - 1;
      assert es[..m][..n] == es[..n];
      IssuedStays(c, es[..m], n, id);
      ReturnsNever(c, Exec(c, es[..m]).value, es[m], id);
    } else {
      assert es[..n] == es;
    }
  }

  /** A deleted document, and its chunks, never come back, whatever deliveries of it are left. */
  lemma DeletedForGood(c: Config, es: seq<Event>, n: nat, id: DocId)
    requires n < |es| && es[n] == Delete(id) && Exec(c, es).Some? && Exec(c, es[..n + 1]).Some?
    ensures id !in Exec(c, es).value.docs && NoRows(Exec(c, es).value, id)
  {
    var before := es[..n + 1];
    assert before[..n] == es[..n] && before[n] == Delete(id);
    InvAlways(c, es[..n]);
    assert DocOk(c, Exec(c, es[..n]).value, id);
    IssuedStays(c, es, n + 1, id);
    AtomicChunkSets(c, es, id);
  }

  lemma IssuedBy(c: Config, es: seq<Event>, id: DocId)
    requires Exec(c, es).Some? && id in Exec(c, es).value.docs
    ensures id in Exec(c, es).value.issued
  {
    InvAlways(c, es);
    assert DocOk(c, Exec(c, es).value, id);
  }

  /** A document issued before the last step and there after it was there before it. */
  lemma ThereBefore(c: Config, es: seq<Event>, id: DocId)
    requires es != [] && Exec(c, es).Some? && id in Exec(c, es).value.docs
    requires id in Exec(c, es[..|es| - 1]).value.issued
    ensures id in Exec(c, es[..|es| - 1]).value.docs
  {
    ReturnsNever(c, Exec(c, es[..|es| - 1]).value, es[|es| - 1], id);
  }

  /** A document there early and there at the end is there before the last step. */
  lemma StillThere(c: Config, es: seq<Event>, n: nat, id: DocId)
    requires n < |es| && Exec(c, es[..n]).Some? && id in Exec(c, es[..n]).value.docs
    requires Exec(c, es).Some? && id in Exec(c, es).value.docs
    ensures id in Exec(c, es[..|es| - 1]).value.docs
  {
    IssuedBy(c, es[..n], id);
    PrefixOfPrefix(es, |es| - 1, n);
    IssuedStays(c, es[..|es| - 1], n, id);
    ThereBefore(c, es, id);
  }

  lemma ClimbOnce(c: Config, es: seq<Event>, from: Status, id: DocId)
    requires es != [] && CleanRun(c, es) && Exec(c, es).Some? && id in Exec(c, es).value.docs
    requires id in Exec(c, es[..|es| - 1]).value.docs
    requires Climbs(from, Exec(c, es[..|es| - 1]).value.docs[id].status)
    ensures Climbs(from, Exec(c, es).value.docs[id].status)
  {
    var m := |es| - 1;
    CleanRunsChain(c, es[..m]);
    CleanStepClimbs(c, Exec(c, es[..m]).value, es[m], id);
  }

  /** In a run with exactly-once delivery a document's status only climbs, and its terminal
      status is final. */
  lemma {:induction false} TerminalIsFinal(c: Config, es: seq<Event>, n: nat, id: DocId)
    requires CleanRun(c, es) && n <= |es|
    requires Exec(c, es[..n]).Some? && id in Exec(c, es[..n]).value.docs
    requires Exec(c, es).Some? && id in Exec(c, es).value.docs
    ensures Climbs(Exec(c, es[..n]).value.docs[id].status, Exec(c, es).value.docs[id].status)
    decreases |es|
  {
    if n == |es| {
      assert es[..n] == es;
    } else {
      PrefixOfPrefix(es, |es| - 1, n);
      StillThere(c, es, n, id);
      TerminalIsFinal(c, es[..|es| - 1], n, id);
      ClimbOnce(c, es, Exec(c, es[..n]).value.docs[id].status, id);
    }
  }

  // ----- and in any run: exactly when it is true -----

  ghost predicate ChangesIn(c: Config, es: seq<Event>, more: seq<Event>, id: DocId)
    requires Exec(c, es).Some? && id in Exec(c, es).value.docs
  {
    && Exec(c, es + more).Some? && id in Exec(c, es + more).value.docs
    && Exec(c, es + more).value.docs[id].status != Exec(c, es).value.docs[id].status
  }

  /** Some continuation of the run, whatever happens in it, changes this document's status. */
  ghost predicate CanStillChange(c: Config, es: seq<Event>, id: DocId)
    requires Exec(c, es).Some? && id in Exec(c, es).value.docs
  {
    exists more :: ChangesIn(c, es, more, id)
  }

  ghost predicate Threatens(task: Task, status: Status, id: DocId) {
    DocOf(task) == Some(id) && !(task.Uploading? && task.up.Unqueued? && status == Failed)
  }

  /** A live message, delivery or upload of the document; an upload about to mark a failed row failed is harmless. */
  ghost predicate Unsettled(w: World, id: DocId)
    requires id in w.docs
  {
    exists t :: t in w.tasks && Threatens(w.tasks[t], w.docs[id].status, id)
  }

  /** A step of other tasks brings no new threat. */
  lemma NoNewThreat(c: Config, w: World, e: Event, id: DocId, t: TaskId)
    requires Enabled(c, w, e) && id in w.issued && t in Apply(c, w, e).tasks
    ensures DocOf(Apply(c, w, e).tasks[t]) == Some(id) ==>
      (t in w.tasks && w.tasks[t] == Apply(c, w, e).tasks[t]) || (!e.Delete? && e.t in w.tasks && DocOf(w.tasks[e.t]) == Some(id))
  {
  }

  /** An upload about to mark a failed row leaves it failed. */
  lemma FailedStays(c: Config, w: World, e: Event, id: DocId)
    requires Enabled(c, w, e) && !e.Delete? && e.t in w.tasks && id in w.docs && id in Apply(c, w, e).docs
    requires w.tasks[e.t].Uploading? && w.tasks[e.t].up.Unqueued? && w.docs[id].status == Failed
    ensures Apply(c, w, e).docs[id].status == Failed
  {
  }

  lemma SettledStatus(c: Config, w: World, e: Event, id: DocId)
    requires Inv(c, w) && Enabled(c, w, e) && id in w.docs && id in Apply(c, w, e).docs
    requires !Unsettled(w, id)
    ensures Apply(c, w, e).docs[id].status == w.docs[id].status
  {
    assert DocOk(c, w, id);
    StatusMover(c, w, e, id);
    if !e.Delete? && e.t in w.tasks && DocOf(w.tasks[e.t]) == Some(id) {
      assert !Threatens(w.tasks[e.t], w.docs[id].status, id);
      FailedStays(c, w, e, id);
    }
  }

  /** An upload about to mark its row can only go away. */
  lemma UnqueuedGoes(c: Config, w: World, e: Event, t: TaskId)
    requires Enabled(c, w, e) && !e.Delete? && e.t in w.tasks && t in Apply(c, w, e).tasks
    requires w.tasks[e.t].Uploading? && w.tasks[e.t].up.Unqueued?
    ensures t in w.tasks && Apply(c, w, e).tasks[t] == w.tasks[t]
  {
  }

  lemma SettledTask(c: Config, w: World, e: Event, id: DocId, t: TaskId)
    requires Inv(c, w) && Enabled(c, w, e) && id in w.docs
    requires !Unsettled(w, id) && t in Apply(c, w, e).tasks
    ensures !Threatens(Apply(c, w, e).tasks[t], w.docs[id].status, id)
  {
    assert DocOk(c, w, id);
    assert t in w.tasks ==> !Threatens(w.tasks[t], w.docs[id].status, id);
    if !e.Delete? && e.t in w.tasks && DocOf(w.tasks[e.t]) == Some(id) {
      assert !Threatens(w.tasks[e.t], w.docs[id].status, id);
      UnqueuedGoes(c, w, e, t);
    } else {
      NoNewThreat(c, w, e, id, t);
    }
  }

  lemma SettledStep(c: Config, w: World, e: Event, id: DocId)
    requires Inv(c, w) && Enabled(c, w, e)
    requires id in w.docs && w.docs[id].status.Terminal() && !Unsettled(w, id)
    ensures id in Apply(c, w, e).docs ==>
      Apply(c, w, e).docs[id].status == w.docs[id].status && !Unsettled(Apply(c, w, e), id)
  {
    assert DocOk(c, w, id);
    if id in Apply(c, w, e).docs {
      SettledStatus(c, w, e, id);
      forall t | t in Apply(c, w, e).tasks
        ensures !Threatens(Apply(c, w, e).tasks[t], w.docs[id].status, id)
      {
        SettledTask(c, w, e, id, t);
      }
    }
  }

  lemma SettleOnce(c: Config, es: seq<Event>, status: Status, id: DocId)
    requires es != [] && Exec(c, es).Some? && id in Exec(c, es).value.docs && status.Terminal()
    requires id in Exec(c, es[..|es| - 1]).value.docs
    requires Exec(c, es[..|es| - 1]).value.docs[id].status == status && !Unsettled(Exec(c, es[..|es| - 1]).value, id)
    ensures Exec(c, es).value.docs[id].status == status && !Unsettled(Exec(c, es).value, id)
  {
    InvAlways(c, es[..|es| - 1]);
    SettledStep(c, Exec(c, es[..|es| - 1]).value, es[|es| - 1], id);
  }

  lemma {:induction false} SettledStays(c: Config, es: seq<Event>, n: nat, id: DocId)
    requires n <= |es| && Exec(c, es[..n]).Some? && id in Exec(c, es[..n]).value.docs
    requires Exec(c, es[..n]).value.docs[id].status.Terminal() && !Unsettled(Exec(c, es[..n]).value, id)
    requires Exec(c, es).Some? && id in Exec(c, es).value.docs
    ensures Exec(c, es).value.docs[id].status == Exec(c, es[..n]).value.docs[id].status
    ensures !Unsettled(Exec(c, es).value, id)
    decreases |es|
  {
    if n == |es| {
      assert es[..n] == es;
    } else {
      PrefixOfPrefix(es, |es| - 1, n);
      StillThere(c, es, n, id);
      SettledStays(c, es[..|es| - 1], n, id);
      SettleOnce(c, es, Exec(c, es[..n]).value.docs[id].status, id);
    }
  }

  lemma Prepend(c: Config, es: seq<Event>, e: Event, rest: seq<Event>, id: DocId)
    requires Exec(c, es).Some? && id in Exec(c, es).value.docs
    requires Exec(c, es + [e]).Some? && id in Exec(c, es + [e]).value.docs
    requires Exec(c, es + [e]).value.docs[id].status == Exec(c, es).value.docs[id].status
    requires ChangesIn(c, es + [e], rest, id)
    ensures ChangesIn(c, es, [e] + rest, id)
  {
    assert es + ([e] + rest) == es + [e] + rest;
  }

  /** A message of a failed document: the next delivery writes PROCESSING. */
  lemma QueuedUnfails(c: Config, es: seq<Event>, id: DocId, t: TaskId) returns (more: seq<Event>)
    requires Exec(c, es).Some? && id in Exec(c, es).value.docs
    requires IsQueued(Exec(c, es).value, t) && Exec(c, es).value.tasks[t].msg.doc == id
    requires Exec(c, es).value.docs[id].status == Failed
    ensures ChangesIn(c, es, more, id)
  {
    InvAlways(c, es);
    var row, m := Exec(c, es).value.docs[id], Exec(c, es).value.tasks[t].msg;
    assert DocOk(c, Exec(c, es).value, id);
    ExecSnoc(c, es, Deliver(t));
    var e1 := es + [Deliver(t)];
    ExecSnoc(c, e1, Load(t));
    var e2 := e1 + [Load(t)];
    assert Exec(c, e2).value.tasks[t] == Running(m, Loaded(row));
    ExecSnoc(c, e2, WriteProcessing(t));
    more := [Deliver(t), Load(t), WriteProcessing(t)];
    assert es + more == e2 + [WriteProcessing(t)];
  }

  /** One delivery of a completed document, a no-op that then meets an error. */
  lemma FailedDelivery(c: Config, es: seq<Event>, id: DocId, t: TaskId, m: Message)
    requires Exec(c, es).Some? && id in Exec(c, es).value.docs && m.doc == id
    requires t in Exec(c, es).value.tasks && Exec(c, es).value.tasks[t] == Queued(m)
    requires Exec(c, es).value.docs[id].status == Completed
    ensures var after := Exec(c, es + [Deliver(t), Load(t), Fail(t)]);
      after.Some? && after.value.docs == Exec(c, es).value.docs
      && t in after.value.tasks && after.value.tasks[t] == AfterFailure(c, m)
  {
    ExecSnoc(c, es, Deliver(t));
    var e1 := es + [Deliver(t)];
    ExecSnoc(c, e1, Load(t));
    var e2 := e1 + [Load(t)];
    assert Exec(c, e2).value.tasks[t] == Running(m, Leaving);
    ExecSnoc(c, e2, Fail(t));
    assert es + [Deliver(t), Load(t), Fail(t)] == e2 + [Fail(t)];
  }

  lemma MarkChanges(c: Config, es: seq<Event>, id: DocId, t: TaskId, m: Message)
    requires Exec(c, es).Some? && id in Exec(c, es).value.docs && m.doc == id
    requires t in Exec(c, es).value.tasks && Exec(c, es).value.tasks[t] == Running(m, MarkRead(Exhausted))
    requires Exec(c, es).value.docs[id].status == Completed
    ensures ChangesIn(c, es, [ReadForMark(t), WriteMark(t)], id)
  {
    ExecSnoc(c, es, ReadForMark(t));
    var e1 := es + [ReadForMark(t)];
    assert Exec(c, e1).value.tasks[t] == Running(m, MarkWrite(Exhausted, false));
    ExecSnoc(c, e1, WriteMark(t));
    assert es + [ReadForMark(t), WriteMark(t)] == e1 + [WriteMark(t)];
  }

  /** A message of a completed document: errors after every no-op delivery exhaust its retries. */
  lemma {:induction false} QueuedUncompletes(c: Config, es: seq<Event>, id: DocId, t: TaskId) returns (more: seq<Event>)
    requires Exec(c, es).Some? && id in Exec(c, es).value.docs
    requires IsQueued(Exec(c, es).value, t) && Exec(c, es).value.tasks[t].msg.doc == id
    requires Exec(c, es).value.docs[id].status == Completed
    ensures ChangesIn(c, es, more, id)
    decreases c.maxRetries - Exec(c, es).value.tasks[t].msg.retries
  {
    var m := Exec(c, es).value.tasks[t].msg;
    var attempt := [Deliver(t), Load(t), Fail(t)];
    FailedDelivery(c, es, id, t, m);
    var rest := [ReadForMark(t), WriteMark(t)];
    if m.retries < c.maxRetries {
      rest := QueuedUncompletes(c, es + attempt, id, t);
    } else {
      MarkChanges(c, es + attempt, id, t, m);
    }
    more := attempt + rest;
    assert es + more == es + attempt + rest;
  }

  lemma QueuedChanges(c: Config, es: seq<Event>, id: DocId, t: TaskId) returns (more: seq<Event>)
    requires Exec(c, es).Some? && id in Exec(c, es).value.docs
    requires IsQueued(Exec(c, es).value, t) && Exec(c, es).value.tasks[t].msg.doc == id
    requires Exec(c, es).value.docs[id].status.Terminal()
    ensures ChangesIn(c, es, more, id)
  {
    if Exec(c, es).value.docs[id].status == Failed {
      more := QueuedUnfails(c, es, id, t);
    } else {
      more := QueuedUncompletes(c, es, id, t);
    }
  }

  lemma ThreatChanges(c: Config, es: seq<Event>, id: DocId, t: TaskId) returns (more: seq<Event>)
    requires Exec(c, es).Some? && id in Exec(c, es).value.docs
    requires Exec(c, es).value.docs[id].status.Terminal()
    requires t in Exec(c, es).value.tasks
    requires Threatens(Exec(c, es).value.tasks[t], Exec(c, es).value.docs[id].status, id)
    ensures ChangesIn(c, es, more, id)
  {
    match Exec(c, es).value.tasks[t]
    case Queued(_) =>
      more := QueuedChanges(c, es, id, t);
    case Running(_, _) =>
      ExecSnoc(c, es, Crash(t));
      var rest := QueuedChanges(c, es + [Crash(t)], id, t);
      Prepend(c, es, Crash(t), rest, id);
      more := [Crash(t)] + rest;
    case Uploading(up) =>
      if up.Registered? {
        ExecSnoc(c, es, Enqueue(t));
        var rest := QueuedChanges(c, es + [Enqueue(t)], id, t);
        Prepend(c, es, Enqueue(t), rest, id);
        more := [Enqueue(t)] + rest;
      } else {
        ExecSnoc(c, es, EnqueueMark(t));
        more := [EnqueueMark(t)];
      }
  }

  /** A terminal status is final exactly when no message, delivery or upload of the document is left. */
  lemma TerminalFinalIff(c: Config, es: seq<Event>, id: DocId)
    requires Exec(c, es).Some? && id in Exec(c, es).value.docs
    requires Exec(c, es).value.docs[id].status.Terminal()
    ensures CanStillChange(c, es, id) <==> Unsettled(Exec(c, es).value, id)
  {
    var w := Exec(c, es).value;
    if Unsettled(w, id) {
      var t :| t in w.tasks && Threatens(w.tasks[t], w.docs[id].status, id);
      var more := ThreatChanges(c, es, id, t);
    } else if CanStillChange(c, es, id) {
      var more :| ChangesIn(c, es, more, id);
      assert (es + more)[..|es|] == es;
      SettledStays(c, es + more, |es|, id);
    }
  }
}
