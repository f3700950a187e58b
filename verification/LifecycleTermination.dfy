/** Runs settle: every step but an upload, a crash or a duplicate delivery uses up a budget
    that only those three refill. */
module LifecycleTermination {
  import opened Prelude
  import opened MapSum
  import opened Lifecycle
  import opened LifecycleSafety

  /** The steps that come from outside: new uploads, worker deaths, broker redeliveries, deletes. */
  predicate FromOutside(e: Event) {
    e.Admit? || e.Crash? || e.Duplicate? || e.Delete?
  }

  function Refills(e: Event): nat { if e.Admit? || e.Crash? || e.Duplicate? then 1 else 0 }
  function Works(e: Event): nat { if FromOutside(e) then 0 else 1 }

  /** Work steps and refills of a run. */
  function WorkOf(es: seq<Event>): nat { if es == [] then 0 else WorkOf(es[..|es| - 1]) + Works(es[|es| - 1]) }
  function RefillsOf(es: seq<Event>): nat { if es == [] then 0 else RefillsOf(es[..|es| - 1]) + Refills(es[|es| - 1]) }

  /** Most work one refill can buy: `maxRetries + 1` attempts of seven steps, and six more. */
  function Budget(c: Config): nat { 7 * c.maxRetries + 13 }

  function RetriesLeft(c: Config, m: Message): nat { if m.retries <= c.maxRetries then c.maxRetries - m.retries else 0 }

  function StepsLeft(pc: Pc): nat {
    match pc
    case Start => 6
    case Loaded(_) => 5
    case Working(_) => 4
    case Erased(_, _) => 3
    case MarkRead(_) => 3
    case MarkWrite(_, _) => 2
    case Leaving => 1
    case Acking => 1
  }

  predicate GivenUp(pc: Pc) { pc.Acking? || ((pc.MarkRead? || pc.MarkWrite?) && pc.why == Exhausted) }

  /** The work a task can still cause without refills. */
  function Weight(c: Config, task: Task): nat {
    match task
    case Uploading(up) => if up.Admitted? then Budget(c) else if up.Registered? then Budget(c) - 1 else 1
    case Queued(m) => 7 * RetriesLeft(c, m) + 10
    case Running(m, pc) => if GivenUp(pc) then StepsLeft(pc) else 7 * RetriesLeft(c, m) + 3 + StepsLeft(pc)
  }

  ghost function Energy(c: Config, w: World): nat {
    SumOver(w.tasks, (task: Task) => Weight(c, task))
  }

  lemma EnergySet(c: Config, w: World, t: TaskId, task: Task)
    ensures SumOver(w.tasks[t := task], (x: Task) => Weight(c, x))
         == Energy(c, w) + Weight(c, task) - (if t in w.tasks then Weight(c, w.tasks[t]) else 0)
  {
    var f := (x: Task) => Weight(c, x);
    SumSet(w.tasks, t, task, f);
    if t in w.tasks { SumRemove(w.tasks, t, f); } else { SumWithout(w.tasks, t, f); }
  }

  lemma EnergyEnd(c: Config, w: World, t: TaskId)
    requires t in w.tasks
    ensures SumOver(w.tasks - {t}, (x: Task) => Weight(c, x)) == Energy(c, w) - Weight(c, w.tasks[t])
  {
    SumRemove(w.tasks, t, (x: Task) => Weight(c, x));
  }

  /** What a step adds is what it leaves under the id it acts on. */
  lemma EnergyMoves(c: Config, w: World, e: Event)
    requires Enabled(c, w, e) && !e.Delete?
    requires !e.Duplicate? && !(e.EnqueueFails? && e.delivered.Some?)
    ensures var w' := Apply(c, w, e);
      Energy(c, w') == Energy(c, w) - (if e.t in w.tasks then Weight(c, w.tasks[e.t]) else 0)
                                    + (if e.t in w'.tasks then Weight(c, w'.tasks[e.t]) else 0)
  {
    var w' := Apply(c, w, e);
    if e.t in w'.tasks {
      assert w'.tasks == w.tasks[e.t := w'.tasks[e.t]];
      EnergySet(c, w, e.t, w'.tasks[e.t]);
    } else {
      assert w'.tasks == w.tasks - {e.t};
      EnergyEnd(c, w, e.t);
    }
  }

  /** A work step lowers its task's weight. */
  lemma WorkWeighs(c: Config, w: World, e: Event)
    requires Enabled(c, w, e) && !FromOutside(e) && !(e.EnqueueFails? && e.delivered.Some?)
    requires e.t in w.tasks && TaskOk(c, w, w.tasks[e.t])
    ensures var w' := Apply(c, w, e);
      (if e.t in w'.tasks then Weight(c, w'.tasks[e.t]) else 0) < Weight(c, w.tasks[e.t])
  {
  }

  lemma DuplicatePays(c: Config, w: World, t: TaskId, copy: TaskId)
    requires Enabled(c, w, Duplicate(t, copy))
    ensures Energy(c, Apply(c, w, Duplicate(t, copy))) <= Energy(c, w) + Budget(c)
  {
    EnergySet(c, w, copy, Queued(w.tasks[t].msg));
  }

  lemma AmbiguousEnqueuePays(c: Config, w: World, t: TaskId, copy: TaskId)
    requires Enabled(c, w, EnqueueFails(t, Some(copy)))
    ensures Energy(c, Apply(c, w, EnqueueFails(t, Some(copy)))) < Energy(c, w)
  {
    var id := w.tasks[t].up.doc;
    var mid := SetTask(w, t, Uploading(Unqueued(id)));
    EnergySet(c, w, t, Uploading(Unqueued(id)));
    EnergySet(c, mid, copy, Queued(Message(id, 0, 0)));
  }

  lemma RefillPays(c: Config, w: World, e: Event)
    requires Enabled(c, w, e) && (e.Admit? || e.Crash?)
    ensures Energy(c, Apply(c, w, e)) <= Energy(c, w) + Budget(c)
  {
    EnergyMoves(c, w, e);
  }

  lemma WorkPays(c: Config, w: World, e: Event)
    requires Inv(c, w) && Enabled(c, w, e) && !FromOutside(e)
    ensures Energy(c, Apply(c, w, e)) < Energy(c, w)
  {
    if e.EnqueueFails? && e.delivered.Some? {
      AmbiguousEnqueuePays(c, w, e.t, e.delivered.value);
    } else {
      EnergyMoves(c, w, e);
      WorkWeighs(c, w, e);
    }
  }

  lemma StepPays(c: Config, w: World, e: Event)
    requires Inv(c, w) && Enabled(c, w, e)
    ensures Works(e) + Energy(c, Apply(c, w, e)) <= Energy(c, w) + if Refills(e) == 1 then Budget(c) else 0
  {
    if e.Duplicate? {
      DuplicatePays(c, w, e.t, e.copy);
    } else if e.Admit? || e.Crash? {
      RefillPays(c, w, e);
    } else if !e.Delete? {
      WorkPays(c, w, e);
    }
  }

  lemma BudgetAdds(b: nat, n: nat, k: nat)
    ensures b * (n + k) == b * n + b * k
  {
  }

  lemma {:induction false} RunPays(c: Config, es: seq<Event>)
    requires Exec(c, es).Some?
    ensures WorkOf(es) + Energy(c, Exec(c, es).value) <= Budget(c) * RefillsOf(es)
  {
    if es == [] {
      assert Energy(c, EMPTY) == 0;
    } else {
      var n := |es| - 1;
      RunPays(c, es[..n]);
      InvAlways(c, es[..n]);
      StepPays(c, Exec(c, es[..n]).value, es[n]);
      BudgetAdds(Budget(c), RefillsOf(es[..n]), Refills(es[n]));
    }
  }

  /** A run with `n` admissions, crashes and duplicate deliveries takes at most
      `(7 * maxRetries + 13) * n` further steps, deletes aside: no retry loop is endless. */
  lemma RunsAreBounded(c: Config, es: seq<Event>)
    requires Exec(c, es).Some?
    ensures WorkOf(es) <= (7 * c.maxRetries + 13) * RefillsOf(es)
  {
    RunPays(c, es);
  }

  /** Any task has a work step of its own that loses nothing. */
  lemma TasksCanMove(c: Config, w: World, t: TaskId)
    requires t in w.tasks
    ensures exists e :: Enabled(c, w, e) && !FromOutside(e) && !e.Drop? && !e.Delete? && e.t == t
  {
    match w.tasks[t]
    case Uploading(up) =>
      if up.Admitted? { assert Enabled(c, w, AbortUpload(t)); }
      else if up.Registered? { assert Enabled(c, w, Enqueue(t)); }
      else { assert Enabled(c, w, EnqueueMark(t)); }
    case Queued(m) => assert Enabled(c, w, Deliver(t));
    case Running(m, pc) =>
      match pc {
        case Start => assert Enabled(c, w, Load(t));
        case Loaded(_) => assert Enabled(c, w, Fail(t));
        case Working(_) => assert Enabled(c, w, Fail(t));
        case Erased(_, _) => assert Enabled(c, w, Fail(t));
        case MarkRead(_) => assert Enabled(c, w, ReadForMark(t));
        case MarkWrite(_, _) => assert Enabled(c, w, WriteMark(t));
        case Leaving => assert Enabled(c, w, Ack(t));
        case Acking => assert Enabled(c, w, Ack(t));
      }
  }

  /** A run that cannot go on by itself, and lost nothing, has settled every document. */
  lemma RestMeansTerminal(c: Config, es: seq<Event>, id: DocId)
    requires Reliable(es) && Exec(c, es).Some?
    requires forall e :: Enabled(c, Exec(c, es).value, e) ==> FromOutside(e) || e.Drop?
    requires id in Exec(c, es).value.docs
    ensures Exec(c, es).value.docs[id].status.Terminal()
  {
    var w := Exec(c, es).value;
    if w.tasks != map[] {
      var t :| t in w.tasks;
      TasksCanMove(c, w, t);
    }
    IdleMeansTerminal(c, es, id);
  }

  /** An exhausted delivery failed `maxRetries + 1` times, and its backoffs add up to
      `base * (2^maxRetries - 1)`. */
  lemma ExhaustionAfterAllRetries(c: Config, es: seq<Event>, t: TaskId)
    requires Exec(c, es).Some? && IsRunning(Exec(c, es).value, t)
    requires GivenUp(Exec(c, es).value.tasks[t].pc) && !Exec(c, es).value.tasks[t].pc.Acking?
    ensures var m := Exec(c, es).value.tasks[t].msg;
      m.retries == c.maxRetries && m.waited == c.backoff * (Pow2(c.maxRetries) - 1)
  {
    InvAlways(c, es);
    assert TaskOk(c, Exec(c, es).value, Exec(c, es).value.tasks[t]);
  }
}
