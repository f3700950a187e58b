/** The per-tenant storage quota: a SUM, then an INSERT, with other uploads in between. */
module LifecycleQuota {
  import opened Prelude
  import opened MapSum
  import opened Lifecycle
  import opened LifecycleSafety

  function IsAdmittedFor(task: Task, tenant: nat): nat {
    if task.Uploading? && task.up.Admitted? && task.up.tenant == tenant then 1 else 0
  }

  function PendingFor(task: Task, tenant: nat): nat {
    if IsAdmittedFor(task, tenant) == 1 then |task.up.payload| else 0
  }

  /** Bytes admitted but not yet inserted, and how many such uploads. */
  ghost function PendingBytes(w: World, tenant: nat): nat { SumOver(w.tasks, (x: Task) => PendingFor(x, tenant)) }
  ghost function InFlight(w: World, tenant: nat): nat { SumOver(w.tasks, (x: Task) => IsAdmittedFor(x, tenant)) }

  lemma SetMoves<V>(m: map<nat, V>, k: nat, v: V, f: V -> nat)
    ensures SumOver(m[k := v], f) == SumOver(m, f) + f(v) - (if k in m then f(m[k]) else 0)
  {
    SumSet(m, k, v, f);
    if k in m { SumRemove(m, k, f); } else { SumWithout(m, k, f); }
  }

  /** A step moves what the tasks weigh by what it does to the one it acts on, if the messages
      it may leave elsewhere weigh nothing. */
  lemma TasksMove(c: Config, w: World, e: Event, f: Task -> nat)
    requires Enabled(c, w, e) && !e.Delete?
    requires forall m :: f(Queued(m)) == 0
    ensures var w' := Apply(c, w, e);
      SumOver(w'.tasks, f) == SumOver(w.tasks, f) - (if e.t in w.tasks then f(w.tasks[e.t]) else 0)
                                                  + (if e.t in w'.tasks then f(w'.tasks[e.t]) else 0)
  {
    var w' := Apply(c, w, e);
    if e.EnqueueFails? && e.delivered.Some? {
      var mid := w.tasks[e.t := w'.tasks[e.t]];
      SetMoves(w.tasks, e.t, w'.tasks[e.t], f);
      SetMoves(mid, e.delivered.value, w'.tasks[e.delivered.value], f);
      assert w'.tasks == mid[e.delivered.value := w'.tasks[e.delivered.value]];
    } else if e.Duplicate? {
      SetMoves(w.tasks, e.copy, w'.tasks[e.copy], f);
    } else if e.t in w'.tasks {
      assert w'.tasks == w.tasks[e.t := w'.tasks[e.t]];
      SetMoves(w.tasks, e.t, w'.tasks[e.t], f);
    } else {
      assert w'.tasks == w.tasks - {e.t};
      SumRemove(w.tasks, e.t, f);
    }
  }

  lemma PendingMoves(c: Config, w: World, e: Event, tenant: nat)
    requires Enabled(c, w, e) && !e.Delete?
    ensures var w' := Apply(c, w, e);
      PendingBytes(w', tenant) == PendingBytes(w, tenant)
        - (if e.t in w.tasks then PendingFor(w.tasks[e.t], tenant) else 0)
        + (if e.t in w'.tasks then PendingFor(w'.tasks[e.t], tenant) else 0)
  {
    TasksMove(c, w, e, (x: Task) => PendingFor(x, tenant));
  }

  lemma InFlightMoves(c: Config, w: World, e: Event, tenant: nat)
    requires Enabled(c, w, e) && !e.Delete?
    ensures var w' := Apply(c, w, e);
      InFlight(w', tenant) == InFlight(w, tenant)
        - (if e.t in w.tasks then IsAdmittedFor(w.tasks[e.t], tenant) else 0)
        + (if e.t in w'.tasks then IsAdmittedFor(w'.tasks[e.t], tenant) else 0)
  {
    TasksMove(c, w, e, (x: Task) => IsAdmittedFor(x, tenant));
  }

  lemma KeyKept(c: Config, w: World, e: Event, id: DocId)
    requires Enabled(c, w, e) && !e.Insert? && !e.Delete?
    ensures id in Apply(c, w, e).docs <==> id in w.docs
  {
  }

  lemma KeysKept(c: Config, w: World, e: Event)
    requires Enabled(c, w, e) && !e.Insert? && !e.Delete?
    ensures Apply(c, w, e).docs.Keys == w.docs.Keys
  {
    forall id: DocId
      ensures id in Apply(c, w, e).docs <==> id in w.docs
    {
      KeyKept(c, w, e, id);
    }
  }

  lemma RowsKeepSize(c: Config, w: World, e: Event, tenant: nat)
    requires Inv(c, w) && Enabled(c, w, e) && !e.Insert? && !e.Delete?
    ensures Apply(c, w, e).docs.Keys == w.docs.Keys
    ensures forall id :: id in w.docs ==> SizeFor(Apply(c, w, e).docs[id], tenant) == SizeFor(w.docs[id], tenant)
  {
    KeysKept(c, w, e);
    forall id | id in w.docs
      ensures SizeFor(Apply(c, w, e).docs[id], tenant) == SizeFor(w.docs[id], tenant)
    {
      assert DocOk(c, w, id);
      BirthKept(c, w, e, id);
    }
  }

  lemma UsedInsert(c: Config, w: World, e: Event, tenant: nat)
    requires Inv(c, w) && Enabled(c, w, e) && e.Insert?
    ensures UsedBytes(Apply(c, w, e).docs, tenant) == UsedBytes(w.docs, tenant) + PendingFor(w.tasks[e.t], tenant)
  {
    assert forall id :: id in w.docs ==> DocOk(c, w, id);
    SetMoves(w.docs, e.id, Apply(c, w, e).docs[e.id], (d: Doc) => SizeFor(d, tenant));
  }

  /** No step changes the size or the owner of a row; only Insert adds rows. */
  lemma UsedMoves(c: Config, w: World, e: Event, tenant: nat)
    requires Enabled(c, w, e) && Inv(c, w)
    ensures e.Insert? ==> UsedBytes(Apply(c, w, e).docs, tenant) == UsedBytes(w.docs, tenant) + PendingFor(w.tasks[e.t], tenant)
    ensures !e.Insert? ==> UsedBytes(Apply(c, w, e).docs, tenant) <= UsedBytes(w.docs, tenant)
  {
    if e.Insert? {
      UsedInsert(c, w, e, tenant);
    } else if e.Delete? {
      SumRemove(w.docs, e.id, (d: Doc) => SizeFor(d, tenant));
    } else {
      RowsKeepSize(c, w, e, tenant);
      SumSame(w.docs, Apply(c, w, e).docs, (d: Doc) => SizeFor(d, tenant));
    }
  }

  /** In every world of the run, the worlds before included, at most `k` of the tenant's
      uploads are between the SUM and the INSERT. */
  ghost predicate AtMostInFlight(c: Config, es: seq<Event>, tenant: nat, k: nat) {
    (Exec(c, es).Some? ==> InFlight(Exec(c, es).value, tenant) <= k)
    && (es != [] ==> AtMostInFlight(c, es[..|es| - 1], tenant, k))
  }

  lemma PendingBounded(c: Config, w: World, tenant: nat)
    requires Inv(c, w)
    ensures PendingBytes(w, tenant) <= InFlight(w, tenant) * Cap(c)
  {
    forall t | t in w.tasks
      ensures PendingFor(w.tasks[t], tenant) <= IsAdmittedFor(w.tasks[t], tenant) * Cap(c)
    {
      assert TaskOk(c, w, w.tasks[t]);
    }
    SumBounded(w.tasks, (x: Task) => PendingFor(x, tenant), (x: Task) => IsAdmittedFor(x, tenant), Cap(c));
  }

  lemma Scale(n: nat, k: nat, b: nat)
    requires n <= k
    ensures n * b <= k * b
  {
  }

  lemma QuotaStep(c: Config, w: World, e: Event, tenant: nat, k: nat)
    requires Inv(c, w) && Enabled(c, w, e) && c.quota > 0 && k >= 1
    requires UsedBytes(w.docs, tenant) + PendingBytes(w, tenant) <= c.quota + (k - 1) * Cap(c)
    requires InFlight(Apply(c, w, e), tenant) <= k
    ensures UsedBytes(Apply(c, w, e).docs, tenant) + PendingBytes(Apply(c, w, e), tenant) <= c.quota + (k - 1) * Cap(c)
  {
    UsedMoves(c, w, e, tenant);
    if !e.Delete? { PendingMoves(c, w, e, tenant); }
    if e.Admit? && e.tenant == tenant {
      InFlightMoves(c, w, e, tenant);
      PendingBounded(c, w, tenant);
      Scale(InFlight(w, tenant), k - 1, Cap(c));
    }
  }

  /** Stored plus admitted bytes of a tenant never exceed the quota by more than one maximal
      upload for each further upload that may be in flight at the same time. */
  lemma {:induction false} QuotaBound(c: Config, es: seq<Event>, tenant: nat, k: nat)
    requires c.quota > 0 && k >= 1 && Exec(c, es).Some?
    requires AtMostInFlight(c, es, tenant, k)
    ensures var w := Exec(c, es).value;
      UsedBytes(w.docs, tenant) + PendingBytes(w, tenant) <= c.quota + (k - 1) * Cap(c)
  {
    if es == [] {
      assert UsedBytes(EMPTY.docs, tenant) == 0 && PendingBytes(EMPTY, tenant) == 0;
      Scale(0, k - 1, Cap(c));
    } else {
      var n := |es| - 1;
      QuotaBound(c, es[..n], tenant, k);
      InvAlways(c, es[..n]);
      QuotaStep(c, Exec(c, es[..n]).value, es[n], tenant, k);
    }
  }

  /** One upload at a time: the quota is never exceeded. */
  lemma SequentialQuota(c: Config, es: seq<Event>, tenant: nat)
    requires c.quota > 0 && Exec(c, es).Some? && AtMostInFlight(c, es, tenant, 1)
    ensures UsedBytes(Exec(c, es).value.docs, tenant) <= c.quota
  {
    QuotaBound(c, es, tenant, 1);
  }
}
