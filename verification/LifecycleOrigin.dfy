/** Where the rows come from: every document, however often it was retried, redelivered or marked,
    is the file of an upload that was admitted under its tenant. */
module LifecycleOrigin {
  import opened Prelude
  import opened Lifecycle
  import opened LifecycleSafety

  /** Step `i` admitted the file that upload `t` holds. */
  ghost predicate AdmittedAt(es: seq<Event>, i: nat, t: TaskId, up: Upload)
    requires up.Admitted?
  {
    i < |es| && es[i] == Admit(t, up.tenant, up.kind, up.payload)
  }

  lemma StillAdmitted(c: Config, w: World, e: Event, t: TaskId)
    requires Enabled(c, w, e) && IsUpload(Apply(c, w, e), t) && Apply(c, w, e).tasks[t].up.Admitted?
    requires !(e.Admit? && e.t == t)
    ensures IsUpload(w, t) && w.tasks[t] == Apply(c, w, e).tasks[t]
  {
    if e.Delete? || t != e.t { if !e.Delete? { StepWrites(c, w, e, t); } }
  }

  lemma {:induction false} UploadsWereAdmitted(c: Config, es: seq<Event>, t: TaskId)
    requires Exec(c, es).Some? && IsUpload(Exec(c, es).value, t) && Exec(c, es).value.tasks[t].up.Admitted?
    ensures exists i: nat :: i < |es| && AdmittedAt(es, i, t, Exec(c, es).value.tasks[t].up)
  {
    var n := |es| - 1;
    var w, up := Exec(c, es[..n]).value, Exec(c, es).value.tasks[t].up;
    if es[n] == Admit(t, up.tenant, up.kind, up.payload) {
      assert AdmittedAt(es, n, t, up);
    } else {
      StillAdmitted(c, w, es[n], t);
      UploadsWereAdmitted(c, es[..n], t);
      var i :| 0 <= i < n && AdmittedAt(es[..n], i, t, up);
      assert AdmittedAt(es, i, t, up);
    }
  }

  /** Step `i` admitted a file, and step `j` inserted it as document `id`, with the row's content. */
  ghost predicate BornAt(c: Config, es: seq<Event>, i: nat, j: nat, id: DocId, d: Doc) {
    && i < j < |es| && es[i].Admit? && es[j] == Insert(es[i].t, id)
    && d.tenant == es[i].tenant && d.kind == es[i].kind
    && d.payload == Some(es[i].payload) && d.size == |es[i].payload| && d.digest == c.hash(es[i].payload)
  }

  /** The step that made a row, given its upload was admitted. */
  lemma InsertedRow(c: Config, es: seq<Event>, id: DocId)
    requires es != [] && Exec(c, es).Some? && id in Exec(c, es).value.docs
    requires id !in Exec(c, es[..|es| - 1]).value.docs
    ensures exists i: nat, j: nat :: BornAt(c, es, i, j, id, Exec(c, es).value.docs[id])
    ensures var d := Exec(c, es).value.docs[id];
      d.status == Pending && d.chunkCount == None && d.error == None
  {
    var n := |es| - 1;
    InvAlways(c, es[..n]);
    var w := Exec(c, es[..n]).value;
    OldOrInserted(c, w, es[n], id);
    UploadsWereAdmitted(c, es[..n], es[n].t);
    var i :| 0 <= i < n && AdmittedAt(es[..n], i, es[n].t, w.tasks[es[n].t].up);
    assert BornAt(c, es, i, n, id, Exec(c, es).value.docs[id]);
  }

  /** In every reachable world a document has the tenant, type and content of a file that was
      admitted under this tenant before the step that inserted it. */
  lemma {:induction false} BornOf(c: Config, es: seq<Event>, id: DocId)
    requires Exec(c, es).Some? && id in Exec(c, es).value.docs
    ensures exists i: nat, j: nat :: BornAt(c, es, i, j, id, Exec(c, es).value.docs[id])
  {
    var n := |es| - 1;
    var w := Exec(c, es[..n]).value;
    if id !in w.docs {
      InsertedRow(c, es, id);
    } else {
      BornOf(c, es[..n], id);
      InvAlways(c, es[..n]);
      assert DocOk(c, w, id);
      BirthKept(c, w, es[n], id);
      var i: nat, j: nat :| BornAt(c, es[..n], i, j, id, w.docs[id]);
      assert es[..n][i] == es[i] && es[..n][j] == es[j];
      assert BornAt(c, es, i, j, id, Exec(c, es).value.docs[id]);
    }
  }
}
