/** How much a tenant can store, exactly: which amounts some run with at most `k` overlapping
    uploads reaches. A tenant cannot store one content hash twice, so it depends on the files
    there are. */
module LifecycleQuotaExact {
  import opened Prelude
  import opened MapSum
  import opened Lifecycle
  import opened LifecycleSafety
  import opened LifecycleQuota

  // ----- lists of files -----

  function Size(fs: seq<string>): nat {
    if fs == [] then 0 else |fs[0]| + Size(fs[1..])
  }

  lemma {:induction false} SizeAppend(a: seq<string>, b: seq<string>)
    ensures Size(a + b) == Size(a) + Size(b)
  {
    if a == [] {
      assert a + b == b;
    } else {
      assert (a + b)[1..] == a[1..] + b;
      SizeAppend(a[1..], b);
    }
  }

  lemma SizeFrom(fs: seq<string>, n: nat)
    requires n < |fs|
    ensures Size(fs[n..]) == |fs[n]| + Size(fs[n + 1..])
  {
    assert fs[n..][1..] == fs[n + 1..];
  }

  /** Files with pairwise different hashes, each small enough to be admitted. */
  ghost predicate Storable(c: Config, fs: seq<string>) {
    && (forall i, j :: 0 <= i < j < |fs| ==> c.hash(fs[i]) != c.hash(fs[j]))
    && (forall i :: 0 <= i < |fs| ==> |fs[i]| <= Cap(c))
  }

  /** All but the first `b` of the files fit the quota together. */
  ghost predicate FitsBut(c: Config, fs: seq<string>, b: nat) {
    b <= |fs| && Storable(c, fs) && Size(fs[b..]) <= c.quota
  }

  // ----- the rows of a run are such a list -----

  ghost predicate SoundRow(c: Config, d: Doc) {
    d.payload.Some? && d.size == |d.payload.value| <= Cap(c) && d.digest == c.hash(d.payload.value)
  }

  /** The rows are what the lifecycle keeps them: sized and hashed by their payloads, no two alike. */
  ghost predicate Sound(c: Config, docs: map<DocId, Doc>) {
    && (forall id :: id in docs ==> SoundRow(c, docs[id]))
    && (forall a, b :: a in docs && b in docs && a != b && docs[a].tenant == docs[b].tenant ==> docs[a].digest != docs[b].digest)
  }

  lemma ReachedRowsSound(c: Config, w: World)
    requires Inv(c, w)
    ensures Sound(c, w.docs)
  {
    forall id | id in w.docs
      ensures SoundRow(c, w.docs[id])
    {
      assert DocOk(c, w, id);
    }
  }

  ghost predicate HasFile(docs: map<DocId, Doc>, tenant: nat, f: string) {
    exists id :: id in docs && docs[id].tenant == tenant && docs[id].payload == Some(f)
  }

  /** `fs` are payloads of the tenant's rows, and no more of them than rows. */
  ghost predicate From(c: Config, docs: map<DocId, Doc>, tenant: nat, fs: seq<string>) {
    && Storable(c, fs) && |fs| <= |docs|
    && forall i :: 0 <= i < |fs| ==> HasFile(docs, tenant, fs[i])
  }

  lemma FewerRows(c: Config, docs: map<DocId, Doc>, tenant: nat, id: DocId, fs: seq<string>)
    requires id in docs && From(c, docs - {id}, tenant, fs)
    ensures From(c, docs, tenant, fs)
  {
    forall i | 0 <= i < |fs|
      ensures HasFile(docs, tenant, fs[i])
    {
      assert HasFile(docs - {id}, tenant, fs[i]);
      var j :| j in docs - {id} && (docs - {id})[j].tenant == tenant && (docs - {id})[j].payload == Some(fs[i]);
      assert j in docs;
    }
  }

  lemma OneMoreFile(c: Config, docs: map<DocId, Doc>, tenant: nat, id: DocId, fs: seq<string>) returns (gs: seq<string>)
    requires Sound(c, docs) && id in docs && docs[id].tenant == tenant && From(c, docs - {id}, tenant, fs)
    ensures From(c, docs, tenant, gs) && Size(gs) == docs[id].size + Size(fs)
  {
    var f := docs[id].payload.value;
    gs := [f] + fs;
    assert gs[1..] == fs;
    assert SoundRow(c, docs[id]);
    forall i | 0 <= i < |fs|
      ensures c.hash(fs[i]) != c.hash(f)
    {
      assert HasFile(docs - {id}, tenant, fs[i]);
      var j :| j in docs - {id} && (docs - {id})[j].tenant == tenant && (docs - {id})[j].payload == Some(fs[i]);
      assert SoundRow(c, docs[j]);
    }
    forall i | 0 <= i < |gs|
      ensures HasFile(docs, tenant, gs[i])
    {
      if i > 0 {
        assert HasFile(docs - {id}, tenant, fs[i - 1]);
        var j :| j in docs - {id} && (docs - {id})[j].tenant == tenant && (docs - {id})[j].payload == Some(fs[i - 1]);
        assert j in docs;
      }
    }
  }

  lemma {:induction false} RowsAreFiles(c: Config, docs: map<DocId, Doc>, tenant: nat) returns (fs: seq<string>)
    requires Sound(c, docs)
    ensures From(c, docs, tenant, fs) && Size(fs) == UsedBytes(docs, tenant)
    decreases |docs|
  {
    if docs == map[] {
      fs := [];
    } else {
      var id :| id in docs;
      fs := RowsAreFiles(c, docs - {id}, tenant);
      SumRemove(docs, id, (d: Doc) => SizeFor(d, tenant));
      if docs[id].tenant == tenant {
        fs := OneMoreFile(c, docs, tenant, id, fs);
      } else {
        FewerRows(c, docs, tenant, id, fs);
      }
    }
  }

  /** The rows in `late`. */
  function Only<V>(m: map<nat, V>, late: set<nat>): map<nat, V> { m - (m.Keys - late) }

  /** Disjoint parts of sound rows give lists that can be put together. */
  lemma FilesTogether(c: Config, docs: map<DocId, Doc>, late: set<DocId>, tenant: nat, a: seq<string>, b: seq<string>)
    requires Sound(c, docs)
    requires From(c, Only(docs, late), tenant, a) && From(c, docs - late, tenant, b)
    ensures Storable(c, a + b)
  {
    forall i, j | 0 <= i < |a| && 0 <= j < |b|
      ensures c.hash(a[i]) != c.hash(b[j])
    {
      var first, rest := Only(docs, late), docs - late;
      assert HasFile(first, tenant, a[i]) && HasFile(rest, tenant, b[j]);
      var x :| x in first && first[x].tenant == tenant && first[x].payload == Some(a[i]);
      var y :| y in rest && rest[y].tenant == tenant && rest[y].payload == Some(b[j]);
      assert SoundRow(c, docs[x]) && SoundRow(c, docs[y]);
    }
  }

  lemma OnlyWithout<V>(m: map<nat, V>, late: set<nat>, k: nat)
    requires k in m
    ensures Only(m - {k}, late) == Only(m, late) - {k} && m - {k} - late == m - late - {k}
    ensures if k in late then k in Only(m, late) && Only(m, late)[k] == m[k] && k !in m - late
            else k in m - late && (m - late)[k] == m[k] && k !in Only(m, late)
  {
  }

  lemma {:induction false} SumParts<V>(m: map<nat, V>, late: set<nat>, f: V -> nat)
    ensures SumOver(m, f) == SumOver(Only(m, late), f) + SumOver(m - late, f)
    decreases |m|
  {
    if m != map[] {
      var k :| k in m;
      SumRemove(m, k, f);
      SumParts(m - {k}, late, f);
      OnlyWithout(m, late, k);
      if k in late {
        SumRemove(Only(m, late), k, f);
        SumWithout(m - late, k, f);
      } else {
        SumRemove(m - late, k, f);
        SumWithout(Only(m, late), k, f);
      }
    }
  }

  // ----- what the quota check leaves open -----

  /** The tenant's rows but the late ones fit the quota: they do together with the upload that
      was admitted last, while that one is still to be inserted. The late ones, and the uploads
      still open, were all in flight when it was admitted. */
  ghost predicate Split(c: Config, w: World, tenant: nat, k: nat, late: set<DocId>, last: Option<TaskId>) {
    if last.Some? then
      && last.value in w.tasks && IsAdmittedFor(w.tasks[last.value], tenant) == 1
      && UsedBytes(w.docs - late, tenant) + PendingFor(w.tasks[last.value], tenant) <= c.quota
      && |late| + InFlight(w, tenant) <= k
    else
      UsedBytes(w.docs - late, tenant) <= c.quota && |late| + InFlight(w, tenant) <= k - 1
  }

  /** An event about an upload of the tenant that is not yet a row. */
  ghost predicate Moves(w: World, e: Event, tenant: nat) {
    || (e.Admit? && e.tenant == tenant)
    || (!e.Delete? && e.t in w.tasks && IsAdmittedFor(w.tasks[e.t], tenant) == 1)
  }

  lemma SplitAdmit(c: Config, w: World, e: Event, tenant: nat, k: nat)
    requires Enabled(c, w, e) && c.quota > 0 && e.Admit? && e.tenant == tenant
    requires InFlight(Apply(c, w, e), tenant) <= k
    ensures Split(c, Apply(c, w, e), tenant, k, {}, Some(e.t))
  {
    assert w.docs - {} == w.docs;
  }

  lemma FreshId(c: Config, w: World, e: Event)
    requires Inv(c, w) && Enabled(c, w, e) && e.Insert?
    ensures e.id !in w.docs && Apply(c, w, e).docs == w.docs[e.id := Apply(c, w, e).docs[e.id]]
  {
    assert forall id :: id in w.docs ==> DocOk(c, w, id);
  }

  lemma SplitInsert(c: Config, w: World, e: Event, tenant: nat, k: nat, late: set<DocId>, last: Option<TaskId>)
    returns (late': set<DocId>, last': Option<TaskId>)
    requires Inv(c, w) && Enabled(c, w, e) && e.Insert? && IsAdmittedFor(w.tasks[e.t], tenant) == 1
    requires late <= w.issued && Split(c, w, tenant, k, late, last)
    ensures late' <= Apply(c, w, e).issued && Split(c, Apply(c, w, e), tenant, k, late', last')
  {
    var row := Apply(c, w, e).docs[e.id];
    InFlightMoves(c, w, e, tenant);
    FreshId(c, w, e);
    if last == Some(e.t) {
      late', last' := late, None;
      assert w.docs[e.id := row] - late == (w.docs - late)[e.id := row];
      SetMoves(w.docs - late, e.id, row, (d: Doc) => SizeFor(d, tenant));
    } else {
      late', last' := late + {e.id}, last;
      assert w.docs[e.id := row] - late' == w.docs - late;
    }
  }

  /** A rejected or aborted upload. */
  lemma SplitGone(c: Config, w: World, e: Event, tenant: nat, k: nat, late: set<DocId>, last: Option<TaskId>)
    returns (last': Option<TaskId>)
    requires Enabled(c, w, e) && (e.RejectDuplicate? || e.AbortUpload?) && IsAdmittedFor(w.tasks[e.t], tenant) == 1
    requires Split(c, w, tenant, k, late, last)
    ensures Split(c, Apply(c, w, e), tenant, k, late, last')
  {
    InFlightMoves(c, w, e, tenant);
    last' := if last == Some(e.t) then None else last;
  }

  lemma SplitDelete(c: Config, w: World, id: DocId, tenant: nat, k: nat, late: set<DocId>, last: Option<TaskId>)
    requires Enabled(c, w, Delete(id)) && Split(c, w, tenant, k, late, last)
    ensures Split(c, Apply(c, w, Delete(id)), tenant, k, late, last)
  {
    var rest := w.docs - late;
    assert w.docs - {id} - late == rest - {id};
    if id in rest {
      SumRemove(rest, id, (d: Doc) => SizeFor(d, tenant));
    } else {
      SumWithout(rest, id, (d: Doc) => SizeFor(d, tenant));
    }
  }

  lemma SetRow(docs: map<DocId, Doc>, late: set<DocId>, id: DocId, d: Doc, tenant: nat)
    requires id !in docs && SizeFor(d, tenant) == 0
    ensures UsedBytes(docs[id := d] - late, tenant) == UsedBytes(docs - late, tenant)
  {
    if id in late {
      assert docs[id := d] - late == docs - late;
    } else {
      assert docs[id := d] - late == (docs - late)[id := d];
      SetMoves(docs - late, id, d, (x: Doc) => SizeFor(x, tenant));
    }
  }

  /** Rows added by others, and rows whose size stays. */
  lemma OtherUsed(c: Config, w: World, e: Event, tenant: nat, late: set<DocId>)
    requires Inv(c, w) && Enabled(c, w, e) && !e.Delete? && !Moves(w, e, tenant)
    ensures UsedBytes(Apply(c, w, e).docs - late, tenant) == UsedBytes(w.docs - late, tenant)
  {
    if e.Insert? {
      FreshId(c, w, e);
      SetRow(w.docs, late, e.id, Apply(c, w, e).docs[e.id], tenant);
    } else {
      RowsKeepSize(c, w, e, tenant);
      SumSame(w.docs - late, Apply(c, w, e).docs - late, (d: Doc) => SizeFor(d, tenant));
    }
  }

  lemma NoneAdmitted(c: Config, w: World, e: Event, tenant: nat)
    requires Enabled(c, w, e) && !e.Delete? && !Moves(w, e, tenant)
    ensures e.t in Apply(c, w, e).tasks ==> IsAdmittedFor(Apply(c, w, e).tasks[e.t], tenant) == 0
  {
  }

  lemma SplitOther(c: Config, w: World, e: Event, tenant: nat, k: nat, late: set<DocId>, last: Option<TaskId>)
    requires Inv(c, w) && Enabled(c, w, e) && !e.Delete? && !Moves(w, e, tenant)
    requires Split(c, w, tenant, k, late, last)
    ensures Split(c, Apply(c, w, e), tenant, k, late, last)
  {
    OtherUsed(c, w, e, tenant, late);
    InFlightMoves(c, w, e, tenant);
    NoneAdmitted(c, w, e, tenant);
    if last.Some? { OthersStay(c, w, e, last.value); }
  }

  lemma SplitStep(c: Config, w: World, e: Event, tenant: nat, k: nat, late: set<DocId>, last: Option<TaskId>)
    returns (late': set<DocId>, last': Option<TaskId>)
    requires Inv(c, w) && Enabled(c, w, e) && c.quota > 0 && InFlight(Apply(c, w, e), tenant) <= k
    requires late <= w.issued && Split(c, w, tenant, k, late, last)
    ensures late' <= Apply(c, w, e).issued && Split(c, Apply(c, w, e), tenant, k, late', last')
  {
    late', last' := late, last;
    if e.Admit? && e.tenant == tenant {
      SplitAdmit(c, w, e, tenant, k);
      late', last' := {}, Some(e.t);
    } else if e.Delete? {
      SplitDelete(c, w, e.id, tenant, k, late, last);
    } else if !Moves(w, e, tenant) {
      SplitOther(c, w, e, tenant, k, late, last);
      IssuedGrows(c, w, e);
    } else if e.Insert? {
      late', last' := SplitInsert(c, w, e, tenant, k, late, last);
    } else {
      last' := SplitGone(c, w, e, tenant, k, late, last);
    }
  }

  lemma {:induction false} SplitAlways(c: Config, es: seq<Event>, tenant: nat, k: nat)
    returns (late: set<DocId>, last: Option<TaskId>)
    requires c.quota > 0 && k >= 1 && Exec(c, es).Some? && AtMostInFlight(c, es, tenant, k)
    ensures late <= Exec(c, es).value.issued && Split(c, Exec(c, es).value, tenant, k, late, last)
  {
    if es == [] {
      late, last := {}, None;
      assert EMPTY.docs - {} == map[];
      assert UsedBytes(map[], tenant) == 0 && InFlight(EMPTY, tenant) == 0;
    } else {
      var n := |es| - 1;
      late, last := SplitAlways(c, es[..n], tenant, k);
      InvAlways(c, es[..n]);
      late, last := SplitStep(c, Exec(c, es[..n]).value, es[n], tenant, k, late, last);
    }
  }

  lemma InFlightCounts(w: World, t: TaskId, tenant: nat)
    requires t in w.tasks && IsAdmittedFor(w.tasks[t], tenant) == 1
    ensures InFlight(w, tenant) >= 1
  {
    SumRemove(w.tasks, t, (x: Task) => IsAdmittedFor(x, tenant));
  }

  lemma {:induction false} SameSize<V>(m: map<nat, V>)
    ensures |m.Keys| == |m|
  {
  }

  lemma {:induction false} SubsetSize(a: set<nat>, b: set<nat>)
    requires a <= b
    ensures |a| <= |b|
  {
    if a != {} {
      var x :| x in a;
      SubsetSize(a - {x}, b - {x});
    }
  }

  lemma KeepsAtMost<V>(m: map<nat, V>, late: set<nat>)
    ensures |Only(m, late)| <= |late|
  {
    assert Only(m, late).Keys <= late;
    SubsetSize(Only(m, late).Keys, late);
    SameSize(Only(m, late));
  }

  lemma JoinFits(c: Config, a: seq<string>, b: seq<string>)
    requires Storable(c, a + b) && Size(b) <= c.quota
    ensures FitsBut(c, a + b, |a|) && Size(a + b) == Size(a) + Size(b)
  {
    SizeAppend(a, b);
    assert (a + b)[|a|..] == b;
  }

  /** The rows as one list, the late ones first. */
  lemma RowsSplit(c: Config, docs: map<DocId, Doc>, tenant: nat, late: set<DocId>) returns (fs: seq<string>, b: nat)
    requires Sound(c, docs) && UsedBytes(docs - late, tenant) <= c.quota
    ensures b <= |late| && FitsBut(c, fs, b) && Size(fs) == UsedBytes(docs, tenant)
  {
    var first := RowsAreFiles(c, Only(docs, late), tenant);
    var rest := RowsAreFiles(c, docs - late, tenant);
    FilesTogether(c, docs, late, tenant, first, rest);
    SumParts(docs, late, (d: Doc) => SizeFor(d, tenant));
    KeepsAtMost(docs, late);
    fs, b := first + rest, |first|;
    JoinFits(c, first, rest);
  }

  lemma SplitLeaves(c: Config, w: World, tenant: nat, k: nat, late: set<DocId>, last: Option<TaskId>)
    requires Split(c, w, tenant, k, late, last)
    ensures |late| <= k - 1 && UsedBytes(w.docs - late, tenant) <= c.quota
  {
    if last.Some? { InFlightCounts(w, last.value, tenant); }
  }

  /** What a run has stored is a list of different files of which all but at most `k - 1` fit the quota. */
  lemma StoredFits(c: Config, es: seq<Event>, tenant: nat, k: nat) returns (fs: seq<string>, b: nat)
    requires c.quota > 0 && k >= 1 && Exec(c, es).Some? && AtMostInFlight(c, es, tenant, k)
    ensures b <= k - 1 && FitsBut(c, fs, b) && Size(fs) == UsedBytes(Exec(c, es).value.docs, tenant)
  {
    var w := Exec(c, es).value;
    var late, last := SplitAlways(c, es, tenant, k);
    SplitLeaves(c, w, tenant, k, late, last);
    InvAlways(c, es);
    ReachedRowsSound(c, w);
    fs, b := RowsSplit(c, w.docs, tenant, late);
  }

  // ----- and every such list is stored by some run -----

  /** Ids and task numbers below `n` may be taken, and row `id` holds file `id`. */
  ghost predicate Below(c: Config, w: World, fs: seq<string>, n: nat) {
    && (forall t :: t in w.tasks ==> t < n)
    && (forall id :: id in w.issued ==> id < n)
    && (forall id :: id in w.docs ==> id in w.issued && id < |fs| && w.docs[id].digest == c.hash(fs[id]))
  }

  /** A run to `w` with at most `k` uploads of the tenant in flight at once, `open` of them at its end. */
  ghost predicate Reached(c: Config, es: seq<Event>, w: World, fs: seq<string>, tenant: nat, k: nat,
                          used: nat, open: nat, n: nat) {
    && Exec(c, es) == Some(w) && AtMostInFlight(c, es, tenant, k) && Below(c, w, fs, n)
    && UsedBytes(w.docs, tenant) == used && InFlight(w, tenant) == open
  }

  lemma InFlightSnoc(c: Config, es: seq<Event>, e: Event, tenant: nat, k: nat)
    requires Exec(c, es).Some? && Enabled(c, Exec(c, es).value, e) && AtMostInFlight(c, es, tenant, k)
    requires InFlight(Apply(c, Exec(c, es).value, e), tenant) <= k
    ensures AtMostInFlight(c, es + [e], tenant, k)
  {
    assert (es + [e])[..|es|] == es;
    ExecSnoc(c, es, e);
  }

  /** Everything numbered below `n` is as it was. */
  ghost predicate OldKept(w: World, w': World, n: nat) {
    && (forall t :: t in w.tasks && t < n ==> t in w'.tasks && w'.tasks[t] == w.tasks[t])
    && (forall id :: id in w'.issued && id < n ==> id in w.issued)
  }

  /** The upload of file `n` is admitted, and its row still to be inserted. */
  ghost predicate Open(w: World, tenant: nat, n: nat, f: string) {
    n !in w.issued && n in w.tasks && w.tasks[n] == Uploading(Admitted(tenant, Markdown, f))
  }

  lemma KeptThrough(w: World, w1: World, w2: World, w3: World, n: nat)
    requires OldKept(w, w1, n) && OldKept(w1, w2, n + 1) && OldKept(w2, w3, n)
    ensures OldKept(w, w3, n)
  {
  }

  lemma AdmitOne(c: Config, es: seq<Event>, w: World, fs: seq<string>, tenant: nat, k: nat, used: nat, open: nat, n: nat)
    returns (es': seq<Event>, w': World)
    requires Reached(c, es, w, fs, tenant, k, used, open, n) && open < k
    requires n < |fs| && |fs[n]| <= Cap(c) && used + |fs[n]| <= c.quota
    ensures Reached(c, es', w', fs, tenant, k, used, open + 1, n + 1)
    ensures OldKept(w, w', n) && Open(w', tenant, n, fs[n])
  {
    var e := Admit(n, tenant, Markdown, fs[n]);
    InFlightMoves(c, w, e, tenant);
    InFlightSnoc(c, es, e, tenant, k);
    es', w' := Go(c, es, e);
  }

  lemma CanInsert(c: Config, w: World, fs: seq<string>, tenant: nat, n: nat, top: nat)
    requires Inv(c, w) && Below(c, w, fs, top) && n < top && n < |fs| && Open(w, tenant, n, fs[n]) && Storable(c, fs)
    ensures Enabled(c, w, Insert(n, n))
    ensures Below(c, Apply(c, w, Insert(n, n)), fs, top) && OldKept(w, Apply(c, w, Insert(n, n)), n)
  {
  }

  lemma InsertOne(c: Config, es: seq<Event>, w: World, fs: seq<string>, tenant: nat, k: nat, used: nat, open: nat,
                  n: nat, top: nat) returns (es': seq<Event>, w': World)
    requires Reached(c, es, w, fs, tenant, k, used, open, top) && n < top && n < |fs| && open > 0
    requires Open(w, tenant, n, fs[n]) && Storable(c, fs)
    ensures Reached(c, es', w', fs, tenant, k, used + |fs[n]|, open - 1, top)
    ensures OldKept(w, w', n)
  {
    var e := Insert(n, n);
    InvAlways(c, es);
    CanInsert(c, w, fs, tenant, n, top);
    UsedMoves(c, w, e, tenant);
    InFlightMoves(c, w, e, tenant);
    assert InFlight(w, tenant) <= k;
    InFlightSnoc(c, es, e, tenant, k);
    es', w' := Go(c, es, e);
  }

  /** The files from `n` on, one after the other, while `b` uploads stay open. */
  lemma {:induction false} StoreInTurn(c: Config, es: seq<Event>, w: World, fs: seq<string>, tenant: nat, k: nat,
                                       used: nat, b: nat, n: nat)
    returns (es': seq<Event>, w': World)
    requires Reached(c, es, w, fs, tenant, k, used, b, n) && Storable(c, fs)
    requires b < k && b <= n <= |fs| && used + Size(fs[n..]) <= c.quota
    ensures Reached(c, es', w', fs, tenant, k, used + Size(fs[n..]), b, |fs|)
    ensures OldKept(w, w', n)
    decreases |fs| - n
  {
    if n == |fs| {
      es', w' := es, w;
    } else {
      SizeFrom(fs, n);
      var e1, w1 := AdmitOne(c, es, w, fs, tenant, k, used, b, n);
      var e2, w2 := InsertOne(c, e1, w1, fs, tenant, k, used, b + 1, n, n + 1);
      es', w' := StoreInTurn(c, e2, w2, fs, tenant, k, used + |fs[n]|, b, n + 1);
    }
  }

  /** Files `n` to `b` are admitted while nothing is stored, then the rest is stored, then they
      are inserted. */
  lemma {:induction false} StoreAll(c: Config, es: seq<Event>, w: World, fs: seq<string>, tenant: nat, k: nat,
                                    b: nat, n: nat)
    returns (es': seq<Event>, w': World)
    requires Reached(c, es, w, fs, tenant, k, 0, n, n) && FitsBut(c, fs, b) && n <= b < k && c.quota > 0
    ensures Reached(c, es', w', fs, tenant, k, Size(fs[n..]), n, |fs|)
    ensures OldKept(w, w', n)
    decreases b - n
  {
    if n == b {
      es', w' := StoreInTurn(c, es, w, fs, tenant, k, 0, b, b);
    } else {
      SizeFrom(fs, n);
      var e1, w1 := AdmitOne(c, es, w, fs, tenant, k, 0, n, n);
      var e2, w2 := StoreAll(c, e1, w1, fs, tenant, k, b, n + 1);
      assert Open(w2, tenant, n, fs[n]);
      es', w' := InsertOne(c, e2, w2, fs, tenant, k, Size(fs[n + 1..]), n + 1, n, |fs|);
      KeptThrough(w, w1, w2, w', n);
    }
  }

  // ----- the theorems -----

  /** Some run with at most `k` uploads of the tenant in flight at once ends with `n` bytes stored. */
  ghost predicate CanStore(c: Config, tenant: nat, k: nat, n: nat) {
    exists es :: Exec(c, es).Some? && AtMostInFlight(c, es, tenant, k) && UsedBytes(Exec(c, es).value.docs, tenant) == n
  }

  /** There are files of `n` bytes in all, with different hashes, all but at most `k - 1` of
      which fit the quota together. */
  ghost predicate FilesOf(c: Config, k: nat, n: nat) {
    exists fs, b: nat :: b <= k - 1 && FitsBut(c, fs, b) && Size(fs) == n
  }

  /** Exactly these amounts can be stored. */
  lemma StorableExact(c: Config, tenant: nat, k: nat, n: nat)
    requires c.quota > 0 && k >= 1
    ensures CanStore(c, tenant, k, n) <==> FilesOf(c, k, n)
  {
    if CanStore(c, tenant, k, n) {
      var es :| Exec(c, es).Some? && AtMostInFlight(c, es, tenant, k) && UsedBytes(Exec(c, es).value.docs, tenant) == n;
      var fs, b := StoredFits(c, es, tenant, k);
    }
    if FilesOf(c, k, n) {
      var fs, b: nat :| b <= k - 1 && FitsBut(c, fs, b) && Size(fs) == n;
      assert UsedBytes(map[], tenant) == 0 && InFlight(EMPTY, tenant) == 0;
      var es, w := StoreAll(c, [], EMPTY, fs, tenant, k, b, 0);
      assert fs[0..] == fs;
    }
  }

  /** Leaving files out from the front until the rest fits. */
  lemma {:induction false} Peel(c: Config, fs: seq<string>) returns (gs: seq<string>)
    requires Storable(c, fs) && Size(fs) > c.quota
    ensures FitsBut(c, gs, 1) && Size(gs) > c.quota
  {
    if Size(fs[1..]) <= c.quota {
      gs := fs;
    } else {
      gs := Peel(c, fs[1..]);
    }
  }

  /** All runs keep the quota exactly when uploads of the tenant do not overlap between the SUM
      and the INSERT, or there are not enough different files to exceed it. */
  lemma QuotaExact(c: Config, tenant: nat, k: nat)
    requires c.quota > 0 && k >= 1
    ensures (forall n: nat :: CanStore(c, tenant, k, n) ==> n <= c.quota)
       <==> k == 1 || (forall fs :: Storable(c, fs) ==> Size(fs) <= c.quota)
  {
    if k == 1 || (forall fs :: Storable(c, fs) ==> Size(fs) <= c.quota) {
      forall n: nat | CanStore(c, tenant, k, n)
        ensures n <= c.quota
      {
        StorableExact(c, tenant, k, n);
        var fs, b: nat :| b <= k - 1 && FitsBut(c, fs, b) && Size(fs) == n;
        assert k == 1 ==> fs[b..] == fs;
      }
    } else {
      var fs :| Storable(c, fs) && Size(fs) > c.quota;
      var gs := Peel(c, fs);
      StorableExact(c, tenant, k, Size(gs));
    }
  }

  lemma {:induction false} SizeOfEqual(fs: seq<string>, size: nat)
    requires forall i :: 0 <= i < |fs| ==> |fs[i]| == size
    ensures Size(fs) == |fs| * size
  {
    if fs != [] {
      SizeOfEqual(fs[1..], size);
      assert |fs| * size == size + |fs[1..]| * size;
    }
  }

  /** The most `QuotaBound` allows is stored by some run if there are `k - 1` files of the
      largest size, and others, all different, that fill the quota. */
  lemma QuotaReached(c: Config, tenant: nat, k: nat, large: seq<string>, others: seq<string>)
    requires c.quota > 0 && k >= 1 && Storable(c, large + others)
    requires |large| == k - 1 && (forall i :: 0 <= i < |large| ==> |large[i]| == Cap(c)) && Size(others) == c.quota
    ensures CanStore(c, tenant, k, c.quota + (k - 1) * Cap(c))
  {
    var fs := large + others;
    SizeAppend(large, others);
    SizeOfEqual(large, Cap(c));
    assert fs[k - 1..] == others;
    assert FitsBut(c, fs, k - 1);
    StorableExact(c, tenant, k, Size(fs));
  }

  lemma OneFileAtMost(c: Config, fs: seq<string>)
    requires forall f, g :: c.hash(f) == c.hash(g)
    ensures Storable(c, fs) ==> |fs| <= 1
  {
    if |fs| > 1 { assert c.hash(fs[0]) == c.hash(fs[1]); }
  }

  /** A hash that told no files apart would keep any quota, however many uploads overlap. */
  lemma FewFilesKeepQuota(c: Config, tenant: nat, k: nat)
    requires c.quota > 0 && k >= 1 && forall f, g :: c.hash(f) == c.hash(g)
    ensures forall n: nat :: CanStore(c, tenant, k, n) ==> n <= c.quota
  {
    forall fs | Storable(c, fs)
      ensures Size(fs) <= c.quota
    {
      OneFileAtMost(c, fs);
      if fs != [] { assert fs[1..] == []; }
    }
    QuotaExact(c, tenant, k);
  }
}
