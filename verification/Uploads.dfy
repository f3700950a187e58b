/** The upload routes: one file per request, and many files in one request. A batch leaves
    the tables and the queue as the same files uploaded one by one would. */
module Uploads {
  import opened Prelude
  import opened Lifecycle
  import opened ServiceRuns
  import opened IngestionService

  // ----- file names -----

  /** `str.lower` where it matters here: ASCII capitals, and the Kelvin sign, which lowers to `k`. */
  function Lower(c: char): char {
    if 'A' <= c <= 'Z' then ((c as int) + 32) as char
    else if (c as int) == 0x212A then 'k'
    else c
  }

  function Lowered(s: string): string {
    seq(|s|, i requires 0 <= i < |s| => Lower(s[i]))
  }

  /** What follows the last dot; `None` without a dot. */
  function Suffix(name: string): Option<string> {
    if name == "" then None
    else
      var rest := Suffix(name[1..]);
      if rest.Some? then rest
      else if name[0] == '.' then Some(name[1..])
      else None
  }

  function SourceTypeFor(name: string): Option<Kind> {
    var suffix := Suffix(name);
    if suffix.None? then None
    else
      var ext := Lowered(suffix.value);
      if ext == "pdf" then Some(Pdf)
      else if ext == "md" || ext == "markdown" then Some(Kind.Markdown)
      else if ext == "html" || ext == "htm" then Some(Html)
      else None
  }

  /** The suffix is what follows the last dot. */
  lemma {:induction false} SuffixIs(name: string, suffix: string)
    ensures Suffix(name) == Some(suffix) <==> '.' !in suffix && exists base: string :: name == base + "." + suffix
    ensures Suffix(name).None? <==> '.' !in name
    decreases |name|
  {
    if name != "" {
      assert name == [name[0]] + name[1..];
      SuffixIs(name[1..], suffix);
      if base: string :| name[1..] == base + "." + suffix { assert name == ([name[0]] + base) + "." + suffix; }
      if base: string :| name == base + "." + suffix {
        if base == "" {
          assert "" + "." + suffix == ['.'] + suffix;
          assert name[1..] == suffix;
        } else {
          assert name[1..] == base[1..] + "." + suffix;
        }
      }
      if '.' !in name[1..] && name[0] == '.' { assert name == "" + "." + name[1..]; }
    }
  }

  /** The name ends in a dot and this extension, in any mixture of cases. */
  ghost predicate HasExtension(name: string, ext: string) {
    exists base: string, typed: string :: name == base + "." + typed && Lowered(typed) == ext
  }

  lemma ExtensionIs(name: string, ext: string)
    requires '.' !in ext
    ensures HasExtension(name, ext) <==> Suffix(name).Some? && Lowered(Suffix(name).value) == ext
  {
    if Suffix(name).Some? {
      SuffixIs(name, Suffix(name).value);
      if Lowered(Suffix(name).value) == ext {
        var base: string :| name == base + "." + Suffix(name).value;
      }
    }
    if base: string, typed: string :| name == base + "." + typed && Lowered(typed) == ext {
      if '.' in typed {
        var i :| 0 <= i < |typed| && typed[i] == '.';
        assert ext[i] == '.';
      }
      SuffixIs(name, typed);
    }
  }

  /** Which names are supported, and as what: by the extension alone. */
  lemma SourceTypeExact(name: string)
    ensures SourceTypeFor(name) == Some(Pdf) <==> HasExtension(name, "pdf")
    ensures SourceTypeFor(name) == Some(Kind.Markdown) <==> HasExtension(name, "md") || HasExtension(name, "markdown")
    ensures SourceTypeFor(name) == Some(Html) <==> HasExtension(name, "html") || HasExtension(name, "htm")
  {
    ExtensionIs(name, "pdf");
    ExtensionIs(name, "md");
    ExtensionIs(name, "markdown");
    ExtensionIs(name, "html");
    ExtensionIs(name, "htm");
  }

  // ----- what uploading does -----

  datatype File = File(filename: string, raw: string)
  datatype Error = Unsupported | TooLarge | OverQuota | Duplicated | QueueUnavailable
  datatype Answer = Accepted(id: DocId) | Rejected(error: Error)

  /** The documents and the broker queue. */
  datatype Tables = Tables(docs: map<DocId, Doc>, queue: seq<DocId>)
  datatype Posted = Posted(store: Tables, answer: Answer)

  /** Enqueueing works, or raises; the message may have got through all the same. */
  datatype Enqueueing = Enqueued | Raised(delivered: bool)

  /** What happens to one file: the id its row would get, and how enqueueing it ends. */
  datatype Fate = Fate(id: DocId, enqueueing: Enqueueing)

  /** Why `register` refuses a file. */
  ghost function Refusal(c: Config, docs: map<DocId, Doc>, tenant: nat, f: File): Option<Error> {
    if c.quota > 0 && UsedBytes(docs, tenant) + |f.raw| > c.quota then Some(OverQuota)
    else if Known(docs, tenant, c.hash(f.raw)) then Some(Duplicated)
    else None
  }

  /** A row to be enqueued; when that fails it is marked failed. */
  function Sent(s: Tables, id: DocId, row: Doc, e: Enqueueing): Posted {
    if e.Enqueued? then Posted(Tables(s.docs[id := row], s.queue + [id]), Accepted(id))
    else
      Posted(Tables(s.docs[id := row.(status := Failed, error := Some(NotEnqueued))],
                    if e.delivered then s.queue + [id] else s.queue),
             Rejected(QueueUnavailable))
  }

  /** Inserting the row first makes no difference. */
  lemma SentAnyway(s: Tables, id: DocId, row: Doc, e: Enqueueing)
    ensures Sent(s.(docs := s.docs[id := row]), id, row, e) == Sent(s, id, row, e)
  {
    var failed := row.(status := Failed, error := Some(NotEnqueued));
    assert s.docs[id := row][id := row] == s.docs[id := row];
    assert s.docs[id := row][id := failed] == s.docs[id := failed];
  }

  /** `register`, then enqueue. */
  ghost function RegisterAndEnqueue(c: Config, s: Tables, tenant: nat, f: File, kind: Kind, fate: Fate): Posted {
    var refusal := Refusal(c, s.docs, tenant, f);
    if refusal.Some? then Posted(s, Rejected(refusal.value))
    else Sent(s, fate.id, NewRow(c, tenant, kind, f.raw), fate.enqueueing)
  }

  /** The two routes check type and size in opposite orders, and default an empty name differently. */
  ghost function Post(c: Config, s: Tables, tenant: nat, f: File, fate: Fate, batch: bool): Posted {
    var kind := SourceTypeFor(if batch && f.filename == "" then "upload" else f.filename);
    var large := |f.raw| > c.maxUpload;
    if batch && large then Posted(s, Rejected(TooLarge))
    else if kind.None? then Posted(s, Rejected(Unsupported))
    else if large then Posted(s, Rejected(TooLarge))
    else RegisterAndEnqueue(c, s, tenant, f, kind.value, fate)
  }

  datatype PostedAll = PostedAll(store: Tables, answers: seq<Answer>)

  /** The files in order, each posted to the store the one before left. */
  ghost function PostAll(c: Config, s: Tables, tenant: nat, fs: seq<File>, fates: seq<Fate>, batch: bool): (r: PostedAll)
    requires |fs| == |fates|
    ensures |r.answers| == |fs|
  {
    if fs == [] then PostedAll(s, [])
    else
      var n := |fs| - 1;
      var before := PostAll(c, s, tenant, fs[..n], fates[..n], batch);
      var last := Post(c, before.store, tenant, fs[n], fates[n], batch);
      PostedAll(last.store, before.answers + [last.answer])
  }

  /** Each file is posted to what the files before it left, and its answer is that post's. */
  lemma {:induction false} PostAllAt(c: Config, s: Tables, tenant: nat, fs: seq<File>, fates: seq<Fate>, batch: bool, i: nat)
    requires |fs| == |fates| && i < |fs|
    ensures var one := Post(c, PostAll(c, s, tenant, fs[..i], fates[..i], batch).store, tenant, fs[i], fates[i], batch);
      && PostAll(c, s, tenant, fs, fates, batch).answers[i] == one.answer
      && PostAll(c, s, tenant, fs[..i + 1], fates[..i + 1], batch).store == one.store
  {
    var n := |fs| - 1;
    if i < n {
      PostAllAt(c, s, tenant, fs[..n], fates[..n], batch, i);
      assert fs[..n][..i] == fs[..i] && fates[..n][..i] == fates[..i];
      assert fs[..n][..i + 1] == fs[..i + 1] && fates[..n][..i + 1] == fates[..i + 1];
    } else {
      assert fs[..i + 1] == fs && fates[..i + 1] == fates;
    }
  }

  // ----- the routes -----

  /** One line of the batch response. */
  datatype BatchItem = BatchItem(filename: string, document: Option<DocId>, error: Option<Error>)
  datatype BatchOut = BatchOut(accepted: nat, rejected: nat, results: seq<BatchItem>)

  function ItemFor(f: File, a: Answer): BatchItem {
    var name := if f.filename == "" then "upload" else f.filename;
    if a.Accepted? then BatchItem(name, Some(a.id), None) else BatchItem(name, None, Some(a.error))
  }

  function Items(fs: seq<File>, answers: seq<Answer>): (items: seq<BatchItem>)
    requires |fs| == |answers|
    ensures |items| == |fs|
  {
    if fs == [] then []
    else
      var n := |fs| - 1;
      Items(fs[..n], answers[..n]) + [ItemFor(fs[n], answers[n])]
  }

  function Count(answers: seq<Answer>): nat {
    if answers == [] then 0
    else Count(answers[..|answers| - 1]) + if answers[|answers| - 1].Accepted? then 1 else 0
  }

  lemma ItemsSnoc(fs: seq<File>, answers: seq<Answer>, f: File, a: Answer)
    requires |answers| == |fs|
    ensures Items(fs + [f], answers + [a]) == Items(fs, answers) + [ItemFor(f, a)]
  {
    assert (fs + [f])[..|fs|] == fs && (answers + [a])[..|fs|] == answers;
  }

  lemma CountSnoc(answers: seq<Answer>, a: Answer)
    ensures Count(answers + [a]) == Count(answers) + if a.Accepted? then 1 else 0
  {
    assert (answers + [a])[..|answers|] == answers;
  }

  /** A file's line names it, and holds its document or its reason, whichever the answer was. */
  ghost predicate Reports(item: BatchItem, f: File, a: Answer) {
    && item.filename == (if f.filename == "" then "upload" else f.filename)
    && match a
       case Accepted(id) => item.document == Some(id) && item.error == None
       case Rejected(e) => item.document == None && item.error == Some(e)
  }

  lemma {:induction false} ItemsAre(fs: seq<File>, answers: seq<Answer>)
    requires |answers| == |fs|
    ensures forall i :: 0 <= i < |fs| ==> Reports(Items(fs, answers)[i], fs[i], answers[i])
  {
    if fs != [] { ItemsAre(fs[..|fs| - 1], answers[..|fs| - 1]); }
  }

  /** The lines that hold a document. */
  function Held(items: seq<BatchItem>): set<nat> { set i: nat | i < |items| && items[i].document.Some? }

  lemma {:induction false} CountIsHeld(fs: seq<File>, answers: seq<Answer>)
    requires |answers| == |fs|
    ensures Count(answers) == |Held(Items(fs, answers))|
  {
    if fs == [] {
      assert Held(Items(fs, answers)) == {};
    } else {
      var n := |fs| - 1;
      CountIsHeld(fs[..n], answers[..n]);
      var before := Held(Items(fs[..n], answers[..n]));
      assert Held(Items(fs, answers)) == if answers[n].Accepted? then before + {n} else before;
    }
  }

  lemma PostAllSnoc(c: Config, s: Tables, tenant: nat, fs: seq<File>, fates: seq<Fate>, f: File, fate: Fate)
    requires |fs| == |fates|
    ensures var before := PostAll(c, s, tenant, fs, fates, true);
      var last := Post(c, before.store, tenant, f, fate, true);
      PostAll(c, s, tenant, fs + [f], fates + [fate], true) == PostedAll(last.store, before.answers + [last.answer])
  {
    assert (fs + [f])[..|fs|] == fs && (fates + [fate])[..|fs|] == fates;
  }

  /** After these files of the batch: the tables, the answers, and the response so far. */
  ghost predicate BatchSoFar(c: Config, s: Tables, tenant: nat, fs: seq<File>, fates: seq<Fate>,
                             now: Tables, results: seq<BatchItem>, accepted: nat) {
    && |fs| == |fates|
    && var all := PostAll(c, s, tenant, fs, fates, true);
      now == all.store && results == Items(fs, all.answers) && accepted == Count(all.answers) <= |fs|
  }

  lemma BatchTakes(c: Config, s: Tables, tenant: nat, fs: seq<File>, fates: seq<Fate>, f: File, fate: Fate,
                   before: Tables, results: seq<BatchItem>, accepted: nat, now: Tables, a: Answer)
    requires BatchSoFar(c, s, tenant, fs, fates, before, results, accepted)
    requires Posted(now, a) == Post(c, before, tenant, f, fate, true)
    ensures BatchSoFar(c, s, tenant, fs + [f], fates + [fate], now, results + [ItemFor(f, a)],
                       accepted + if a.Accepted? then 1 else 0)
  {
    var answers := PostAll(c, s, tenant, fs, fates, true).answers;
    PostAllSnoc(c, s, tenant, fs, fates, f, fate);
    ItemsSnoc(fs, answers, f, a);
    CountSnoc(answers, a);
  }

  ghost predicate FreshIds(fates: seq<Fate>, issued: set<DocId>) {
    && (forall i :: 0 <= i < |fates| ==> fates[i].id !in issued)
    && (forall i, j :: 0 <= i < j < |fates| ==> fates[i].id != fates[j].id)
  }

  // ----- the routes as steps of the lifecycle -----

  /** Task numbers from `t` on are free. */
  ghost predicate FreeFrom(o: World, t: TaskId) { forall s :: s in o.tasks ==> s < t }

  /** `o` with a message for each of `ids`, numbered from `t` on. */
  ghost function Messages(o: World, t: TaskId, ids: seq<DocId>): World
    decreases |ids|
  {
    if ids == [] then o else Messages(SetTask(o, t, Queued(Message(ids[0], 0, 0))), t + 1, ids[1..])
  }

  lemma OneMessage(o: World, t: TaskId, id: DocId)
    ensures Messages(o, t, [id]) == SetTask(o, t, Queued(Message(id, 0, 0)))
  {
    assert [id][1..] == [];
  }

  lemma {:induction false} MoreMessages(o: World, t: TaskId, a: seq<DocId>, b: seq<DocId>)
    ensures Messages(Messages(o, t, a), t + |a|, b) == Messages(o, t, a + b)
    decreases |a|
  {
    if a == [] {
      assert a + b == b;
    } else {
      MoreMessages(SetTask(o, t, Queued(Message(a[0], 0, 0))), t + 1, a[1..], b);
      assert (a + b)[1..] == a[1..] + b && (a + b)[0] == a[0];
    }
  }

  lemma {:induction false} StillFree(o: World, t: TaskId, a: seq<DocId>)
    requires FreeFrom(o, t)
    ensures FreeFrom(Messages(o, t, a), t + |a|)
    decreases |a|
  {
    if a != [] { StillFree(SetTask(o, t, Queued(Message(a[0], 0, 0))), t + 1, a[1..]); }
  }

  /** What came behind `base` came behind `before`, or was there already. */
  lemma Behind<T>(base: seq<T>, before: seq<T>, after: seq<T>)
    requires base <= before <= after
    ensures before[|base|..] + after[|before|..] == after[|base|..]
  {
  }

  lemma SentTogether(base: seq<DocId>, before: seq<DocId>, after: seq<DocId>, o: World, t: TaskId)
    requires base <= before <= after
    ensures Messages(Messages(o, t, before[|base|..]), t + |before[|base|..]|, after[|before|..]) == Messages(o, t, after[|base|..])
  {
    MoreMessages(o, t, before[|base|..], after[|before|..]);
    Behind(base, before, after);
  }

  class Api {
    const service: Service
    var queue: seq<DocId>

    constructor (service: Service)
      ensures this.service == service && queue == []
    {
      this.service, queue := service, [];
    }

    ghost function View(): Tables
      reads this, service
    {
      Tables(service.docs, queue)
    }

    /** Ids come from outside: this one was never issued, and every row's was. */
    ghost predicate Unissued(id: DocId)
      reads service
    {
      id !in service.issued && service.docs.Keys <= service.issued
    }

    /** The upload's own number: the message, if any, will be number `t`. */
    ghost function Slot(e: Enqueueing, t: TaskId): TaskId { if e.Enqueued? then t else t + 1 }

    /** The world around `service` with the upload's row registered, and the enqueue to come. */
    ghost function Holding(id: DocId, e: Enqueueing, o: World, t: TaskId): World
      reads service
    {
      SetTask(service.View(o), Slot(e, t), Uploading(Registered(id)))
    }

    /** The world when the queue is `base` and what the call put behind it. */
    ghost function Now(base: seq<DocId>, o: World, t: TaskId): World
      reads this, service
      requires |base| <= |queue|
    {
      service.View(Messages(o, t, queue[|base|..]))
    }

    /** `register`, as the routes see it. */
    method Create(f: File, tenant: nat, kind: Kind, fate: Fate, ghost o: World, ghost t: TaskId)
      returns (refusal: Option<Error>, ghost trace: seq<Event>)
      requires |f.raw| <= service.c.maxUpload && Unissued(fate.id) && FreeFrom(o, t)
      modifies service
      ensures refusal == Refusal(service.c, old(service.docs), tenant, f)
      ensures service.docs == if refusal.Some? then old(service.docs)
                              else old(service.docs)[fate.id := NewRow(service.c, tenant, kind, f.raw)]
      ensures RunFrom(service.c, old(service.View(o)), trace)
           == Some(if refusal.Some? then service.View(o) else Holding(fate.id, fate.enqueueing, o, t))
      ensures service.docs.Keys <= service.issued <= old(service.issued) + {fate.id}
    {
      var r;
      r, trace := service.Register(tenant, kind, f.raw, fate.id, o, Slot(fate.enqueueing, t));
      refusal := if r.QuotaExceeded? then Some(OverQuota) else if r.DuplicateDocument? then Some(Duplicated) else None;
    }

    /** `delay`, and the mark when it raises. */
    method Send(id: DocId, row: Doc, e: Enqueueing, ghost o: World, ghost t: TaskId) returns (a: Answer, ghost steps: seq<Event>)
      requires id in service.docs && service.docs[id] == row && row.status == Pending && FreeFrom(o, t)
      modifies this`queue, service`docs
      ensures old(queue) <= queue && RunFrom(service.c, old(Holding(id, e, o, t)), steps) == Some(Now(old(queue), o, t))
      ensures Posted(View(), a) == Sent(old(View()), id, row, e)
    {
      OneMessage(o, t, id);
      assert queue[|queue|..] == [] && (queue + [id])[|queue|..] == [id];
      if e.Raised? {
        RaisedRuns(service.c, service.View(o), t + 1, id, if e.delivered then Some(t) else None);
        steps := RaisedTrace(t + 1, if e.delivered then Some(t) else None);
        service.MarkFailed(id, NotEnqueued);
        if e.delivered {
          queue := queue + [id];
        }
        return Rejected(QueueUnavailable), steps;
      }
      EnqueueRuns(service.c, service.View(o), t, id);
      queue := queue + [id];
      assert service.docs[id := row] == service.docs;
      return Accepted(id), [Event.Enqueue(t)];
    }

    lemma NothingSent(o: World, t: TaskId)
      ensures Now(queue, o, t) == service.View(o)
    {
      assert queue[|queue|..] == [];
    }

    /** Register the file, and enqueue its row if it got one. */
    method Enqueue(f: File, tenant: nat, kind: Kind, fate: Fate, ghost o: World, ghost t: TaskId)
      returns (a: Answer, ghost trace: seq<Event>)
      requires |f.raw| <= service.c.maxUpload && Unissued(fate.id) && FreeFrom(o, t)
      modifies this, service
      ensures Posted(View(), a) == RegisterAndEnqueue(service.c, old(View()), tenant, f, kind, fate)
      ensures old(queue) <= queue && RunFrom(service.c, old(service.View(o)), trace) == Some(Now(old(queue), o, t))
      ensures service.docs.Keys <= service.issued <= old(service.issued) + {fate.id}
    {
      var refusal;
      refusal, trace := Create(f, tenant, kind, fate, o, t);
      if refusal.Some? {
        NothingSent(o, t);
        return Rejected(refusal.value), trace;
      }
      ghost var steps;
      ghost var v := Holding(fate.id, fate.enqueueing, o, t);
      a, steps := Send(fate.id, NewRow(service.c, tenant, kind, f.raw), fate.enqueueing, o, t);
      SentAnyway(old(View()), fate.id, NewRow(service.c, tenant, kind, f.raw), fate.enqueueing);
      Chain(service.c, old(service.View(o)), trace, v, steps, Now(old(queue), o, t));
      trace := trace + steps;
    }

    /** `POST /documents`. */
    method UploadDocument(f: File, tenant: nat, fate: Fate, ghost o: World, ghost t: TaskId)
      returns (a: Answer, ghost trace: seq<Event>)
      requires Unissued(fate.id) && FreeFrom(o, t)
      modifies this, service
      ensures Posted(View(), a) == Post(service.c, old(View()), tenant, f, fate, false)
      ensures old(queue) <= queue && Continues(service.c, old(service.View(o)), trace, Now(old(queue), o, t))
    {
      var kind := SourceTypeFor(f.filename);
      if kind.None? || |f.raw| > service.c.maxUpload {
        NothingSent(o, t);
        Continue(service.c, service.View(o), [], service.View(o));
        return Rejected(if kind.None? then Unsupported else TooLarge), [];
      }
      a, trace := Enqueue(f, tenant, kind.value, fate, o, t);
      Continue(service.c, old(service.View(o)), trace, Now(old(queue), o, t));
    }

    /** One file of a batch: its rejection is recorded against it alone. */
    method TakeFile(f: File, tenant: nat, fate: Fate, ghost o: World, ghost t: TaskId)
      returns (a: Answer, ghost trace: seq<Event>)
      requires Unissued(fate.id) && FreeFrom(o, t)
      modifies this, service
      ensures Posted(View(), a) == Post(service.c, old(View()), tenant, f, fate, true)
      ensures old(queue) <= queue && RunFrom(service.c, old(service.View(o)), trace) == Some(Now(old(queue), o, t))
      ensures service.docs.Keys <= service.issued <= old(service.issued) + {fate.id}
    {
      if |f.raw| > service.c.maxUpload {
        NothingSent(o, t);
        return Rejected(TooLarge), [];
      }
      var kind := SourceTypeFor(if f.filename == "" then "upload" else f.filename);
      if kind.None? {
        NothingSent(o, t);
        return Rejected(Unsupported), [];
      }
      a, trace := Enqueue(f, tenant, kind.value, fate, o, t);
    }

    /** One more file, when the queue was `base` at first and the run so far is `trace`. */
    method TakeNext(f: File, tenant: nat, fate: Fate, ghost base: seq<DocId>, ghost o: World, ghost t: TaskId,
                    ghost w: World, ghost trace: seq<Event>)
      returns (a: Answer, ghost trace': seq<Event>)
      requires Unissued(fate.id) && FreeFrom(o, t) && base <= queue
      requires RunFrom(service.c, w, trace) == Some(Now(base, o, t))
      modifies this, service
      ensures Posted(View(), a) == Post(service.c, old(View()), tenant, f, fate, true)
      ensures base <= queue && RunFrom(service.c, w, trace') == Some(Now(base, o, t))
      ensures service.docs.Keys <= service.issued <= old(service.issued) + {fate.id}
    {
      ghost var before := queue;
      ghost var sent := queue[|base|..];
      StillFree(o, t, sent);
      ghost var steps;
      ghost var o1, t1 := Messages(o, t, sent), t + |sent|;
      ghost var v := service.View(o1);
      a, steps := TakeFile(f, tenant, fate, o1, t1);
      assert RunFrom(service.c, v, steps) == Some(service.View(Messages(o1, t1, queue[|before|..])));
      SentTogether(base, before, queue, o, t);
      Chain(service.c, w, trace, v, steps, service.View(Messages(o, t, queue[|base|..])));
      trace' := trace + steps;
    }

    /** `POST /documents/batch`. */
    method UploadDocumentsBatch(fs: seq<File>, tenant: nat, fates: seq<Fate>, ghost o: World, ghost t: TaskId)
      returns (out: BatchOut, ghost trace: seq<Event>)
      requires |fs| == |fates| && FreshIds(fates, service.issued) && service.docs.Keys <= service.issued && FreeFrom(o, t)
      modifies this, service
      ensures var all := PostAll(service.c, old(View()), tenant, fs, fates, true);
        && View() == all.store
        && |out.results| == |fs|
        && (forall i :: 0 <= i < |fs| ==> Reports(out.results[i], fs[i], all.answers[i]))
      ensures out.accepted == |Held(out.results)| && out.accepted + out.rejected == |fs|
      ensures old(queue) <= queue && Continues(service.c, old(service.View(o)), trace, Now(old(queue), o, t))
    {
      trace := [];
      var results, accepted := [], 0;
      NothingSent(o, t);
      for i := 0 to |fs|
        invariant service.docs.Keys <= service.issued
        invariant forall k :: i <= k < |fs| ==> fates[k].id !in service.issued
        invariant BatchSoFar(service.c, old(View()), tenant, fs[..i], fates[..i], View(), results, accepted)
        invariant old(queue) <= queue && RunFrom(service.c, old(service.View(o)), trace) == Some(Now(old(queue), o, t))
      {
        ghost var before := View();
        var a;
        a, trace := TakeNext(fs[i], tenant, fates[i], old(queue), o, t, old(service.View(o)), trace);
        PrefixSnoc(fs, i);
        PrefixSnoc(fates, i);
        BatchTakes(service.c, old(View()), tenant, fs[..i], fates[..i], fs[i], fates[i], before, results, accepted, View(), a);
        results := results + [ItemFor(fs[i], a)];
        accepted := accepted + if a.Accepted? then 1 else 0;
      }
      assert fs[..|fs|] == fs && fates[..|fs|] == fates;
      Continue(service.c, old(service.View(o)), trace, Now(old(queue), o, t));
      ItemsAre(fs, PostAll(service.c, old(View()), tenant, fs, fates, true).answers);
      CountIsHeld(fs, PostAll(service.c, old(View()), tenant, fs, fates, true).answers);
      out := BatchOut(accepted, |results| - accepted, results);
    }
  }

  // ----- batch equals sequence -----

  lemma UploadHasNoType()
    ensures SourceTypeFor("upload").None? && SourceTypeFor("").None?
  {
    assert Suffix("d").None?;
    assert "upload"[1..][1..][1..][1..] == "ad";
    assert "ad"[1..] == "d";
    assert Suffix("ad").None?;
    assert Suffix("upload"[1..][1..]).None?;
  }

  /** What posting a file leaves: a PENDING row with the file's content and a message for it; the
      row marked failed, and the message only if it got through, when enqueueing raised; or
      nothing, for the first reason that applies. */
  lemma PostStores(c: Config, s: Tables, tenant: nat, f: File, fate: Fate, batch: bool)
    ensures var p, kind, id := Post(c, s, tenant, f, fate, batch), SourceTypeFor(f.filename), fate.id;
      var large, over := |f.raw| > c.maxUpload, c.quota > 0 && UsedBytes(s.docs, tenant) + |f.raw| > c.quota;
      if large && kind.None? then p == Posted(s, Rejected(if batch then TooLarge else Unsupported))
      else if large || kind.None? then p == Posted(s, Rejected(if large then TooLarge else Unsupported))
      else if over then p == Posted(s, Rejected(OverQuota))
      else if Known(s.docs, tenant, c.hash(f.raw)) then p == Posted(s, Rejected(Duplicated))
      else
        var row := Doc(tenant, c.hash(f.raw), kind.value, Some(f.raw), |f.raw|, Pending, None, None);
        if fate.enqueueing == Enqueued then
          p == Posted(Tables(s.docs[id := row], s.queue + [id]), Accepted(id))
        else
          && p.answer == Rejected(QueueUnavailable)
          && p.store.docs == s.docs[id := row.(status := Failed, error := Some(NotEnqueued))]
          && p.store.queue == if fate.enqueueing.delivered then s.queue + [id] else s.queue
  {
    UploadHasNoType();
  }

  /** Both checks fail: the one case in which the routes give different reasons. */
  predicate DoublyBad(c: Config, f: File) {
    SourceTypeFor(f.filename).None? && |f.raw| > c.maxUpload
  }

  lemma PostAgrees(c: Config, s: Tables, tenant: nat, f: File, fate: Fate)
    ensures var one, many := Post(c, s, tenant, f, fate, false), Post(c, s, tenant, f, fate, true);
      && one.store == many.store && (one.answer.Accepted? <==> many.answer.Accepted?)
      && (one.answer == many.answer <==> !DoublyBad(c, f))
  {
    UploadHasNoType();
  }

  /** A batch leaves the same documents and queue as posting its files one by one, accepts the
      same files, and differs in the reason given exactly for files that are too large and of
      an unsupported type. */
  lemma {:induction false} BatchEqualsSequence(c: Config, s: Tables, tenant: nat, fs: seq<File>, fates: seq<Fate>)
    requires |fs| == |fates|
    ensures var one, many := PostAll(c, s, tenant, fs, fates, false), PostAll(c, s, tenant, fs, fates, true);
      && one.store == many.store
      && forall i :: 0 <= i < |fs| ==>
           (one.answers[i].Accepted? <==> many.answers[i].Accepted?)
           && (one.answers[i] == many.answers[i] <==> !DoublyBad(c, fs[i]))
  {
    if fs != [] {
      var n := |fs| - 1;
      BatchEqualsSequence(c, s, tenant, fs[..n], fates[..n]);
      PostAgrees(c, PostAll(c, s, tenant, fs[..n], fates[..n], false).store, tenant, fs[n], fates[n]);
    }
  }
}
