/** The status event stream of one document: what polling a row emits, and what that means
    for the rows a run of the lifecycle shows. */
module StatusStream {
  import opened Prelude
  import opened Lifecycle
  import opened LifecycleFinality

  /** One turn of the loop: the row read, whether the deadline has passed, whether the client left. */
  datatype Poll = Poll(row: Option<Doc>, late: bool, disconnected: bool)

  datatype Emission =
    | StatusEvent(status: Status, chunkCount: Option<nat>, error: Option<Reason>)
    | DoneEvent(status: Status)
    | TimeoutEvent(status: Status)
    | ErrorEvent

  predicate Owned(p: Poll, tenant: nat) { p.row.Some? && p.row.value.tenant == tenant }

  predicate Stops(p: Poll, tenant: nat) {
    !Owned(p, tenant) || p.row.value.status.Terminal() || p.late || p.disconnected
  }

  /** The first poll that ends the stream, or how many there are. */
  function StopIndex(polls: seq<Poll>, tenant: nat): (n: nat)
    ensures n <= |polls|
    ensures forall i :: 0 <= i < n ==> !Stops(polls[i], tenant)
    ensures n < |polls| ==> Stops(polls[n], tenant)
  {
    if polls == [] || Stops(polls[0], tenant) then 0 else 1 + StopIndex(polls[1..], tenant)
  }

  const BLANK := Doc(0, 0, Pdf, None, 0, Pending, None, None)

  /** The rows shown: those of the polls before the last one, and its own if there is one. */
  function Shown(polls: seq<Poll>, tenant: nat): seq<Doc> {
    var n := StopIndex(polls, tenant);
    var before := seq(n, i requires 0 <= i < n => if polls[i].row.Some? then polls[i].row.value else BLANK);
    if n < |polls| && Owned(polls[n], tenant) then before + [polls[n].row.value] else before
  }

  function ReportOf(d: Doc): Emission { StatusEvent(d.status, d.chunkCount, d.error) }

  /** One report for every row whose status differs from the row before it. */
  function Changes(rows: seq<Doc>): seq<Emission> {
    if rows == [] then []
    else
      var n := |rows| - 1;
      Changes(rows[..n]) + if n == 0 || rows[n].status != rows[n - 1].status then [ReportOf(rows[n])] else []
  }

  /** The closing event of the poll that ended the stream; none if the client left. */
  function Closing(polls: seq<Poll>, tenant: nat): seq<Emission> {
    var n := StopIndex(polls, tenant);
    if n == |polls| then []
    else if !Owned(polls[n], tenant) then [ErrorEvent]
    else
      var status := polls[n].row.value.status;
      if status.Terminal() then [DoneEvent(status)]
      else if polls[n].late then [TimeoutEvent(status)]
      else []
  }

  /** The whole stream: the changes among the rows shown, then the closing event. */
  function Stream(polls: seq<Poll>, tenant: nat): seq<Emission> {
    Changes(Shown(polls, tenant)) + Closing(polls, tenant)
  }

  /** `rows` are those of the first `|rows|` polls, all the tenant's own. */
  ghost predicate Read(polls: seq<Poll>, tenant: nat, rows: seq<Doc>) {
    |rows| <= |polls| && forall k :: 0 <= k < |rows| ==> polls[k].row == Some(rows[k]) && rows[k].tenant == tenant
  }

  lemma ShownAre(polls: seq<Poll>, tenant: nat, rows: seq<Doc>, n: nat)
    requires n == StopIndex(polls, tenant) && Read(polls, tenant, rows)
    requires |rows| == if n < |polls| && Owned(polls[n], tenant) then n + 1 else n
    ensures Shown(polls, tenant) == rows
  {
  }

  lemma ChangesSnoc(rows: seq<Doc>, d: Doc)
    ensures Changes(rows + [d])
         == Changes(rows) + if rows == [] || d.status != rows[|rows| - 1].status then [ReportOf(d)] else []
  {
    assert (rows + [d])[..|rows|] == rows;
  }

  /** Where the loop stands before poll `i`. */
  ghost predicate Streaming(polls: seq<Poll>, tenant: nat, i: nat, rows: seq<Doc>, out: seq<Emission>, last: Option<Status>) {
    && i <= StopIndex(polls, tenant) && |rows| == i && Read(polls, tenant, rows)
    && out == Changes(rows)
    && last == if i == 0 then None else Some(rows[i - 1].status)
  }

  /** The row of poll `i` is reported if its status is new. */
  lemma Reports(polls: seq<Poll>, tenant: nat, i: nat, rows: seq<Doc>, out: seq<Emission>, last: Option<Status>)
    requires i < |polls| && Streaming(polls, tenant, i, rows, out, last) && Owned(polls[i], tenant)
    ensures var doc := polls[i].row.value;
      && Read(polls, tenant, rows + [doc])
      && Changes(rows + [doc]) == if Some(doc.status) != last then out + [ReportOf(doc)] else out
  {
    ChangesSnoc(rows, polls[i].row.value);
  }

  /** The stream ends at poll `i`, whose row is not the tenant's. */
  lemma EndsUnowned(polls: seq<Poll>, tenant: nat, i: nat, rows: seq<Doc>, out: seq<Emission>, last: Option<Status>)
    requires i < |polls| && Streaming(polls, tenant, i, rows, out, last) && !Owned(polls[i], tenant)
    ensures Stream(polls, tenant) == out + [ErrorEvent]
  {
    ShownAre(polls, tenant, rows, i);
  }

  /** The stream ends at poll `i`, after its row. */
  lemma EndsShown(polls: seq<Poll>, tenant: nat, i: nat, rows: seq<Doc>)
    requires i < |polls| && i <= StopIndex(polls, tenant) && Stops(polls[i], tenant)
    requires |rows| == i + 1 && Read(polls, tenant, rows)
    ensures var status := rows[i].status;
      Stream(polls, tenant) == Changes(rows)
        + if status.Terminal() then [DoneEvent(status)] else if polls[i].late then [TimeoutEvent(status)] else []
  {
    ShownAre(polls, tenant, rows, i);
  }

  /** The polls run out before the stream ends. */
  lemma StillOpen(polls: seq<Poll>, tenant: nat, rows: seq<Doc>, out: seq<Emission>, last: Option<Status>)
    requires Streaming(polls, tenant, |polls|, rows, out, last)
    ensures Stream(polls, tenant) == out
  {
    ShownAre(polls, tenant, rows, |polls|);
  }

  /** `event_stream`, for as long as the polls go. */
  method EventStream(polls: seq<Poll>, tenant: nat) returns (out: seq<Emission>)
    ensures out == Stream(polls, tenant)
  {
    out := [];
    var last: Option<Status> := None;
    ghost var rows: seq<Doc> := [];
    for i := 0 to |polls|
      invariant Streaming(polls, tenant, i, rows, out, last)
    {
      var p := polls[i];
      if p.row.None? || p.row.value.tenant != tenant {
        EndsUnowned(polls, tenant, i, rows, out, last);
        return out + [ErrorEvent];
      }
      var doc := p.row.value;
      Reports(polls, tenant, i, rows, out, last);
      rows := rows + [doc];
      if Some(doc.status) != last {
        last := Some(doc.status);
        out := out + [ReportOf(doc)];
      }
      if Stops(p, tenant) { EndsShown(polls, tenant, i, rows); }
      if doc.status.Terminal() {
        return out + [DoneEvent(doc.status)];
      }
      if p.late {
        return out + [TimeoutEvent(doc.status)];
      }
      if p.disconnected {
        return out;
      }
    }
    StillOpen(polls, tenant, rows, out, last);
  }

  // ----- what a client sees -----

  /** Rows whose status never goes back, and never leaves a terminal status. */
  ghost predicate Climbing(rows: seq<Doc>) {
    forall i :: 0 <= i < |rows| - 1 ==> Climbs(rows[i].status, rows[i + 1].status)
  }

  lemma {:induction false} ClimbingIsShort(rows: seq<Doc>)
    requires Climbing(rows) && rows != []
    ensures |Changes(rows)| <= 1 + Rank(rows[|rows| - 1].status) - Rank(rows[0].status)
  {
    var n := |rows| - 1;
    if n > 0 {
      ClimbingIsShort(rows[..n]);
      assert Climbs(rows[n - 1].status, rows[n].status);
    } else {
      assert rows[..0] == [];
    }
  }

  /** The row a poll at this point of the run reads. */
  ghost function RowAt(c: Config, es: seq<Event>, p: nat, id: DocId): Option<Doc>
    requires p <= |es|
  {
    var w := Exec(c, es[..p]);
    if w.Some? && id in w.value.docs then Some(w.value.docs[id]) else None
  }

  ghost predicate Ascending(at: seq<nat>, end: nat) {
    && (forall i :: 0 <= i < |at| ==> at[i] <= end)
    && (forall i, j :: 0 <= i < j < |at| ==> at[i] <= at[j])
  }

  lemma {:induction false} CleanPrefix(c: Config, es: seq<Event>, n: nat)
    requires CleanRun(c, es) && n <= |es|
    ensures CleanRun(c, es[..n]) && Exec(c, es[..n]).Some?
    decreases |es|
  {
    if n < |es| {
      assert es[..|es| - 1][..n] == es[..n];
      CleanPrefix(c, es[..|es| - 1], n);
    } else {
      assert es[..n] == es;
    }
  }

  lemma RowsClimb(c: Config, es: seq<Event>, p: nat, q: nat, id: DocId)
    requires CleanRun(c, es) && p <= q <= |es|
    requires RowAt(c, es, p, id).Some? && RowAt(c, es, q, id).Some?
    ensures Climbs(RowAt(c, es, p, id).value.status, RowAt(c, es, q, id).value.status)
  {
    CleanPrefix(c, es, q);
    assert es[..q][..p] == es[..p];
    TerminalIsFinal(c, es[..q], p, id);
  }

  function Reported(out: seq<Emission>): nat {
    if out == [] then 0 else Reported(out[..|out| - 1]) + if out[|out| - 1].StatusEvent? then 1 else 0
  }

  lemma {:induction false} ReportedAppend(a: seq<Emission>, b: seq<Emission>)
    ensures Reported(a + b) == Reported(a) + Reported(b)
  {
    if b == [] {
      assert a + b == a;
    } else {
      var n := |b| - 1;
      assert (a + b)[..|a + b| - 1] == a + b[..n];
      ReportedAppend(a, b[..n]);
    }
  }

  lemma {:induction false} ReportedAtMost(out: seq<Emission>)
    ensures Reported(out) <= |out|
  {
    if out != [] { ReportedAtMost(out[..|out| - 1]); }
  }

  lemma ClosingIsNoReport(polls: seq<Poll>, tenant: nat)
    ensures Reported(Closing(polls, tenant)) == 0
  {
    var out := Closing(polls, tenant);
    assert out != [] ==> out[..|out| - 1] == [];
  }

  /** The polls read the rows of the run at these points. */
  ghost predicate Polls(c: Config, es: seq<Event>, id: DocId, at: seq<nat>, polls: seq<Poll>) {
    && Ascending(at, |es|) && |polls| == |at|
    && forall i :: 0 <= i < |at| ==> polls[i].row == RowAt(c, es, at[i], id)
  }

  lemma ShownAt(polls: seq<Poll>, tenant: nat, i: nat)
    requires i < |Shown(polls, tenant)|
    ensures i < |polls| && polls[i].row == Some(Shown(polls, tenant)[i])
  {
  }

  /** The rows are those of the run at these points. */
  ghost predicate RowsAt(c: Config, es: seq<Event>, id: DocId, at: seq<nat>, rows: seq<Doc>) {
    && Ascending(at, |es|) && |rows| <= |at|
    && forall i :: 0 <= i < |rows| ==> RowAt(c, es, at[i], id) == Some(rows[i])
  }

  lemma ShownAreRows(c: Config, es: seq<Event>, id: DocId, at: seq<nat>, polls: seq<Poll>, tenant: nat)
    requires Polls(c, es, id, at, polls)
    ensures RowsAt(c, es, id, at, Shown(polls, tenant))
  {
    var rows := Shown(polls, tenant);
    forall i | 0 <= i < |rows|
      ensures i < |polls| && polls[i].row == Some(rows[i])
    {
      ShownAt(polls, tenant, i);
    }
  }

  lemma NextClimbs(c: Config, es: seq<Event>, id: DocId, at: seq<nat>, rows: seq<Doc>, i: nat)
    requires CleanRun(c, es) && RowsAt(c, es, id, at, rows) && i + 1 < |rows|
    ensures Climbs(rows[i].status, rows[i + 1].status)
  {
    RowsClimb(c, es, at[i], at[i + 1], id);
  }

  lemma ShownClimb(c: Config, es: seq<Event>, id: DocId, at: seq<nat>, polls: seq<Poll>, tenant: nat)
    requires CleanRun(c, es) && Polls(c, es, id, at, polls)
    ensures Climbing(Shown(polls, tenant))
  {
    var rows := Shown(polls, tenant);
    ShownAreRows(c, es, id, at, polls, tenant);
    forall i | 0 <= i < |rows| - 1
      ensures Climbs(rows[i].status, rows[i + 1].status)
    {
      NextClimbs(c, es, id, at, rows, i);
    }
  }

  /** With exactly-once delivery a stream over the run, polled whenever and whether or not the
      document is deleted meanwhile, reports at most three statuses. */
  lemma CleanStreamIsShort(c: Config, es: seq<Event>, id: DocId, at: seq<nat>, polls: seq<Poll>, tenant: nat)
    requires CleanRun(c, es) && Polls(c, es, id, at, polls)
    ensures Reported(Stream(polls, tenant)) <= 3
  {
    var rows := Shown(polls, tenant);
    ShownClimb(c, es, id, at, polls, tenant);
    if rows != [] { ClimbingIsShort(rows); }
    ReportedAppend(Changes(rows), Closing(polls, tenant));
    ReportedAtMost(Changes(rows));
    ClosingIsNoReport(polls, tenant);
  }

  lemma {:induction false} ChangesAreReports(rows: seq<Doc>)
    ensures forall e :: e in Changes(rows) ==> e.StatusEvent?
  {
    if rows != [] { ChangesAreReports(rows[..|rows| - 1]); }
  }

  lemma DoneIsClosing(polls: seq<Poll>, tenant: nat, status: Status)
    requires DoneEvent(status) in Stream(polls, tenant)
    ensures var n := StopIndex(polls, tenant);
      n < |polls| && Owned(polls[n], tenant) && polls[n].row.value.status == status && status.Terminal()
  {
    ChangesAreReports(Shown(polls, tenant));
  }

  /** And the status in its `done` event is the document's status ever after. */
  lemma CleanDoneIsFinal(c: Config, es: seq<Event>, id: DocId, at: seq<nat>, polls: seq<Poll>, tenant: nat, status: Status, p: nat)
    requires CleanRun(c, es) && Polls(c, es, id, at, polls) && DoneEvent(status) in Stream(polls, tenant)
    requires StopIndex(polls, tenant) < |at| && at[StopIndex(polls, tenant)] <= p <= |es| && RowAt(c, es, p, id).Some?
    ensures RowAt(c, es, p, id).value.status == status
  {
    DoneIsClosing(polls, tenant, status);
    RowsClimb(c, es, at[StopIndex(polls, tenant)], p, id);
  }

  predicate Alternate(a: Emission, b: Emission) {
    a.StatusEvent? && b.StatusEvent? && a.status != b.status
  }

  /** The statuses reported never repeat next to each other, and end with the last row's. */
  lemma {:induction false} ReportsAlternate(rows: seq<Doc>)
    requires rows != []
    ensures var out := Changes(rows);
      && out != [] && out[|out| - 1].StatusEvent? && out[|out| - 1].status == rows[|rows| - 1].status
      && out[0] == ReportOf(rows[0])
      && forall i :: 0 < i < |out| ==> Alternate(out[i - 1], out[i])
  {
    var n := |rows| - 1;
    if n > 0 {
      ReportsAlternate(rows[..n]);
    } else {
      assert Changes(rows[..0]) == [];
    }
  }

  /** Which rows have a status the row before them had not. */
  function NewStatus(rows: seq<Doc>): seq<bool> {
    seq(|rows|, i requires 0 <= i < |rows| => i == 0 || rows[i].status != rows[i - 1].status)
  }

  /** `at` are the places of the marked ones, in order. */
  ghost predicate PlacesOf(marks: seq<bool>, at: seq<nat>) {
    && (forall k :: 0 <= k < |at| ==> at[k] < |marks| && marks[at[k]])
    && (forall j, k :: 0 <= j < k < |at| ==> at[j] < at[k])
    && (forall i :: 0 <= i < |marks| && marks[i] ==> i in at)
  }

  function Places(marks: seq<bool>): seq<nat> {
    if marks == [] then []
    else
      var n := |marks| - 1;
      Places(marks[..n]) + if marks[n] then [n] else []
  }

  lemma {:induction false} PlacesExact(marks: seq<bool>)
    ensures PlacesOf(marks, Places(marks))
  {
    if marks != [] {
      var n := |marks| - 1;
      var before := Places(marks[..n]);
      PlacesExact(marks[..n]);
      assert forall i :: 0 <= i < n ==> marks[..n][i] == marks[i];
      assert forall i :: i in before ==> i in Places(marks);
      if marks[n] { assert Places(marks)[|before|] == n; }
    }
  }

  ghost predicate ReportsOf(rows: seq<Doc>, at: seq<nat>, out: seq<Emission>) {
    |out| == |at| && forall k :: 0 <= k < |at| ==>
      at[k] < |rows| && out[k] == StatusEvent(rows[at[k]].status, rows[at[k]].chunkCount, rows[at[k]].error)
  }

  lemma ReportsSnoc(rows: seq<Doc>, more: seq<Doc>, at: seq<nat>, out: seq<Emission>, isNew: bool)
    requires ReportsOf(rows, at, out) && rows < more
    ensures ReportsOf(more, at + (if isNew then [|rows|] else []), out + if isNew then [ReportOf(more[|rows|])] else [])
  {
  }

  lemma PlacesStep(rows: seq<Doc>, n: nat)
    requires |rows| == n + 1
    ensures Places(NewStatus(rows))
         == Places(NewStatus(rows[..n])) + if n == 0 || rows[n].status != rows[n - 1].status then [n] else []
  {
    assert NewStatus(rows)[..n] == NewStatus(rows[..n]);
  }

  ghost predicate AtPlaces(rows: seq<Doc>) { ReportsOf(rows, Places(NewStatus(rows)), Changes(rows)) }

  lemma NextAtPlaces(rows: seq<Doc>, d: Doc)
    requires AtPlaces(rows)
    ensures AtPlaces(rows + [d])
  {
    assert (rows + [d])[..|rows|] == rows;
    PlacesStep(rows + [d], |rows|);
    ChangesSnoc(rows, d);
    ReportsSnoc(rows, rows + [d], Places(NewStatus(rows)), Changes(rows),
                rows == [] || d.status != rows[|rows| - 1].status);
  }

  lemma {:induction false} ReportsAtPlaces(rows: seq<Doc>)
    ensures AtPlaces(rows)
  {
    if rows != [] {
      var n := |rows| - 1;
      ReportsAtPlaces(rows[..n]);
      NextAtPlaces(rows[..n], rows[n]);
      assert rows[..n] + [rows[n]] == rows;
    }
  }

  /** The reports are the rows with a new status, in order: status, chunk count and error of each. */
  lemma ReportsAreRows(rows: seq<Doc>)
    ensures PlacesOf(NewStatus(rows), Places(NewStatus(rows)))
    ensures ReportsOf(rows, Places(NewStatus(rows)), Changes(rows))
  {
    PlacesExact(NewStatus(rows));
    ReportsAtPlaces(rows);
  }

  /** The rows a client is shown are those of the polls up to the one that ends the stream, and
      how it closes: an error when the row is gone or another tenant's, done at a terminal status,
      a timeout past the deadline, and nothing when the client left or the stream is still open. */
  lemma StreamCloses(polls: seq<Poll>, tenant: nat)
    ensures var n, out, rows := StopIndex(polls, tenant), Closing(polls, tenant), Shown(polls, tenant);
      && Stream(polls, tenant) == Changes(rows) + out
      && |rows| == (if n < |polls| && polls[n].row.Some? && polls[n].row.value.tenant == tenant then n + 1 else n)
      && (forall i :: 0 <= i < |rows| ==> polls[i].row == Some(rows[i]) && rows[i].tenant == tenant)
      && (forall i :: 0 <= i < n ==> !polls[i].late && !polls[i].disconnected && !rows[i].status.Terminal())
      && (out == [ErrorEvent] <==> n < |polls| && |rows| == n)
      && (forall s :: out == [DoneEvent(s)] <==> |rows| == n + 1 && rows[n].status == s && s.Terminal())
      && (forall s :: out == [TimeoutEvent(s)] <==> |rows| == n + 1 && rows[n].status == s && !s.Terminal() && polls[n].late)
      && (out == [] <==> n == |polls| || (|rows| == n + 1 && polls[n].disconnected && !polls[n].late && !rows[n].status.Terminal()))
  {
    var n, rows := StopIndex(polls, tenant), Shown(polls, tenant);
    forall i | 0 <= i < |rows|
      ensures polls[i].row == Some(rows[i]) && rows[i].tenant == tenant
    {
      ShownAt(polls, tenant, i);
    }
  }
}
