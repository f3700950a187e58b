/** The fixed-window rate limiter: a counter per key and minute in Redis, with a TTL. Times
    are whole seconds on one clock; a call reads the clock, and its INCR, with the
    EXPIRE that may follow, runs a little later. */
module RateLimit {
  import opened Prelude

  const WINDOW: nat := 60
  const TTL: nat := 65

  /** A counter, and when it expires; without a TTL it never does. */
  datatype Entry = Entry(count: nat, expires: Option<nat>)
  datatype Bucket = Bucket(key: string, window: nat)

  /** What goes wrong in a call: INCR raised, whether or not it took effect; EXPIRE raised, or
      the call was cut off (cancelled, or its process killed) after INCR, whether or not an
      EXPIRE took effect. */
  datatype Fault = NoFault | IncrFails(applied: bool) | ExpireFails(took: bool) | CutOff(took: bool)

  /** `now` is what `check` read; `at` is when its INCR ran. */
  datatype Call = Call(key: string, now: nat, at: nat, fault: Fault)

  /** A call cut off has no answer. */
  datatype Verdict = Pass | FailOpen | Limited(retryAfter: nat) | Unanswered

  function BucketOf(c: Call): Bucket { Bucket(c.key, c.now / WINDOW) }

  predicate Live(entries: map<Bucket, Entry>, b: Bucket, at: nat) {
    b in entries && (entries[b].expires.Some? ==> at < entries[b].expires.value)
  }

  /** INCR: a missing or expired counter starts at one, without a TTL. */
  function Incremented(entries: map<Bucket, Entry>, b: Bucket, at: nat): Entry {
    if Live(entries, b, at) then entries[b].(count := entries[b].count + 1) else Entry(1, None)
  }

  datatype Checked = Checked(entries: map<Bucket, Entry>, verdict: Verdict)

  predicate RedisError(f: Fault) { f.IncrFails? || f.ExpireFails? }

  predicate Applies(c: Call) { c.fault.IncrFails? ==> c.fault.applied }

  /** If this call is the first of a counter, its EXPIRE takes effect. */
  predicate SetsTtl(c: Call) {
    match c.fault
    case NoFault => true
    case IncrFails(_) => false
    case ExpireFails(took) => took
    case CutOff(took) => took
  }

  function CheckStep(limit: int, entries: map<Bucket, Entry>, c: Call): Checked {
    var b := BucketOf(c);
    var e := Incremented(entries, b, c.at);
    var after :=
      if !Applies(c) then entries
      else entries[b := if e.count == 1 && SetsTtl(c) then e.(expires := Some(c.at + TTL)) else e];
    var verdict :=
      if c.fault.CutOff? then Unanswered
      else if c.fault.IncrFails? || (e.count == 1 && c.fault.ExpireFails?) then FailOpen
      else if e.count > limit then Limited(Max(WINDOW - c.now % WINDOW, 1))
      else Pass;
    Checked(after, verdict)
  }

  /** Waiting until the window is over lands exactly on the start of the next. */
  lemma NextWindow(now: nat)
    ensures 1 <= WINDOW - now % WINDOW <= WINDOW
    ensures (now + (WINDOW - now % WINDOW)) % WINDOW == 0
    ensures (now + (WINDOW - now % WINDOW)) / WINDOW == now / WINDOW + 1
  {
  }

  class RateLimiter {
    const limit: int
    var entries: map<Bucket, Entry>

    constructor (limit: int)
      ensures this.limit == limit && entries == map[]
    {
      this.limit, entries := limit, map[];
    }

    method Incr(b: Bucket, at: nat) returns (count: nat)
      modifies this
      ensures entries == old(entries)[b := Incremented(old(entries), b, at)]
      ensures count == entries[b].count
    {
      entries := entries[b := Incremented(entries, b, at)];
      count := entries[b].count;
    }

    /** `check`: raises over the limit, and says when the next window starts. */
    method Check(c: Call) returns (v: Verdict)
      modifies this
      ensures Checked(entries, v) == CheckStep(limit, old(entries), c)
      ensures v.Limited? ==> (c.now + v.retryAfter) % WINDOW == 0
                             && (c.now + v.retryAfter) / WINDOW == c.now / WINDOW + 1
    {
      var b := BucketOf(c);
      if c.fault.IncrFails? {
        if c.fault.applied {
          var _ := Incr(b, c.at);
        }
        return FailOpen;
      }
      var count := Incr(b, c.at);
      if count == 1 && SetsTtl(c) {
        entries := entries[b := entries[b].(expires := Some(c.at + TTL))];
      }
      if c.fault.CutOff? {
        return Unanswered;
      }
      if count == 1 && c.fault.ExpireFails? {
        return FailOpen;
      }
      if count > limit {
        NextWindow(c.now);
        return Limited(Max(WINDOW - c.now % WINDOW, 1));
      }
      return Pass;
    }
  }

  // ----- traces -----

  datatype Trace = Trace(entries: map<Bucket, Entry>, verdicts: seq<Verdict>)

  function RunCalls(limit: int, calls: seq<Call>): (r: Trace)
    ensures |r.verdicts| == |calls|
  {
    if calls == [] then Trace(map[], [])
    else
      var n := |calls| - 1;
      var before := RunCalls(limit, calls[..n]);
      var step := CheckStep(limit, before.entries, calls[n]);
      Trace(step.entries, before.verdicts + [step.verdict])
  }

  /** Calls reach Redis in order, each at most `latency` seconds after it read the clock. */
  ghost predicate Timely(calls: seq<Call>, latency: nat) {
    && (forall i :: 0 <= i < |calls| ==> calls[i].now <= calls[i].at <= calls[i].now + latency)
    && (forall i, j :: 0 <= i < j < |calls| ==> calls[i].at <= calls[j].at)
  }

  /** The counted passes of a bucket. */
  function Passes(limit: int, calls: seq<Call>, b: Bucket): nat {
    if calls == [] then 0
    else
      var n := |calls| - 1;
      Passes(limit, calls[..n], b)
      + if BucketOf(calls[n]) == b && RunCalls(limit, calls).verdicts[n] == Pass then 1 else 0
  }

  /** The increments of a bucket that took effect. */
  function Increments(calls: seq<Call>, b: Bucket): nat {
    if calls == [] then 0
    else
      var n := |calls| - 1;
      Increments(calls[..n], b) + if BucketOf(calls[n]) == b && Applies(calls[n]) then 1 else 0
  }

  /** After `n` increments a bucket counts them all, and outlives its own window by five seconds. */
  ghost predicate CountsAll(entries: map<Bucket, Entry>, b: Bucket, n: nat) {
    if n == 0 then b !in entries
    else
      && b in entries && entries[b].count == n
      && (entries[b].expires.Some? ==> entries[b].expires.value >= WINDOW * b.window + TTL)
  }

  lemma CountStep(limit: int, entries: map<Bucket, Entry>, c: Call, b: Bucket, n: nat)
    requires c.now <= c.at <= c.now + 5 && CountsAll(entries, b, n)
    ensures var after := CheckStep(limit, entries, c);
      var n' := n + if BucketOf(c) == b && Applies(c) then 1 else 0;
      && CountsAll(after.entries, b, n')
      && (BucketOf(c) == b && after.verdict == Pass ==> n' <= limit && n' == n + 1)
  {
    if BucketOf(c) == b {
      assert WINDOW * b.window <= c.now < WINDOW * b.window + WINDOW;
      if n > 0 { assert Live(entries, b, c.at); }
    }
  }

  /** No counter is reset inside its own window, so its count is the number of increments. */
  lemma {:induction false} CountersNeverReset(limit: int, calls: seq<Call>, b: Bucket)
    requires Timely(calls, 5)
    ensures CountsAll(RunCalls(limit, calls).entries, b, Increments(calls, b))
    ensures Passes(limit, calls, b) <= Increments(calls, b) && Passes(limit, calls, b) <= Max(limit, 0)
  {
    if calls != [] {
      var n := |calls| - 1;
      CountersNeverReset(limit, calls[..n], b);
      CountStep(limit, RunCalls(limit, calls[..n]).entries, calls[n], b, Increments(calls[..n], b));
    }
  }

  /** At most `limit` counted passes per key and aligned minute. */
  lemma WindowBound(limit: nat, calls: seq<Call>, b: Bucket)
    requires Timely(calls, 5)
    ensures Passes(limit, calls, b) <= limit
  {
    CountersNeverReset(limit, calls, b);
  }

  lemma {:induction false} VerdictAt(limit: int, calls: seq<Call>, n: nat)
    requires n < |calls|
    ensures RunCalls(limit, calls).verdicts[n] == CheckStep(limit, RunCalls(limit, calls[..n]).entries, calls[n]).verdict
  {
    var m := |calls| - 1;
    if n < m {
      VerdictAt(limit, calls[..m], n);
      assert calls[..m][..n] == calls[..n];
    }
  }

  /** Which answer a call gets, by its fault and the increments before it in its minute: an error
      lets it through uncounted; otherwise the first `limit` pass, and the others are told to
      wait exactly until the next minute. */
  lemma VerdictExact(limit: int, calls: seq<Call>, n: nat)
    requires Timely(calls, 5) && n < |calls|
    ensures var c, v := calls[n], RunCalls(limit, calls).verdicts[n];
      var count := Increments(calls[..n], BucketOf(c)) + 1;
      var failed := c.fault.IncrFails? || (c.fault.ExpireFails? && count == 1);
      && (v == Unanswered <==> c.fault.CutOff?)
      && (v == FailOpen <==> failed)
      && (v == Pass <==> !c.fault.CutOff? && !failed && count <= limit)
      && (v.Limited? ==> v.retryAfter > 0 && c.now + v.retryAfter == 60 * (c.now / 60 + 1))
  {
    VerdictAt(limit, calls, n);
    CountersNeverReset(limit, calls[..n], BucketOf(calls[n]));
    CountStep(limit, RunCalls(limit, calls[..n]).entries, calls[n], BucketOf(calls[n]), Increments(calls[..n], BucketOf(calls[n])));
    NextWindow(calls[n].now);
  }

  predicate Lets(v: Verdict) { v.Pass? || v.FailOpen? }

  predicate InSpan(c: Call, key: string, from: nat) { c.key == key && from <= c.now < from + WINDOW }

  /** Requests of the key that got through with a clock reading in `[from, from + 60)`. */
  function Admitted(limit: int, calls: seq<Call>, key: string, from: nat): nat {
    if calls == [] then 0
    else
      var n := |calls| - 1;
      Admitted(limit, calls[..n], key, from)
      + if InSpan(calls[n], key, from) && Lets(RunCalls(limit, calls).verdicts[n]) then 1 else 0
  }

  /** Redis errors of the key in that span. */
  function Errors(calls: seq<Call>, key: string, from: nat): nat {
    if calls == [] then 0
    else
      var n := |calls| - 1;
      Errors(calls[..n], key, from) + if InSpan(calls[n], key, from) && RedisError(calls[n].fault) then 1 else 0
  }

  lemma {:induction false} SpanIsTwoWindows(limit: int, calls: seq<Call>, key: string, from: nat)
    ensures Admitted(limit, calls, key, from)
         <= Passes(limit, calls, Bucket(key, from / WINDOW)) + Passes(limit, calls, Bucket(key, from / WINDOW + 1))
            + Errors(calls, key, from)
  {
    if calls != [] {
      var n := |calls| - 1;
      SpanIsTwoWindows(limit, calls[..n], key, from);
      if InSpan(calls[n], key, from) {
        assert calls[n].now / WINDOW == from / WINDOW || calls[n].now / WINDOW == from / WINDOW + 1;
      }
    }
  }

  /** At most twice the limit in any sixty consecutive seconds, plus one per Redis error. */
  lemma SlidingBound(limit: nat, calls: seq<Call>, key: string, from: nat)
    requires Timely(calls, 5)
    ensures Admitted(limit, calls, key, from) <= 2 * limit + Errors(calls, key, from)
  {
    SpanIsTwoWindows(limit, calls, key, from);
    WindowBound(limit, calls, Bucket(key, from / WINDOW));
    WindowBound(limit, calls, Bucket(key, from / WINDOW + 1));
  }

  // ----- how much the five seconds of slack are worth -----

  function Repeat(c: Call, n: nat): seq<Call> { seq(n, i => c) }

  lemma {:induction false} BurstPasses(limit: nat, n: nat)
    requires 1 <= n <= limit
    ensures var calls := Repeat(Call("", 0, 0, NoFault), n);
      RunCalls(limit, calls).entries == map[Bucket("", 0) := Entry(n, Some(TTL))]
      && Passes(limit, calls, Bucket("", 0)) == n
  {
    var c := Call("", 0, 0, NoFault);
    assert Repeat(c, n)[..n - 1] == Repeat(c, n - 1);
    if n > 1 {
      BurstPasses(limit, n - 1);
    }
  }

  /** A call that reaches Redis six seconds late finds its own window's counter gone. */
  lemma LateCallResets(limit: nat)
    requires limit >= 1
    ensures exists calls :: Timely(calls, 6) && Passes(limit, calls, Bucket("", 0)) == limit + 1
  {
    var burst, late := Repeat(Call("", 0, 0, NoFault), limit), Call("", 59, 65, NoFault);
    var calls := burst + [late];
    BurstPasses(limit, limit);
    assert calls[..limit] == burst;
    assert BucketOf(late) == Bucket("", 0);
    assert !Live(RunCalls(limit, burst).entries, Bucket("", 0), 65);
    assert Timely(calls, 6);
  }

  /** The per-window bound holds for every trace exactly when INCR runs at most five seconds
      after the clock was read: the slack of the TTL. */
  lemma SlackExact(limit: nat, latency: nat)
    requires limit >= 1
    ensures (forall calls, b :: Timely(calls, latency) ==> Passes(limit, calls, b) <= limit) <==> latency <= 5
  {
    if latency <= 5 {
      forall calls, b | Timely(calls, latency)
        ensures Passes(limit, calls, b) <= limit
      {
        assert Timely(calls, 5);
        WindowBound(limit, calls, b);
      }
    } else {
      LateCallResets(limit);
      var calls :| Timely(calls, 6) && Passes(limit, calls, Bucket("", 0)) == limit + 1;
      assert Timely(calls, latency);
    }
  }

  // ----- buckets that linger -----

  /** The call that started the counter `b` now has: the first applied one, or the first since
      the counter before it expired. Only the calls and their faults decide. */
  function Starter(calls: seq<Call>, b: Bucket): Option<Call> {
    if calls == [] then None
    else
      var n := |calls| - 1;
      var before, c := Starter(calls[..n], b), calls[n];
      if BucketOf(c) != b || !Applies(c) then before
      else if before.None? || (SetsTtl(before.value) && c.at >= before.value.at + TTL) then Some(c)
      else before
  }

  /** When a counter expires: `TTL` after the call that started it, or never. */
  function ExpiryOf(starter: Call): Option<nat> {
    if SetsTtl(starter) then Some(starter.at + TTL) else None
  }

  /** The counter is the one its starter began, and counts something. */
  ghost predicate StartedBy(entries: map<Bucket, Entry>, b: Bucket, starter: Option<Call>) {
    if starter.None? then b !in entries
    else b in entries && entries[b].count >= 1 && entries[b].expires == ExpiryOf(starter.value)
  }

  lemma StarterStep(limit: int, entries: map<Bucket, Entry>, c: Call, b: Bucket, before: Option<Call>)
    requires StartedBy(entries, b, before)
    ensures StartedBy(CheckStep(limit, entries, c).entries, b,
      if BucketOf(c) != b || !Applies(c) then before
      else if before.None? || (SetsTtl(before.value) && c.at >= before.value.at + TTL) then Some(c)
      else before)
  {
  }

  lemma {:induction false} CounterIsStarted(limit: int, calls: seq<Call>, b: Bucket)
    ensures StartedBy(RunCalls(limit, calls).entries, b, Starter(calls, b))
  {
    if calls != [] {
      var n := |calls| - 1;
      CounterIsStarted(limit, calls[..n], b);
      StarterStep(limit, RunCalls(limit, calls[..n]).entries, calls[n], b, Starter(calls[..n], b));
    }
  }

  /** The bucket is there and nothing will expire it. */
  predicate Lingers(limit: int, calls: seq<Call>, b: Bucket) {
    var entries := RunCalls(limit, calls).entries;
    b in entries && entries[b].expires.None?
  }

  /** In any trace, however slow its calls: a bucket has no TTL exactly when the call that
      started its counter did not get its EXPIRE to take effect. */
  lemma LingersIff(limit: int, calls: seq<Call>, b: Bucket)
    ensures Lingers(limit, calls, b) <==> Starter(calls, b).Some? && !SetsTtl(Starter(calls, b).value)
  {
    CounterIsStarted(limit, calls, b);
  }

  /** Whatever calls come after, it stays so: no later call sets a TTL. */
  lemma {:induction false} LingersForever(limit: int, calls: seq<Call>, more: seq<Call>, b: Bucket)
    requires Lingers(limit, calls, b)
    ensures Lingers(limit, calls + more, b)
    decreases |more|
  {
    if more == [] {
      assert calls + more == calls;
    } else {
      var m := |more| - 1;
      LingersForever(limit, calls, more[..m], b);
      assert (calls + more)[..|calls + more| - 1] == calls + more[..m];
      LingersIff(limit, calls + more[..m], b);
      LingersIff(limit, calls + more, b);
    }
  }

  /** The first applied call of the bucket left it without a TTL. */
  predicate FirstUnset(calls: seq<Call>, b: Bucket) {
    if calls == [] then false
    else if BucketOf(calls[0]) == b && Applies(calls[0]) then !SetsTtl(calls[0])
    else FirstUnset(calls[1..], b)
  }

  lemma {:induction false} IncrementsCons(calls: seq<Call>, b: Bucket)
    requires calls != []
    ensures Increments(calls, b) == Increments(calls[1..], b) + if BucketOf(calls[0]) == b && Applies(calls[0]) then 1 else 0
  {
    if |calls| > 1 {
      var n := |calls| - 1;
      IncrementsCons(calls[..n], b);
      assert calls[..n][1..] == calls[1..][..n - 1];
    } else {
      assert calls[..0] == [] && calls[1..] == [];
    }
  }

  lemma {:induction false} FirstUnsetSnoc(calls: seq<Call>, c: Call, b: Bucket)
    ensures FirstUnset(calls + [c], b)
        <==> FirstUnset(calls, b) || (Increments(calls, b) == 0 && BucketOf(c) == b && Applies(c) && !SetsTtl(c))
  {
    if calls == [] {
      assert (calls + [c])[1..] == [];
    } else {
      assert (calls + [c])[1..] == calls[1..] + [c];
      FirstUnsetSnoc(calls[1..], c, b);
      IncrementsCons(calls, b);
    }
  }

  lemma LingersStep(limit: int, entries: map<Bucket, Entry>, c: Call, b: Bucket, n: nat)
    requires c.now <= c.at <= c.now + 5 && CountsAll(entries, b, n)
    ensures var after := CheckStep(limit, entries, c).entries;
      (b in after && after[b].expires.None?)
        <==> (b in entries && entries[b].expires.None?)
             || (n == 0 && BucketOf(c) == b && Applies(c) && !SetsTtl(c))
  {
    if BucketOf(c) == b {
      assert WINDOW * b.window <= c.now < WINDOW * b.window + WINDOW;
      if n > 0 { assert Live(entries, b, c.at); }
    }
  }

  lemma LingersSnoc(limit: int, calls: seq<Call>, c: Call, b: Bucket)
    requires Timely(calls, 5) && c.now <= c.at <= c.now + 5
    requires Lingers(limit, calls, b) <==> FirstUnset(calls, b)
    ensures Lingers(limit, calls + [c], b) <==> FirstUnset(calls + [c], b)
  {
    assert (calls + [c])[..|calls|] == calls;
    CountersNeverReset(limit, calls, b);
    LingersStep(limit, RunCalls(limit, calls).entries, c, b, Increments(calls, b));
    FirstUnsetSnoc(calls, c, b);
  }

  /** With calls on time only the first applied call of the bucket matters. */
  lemma {:induction false} LingersIffFirstUnset(limit: int, calls: seq<Call>, b: Bucket)
    requires Timely(calls, 5)
    ensures Lingers(limit, calls, b) <==> FirstUnset(calls, b)
  {
    if calls != [] {
      var n := |calls| - 1;
      LingersIffFirstUnset(limit, calls[..n], b);
      LingersSnoc(limit, calls[..n], calls[n], b);
      assert calls[..n] + [calls[n]] == calls;
    }
  }

  /** "a bucket can never linger unexpired forever" is false: one EXPIRE lost to an error or to
      a call cut off before it, and the bucket is there after any further calls, at any times. */
  lemma LostExpireLingers(limit: int, more: seq<Call>, cut: bool)
    ensures Lingers(limit, [Call("", 0, 0, if cut then CutOff(false) else ExpireFails(false))] + more, Bucket("", 0))
  {
    var lost := [Call("", 0, 0, if cut then CutOff(false) else ExpireFails(false))];
    assert lost[..0] == [];
    assert RunCalls(limit, lost).entries == map[Bucket("", 0) := Entry(1, None)];
    LingersForever(limit, lost, more, Bucket("", 0));
  }
}
