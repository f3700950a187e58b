/** Server-sent events, printer and incremental parser: one `event:` line, one `data:` line
    and a blank line out; frames in, however the text is cut into reads. A subset of section
    9.2 of the WHATWG HTML Living Standard. The JSON in `data` stays text here. */
module Sse {
  import opened Prelude
  import opened Text

  datatype Event = Event(name: string, data: string)

  // ----- the printer -----

  function Frame(e: Event): string { "event: " + e.name + "\n" + "data: " + e.data }

  /** `sse_encode`. */
  function Encode(e: Event): string { Frame(e) + "\n\n" }

  function EncodeAll(es: seq<Event>): string {
    if es == [] then "" else Encode(es[0]) + EncodeAll(es[1..])
  }

  /** JavaScript's white space and line terminators, which `trim` removes. */
  predicate IsJsSpace(c: char) {
    var n := c as int;
    9 <= n <= 13 || n == 32 || n == 0xA0 || n == 0x1680 || 0x2000 <= n <= 0x200A
    || n == 0x2028 || n == 0x2029 || n == 0x202F || n == 0x205F || n == 0x3000 || n == 0xFEFF
  }

  function TrimLeft(s: string): string { if s != "" && IsJsSpace(s[0]) then TrimLeft(s[1..]) else s }
  function TrimRight(s: string): string { if s != "" && IsJsSpace(s[|s| - 1]) then TrimRight(s[..|s| - 1]) else s }
  function Trim(s: string): string { TrimRight(TrimLeft(s)) }

  predicate AllJsSpace(s: string) { forall i :: 0 <= i < |s| ==> IsJsSpace(s[i]) }

  lemma {:induction false} TrimLeftIs(s: string) returns (pre: string)
    ensures s == pre + TrimLeft(s) && AllJsSpace(pre) && (TrimLeft(s) != "" ==> !IsJsSpace(TrimLeft(s)[0]))
  {
    pre := "";
    if s != "" && IsJsSpace(s[0]) {
      pre := TrimLeftIs(s[1..]);
      pre := [s[0]] + pre;
    }
  }

  lemma {:induction false} TrimRightIs(s: string) returns (post: string)
    ensures s == TrimRight(s) + post && AllJsSpace(post)
    ensures TrimRight(s) != "" ==> !IsJsSpace(TrimRight(s)[|TrimRight(s)| - 1]) && TrimRight(s)[0] == s[0]
  {
    post := "";
    if s != "" && IsJsSpace(s[|s| - 1]) {
      post := TrimRightIs(s[..|s| - 1]);
      post := post + [s[|s| - 1]];
    }
  }

  /** `trim` takes the white space off both ends, and nothing else. */
  lemma TrimIs(s: string) returns (pre: string, post: string)
    ensures s == pre + Trim(s) + post && AllJsSpace(pre) && AllJsSpace(post)
    ensures Trim(s) != "" ==> !IsJsSpace(Trim(s)[0]) && !IsJsSpace(Trim(s)[|Trim(s)| - 1])
  {
    pre := TrimLeftIs(s);
    post := TrimRightIs(TrimLeft(s));
  }

  /** What the server sends: a trimmed one-line name, and JSON, which `json.dumps` keeps on one line. */
  predicate Sendable(e: Event) {
    OneLine(e.name) && OneLine(e.data) && Trim(e.name) == e.name
  }

  ghost predicate AllSendable(es: seq<Event>) { forall i :: 0 <= i < |es| ==> Sendable(es[i]) }

  // ----- the parser -----

  /** `buffer.indexOf("\n\n")` from `i` on. */
  function FindBlank(s: string, i: nat): (r: Option<nat>)
    requires i <= |s|
    ensures r.Some? ==> i <= r.value && r.value + 2 <= |s|
    decreases |s| - i
  {
    if i + 2 > |s| then None
    else if s[i] == '\n' && s[i + 1] == '\n' then Some(i)
    else FindBlank(s, i + 1)
  }

  predicate StartsWith(s: string, prefix: string) { |s| >= |prefix| && s[..|prefix|] == prefix }

  datatype Fields = Fields(event: string, dataLines: seq<string>)

  /** The fields after these lines of a frame. */
  function FieldsOf(lines: seq<string>): Fields {
    if lines == [] then Fields("message", [])
    else
      var before, line := FieldsOf(lines[..|lines| - 1]), lines[|lines| - 1];
      if StartsWith(line, "event: ") then before.(event := Trim(line[7..]))
      else if StartsWith(line, "data: ") then before.(dataLines := before.dataLines + [line[6..]])
      else before
  }

  /** The event a frame carries; none without a data line. */
  function EventsOf(frame: string): seq<Event> {
    var f := FieldsOf(SplitLines(frame));
    if f.dataLines == [] then [] else [Event(f.event, Join(f.dataLines, '\n'))]
  }

  datatype Drained = Drained(events: seq<Event>, rest: string)

  /** Take every complete frame off the buffer. */
  function Drain(buffer: string): Drained
    decreases |buffer|
  {
    var sep := FindBlank(buffer, 0);
    if sep.None? then Drained([], buffer)
    else
      var after := Drain(buffer[sep.value + 2..]);
      Drained(EventsOf(buffer[..sep.value]) + after.events, after.rest)
  }

  method ParseFrame(frame: string) returns (found: seq<Event>)
    ensures found == EventsOf(frame)
  {
    var event, dataLines := "message", [];
    var lines := SplitLines(frame);
    for i := 0 to |lines|
      invariant Fields(event, dataLines) == FieldsOf(lines[..i])
    {
      var line := lines[i];
      assert lines[..i + 1][..i] == lines[..i];
      if StartsWith(line, "event: ") {
        event := Trim(line[7..]);
      } else if StartsWith(line, "data: ") {
        dataLines := dataLines + [line[6..]];
      }
    }
    assert lines[..|lines|] == lines;
    found := if |dataLines| > 0 then [Event(event, Join(dataLines, '\n'))] else [];
  }

  lemma ConcatSnoc(parts: seq<string>, r: nat)
    requires r < |parts|
    ensures Concat(parts[..r + 1]) == Concat(parts[..r]) + parts[r]
  {
    assert parts[..r + 1] == parts[..r] + [parts[r]];
    ConcatAppend(parts[..r], [parts[r]]);
    assert Concat([parts[r]][1..]) == "";
  }

  lemma {:induction false} FindBlankAppend(a: string, b: string, i: nat)
    requires i <= |a|
    ensures FindBlank(a, i).Some? ==> FindBlank(a + b, i) == FindBlank(a, i)
    decreases |a| - i
  {
    if i + 2 <= |a| {
      FindBlankAppend(a, b, i + 1);
    }
  }

  lemma DrainStep(s: string, n: nat)
    requires FindBlank(s, 0) == Some(n)
    ensures Drain(s) == Drained(EventsOf(s[..n]) + Drain(s[n + 2..]).events, Drain(s[n + 2..]).rest)
  {
  }

  lemma AppendSlices<T>(a: seq<T>, b: seq<T>, n: nat)
    requires n + 2 <= |a|
    ensures (a + b)[n + 2..] == a[n + 2..] + b && (a + b)[..n] == a[..n]
  {
  }

  /** Draining early or late makes no difference: what is left joins what comes next. */
  lemma {:induction false} DrainAppend(a: string, b: string)
    ensures var first := Drain(a);
      var second := Drain(first.rest + b);
      Drain(a + b) == Drained(first.events + second.events, second.rest)
    decreases |a|
  {
    var sep := FindBlank(a, 0);
    if sep.Some? {
      var n := sep.value;
      var head, left := EventsOf(a[..n]), a[n + 2..];
      FindBlankAppend(a, b, 0);
      DrainAppend(left, b);
      AppendSlices(a, b, n);
      DrainStep(a, n);
      DrainStep(a + b, n);
      Shift(head, Drain(left).events, Drain(Drain(left).rest + b).events);
    }
  }

  /** `sseEvents` over the reads of the response body. */
  method SseEvents(parts: seq<string>) returns (out: seq<Event>)
    ensures out == Drain(Concat(parts)).events
  {
    out := [];
    var buffer := "";
    for r := 0 to |parts|
      invariant Drain(Concat(parts[..r])) == Drained(out, buffer)
    {
      ghost var before, emitted := buffer, out;
      ConcatSnoc(parts, r);
      DrainAppend(Concat(parts[..r]), parts[r]);
      buffer := buffer + parts[r];
      ghost var all := Drain(buffer);
      var sep := FindBlank(buffer, 0);
      while sep.Some?
        invariant sep == FindBlank(buffer, 0)
        invariant out + Drain(buffer).events == emitted + all.events && Drain(buffer).rest == all.rest
        decreases |buffer|
      {
        var frame := buffer[..sep.value];
        Shift(out, EventsOf(frame), Drain(buffer[sep.value + 2..]).events);
        buffer := buffer[sep.value + 2..];
        var found := ParseFrame(frame);
        out := out + found;
        sep := FindBlank(buffer, 0);
      }
    }
    assert parts[..|parts|] == parts;
  }

  // ----- fragmentation -----

  // ----- round trip -----

  lemma {:induction false} FindBlankAt(s: string, i: nat, n: nat)
    requires i <= n && n + 2 <= |s| && s[n] == '\n' && s[n + 1] == '\n'
    requires forall j :: i <= j < n ==> s[j] != '\n' || s[j + 1] != '\n'
    ensures FindBlank(s, i) == Some(n)
    decreases n - i
  {
    if i < n { FindBlankAt(s, i + 1, n); }
  }

  lemma {:induction false} FindBlankNone(s: string, i: nat)
    requires i <= |s| && forall j :: i <= j < |s| - 1 ==> s[j] != '\n' || s[j + 1] != '\n'
    ensures FindBlank(s, i).None?
    decreases |s| - i
  {
    if i + 2 <= |s| { FindBlankNone(s, i + 1); }
  }

  /** Inside an encoded event no two newlines meet before the end. */
  lemma NoEarlyBlank(e: Event, j: nat)
    requires Sendable(e) && j < |Frame(e)|
    ensures Encode(e)[j] != '\n' || Encode(e)[j + 1] != '\n'
  {
    var n := 7 + |e.name|;
    assert Encode(e)[n] == '\n' && Encode(e)[n + 1] == 'd';
    assert Encode(e)[..n] == "event: " + e.name;
    assert Encode(e)[n + 1..|Frame(e)|] == "data: " + e.data;
    if j < n {
      assert Encode(e)[j] == ("event: " + e.name)[j];
    } else if j > n {
      assert Encode(e)[j] == ("data: " + e.data)[j - n - 1];
    }
  }

  lemma JoinTwo(a: string, b: string)
    ensures Join([a, b], '\n') == a + "\n" + b
  {
    assert [a, b][1..] == [b];
  }

  lemma FrameParses(e: Event)
    requires Sendable(e)
    ensures EventsOf(Frame(e)) == [e]
  {
    var a, b := "event: " + e.name, "data: " + e.data;
    JoinTwo(a, b);
    SplitJoins([a, b]);
    assert Frame(e) == a + "\n" + b;
    assert a[..7] == "event: " && a[7..] == e.name && b[..6] == "data: " && b[6..] == e.data;
    assert b[0] == 'd';
    assert [a, b][..1] == [a] && [a][..0] == [];
    assert FieldsOf([a]) == Fields(e.name, []);
    assert FieldsOf([a, b]) == Fields(e.name, [e.data]);
  }

  // ----- any frame, not only the server's -----

  predicate IsData(line: string) { StartsWith(line, "data: ") }
  predicate IsEvent(line: string) { StartsWith(line, "event: ") }

  /** `at` are the places of the data lines, in order. */
  ghost predicate DataAt(lines: seq<string>, at: seq<nat>) {
    && (forall i, j :: 0 <= i < j < |at| ==> at[i] < at[j])
    && (forall k :: 0 <= k < |at| ==> at[k] < |lines| && IsData(lines[at[k]]))
    && (forall i :: 0 <= i < |lines| && IsData(lines[i]) ==> i in at)
  }

  lemma NotBoth(line: string)
    ensures !(IsData(line) && IsEvent(line))
  {
    if |line| >= 7 {
      assert line[..6][0] == line[0] && line[..7][0] == line[0];
      assert "data: "[0] == 'd' && "event: "[0] == 'e';
    }
  }

  lemma DataSnoc(lines: seq<string>, at: seq<nat>) returns (more: seq<nat>)
    requires lines != [] && DataAt(lines[..|lines| - 1], at) && IsData(lines[|lines| - 1])
    ensures more == at + [|lines| - 1] && DataAt(lines, more)
  {
    var n := |lines| - 1;
    more := at + [n];
    forall i | 0 <= i < |lines| && IsData(lines[i])
      ensures i in more
    {
      if i < n { assert IsData(lines[..n][i]); }
    }
  }

  /** The data of a frame is what follows `data: ` on its data lines, all of them, in order. */
  lemma {:induction false} DataLinesAre(lines: seq<string>) returns (at: seq<nat>)
    ensures DataAt(lines, at) && |FieldsOf(lines).dataLines| == |at|
    ensures forall k :: 0 <= k < |at| ==> FieldsOf(lines).dataLines[k] == lines[at[k]][6..]
  {
    at := [];
    if lines != [] {
      var n := |lines| - 1;
      at := DataLinesAre(lines[..n]);
      NotBoth(lines[n]);
      if IsData(lines[n]) { at := DataSnoc(lines, at); }
    }
  }

  /** Its event is a message without an event line ... */
  lemma {:induction false} NoEventIs(lines: seq<string>)
    requires forall i :: 0 <= i < |lines| ==> !IsEvent(lines[i])
    ensures FieldsOf(lines).event == "message"
  {
    if lines != [] { NoEventIs(lines[..|lines| - 1]); }
  }

  /** ... and otherwise what the last event line names, trimmed. */
  lemma {:induction false} LastEventIs(lines: seq<string>, i: nat)
    requires i < |lines| && IsEvent(lines[i]) && forall j :: i < j < |lines| ==> !IsEvent(lines[j])
    ensures FieldsOf(lines).event == Trim(lines[i][7..])
    decreases |lines|
  {
    if i < |lines| - 1 { LastEventIs(lines[..|lines| - 1], i); }
  }

  /** Two newlines meet in `s` at `i`. */
  predicate BlankAt(s: string, i: nat) { i + 2 <= |s| && s[i] == '\n' && s[i + 1] == '\n' }

  /** A frame ends where two newlines first meet; without that nothing is taken off the buffer. */
  lemma DrainFrame(s: string, n: nat)
    requires forall j :: 0 <= j < n ==> !BlankAt(s, j)
    ensures BlankAt(s, n) ==>
      Drain(s) == Drained(EventsOf(s[..n]) + Drain(s[n + 2..]).events, Drain(s[n + 2..]).rest)
    ensures n >= |s| ==> Drain(s) == Drained([], s)
  {
    forall j | 0 <= j < n && j + 1 < |s|
      ensures s[j] != '\n' || s[j + 1] != '\n'
    {
      assert !BlankAt(s, j);
    }
    if BlankAt(s, n) {
      FindBlankAt(s, 0, n);
    } else if n >= |s| {
      FindBlankNone(s, 0);
    }
  }

  // ----- the server's frames -----

  lemma EncodedDrains(e: Event, rest: string)
    requires Sendable(e)
    ensures Drain(Encode(e) + rest) == Drained([e] + Drain(rest).events, Drain(rest).rest)
  {
    var s, n := Encode(e) + rest, |Frame(e)|;
    forall j | 0 <= j < n
      ensures s[j] != '\n' || s[j + 1] != '\n'
    {
      NoEarlyBlank(e, j);
    }
    FindBlankAt(s, 0, n);
    FrameParses(e);
    assert s[..n] == Frame(e) && s[n + 2..] == rest;
  }

  /** A frame that is not complete yields nothing. */
  lemma PartialYieldsNothing(e: Event, m: nat)
    requires Sendable(e) && m < |Encode(e)|
    ensures Drain(Encode(e)[..m]) == Drained([], Encode(e)[..m])
  {
    var s := Encode(e)[..m];
    forall j | 0 <= j < |s| - 1
      ensures s[j] != '\n' || s[j + 1] != '\n'
    {
      NoEarlyBlank(e, j);
    }
    FindBlankNone(s, 0);
  }

  /** How many events are complete in the first `m` characters of the encoding. */
  function CompleteIn(es: seq<Event>, m: nat): (n: nat)
    ensures n <= |es|
  {
    if es == [] || m < |Encode(es[0])| then 0 else 1 + CompleteIn(es[1..], m - |Encode(es[0])|)
  }

  lemma CutInside<T>(a: seq<T>, b: seq<T>, m: nat)
    requires m <= |a|
    ensures (a + b)[..m] == a[..m]
  {
  }

  lemma CutPast<T>(a: seq<T>, b: seq<T>, m: nat)
    requires |a| <= m <= |a + b|
    ensures (a + b)[..m] == a + b[..m - |a|]
  {
  }

  lemma TakeOneMore<T>(s: seq<T>, n: nat)
    requires n < |s|
    ensures s[..n + 1] == [s[0]] + s[1..][..n]
  {
  }

  /** What the first `m` characters of a text yield. */
  function Yielded(text: string, m: nat): seq<Event>
    requires m <= |text|
  {
    Drain(text[..m]).events
  }

  /** The events complete in the first `m` characters of the encoding. */
  function Complete(es: seq<Event>, m: nat): seq<Event> { es[..CompleteIn(es, m)] }

  lemma YieldsNothing(e: Event, rest: string, m: nat)
    requires Sendable(e) && m < |Encode(e)|
    ensures Yielded(Encode(e) + rest, m) == []
  {
    PartialYieldsNothing(e, m);
    CutInside(Encode(e), rest, m);
  }

  lemma YieldsFirst(e: Event, rest: string, k: nat)
    requires Sendable(e) && k <= |rest|
    ensures Yielded(Encode(e) + rest, |Encode(e)| + k) == [e] + Yielded(rest, k)
  {
    CutPast(Encode(e), rest, |Encode(e)| + k);
    EncodedDrains(e, rest[..k]);
  }

  lemma CompletePast(es: seq<Event>, k: nat)
    requires es != []
    ensures Complete(es, |Encode(es[0])| + k) == [es[0]] + Complete(es[1..], k)
  {
    TakeOneMore(es, CompleteIn(es[1..], k));
  }

  lemma CompleteNone(es: seq<Event>, m: nat)
    requires es == [] || m < |Encode(es[0])|
    ensures Complete(es, m) == []
  {
  }

  /** The encoding is that of the first event and that of the others. */
  lemma EncodedFirst(es: seq<Event>) returns (rest: string)
    requires es != []
    ensures rest == EncodeAll(es[1..]) && EncodeAll(es) == Encode(es[0]) + rest
  {
    rest := EncodeAll(es[1..]);
  }

  /** After any prefix of the encoding, exactly the events whose frames are complete are out. */
  lemma {:induction false} PrefixYieldsComplete(es: seq<Event>, m: nat)
    requires AllSendable(es) && m <= |EncodeAll(es)|
    ensures Yielded(EncodeAll(es), m) == Complete(es, m)
    decreases |es|
  {
    if es == [] {
      assert EncodeAll(es)[..m] == "";
    } else {
      var rest := EncodedFirst(es);
      if m < |Encode(es[0])| {
        YieldsNothing(es[0], rest, m);
        CompleteNone(es, m);
      } else {
        var k := m - |Encode(es[0])|;
        PrefixYieldsComplete(es[1..], k);
        YieldsFirst(es[0], rest, k);
        CompletePast(es, k);
      }
    }
  }

  lemma {:induction false} AllComplete(es: seq<Event>)
    ensures CompleteIn(es, |EncodeAll(es)|) == |es|
  {
    if es != [] { AllComplete(es[1..]); }
  }

  /** The round trip: whatever the server sends, cut anywhere into parts, comes out as it went in. */
  lemma RoundTrip(es: seq<Event>, parts: seq<string>)
    requires AllSendable(es) && Concat(parts) == EncodeAll(es)
    ensures Drain(Concat(parts)).events == es
  {
    var m := |EncodeAll(es)|;
    AllComplete(es);
    PrefixYieldsComplete(es, m);
    assert EncodeAll(es)[..m] == EncodeAll(es) && es[..|es|] == es;
  }
}
