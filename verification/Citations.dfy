/** The citation filter: find the `[n]` markers of an answer, and keep exactly the offered
    citations they name. What counts as a digit, and its value, is a parameter: `\d` and
    `int` go beyond ASCII. Only the brackets must not be digits. */
module Citations {
  import opened Prelude

  /** A digit's value; negative for anything else. */
  type Digits = char -> int

  ghost predicate Proper(dv: Digits) { dv('[') < 0 && dv(']') < 0 }

  function DigitRun(dv: Digits, s: string, i: nat): (n: nat)
    requires i <= |s|
    ensures i + n <= |s| && forall j :: i <= j < i + n ==> dv(s[j]) >= 0
    ensures i + n < |s| ==> dv(s[i + n]) < 0
    decreases |s| - i
  {
    if i < |s| && dv(s[i]) >= 0 then 1 + DigitRun(dv, s, i + 1) else 0
  }

  /** `int(raw)`. */
  function NumberOf(dv: Digits, digits: string): nat {
    if digits == "" then 0
    else
      var last := dv(digits[|digits| - 1]);
      10 * NumberOf(dv, digits[..|digits| - 1]) + if last >= 0 then last else 0
  }

  ghost predicate AllDigits(dv: Digits, s: string) { forall i :: 0 <= i < |s| ==> dv(s[i]) >= 0 }

  function Pow10(n: nat): nat { if n == 0 then 1 else 10 * Pow10(n - 1) }

  lemma NumberOfDigit(dv: Digits, d: char)
    requires dv(d) >= 0
    ensures NumberOf(dv, [d]) == dv(d)
  {
    assert [d][..0] == "";
  }

  lemma Distribute(a: nat, p: nat, b: nat, d: nat)
    ensures 10 * (a * p + b) + d == a * (10 * p) + (10 * b + d)
  {
    assert 10 * (a * p) == a * (10 * p);
  }

  /** Digits are read as decimal positions: what comes before `b` counts `10^|b|` times. */
  lemma {:induction false} NumberOfAppend(dv: Digits, a: string, b: string)
    requires AllDigits(dv, b)
    ensures NumberOf(dv, a + b) == NumberOf(dv, a) * Pow10(|b|) + NumberOf(dv, b)
    decreases |b|
  {
    if b == "" {
      assert a + b == a;
    } else {
      var n := |b| - 1;
      NumberOfAppend(dv, a, b[..n]);
      assert (a + b)[..|a + b| - 1] == a + b[..n] && (a + b)[|a + b| - 1] == b[n];
      Distribute(NumberOf(dv, a), Pow10(n), NumberOf(dv, b[..n]), dv(b[n]));
    }
  }

  function DigitChar(d: nat): char
    requires d < 10
  {
    ('0' as int + d) as char
  }

  /** The ASCII digits have their values. */
  ghost predicate Ascii(dv: Digits) { forall d :: 0 <= d < 10 ==> dv(DigitChar(d)) == d }

  /** `n` in decimal, as Python prints it. */
  function Numeral(n: nat): (s: string)
    ensures s != ""
  {
    if n < 10 then [DigitChar(n)] else Numeral(n / 10) + [DigitChar(n % 10)]
  }

  /** A printed number reads back as itself. */
  lemma {:induction false} NumeralReads(dv: Digits, n: nat)
    requires Ascii(dv)
    ensures AllDigits(dv, Numeral(n)) && NumberOf(dv, Numeral(n)) == n
  {
    NumberOfDigit(dv, DigitChar(n % 10));
    if n >= 10 {
      NumeralReads(dv, n / 10);
      NumberOfAppend(dv, Numeral(n / 10), [DigitChar(n % 10)]);
      assert Pow10(1) == 10 * Pow10(0);
    }
  }

  /** A bracketed number of `n` digits starts at `i`. */
  ghost predicate MarkerAt(dv: Digits, s: string, i: nat, n: nat) {
    && n >= 1 && i + n + 1 < |s|
    && s[i] == '[' && s[i + n + 1] == ']'
    && forall j :: i + 1 <= j < i + n + 1 ==> dv(s[j]) >= 0
  }

  /** Some marker of `s` at or after `i` reads `m`. */
  ghost predicate OccursFrom(dv: Digits, s: string, i: nat, m: nat) {
    exists k: nat, n: nat :: i <= k && MarkerAt(dv, s, k, n) && NumberOf(dv, s[k + 1..k + 1 + n]) == m
  }

  ghost predicate Occurs(dv: Digits, s: string, m: nat) { OccursFrom(dv, s, 0, m) }

  /** How many digits `\[(\d+)\]` matches at `i`; zero for no match. */
  function MatchAt(dv: Digits, s: string, i: nat): (n: nat)
    requires i < |s|
    ensures n >= 1 ==> MarkerAt(dv, s, i, n)
  {
    var n := if s[i] == '[' then DigitRun(dv, s, i + 1) else 0;
    if n >= 1 && i + n + 1 < |s| && s[i + n + 1] == ']' then n else 0
  }

  /** `findall`: leftmost matches, each search starting where the last match ended. */
  function FindAll(dv: Digits, s: string, i: nat): seq<nat>
    requires i <= |s|
    decreases |s| - i
  {
    if i == |s| then []
    else
      var n := MatchAt(dv, s, i);
      if n >= 1 then [NumberOf(dv, s[i + 1..i + 1 + n])] + FindAll(dv, s, i + n + 2)
      else FindAll(dv, s, i + 1)
  }

  lemma {:induction false} RunEndsAt(dv: Digits, s: string, i: nat, end: nat)
    requires i <= end < |s| && dv(s[end]) < 0 && forall j :: i <= j < end ==> dv(s[j]) >= 0
    ensures DigitRun(dv, s, i) == end - i
    decreases end - i
  {
    if i < end { RunEndsAt(dv, s, i + 1, end); }
  }

  lemma MarkerIsRun(dv: Digits, s: string, i: nat, n: nat)
    requires Proper(dv) && MarkerAt(dv, s, i, n)
    ensures DigitRun(dv, s, i + 1) == n
  {
    RunEndsAt(dv, s, i + 1, i + 1 + n);
  }

  lemma OccursHere(dv: Digits, s: string, i: nat, n: nat, m: nat)
    requires Proper(dv) && MarkerAt(dv, s, i, n)
    ensures OccursFrom(dv, s, i, m) <==> m == NumberOf(dv, s[i + 1..i + 1 + n]) || OccursFrom(dv, s, i + n + 2, m)
  {
    if OccursFrom(dv, s, i, m) {
      var k: nat, n': nat :| i <= k && MarkerAt(dv, s, k, n') && NumberOf(dv, s[k + 1..k + 1 + n']) == m;
      if k == i {
        MarkerIsRun(dv, s, i, n);
        MarkerIsRun(dv, s, i, n');
      } else {
        assert s[k] == '[';
        assert k >= i + n + 2;
      }
    }
  }

  lemma OccursLater(dv: Digits, s: string, i: nat, m: nat)
    requires Proper(dv) && i < |s|
    requires MatchAt(dv, s, i) == 0
    ensures OccursFrom(dv, s, i, m) <==> OccursFrom(dv, s, i + 1, m)
  {
    if OccursFrom(dv, s, i, m) {
      var k: nat, n: nat :| i <= k && MarkerAt(dv, s, k, n) && NumberOf(dv, s[k + 1..k + 1 + n]) == m;
      if k == i { MarkerIsRun(dv, s, i, n); }
    }
  }

  /** The non-overlapping scan misses no marker and invents none. */
  lemma {:induction false} FindAllExact(dv: Digits, s: string, i: nat, m: nat)
    requires Proper(dv) && i <= |s|
    ensures m in FindAll(dv, s, i) <==> OccursFrom(dv, s, i, m)
    decreases |s| - i
  {
    if i < |s| {
      var n := MatchAt(dv, s, i);
      if n >= 1 {
        FindAllExact(dv, s, i + n + 2, m);
        OccursHere(dv, s, i, n, m);
      } else {
        FindAllExact(dv, s, i + 1, m);
        OccursLater(dv, s, i, m);
      }
    }
  }

  // ----- the filter -----

  /** A retrieved chunk, with its location already put in words. */
  datatype Passage = Passage(chunkId: nat, filename: string, location: Option<string>, content: string)

  datatype Citation = Citation(marker: nat, chunkId: nat, filename: string, location: Option<string>, snippet: string)

  /** `{c.marker: c for c in citations}`: of equal markers the last one stays. */
  function Available(citations: seq<Citation>): (m: map<nat, Citation>)
    ensures forall k :: k in m ==> m[k] in citations && m[k].marker == k
    ensures forall c :: c in citations ==> c.marker in m
  {
    if citations == [] then map[]
    else
      var n := |citations| - 1;
      assert citations == citations[..n] + [citations[n]];
      Available(citations[..n])[citations[n].marker := citations[n]]
  }

  lemma AvailableSnoc(citations: seq<Citation>, m: nat)
    requires m < |citations|
    ensures Available(citations[..m + 1]) == Available(citations[..m])[citations[m].marker := citations[m]]
  {
    assert citations[..m + 1][..m] == citations[..m];
  }

  /** Of several citations with one marker the last is the one found under it. */
  lemma {:induction false} AvailableLast(citations: seq<Citation>, m: nat, i: nat)
    requires i < m <= |citations| && forall j {:trigger citations[j]} :: i < j < m ==> citations[j].marker != citations[i].marker
    ensures citations[i].marker in Available(citations[..m])
    ensures Available(citations[..m])[citations[i].marker] == citations[i]
    decreases m
  {
    AvailableSnoc(citations, m - 1);
    if i < m - 1 { AvailableLast(citations, m - 1, i); }
  }

  ghost predicate Ascending(s: seq<nat>) { forall i, j :: 0 <= i < j < |s| ==> s[i] < s[j] }

  lemma MembersOfInsert(sorted: seq<nat>, at: nat, m: nat)
    requires at <= |sorted|
    ensures forall n :: n in sorted[..at] + [m] + sorted[at..] <==> n in sorted || n == m
  {
    assert sorted == sorted[..at] + sorted[at..];
  }

  lemma InsertAt(sorted: seq<nat>, at: nat, m: nat, seen: seq<nat>, i: nat)
    requires i < |seen| && seen[i] == m && forall k :: 0 <= k < i ==> seen[k] != m
    requires Ascending(sorted) && forall n :: n in sorted <==> n in seen[..i]
    requires at <= |sorted| && (forall k :: 0 <= k < at ==> sorted[k] < m) && (at < |sorted| ==> m <= sorted[at])
    ensures Ascending(sorted[..at] + [m] + sorted[at..])
    ensures forall n :: n in sorted[..at] + [m] + sorted[at..] <==> n in seen[..i + 1]
  {
    assert at < |sorted| ==> sorted[at] in seen[..i];
    assert forall k :: at <= k < |sorted| ==> m < sorted[k];
    MembersOfInsert(sorted, at, m);
    assert seen[..i + 1] == seen[..i] + [m];
  }

  /** `sorted` of distinct numbers, by insertion. */
  method SortDistinct(seen: seq<nat>) returns (sorted: seq<nat>)
    requires forall i, j :: 0 <= i < j < |seen| ==> seen[i] != seen[j]
    ensures Ascending(sorted) && forall m :: m in sorted <==> m in seen
  {
    sorted := [];
    for i := 0 to |seen|
      invariant Ascending(sorted) && forall m :: m in sorted <==> m in seen[..i]
    {
      var at := 0;
      while at < |sorted| && sorted[at] < seen[i]
        invariant 0 <= at <= |sorted| && forall k :: 0 <= k < at ==> sorted[k] < seen[i]
      {
        at := at + 1;
      }
      InsertAt(sorted, at, seen[i], seen, i);
      sorted := sorted[..at] + [seen[i]] + sorted[at..];
    }
    assert seen[..|seen|] == seen;
  }

  ghost predicate InOrder(cited: seq<Citation>) {
    forall i, j :: 0 <= i < j < |cited| ==> cited[i].marker < cited[j].marker
  }

  /** Each one is an offered citation: of several with its marker, the last. */
  ghost predicate FromOffered(citations: seq<Citation>, cited: seq<Citation>) {
    forall i :: 0 <= i < |cited| ==> cited[i] in citations && cited[i] == Available(citations)[cited[i].marker]
  }

  ghost predicate HasMarker(cited: seq<Citation>, m: nat) {
    exists i :: 0 <= i < |cited| && cited[i].marker == m
  }

  /** The markers are those that are offered and occur in the answer. */
  ghost predicate Selects(dv: Digits, answer: string, citations: seq<Citation>, cited: seq<Citation>) {
    forall m :: HasMarker(cited, m) <==> m in Available(citations) && Occurs(dv, answer, m)
  }

  /** Looking the found markers up, in order, gives the filter's contract. */
  lemma ListsTheUsed(dv: Digits, answer: string, citations: seq<Citation>, sorted: seq<nat>, cited: seq<Citation>)
    requires Proper(dv) && Ascending(sorted)
    requires forall m :: m in sorted <==> m in Available(citations) && m in FindAll(dv, answer, 0)
    requires |cited| == |sorted|
    requires forall i :: 0 <= i < |cited| ==> sorted[i] in sorted && cited[i] == Available(citations)[sorted[i]]
    ensures FromOffered(citations, cited) && InOrder(cited) && Selects(dv, answer, citations, cited)
  {
    forall m
      ensures HasMarker(cited, m) <==> m in Available(citations) && Occurs(dv, answer, m)
    {
      FindAllExact(dv, answer, 0, m);
      if m in sorted {
        var i :| 0 <= i < |sorted| && sorted[i] == m;
        assert cited[i].marker == m;
      }
    }
  }

  // ----- the citations `prepare` offers -----

  /** Markers are 1, 2, ... in passage order. */
  ghost predicate Numbered(citations: seq<Citation>) {
    forall i :: 0 <= i < |citations| ==> citations[i].marker == i + 1
  }

  /** The offered citations, as a list, that the answer uses. */
  ghost function Used(dv: Digits, answer: string, citations: seq<Citation>): seq<Citation> {
    if citations == [] then []
    else
      var n := |citations| - 1;
      Used(dv, answer, citations[..n]) + if Occurs(dv, answer, citations[n].marker) then [citations[n]] else []
  }

  /** `used` lists, in order, the citations among the first `n` markers that are in `s`. */
  ghost predicate UsedOf(dv: Digits, answer: string, s: seq<Citation>, n: nat, used: seq<Citation>) {
    && InOrder(used)
    && (forall i :: 0 <= i < |used| ==> 1 <= used[i].marker <= n)
    && (forall c :: c in used <==> c in s && Occurs(dv, answer, c.marker))
  }

  lemma UsedSnoc(dv: Digits, answer: string, s: seq<Citation>, n: nat, used: seq<Citation>, c: Citation)
    requires UsedOf(dv, answer, s, n, used) && c.marker == n + 1
    ensures UsedOf(dv, answer, s + [c], n + 1, used + if Occurs(dv, answer, c.marker) then [c] else [])
  {
  }

  lemma {:induction false} UsedIs(dv: Digits, answer: string, citations: seq<Citation>)
    requires Numbered(citations)
    ensures UsedOf(dv, answer, citations, |citations|, Used(dv, answer, citations))
  {
    if citations != [] {
      var n := |citations| - 1;
      UsedIs(dv, answer, citations[..n]);
      UsedSnoc(dv, answer, citations[..n], n, Used(dv, answer, citations[..n]), citations[n]);
      assert citations == citations[..n] + [citations[n]];
    }
  }

  lemma {:induction false} SameAscending(a: seq<Citation>, b: seq<Citation>)
    requires InOrder(a) && InOrder(b)
    requires forall c :: c in a <==> c in b
    ensures a == b
    decreases |a|
  {
    assert a != [] ==> a[0] in a;
    assert b != [] ==> b[0] in b;
    if a != [] {
      var i :| 0 <= i < |b| && b[i] == a[0];
      var j :| 0 <= j < |a| && a[j] == b[0];
      assert a[0] == b[0];
      assert a == [a[0]] + a[1..] && b == [b[0]] + b[1..];
      forall c
        ensures c in a[1..] <==> c in b[1..]
      {
        assert c in a[1..] ==> c in a && c != a[0];
        assert c in b[1..] ==> c in b && c != b[0];
      }
      SameAscending(a[1..], b[1..]);
    }
  }

  lemma SameMarker(citations: seq<Citation>, c: Citation, d: Citation)
    requires Numbered(citations) && c in citations && d in citations && c.marker == d.marker
    ensures c == d
  {
    var j :| 0 <= j < |citations| && citations[j] == c;
    var k :| 0 <= k < |citations| && citations[k] == d;
    assert j + 1 == k + 1;
  }

  lemma CitedIsUsed(dv: Digits, answer: string, citations: seq<Citation>, cited: seq<Citation>, c: Citation)
    requires Numbered(citations)
    requires FromOffered(citations, cited) && Selects(dv, answer, citations, cited)
    ensures c in cited <==> c in citations && Occurs(dv, answer, c.marker)
  {
    if c in cited {
      var i :| 0 <= i < |cited| && cited[i] == c;
      assert cited[i].marker == c.marker && HasMarker(cited, c.marker);
    }
    if c in citations && Occurs(dv, answer, c.marker) {
      assert HasMarker(cited, c.marker);
      var i :| 0 <= i < |cited| && cited[i].marker == c.marker;
      SameMarker(citations, cited[i], c);
    }
  }

  /** On the citations `prepare` numbers, the filter's contract has one solution: the offered
      citations whose marker the answer contains, in their order. */
  lemma FilterExact(dv: Digits, answer: string, citations: seq<Citation>, cited: seq<Citation>)
    requires Numbered(citations)
    requires FromOffered(citations, cited) && InOrder(cited) && Selects(dv, answer, citations, cited)
    ensures cited == Used(dv, answer, citations)
  {
    UsedIs(dv, answer, citations);
    forall c
      ensures c in cited <==> c in Used(dv, answer, citations)
    {
      CitedIsUsed(dv, answer, citations, cited, c);
    }
    SameAscending(cited, Used(dv, answer, citations));
  }

  /** `_cited_only`: each offered citation whose marker the answer contains, once, in marker order. */
  method CitedOnly(dv: Digits, answer: string, citations: seq<Citation>) returns (cited: seq<Citation>)
    requires Proper(dv)
    ensures FromOffered(citations, cited) && InOrder(cited) && Selects(dv, answer, citations, cited)
    ensures Numbered(citations) ==> cited == Used(dv, answer, citations)
  {
    var available := Available(citations);
    var found := FindAll(dv, answer, 0);
    var seen: seq<nat> := [];
    for i := 0 to |found|
      invariant forall i, j :: 0 <= i < j < |seen| ==> seen[i] != seen[j]
      invariant forall m :: m in seen <==> m in available && m in found[..i]
    {
      var marker := found[i];
      assert found[..i + 1] == found[..i] + [marker];
      if marker in available && marker !in seen {
        seen := seen + [marker];
      }
    }
    assert found[..|found|] == found;
    var sorted := SortDistinct(seen);
    assert forall i :: 0 <= i < |sorted| ==> sorted[i] in sorted;
    cited := seq(|sorted|, i requires 0 <= i < |sorted| => available[sorted[i]]);
    ListsTheUsed(dv, answer, citations, sorted, cited);
    if Numbered(citations) { FilterExact(dv, answer, citations, cited); }
  }

  // ----- what a reader of the answer sees -----

  /** The citations `prepare` makes: markers 1, 2, ... in the order of the passages. */
  method Prepare(chunks: seq<Passage>) returns (citations: seq<Citation>)
    ensures |citations| == |chunks| && Numbered(citations)
    ensures forall i :: 0 <= i < |chunks| ==>
      && citations[i].chunkId == chunks[i].chunkId && citations[i].filename == chunks[i].filename
      && citations[i].location == chunks[i].location
      && citations[i].snippet <= chunks[i].content && |citations[i].snippet| == Min(200, |chunks[i].content|)
  {
    citations := [];
    for i := 0 to |chunks|
      invariant |citations| == i && Numbered(citations)
      invariant forall j :: 0 <= j < i ==>
        && citations[j].chunkId == chunks[j].chunkId && citations[j].filename == chunks[j].filename
        && citations[j].location == chunks[j].location
        && citations[j].snippet <= chunks[j].content && |citations[j].snippet| == Min(200, |chunks[j].content|)
    {
      var c := chunks[i];
      citations := citations + [Citation(i + 1, c.chunkId, c.filename, c.location, c.content[..Min(200, |c.content|)])];
    }
  }

  lemma MarkerIn(dv: Digits, before: string, digits: string, after: string)
    requires digits != "" && AllDigits(dv, digits)
    ensures MarkerAt(dv, before + "[" + digits + "]" + after, |before|, |digits|)
    ensures (before + "[" + digits + "]" + after)[|before| + 1..|before| + 1 + |digits|] == digits
  {
    var s, k := before + "[" + digits + "]" + after, |before|;
    assert s[k] == '[' && s[k + |digits| + 1] == ']';
    assert s[k + 1..k + 1 + |digits|] == digits;
    assert forall j :: k + 1 <= j < k + |digits| + 1 ==> s[j] == digits[j - k - 1];
  }

  /** An answer that holds the printed marker of an offered citation cites it. */
  lemma PlainMarkerIsCited(dv: Digits, before: string, after: string, citations: seq<Citation>, i: nat)
    requires Proper(dv) && Ascii(dv) && Numbered(citations) && i < |citations|
    ensures citations[i] in Used(dv, before + "[" + Numeral(i + 1) + "]" + after, citations)
  {
    var s := before + "[" + Numeral(i + 1) + "]" + after;
    NumeralReads(dv, i + 1);
    MarkerIn(dv, before, Numeral(i + 1), after);
    assert Occurs(dv, s, i + 1);
    UsedIs(dv, s, citations);
    assert citations[i] in citations;
  }
}
