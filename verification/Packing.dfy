/** `chunk_blocks`: the greedy packer. The class is the function with its three nonlocal
    variables; `AllWindows` is what it computes, as sentence windows; `IsPacking` is what
    those windows are, without saying how they are found. */
module Packing {
  import opened Prelude
  import opened Text
  import opened Chunking

  /** The tokens of sentences `lo..hi`. */
  function Span(ss: seq<Sentence>, lo: nat, hi: nat): nat
    requires hi <= |ss|
  {
    if hi <= lo then 0 else Span(ss, lo, hi - 1) + ss[hi - 1].tokens
  }

  /** Sentence `hi` can still join sentences `lo..hi`. */
  predicate Fits(ss: seq<Sentence>, target: int, lo: nat, hi: nat)
    requires hi < |ss|
  {
    Span(ss, lo, hi) + ss[hi].tokens <= target
  }

  function Total(ss: seq<Sentence>): nat {
    Span(ss, 0, |ss|)
  }

  lemma {:induction false} SpanSplit(ss: seq<Sentence>, lo: nat, mid: nat, hi: nat)
    requires lo <= mid <= hi <= |ss|
    ensures Span(ss, lo, hi) == Span(ss, lo, mid) + Span(ss, mid, hi)
  {
    if mid < hi { SpanSplit(ss, lo, mid, hi - 1); }
  }

  lemma {:induction false} SpanOfSlice(ss: seq<Sentence>, lo: nat, hi: nat, j: nat, k: nat)
    requires j <= k && lo + k <= hi <= |ss|
    ensures Span(ss[lo..hi], j, k) == Span(ss, lo + j, lo + k)
  {
    if j < k { SpanOfSlice(ss, lo, hi, j, k - 1); }
  }

  lemma TotalOfSlice(ss: seq<Sentence>, lo: nat, hi: nat)
    requires lo <= hi <= |ss|
    ensures Total(ss[lo..hi]) == Span(ss, lo, hi)
  {
    SpanOfSlice(ss, lo, hi, 0, hi - lo);
  }

  lemma TotalSnoc(ss: seq<Sentence>, s: Sentence)
    ensures Total(ss + [s]) == Total(ss) + s.tokens
  {
    TotalOfSlice(ss + [s], 0, |ss|);
    assert (ss + [s])[0..|ss|] == ss;
  }

  // ----- one chunk -----

  /** `page` of every sentence that has one. */
  function Pages(ss: seq<Sentence>): seq<nat> {
    if ss == [] then []
    else (if ss[0].meta.page.Some? then [ss[0].meta.page.value] else []) + Pages(ss[1..])
  }

  function Smallest(ps: seq<nat>): (m: nat)
    requires ps != []
    ensures m in ps && forall i :: 0 <= i < |ps| ==> m <= ps[i]
  {
    if |ps| == 1 then ps[0]
    else
      var m := Smallest(ps[1..]);
      assert ps == [ps[0]] + ps[1..];
      if ps[0] < m then ps[0] else m
  }

  function Largest(ps: seq<nat>): (m: nat)
    requires ps != []
    ensures m in ps && forall i :: 0 <= i < |ps| ==> ps[i] <= m
  {
    if |ps| == 1 then ps[0]
    else
      var m := Largest(ps[1..]);
      assert ps == [ps[0]] + ps[1..];
      if ps[0] > m then ps[0] else m
  }

  /** Pages covered, and the heading path of the chunk's first sentence. */
  function MergeMeta(ss: seq<Sentence>): ChunkMeta
    requires ss != []
  {
    var pages := Pages(ss);
    var headings := ss[0].meta.headings;
    ChunkMeta(
      if pages == [] then None else Some(PageRange(Smallest(pages), Largest(pages))),
      if headings.Some? && headings.value != [] then headings else None)
  }

  function Draft(ss: seq<Sentence>): ChunkDraft
    requires ss != []
  {
    ChunkDraft(Join(SentenceTexts(ss), ' '), Total(ss), MergeMeta(ss))
  }

  ghost predicate HasPage(ss: seq<Sentence>, p: nat) {
    exists i :: 0 <= i < |ss| && ss[i].meta.page == Some(p)
  }

  lemma {:induction false} PagesAre(ss: seq<Sentence>, p: nat)
    ensures p in Pages(ss) <==> HasPage(ss, p)
  {
    if ss != [] {
      PagesAre(ss[1..], p);
      if HasPage(ss, p) {
        var i :| 0 <= i < |ss| && ss[i].meta.page == Some(p);
        if i > 0 { assert ss[1..][i - 1] == ss[i]; }
      }
      if HasPage(ss[1..], p) {
        var i :| 0 <= i < |ss[1..]| && ss[1..][i].meta.page == Some(p);
        assert ss[i + 1].meta.page == Some(p);
      }
    }
  }

  /** The first and the last page the sentences are from, if any is from a page. */
  ghost predicate PagesRight(ss: seq<Sentence>, pages: Option<PageRange>) {
    if pages.None? then forall p: nat :: !HasPage(ss, p)
    else
      && HasPage(ss, pages.value.first) && HasPage(ss, pages.value.last)
      && forall p: nat :: HasPage(ss, p) ==> pages.value.first <= p <= pages.value.last
  }

  /** The heading path of the first sentence, if there is one and it is not empty. */
  ghost predicate HeadingsRight(ss: seq<Sentence>, headings: Option<seq<string>>)
    requires ss != []
  {
    var first := ss[0].meta.headings;
    if headings.None? then first.None? || first == Some([]) else headings == first && headings.value != []
  }

  lemma RangeIs(ss: seq<Sentence>)
    requires Pages(ss) != []
    ensures PagesRight(ss, Some(PageRange(Smallest(Pages(ss)), Largest(Pages(ss)))))
  {
    var ps := Pages(ss);
    PagesAre(ss, Smallest(ps));
    PagesAre(ss, Largest(ps));
    forall p: nat | HasPage(ss, p)
      ensures Smallest(ps) <= p <= Largest(ps)
    {
      PagesAre(ss, p);
      var i :| 0 <= i < |ps| && ps[i] == p;
    }
  }

  /** A chunk's metadata is that of its sentences. */
  lemma MergeMetaIs(ss: seq<Sentence>)
    requires ss != []
    ensures PagesRight(ss, MergeMeta(ss).pages) && HeadingsRight(ss, MergeMeta(ss).headings)
  {
    if Pages(ss) != [] {
      RangeIs(ss);
    } else {
      forall p: nat
        ensures !HasPage(ss, p)
      {
        PagesAre(ss, p);
      }
    }
  }

  // ----- the carried overlap -----

  /** The backwards scan over `lo..k` with `room` tokens left: where the carried part starts. */
  function CarryFrom(ss: seq<Sentence>, lo: nat, k: nat, room: int): (c: nat)
    requires lo <= k <= |ss|
    ensures lo <= c <= k
  {
    if k == lo || ss[k - 1].tokens > room then k else CarryFrom(ss, lo, k - 1, room - ss[k - 1].tokens)
  }

  /** What stays in `current` after a chunk is emitted. */
  function Carried(ss: seq<Sentence>, overlap: int): seq<Sentence> {
    var c := CarryFrom(ss, 0, |ss|, overlap);
    if c == 0 then [] else ss[c..]
  }

  lemma {:induction false} CarryOfSlice(ss: seq<Sentence>, lo: nat, hi: nat, k: nat, room: int)
    requires lo + k <= hi <= |ss|
    ensures lo + CarryFrom(ss[lo..hi], 0, k, room) == CarryFrom(ss, lo, lo + k, room)
  {
    if k > 0 && ss[lo + k - 1].tokens <= room {
      CarryOfSlice(ss, lo, hi, k - 1, room - ss[lo + k - 1].tokens);
    }
  }

  class Packer {
    const target: int
    const overlap: int
    var chunks: seq<ChunkDraft>
    var current: seq<Sentence>
    var currentTokens: nat
    var hasNew: bool

    ghost predicate Valid()
      reads this
    {
      currentTokens == Total(current) && (hasNew ==> current != [])
    }

    constructor (target: int, overlap: int)
      ensures Valid() && this.target == target && this.overlap == overlap
      ensures chunks == [] && current == [] && !hasNew
    {
      this.target, this.overlap := target, overlap;
      chunks, current, currentTokens, hasNew := [], [], 0, false;
    }

    /** The backwards scan of `emit`: the trailing sentences to repeat in the next chunk. */
    method Overlap() returns (carried: seq<Sentence>)
      ensures carried == Carried(current, overlap)
    {
      carried := [];
      var budget := 0;
      var k := |current|;
      while k > 0 && budget + current[k - 1].tokens <= overlap
        invariant 0 <= k <= |current|
        invariant carried == current[k..]
        invariant CarryFrom(current, 0, |current|, overlap) == CarryFrom(current, 0, k, overlap - budget)
      {
        carried := [current[k - 1]] + carried;
        budget := budget + current[k - 1].tokens;
        k := k - 1;
      }
      if |carried| == |current| {
        carried := [];
      }
    }

    method Emit(carryOverlap: bool)
      requires Valid() && current != []
      modifies this
      ensures Valid() && !hasNew
      ensures chunks == old(chunks) + [Draft(old(current))]
      ensures current == if carryOverlap then Carried(old(current), overlap) else []
    {
      chunks := chunks + [ChunkDraft(Join(SentenceTexts(current), ' '), currentTokens, MergeMeta(current))];
      var carried := [];
      if carryOverlap {
        carried := Overlap();
      }
      current := carried;
      currentTokens := Total(carried);
      hasNew := false;
    }

    method Append(s: Sentence)
      requires Valid()
      modifies this
      ensures Valid() && hasNew
      ensures chunks == old(chunks) && current == old(current) + [s]
    {
      TotalSnoc(current, s);
      current := current + [s];
      currentTokens := currentTokens + s.tokens;
      hasNew := true;
    }

    /** One turn of the packing loop: emit if the sentence does not fit, then take it. */
    method Take(s: Sentence)
      requires Valid()
      modifies this
      ensures Valid() && hasNew
      ensures if old(current) != [] && Total(old(current)) + s.tokens > target
              then chunks == old(chunks) + [Draft(old(current))] && current == Carried(old(current), overlap) + [s]
              else chunks == old(chunks) && current == old(current) + [s]
    {
      if current != [] && currentTokens + s.tokens > target {
        Emit(true);
      }
      Append(s);
    }
  }

  // ----- the windows the packer cuts -----

  /** Sentences `lo..hi` of the document. */
  datatype Window = Window(lo: nat, hi: nat)

  function NextLo(ss: seq<Sentence>, lo: nat, hi: nat, overlap: int): (next: nat)
    requires lo < hi <= |ss|
    ensures lo < next <= hi
  {
    var c := CarryFrom(ss, lo, hi, overlap);
    if c == lo then hi else c
  }

  /** The windows cut from a state whose `current` is `lo..hi` and whose next sentence is `hi`. */
  function Windows(ss: seq<Sentence>, target: int, overlap: int, lo: nat, hi: nat): (ws: seq<Window>)
    requires lo < hi <= |ss|
    ensures ws != [] && ws[0].lo == lo && hi <= ws[0].hi
    ensures forall i :: 0 <= i < |ws| ==> ws[i].lo < ws[i].hi <= |ss|
    decreases |ss| - hi
  {
    if hi == |ss| then [Window(lo, hi)]
    else if !Fits(ss, target, lo, hi) then
      [Window(lo, hi)] + Windows(ss, target, overlap, NextLo(ss, lo, hi, overlap), hi + 1)
    else Windows(ss, target, overlap, lo, hi + 1)
  }

  predicate InRange(ss: seq<Sentence>, ws: seq<Window>) {
    forall i :: 0 <= i < |ws| ==> ws[i].lo < ws[i].hi <= |ss|
  }

  function AllWindows(ss: seq<Sentence>, target: int, overlap: int): (ws: seq<Window>)
    ensures InRange(ss, ws)
  {
    if ss == [] then [] else Windows(ss, target, overlap, 0, 1)
  }

  function Drafts(ss: seq<Sentence>, ws: seq<Window>): seq<ChunkDraft>
    requires InRange(ss, ws)
  {
    seq(|ws|, i requires 0 <= i < |ws| => Draft(ss[ws[i].lo..ws[i].hi]))
  }

  lemma DraftsSnoc(ss: seq<Sentence>, done: seq<Window>, w: Window)
    requires InRange(ss, done) && w.lo < w.hi <= |ss|
    ensures InRange(ss, done + [w])
    ensures Drafts(ss, done + [w]) == Drafts(ss, done) + [Draft(ss[w.lo..w.hi])]
  {
  }

  lemma SliceOfSlice<T>(s: seq<T>, lo: nat, c: nat, hi: nat)
    requires lo <= c <= hi <= |s|
    ensures s[lo..hi][c - lo..] == s[c..hi]
  {
  }

  /** Carrying from position `c` of the slice is carrying from `lo + c`; nothing, if `c` is 0. */
  lemma CarriedAt<T>(s: seq<T>, lo: nat, hi: nat, c: nat)
    requires lo + c <= hi <= |s|
    ensures (if c == 0 then [] else s[lo..hi][c..]) == s[if c == 0 then hi else lo + c..hi]
  {
    SliceOfSlice(s, lo, lo + c, hi);
  }

  lemma CarriedIsSlice(ss: seq<Sentence>, lo: nat, hi: nat, overlap: int)
    requires lo < hi <= |ss|
    ensures Carried(ss[lo..hi], overlap) == ss[NextLo(ss, lo, hi, overlap)..hi]
  {
    var current := ss[lo..hi];
    var c := CarryFrom(current, 0, |current|, overlap);
    CarryOfSlice(ss, lo, hi, |current|, overlap);
    assert lo + c == CarryFrom(ss, lo, hi, overlap);
    CarriedAt(ss, lo, hi, c);
  }

  /** What the packer has emitted, plus what the windows from its state still are, is everything. */
  ghost predicate Pending(ss: seq<Sentence>, target: int, overlap: int, done: seq<Window>, lo: nat, hi: nat) {
    if hi == 0 then lo == 0 && done == []
    else lo < hi <= |ss| && done + Windows(ss, target, overlap, lo, hi) == AllWindows(ss, target, overlap)
  }

  lemma PendingStops(ss: seq<Sentence>, target: int, overlap: int, done: seq<Window>, lo: nat, hi: nat)
    requires 0 < hi < |ss| && Pending(ss, target, overlap, done, lo, hi)
    requires !Fits(ss, target, lo, hi)
    ensures Pending(ss, target, overlap, done + [Window(lo, hi)], NextLo(ss, lo, hi, overlap), hi + 1)
  {
    Shift(done, [Window(lo, hi)], Windows(ss, target, overlap, NextLo(ss, lo, hi, overlap), hi + 1));
  }

  /** After `i` sentences, `chunks` and `current` are those of the windows in `done` and of
      the one that starts at `lo`. */
  ghost predicate Tracks(ss: seq<Sentence>, target: int, overlap: int, done: seq<Window>, lo: nat, i: nat,
                         chunks: seq<ChunkDraft>, current: seq<Sentence>)
    requires i <= |ss|
  {
    && InRange(ss, done) && Pending(ss, target, overlap, done, lo, i)
    && chunks == Drafts(ss, done) && lo <= i && current == ss[lo..i]
  }

  /** One turn keeps the packer on the windows. */
  lemma Advance(ss: seq<Sentence>, target: int, overlap: int, done: seq<Window>, lo: nat, i: nat,
                chunks: seq<ChunkDraft>, current: seq<Sentence>) returns (done': seq<Window>, lo': nat)
    requires i < |ss| && Tracks(ss, target, overlap, done, lo, i, chunks, current)
    ensures if current != [] && Total(current) + ss[i].tokens > target
            then Tracks(ss, target, overlap, done', lo', i + 1, chunks + [Draft(current)], Carried(current, overlap) + [ss[i]])
            else Tracks(ss, target, overlap, done', lo', i + 1, chunks, current + [ss[i]])
  {
    TotalOfSlice(ss, lo, i);
    if i > 0 && !Fits(ss, target, lo, i) {
      done', lo' := done + [Window(lo, i)], NextLo(ss, lo, i, overlap);
      DraftsSnoc(ss, done, Window(lo, i));
      CarriedIsSlice(ss, lo, i, overlap);
      PendingStops(ss, target, overlap, done, lo, i);
    } else {
      done', lo' := done, lo;
    }
    SliceSnoc(ss, lo', i);
  }

  lemma Finish(ss: seq<Sentence>, target: int, overlap: int, done: seq<Window>, lo: nat,
               chunks: seq<ChunkDraft>, current: seq<Sentence>)
    requires Tracks(ss, target, overlap, done, lo, |ss|, chunks, current)
    ensures Drafts(ss, AllWindows(ss, target, overlap)) == if ss == [] then chunks else chunks + [Draft(current)]
  {
    if ss != [] { DraftsSnoc(ss, done, Window(lo, |ss|)); }
  }

  /** The packing loop over the sentences the generator yields. */
  method PackSentences(ss: seq<Sentence>, target: int, overlap: int) returns (chunks: seq<ChunkDraft>)
    ensures chunks == Drafts(ss, AllWindows(ss, target, overlap))
  {
    var p := new Packer(target, overlap);
    ghost var done: seq<Window> := [];
    ghost var lo: nat := 0;
    for i := 0 to |ss|
      invariant fresh(p) && p.Valid() && p.target == target && p.overlap == overlap
      invariant p.hasNew <==> i > 0
      invariant Tracks(ss, target, overlap, done, lo, i, p.chunks, p.current)
    {
      done, lo := Advance(ss, target, overlap, done, lo, i, p.chunks, p.current);
      p.Take(ss[i]);
    }
    Finish(ss, target, overlap, done, lo, p.chunks, p.current);
    if p.hasNew {
      p.Emit(false);
    }
    chunks := p.chunks;
  }

  /** The chunks of a document. */
  function ChunksOf(blocks: seq<Block>, target: int, overlap: int): seq<ChunkDraft> {
    var ss := SentencesOf(blocks, target);
    Drafts(ss, AllWindows(ss, target, overlap))
  }

  method ChunkBlocks(blocks: seq<Block>, target: int, overlap: int) returns (r: Result<seq<ChunkDraft>>)
    ensures overlap >= target ==> r == ValueError
    ensures overlap < target ==> r == Ok(ChunksOf(blocks, target, overlap))
  {
    if overlap >= target {
      return ValueError;
    }
    var ss := Sentences(blocks, target);
    var chunks := PackSentences(ss, target, overlap);
    r := Ok(chunks);
  }

  // ----- what the windows are -----

  /** `d` starts the longest run of whole sentences ending at `hi` that fits the overlap;
      `hi` itself when that run would be all of `lo..hi`. */
  ghost predicate CarriesLongest(ss: seq<Sentence>, lo: nat, hi: nat, d: nat, overlap: int)
    requires lo < hi <= |ss|
  {
    && lo < d <= hi
    && (d < hi ==> Span(ss, d, hi) <= overlap)
    && if Span(ss, lo, hi) <= overlap then d == hi
       else forall j :: lo <= j < d ==> Span(ss, j, hi) > overlap
  }

  /** The first sentence past `from` was added unchecked; every later one fitted. */
  ghost predicate FilledGreedily(ss: seq<Sentence>, target: int, w: Window, from: nat)
    requires w.lo < w.hi <= |ss|
  {
    from < w.hi && forall m :: w.lo < m < w.hi && from < m ==> Fits(ss, target, w.lo, m)
  }

  /** `next` may follow `w`: the sentence after `w` did not fit, and the longest overlap is carried. */
  ghost predicate Follows(ss: seq<Sentence>, target: int, overlap: int, w: Window, next: Window)
    requires w.lo < w.hi <= |ss| && next.lo < next.hi <= |ss|
  {
    && w.hi < next.hi
    && CarriesLongest(ss, w.lo, w.hi, next.lo, overlap)
    && !Fits(ss, target, w.lo, w.hi)
    && FilledGreedily(ss, target, next, w.hi)
  }

  /** Every window follows the one before it. */
  ghost predicate Linked(ss: seq<Sentence>, target: int, overlap: int, ws: seq<Window>)
    requires InRange(ss, ws)
  {
    |ws| > 1 ==> Follows(ss, target, overlap, ws[0], ws[1]) && Linked(ss, target, overlap, ws[1..])
  }

  lemma {:induction false} LinkedAt(ss: seq<Sentence>, target: int, overlap: int, ws: seq<Window>, i: nat)
    requires InRange(ss, ws) && Linked(ss, target, overlap, ws) && i + 1 < |ws|
    ensures Follows(ss, target, overlap, ws[i], ws[i + 1])
  {
    if i > 0 { LinkedAt(ss, target, overlap, ws[1..], i - 1); }
  }

  /** A packing that begins with the window at `lo`, filled at least to `hi`. */
  ghost predicate PackingFrom(ss: seq<Sentence>, target: int, overlap: int, ws: seq<Window>, lo: nat, hi: nat)
    requires lo < hi
  {
    && ws != [] && InRange(ss, ws)
    && ws[0].lo == lo && FilledGreedily(ss, target, ws[0], hi - 1)
    && ws[|ws| - 1].hi == |ss|
    && Linked(ss, target, overlap, ws)
  }

  /** The windows start at the first sentence, end at the last, and each follows the one before. */
  ghost predicate IsPacking(ss: seq<Sentence>, target: int, overlap: int, ws: seq<Window>) {
    if ss == [] then ws == [] else PackingFrom(ss, target, overlap, ws, 0, 1)
  }

  ghost predicate Positive(ss: seq<Sentence>) {
    forall i :: 0 <= i < |ss| ==> ss[i].tokens >= 1
  }

  lemma {:induction false} CarryIsLongest(ss: seq<Sentence>, lo: nat, k: nat, room: int)
    requires lo <= k <= |ss| && Positive(ss)
    ensures var c := CarryFrom(ss, lo, k, room);
      && (c < k ==> Span(ss, c, k) <= room)
      && forall j :: lo <= j < c ==> Span(ss, j, k) > room
  {
    if k > lo && ss[k - 1].tokens <= room {
      CarryIsLongest(ss, lo, k - 1, room - ss[k - 1].tokens);
    }
  }

  lemma NextLoIsLongest(ss: seq<Sentence>, lo: nat, hi: nat, overlap: int)
    requires lo < hi <= |ss| && Positive(ss)
    ensures CarriesLongest(ss, lo, hi, NextLo(ss, lo, hi, overlap), overlap)
  {
    CarryIsLongest(ss, lo, hi, overlap);
  }

  lemma CarryUnique(ss: seq<Sentence>, lo: nat, hi: nat, d: nat, e: nat, overlap: int)
    requires lo < hi <= |ss|
    requires CarriesLongest(ss, lo, hi, d, overlap) && CarriesLongest(ss, lo, hi, e, overlap)
    ensures d == e
  {
  }

  lemma PackingClosesHere(ss: seq<Sentence>, target: int, overlap: int, ws: seq<Window>, lo: nat, hi: nat)
    requires lo < hi < |ss| && !Fits(ss, target, lo, hi)
    requires PackingFrom(ss, target, overlap, ws, lo, hi)
    ensures ws[0] == Window(lo, hi) && |ws| > 1
    ensures Follows(ss, target, overlap, Window(lo, hi), ws[1])
    ensures Linked(ss, target, overlap, ws[1..])
  {
  }

  /** When the next sentence does not fit, a packing closes this window and carries on. */
  lemma PackingStops(ss: seq<Sentence>, target: int, overlap: int, ws: seq<Window>, lo: nat, hi: nat)
    requires lo < hi < |ss| && Positive(ss) && !Fits(ss, target, lo, hi)
    requires PackingFrom(ss, target, overlap, ws, lo, hi)
    ensures ws[0] == Window(lo, hi)
    ensures PackingFrom(ss, target, overlap, ws[1..], NextLo(ss, lo, hi, overlap), hi + 1)
  {
    PackingClosesHere(ss, target, overlap, ws, lo, hi);
    NextLoIsLongest(ss, lo, hi, overlap);
    CarryUnique(ss, lo, hi, NextLo(ss, lo, hi, overlap), ws[1].lo, overlap);
  }

  lemma PackingExtends(ss: seq<Sentence>, target: int, overlap: int, rest: seq<Window>, lo: nat, hi: nat)
    requires lo < hi < |ss| && Positive(ss) && !Fits(ss, target, lo, hi)
    requires PackingFrom(ss, target, overlap, rest, NextLo(ss, lo, hi, overlap), hi + 1)
    ensures PackingFrom(ss, target, overlap, [Window(lo, hi)] + rest, lo, hi)
  {
    NextLoIsLongest(ss, lo, hi, overlap);
    assert ([Window(lo, hi)] + rest)[1..] == rest;
  }

  /** When the next sentence fits, a packing takes it. */
  lemma PackingGrows(ss: seq<Sentence>, target: int, overlap: int, ws: seq<Window>, lo: nat, hi: nat)
    requires lo < hi < |ss| && Fits(ss, target, lo, hi)
    ensures PackingFrom(ss, target, overlap, ws, lo, hi) <==> PackingFrom(ss, target, overlap, ws, lo, hi + 1)
  {
  }

  lemma PackingEnds(ss: seq<Sentence>, target: int, overlap: int, lo: nat)
    requires lo < |ss|
    ensures PackingFrom(ss, target, overlap, [Window(lo, |ss|)], lo, |ss|)
  {
  }

  lemma {:induction false} WindowsArePacking(ss: seq<Sentence>, target: int, overlap: int, lo: nat, hi: nat)
    requires lo < hi <= |ss| && Positive(ss)
    ensures PackingFrom(ss, target, overlap, Windows(ss, target, overlap, lo, hi), lo, hi)
    decreases |ss| - hi
  {
    var ws := Windows(ss, target, overlap, lo, hi);
    if hi == |ss| {
      PackingEnds(ss, target, overlap, lo);
    } else if !Fits(ss, target, lo, hi) {
      var next := NextLo(ss, lo, hi, overlap);
      var rest := Windows(ss, target, overlap, next, hi + 1);
      assert ws == [Window(lo, hi)] + rest;
      WindowsArePacking(ss, target, overlap, next, hi + 1);
      PackingExtends(ss, target, overlap, rest, lo, hi);
    } else {
      assert ws == Windows(ss, target, overlap, lo, hi + 1);
      WindowsArePacking(ss, target, overlap, lo, hi + 1);
      PackingGrows(ss, target, overlap, ws, lo, hi);
    }
  }

  lemma {:induction false} PackingIsUnique(ss: seq<Sentence>, target: int, overlap: int, ws: seq<Window>, lo: nat, hi: nat)
    requires lo < hi <= |ss| && Positive(ss)
    requires PackingFrom(ss, target, overlap, ws, lo, hi)
    ensures ws == Windows(ss, target, overlap, lo, hi)
    decreases |ss| - hi
  {
    if hi == |ss| {
      assert ws == [Window(lo, hi)];
    } else if !Fits(ss, target, lo, hi) {
      PackingStops(ss, target, overlap, ws, lo, hi);
      PackingIsUnique(ss, target, overlap, ws[1..], NextLo(ss, lo, hi, overlap), hi + 1);
      assert ws == [ws[0]] + ws[1..];
    } else {
      PackingGrows(ss, target, overlap, ws, lo, hi);
      PackingIsUnique(ss, target, overlap, ws, lo, hi + 1);
    }
  }

  /** The windows of `chunk_blocks` are exactly the greedy packing with longest overlap. */
  lemma PackingExact(ss: seq<Sentence>, target: int, overlap: int, ws: seq<Window>)
    requires Positive(ss)
    ensures IsPacking(ss, target, overlap, ws) <==> ws == AllWindows(ss, target, overlap)
  {
    if ss != [] {
      WindowsArePacking(ss, target, overlap, 0, 1);
      if IsPacking(ss, target, overlap, ws) {
        PackingIsUnique(ss, target, overlap, ws, 0, 1);
      }
    }
  }
}
