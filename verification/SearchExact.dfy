/** What can be read off a search's answer leaves no choice: one answer has it. */
module SearchExact {
  import opened Prelude
  import opened Text
  import opened Retrieval
  import opened SearchResults

  lemma SameHit(q: Request, a: Retrieved, b: Retrieved)
    requires Keyed(q) && Right(q, a) && Right(q, b) && a.hit.chunkId == b.hit.chunkId
    ensures a.hit == b.hit
  {
    var source := if a.hit in Asked(q, DenseSim) then DenseSim else KeywordRank;
    var hits := Asked(q, source);
    if a.hit in Asked(q, DenseSim) { HitIn(Asked(q, DenseSim), a.hit); }
    if b.hit in Asked(q, DenseSim) { HitIn(Asked(q, DenseSim), b.hit); }
    assert a.hit in hits && b.hit in hits;
    var i :| 0 <= i < |hits| && hits[i] == a.hit;
    OwnHit(hits, i, b.hit);
  }

  lemma SameScore(q: Request, source: Source, a: Retrieved, b: Retrieved)
    requires ScoredBy(q, source, a) && ScoredBy(q, source, b) && a.hit.chunkId == b.hit.chunkId
    ensures source in a.scores <==> source in b.scores
    ensures source in a.scores ==> a.scores[source] == b.scores[source]
  {
    var hits := Asked(q, source);
    if source in a.scores {
      IdIndex(hits, a.hit.chunkId);
      var i :| 0 <= i < |hits| && hits[i].chunkId == a.hit.chunkId;
      assert hits[i] in hits;
    }
  }

  /** Two results for one chunk are one result: its hit, and every score it has. */
  lemma RightUnique(q: Request, a: Retrieved, b: Retrieved)
    requires Keyed(q) && Right(q, a) && Right(q, b) && a.hit.chunkId == b.hit.chunkId
    ensures a == b
  {
    SameHit(q, a, b);
    SameScore(q, DenseSim, a, b);
    SameScore(q, KeywordRank, a, b);
    forall source: Source
      ensures source in a.scores <==> source in b.scores
      ensures source in a.scores ==> a.scores[source] == b.scores[source]
    {
      match source
      case DenseSim =>
      case KeywordRank =>
      case Rrf =>
      case Rerank =>
    }
  }

  lemma FallingTail(a: seq<Retrieved>, source: Source)
    requires Falling(a, source) && a != []
    ensures Falling(a[1..], source) && forall r :: r in a[1..] <==> r in a && r != a[0]
  {
    assert a == [a[0]] + a[1..];
    forall r | r in a[1..]
      ensures r != a[0]
    {
      var i :| 0 <= i < |a[1..]| && a[1..][i] == r;
      assert a[i + 1] == r;
    }
  }

  /** Falling scores put a set of results in one order. */
  lemma {:induction false} FallingUnique(a: seq<Retrieved>, b: seq<Retrieved>, source: Source)
    requires Falling(a, source) && Falling(b, source) && forall r :: r in a <==> r in b
    ensures a == b
    decreases |a|
  {
    assert b != [] ==> b[0] in b;
    if a != [] {
      assert a[0] in a;
      assert b[0] in b;
      var i :| 0 <= i < |a| && a[i] == b[0];
      var j :| 0 <= j < |b| && b[j] == a[0];
      assert a[0] == b[0];
      FallingTail(a, source);
      FallingTail(b, source);
      FallingUnique(a[1..], b[1..], source);
      assert a == [a[0]] + a[1..] && b == [b[0]] + b[1..];
    }
  }

  lemma Covered(q: Request, a: seq<Retrieved>, b: seq<Retrieved>, i: nat)
    requires Keyed(q) && Ordered(q, a) && Ordered(q, b) && i < |a|
    ensures a[i] in b
  {
    assert Right(q, a[i]);
    assert a[i].hit in Asked(q, DenseSim) + Asked(q, KeywordRank);
    var j :| 0 <= j < |b| && b[j].hit.chunkId == a[i].hit.chunkId;
    RightUnique(q, a[i], b[j]);
  }

  lemma OrderedUnique(q: Request, a: seq<Retrieved>, b: seq<Retrieved>)
    requires Keyed(q) && Ordered(q, a) && Ordered(q, b)
    ensures a == b
  {
    if q.mode == Hybrid {
      forall r ensures r in a <==> r in b {
        if r in a { var i :| 0 <= i < |a| && a[i] == r; Covered(q, a, b, i); }
        if r in b { var i :| 0 <= i < |b| && b[i] == r; Covered(q, b, a, i); }
      }
      FallingUnique(a, b, Rrf);
    } else {
      forall i | 0 <= i < |a| ensures a[i] == b[i] { RightUnique(q, a[i], b[i]); }
    }
  }

  lemma FirstOfUnique(all: seq<Retrieved>, topN: Option<int>, preset: int, a: seq<Retrieved>, b: seq<Retrieved>)
    requires FirstOf(all, topN, preset, a) && FirstOf(all, topN, preset, b)
    ensures a == b
  {
  }

  /** A search has one answer. */
  lemma AnswerUnique(q: Request, topN: Option<int>, preset: int, a: Result, b: Result)
    requires Keyed(q) && IsAnswer(q, topN, preset, a) && IsAnswer(q, topN, preset, b)
    ensures a == b
  {
    if Strip(q.query) != "" {
      var x :| Ordered(q, x) && Answered(q, x, topN, preset, a);
      var y :| Ordered(q, y) && Answered(q, y, topN, preset, b);
      OrderedUnique(q, x, y);
      if q.reranker == None || x == [] {
        FirstOfUnique(x, topN, preset, a.chunks, b.chunks);
      } else {
        var values := NewScores(q.reranker.value, q.query, x);
        if |values| == |x| {
          var v :| Reranked(x, values, v) && FirstOf(v, topN, preset, a.chunks);
          var w :| Reranked(x, values, w) && FirstOf(w, topN, preset, b.chunks);
          FallingUnique(v, w, Rerank);
          FirstOfUnique(v, topN, preset, a.chunks, b.chunks);
        }
      }
    }
  }
}
