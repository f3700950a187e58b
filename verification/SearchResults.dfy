/** What `RetrievalService.search` answers: the results in the mode's order, reranked and cut to
    `top_n`; first as the code computes them, then by what can be read off the answer. */
module SearchResults {
  import opened Prelude
  import opened Text
  import opened Ranking
  import opened Retrieval

  /** A query and a list of texts to a list of scores. */
  type Reranker = (string, seq<string>) -> seq<real>

  /** One search: the query, what the two searches would find, and the service's settings. */
  datatype Request = Request(query: string, mode: Mode, dense: seq<Hit>, keyword: seq<Hit>, k: nat,
                             reranker: Option<Reranker>)

  /** A ranking lists primary keys. */
  ghost predicate Keyed(q: Request) { Unique(Ids(q.dense)) && Unique(Ids(q.keyword)) }

  function Table(q: Request): map<nat, Hit> { HitTable(q.mode, q.dense, q.keyword) }

  ghost function FirstOrder(q: Request): (order: seq<nat>)
    ensures forall id :: id in order <==> id in Table(q)
    ensures forall i :: 0 <= i < |order| ==> order[i] in Table(q)
    ensures Keyed(q) ==> Unique(order)
  {
    LookupsDefined(q.mode, q.dense, q.keyword, q.k);
    var order := BaseOrder(q.mode, q.dense, q.keyword, q.k);
    assert forall i :: 0 <= i < |order| ==> order[i] in order;
    order
  }

  // ----- reranking -----

  function Contents(ids: seq<nat>, hits: map<nat, Hit>): seq<string>
    requires forall i :: 0 <= i < |ids| ==> ids[i] in hits
  {
    seq(|ids|, i requires 0 <= i < |ids| => hits[ids[i]].content)
  }

  /** `zip(ids, values)` as a table. */
  function Zipped(ids: seq<nat>, values: seq<real>): (m: map<nat, real>)
    requires |ids| == |values|
    ensures m.Keys == set id | id in ids
  {
    if ids == [] then map[]
    else
      var n := |ids| - 1;
      assert ids == ids[..n] + [ids[n]];
      Zipped(ids[..n], values[..n])[ids[n] := values[n]]
  }

  lemma {:induction false} ZippedAt(ids: seq<nat>, values: seq<real>, i: nat)
    requires |ids| == |values| && Unique(ids) && i < |ids|
    ensures Zipped(ids, values)[ids[i]] == values[i]
  {
    var n := |ids| - 1;
    if i < n {
      ZippedAt(ids[..n], values[..n], i);
      assert ids[i] != ids[n];
    }
  }

  /** What the reranker answers for the ordered list. */
  ghost function Answers(q: Request): seq<real>
    requires q.reranker.Some?
  {
    q.reranker.value(q.query, Contents(FirstOrder(q), Table(q)))
  }

  predicate Reranks(q: Request, order: seq<nat>) { q.reranker.Some? && order != [] }

  /** One score for each text, or there is no reranking to do. */
  ghost predicate Answerable(q: Request) {
    Reranks(q, FirstOrder(q)) ==> |Answers(q)| == |FirstOrder(q)|
  }

  ghost function RerankScores(q: Request): map<nat, real>
    requires Reranks(q, FirstOrder(q)) && Answerable(q)
  {
    Zipped(FirstOrder(q), Answers(q))
  }

  ghost function FinalOrder(q: Request): (order: seq<nat>)
    requires Answerable(q)
    ensures forall id :: id in order <==> id in Table(q)
  {
    if Reranks(q, FirstOrder(q)) then Order(RerankScores(q)) else FirstOrder(q)
  }

  ghost function FinalScores(q: Request): (scores: map<nat, map<Source, real>>)
    requires Answerable(q)
    ensures scores.Keys == Table(q).Keys
  {
    LookupsDefined(q.mode, q.dense, q.keyword, q.k);
    var scores := BaseScores(q.mode, q.dense, q.keyword, q.k);
    if Reranks(q, FirstOrder(q)) then Filed(scores, Rerank, RerankScores(q)) else scores
  }

  // ----- the first `top_n` -----

  datatype Retrieved = Retrieved(hit: Hit, scores: map<Source, real>)

  /** `top_n or self._top_n`: zero counts as not given. */
  function Effective(topN: Option<int>, preset: int): int {
    if topN.Some? && topN.value != 0 then topN.value else preset
  }

  /** How many of `len` elements `[:n]` keeps. */
  function Kept(len: nat, n: int): (k: nat)
    ensures k <= len
  {
    if n >= 0 then Min(n, len) else Max(0, len + n)
  }

  /** Python's `s[:n]`. */
  function Slice<T>(s: seq<T>, n: int): seq<T> { s[..Kept(|s|, n)] }

  function Render(ids: seq<nat>, hits: map<nat, Hit>, scores: map<nat, map<Source, real>>): (r: seq<Retrieved>)
    requires forall i :: 0 <= i < |ids| ==> ids[i] in hits && ids[i] in scores
    ensures |r| == |ids|
  {
    seq(|ids|, i requires 0 <= i < |ids| => Retrieved(hits[ids[i]], scores[ids[i]]))
  }

  lemma RenderPrefix(ids: seq<nat>, n: nat, hits: map<nat, Hit>, scores: map<nat, map<Source, real>>)
    requires n <= |ids| && forall i :: 0 <= i < |ids| ==> ids[i] in hits && ids[i] in scores
    ensures Render(ids[..n], hits, scores) <= Render(ids, hits, scores)
  {
  }

  lemma AllKnown(s: seq<nat>, n: int, known: set<nat>)
    requires forall id :: id in s <==> id in known
    ensures forall i :: 0 <= i < |Slice(s, n)| ==> Slice(s, n)[i] in known
  {
    assert forall i :: 0 <= i < |s| ==> s[i] in s;
  }

  /** What a search that gets as far as an answer returns. */
  ghost function Results(q: Request, topN: Option<int>, preset: int): (r: seq<Retrieved>)
    requires Answerable(q)
    ensures |r| == Kept(|FinalOrder(q)|, Effective(topN, preset))
  {
    var ids := Slice(FinalOrder(q), Effective(topN, preset));
    AllKnown(FinalOrder(q), Effective(topN, preset), Table(q).Keys);
    Render(ids, Table(q), FinalScores(q))
  }

  // ----- what a search answers, read off its result -----

  /** What the search of this source returned, if this mode makes that search. */
  function Asked(q: Request, source: Source): seq<Hit> {
    if source == DenseSim && q.mode != Keyword then q.dense
    else if source == KeywordRank && q.mode != Dense then q.keyword
    else []
  }

  /** The result's score under a source is the one that search gave the chunk, if it found it. */
  ghost predicate ScoredBy(q: Request, source: Source, r: Retrieved) {
    && (source in r.scores <==> r.hit.chunkId in Ids(Asked(q, source)))
    && (forall hit :: hit in Asked(q, source) && hit.chunkId == r.hit.chunkId ==>
          source in r.scores && r.scores[source] == hit.score)
  }

  /** A hit one of the searches returned, the dense search's if both did, with every score so far. */
  ghost predicate Right(q: Request, r: Retrieved) {
    && (r.hit in Asked(q, DenseSim) || (r.hit in Asked(q, KeywordRank) && r.hit.chunkId !in Ids(Asked(q, DenseSim))))
    && ScoredBy(q, DenseSim, r) && ScoredBy(q, KeywordRank, r) && Rerank !in r.scores
    && (Rrf in r.scores <==> q.mode == Hybrid)
    && (q.mode == Hybrid ==>
          r.scores[Rrf] == Share(Ids(q.dense), q.k, 0, r.hit.chunkId) + Share(Ids(q.keyword), q.k, 0, r.hit.chunkId))
  }

  /** By falling score under a source, equal ones by id. */
  ghost predicate Falling(rs: seq<Retrieved>, source: Source) {
    && (forall i :: 0 <= i < |rs| ==> source in rs[i].scores)
    && (forall i, j :: 0 <= i < j < |rs| ==>
          var x, y := rs[i].scores[source], rs[j].scores[source];
          x > y || (x == y && rs[i].hit.chunkId < rs[j].hit.chunkId))
  }

  /** Every chunk found, once, in the mode's order: fused scores, or as the one search ranked them. */
  ghost predicate Ordered(q: Request, rs: seq<Retrieved>) {
    && (forall i :: 0 <= i < |rs| ==> Right(q, rs[i]))
    && (forall i, j :: 0 <= i < j < |rs| ==> rs[i].hit.chunkId != rs[j].hit.chunkId)
    && (forall hit :: hit in Asked(q, DenseSim) + Asked(q, KeywordRank) ==>
          exists i :: 0 <= i < |rs| && rs[i].hit.chunkId == hit.chunkId)
    && match q.mode
       case Hybrid => Falling(rs, Rrf)
       case Dense => |rs| == |q.dense| && forall i :: 0 <= i < |rs| ==> rs[i].hit == q.dense[i]
       case Keyword => |rs| == |q.keyword| && forall i :: 0 <= i < |rs| ==> rs[i].hit == q.keyword[i]
  }

  /** The reranker's scores for a list of results. */
  function NewScores(f: Reranker, query: string, rs: seq<Retrieved>): seq<real> {
    f(query, seq(|rs|, i requires 0 <= i < |rs| => rs[i].hit.content))
  }

  function Rescored(rs: seq<Retrieved>, values: seq<real>): seq<Retrieved>
    requires |values| == |rs|
  {
    seq(|rs|, i requires 0 <= i < |rs| => rs[i].(scores := rs[i].scores[Rerank := values[i]]))
  }

  /** The same results, each with its own new score, by falling new score. */
  ghost predicate Reranked(rs: seq<Retrieved>, values: seq<real>, after: seq<Retrieved>) {
    && |values| == |rs| == |after|
    && (forall r :: r in after <==> r in Rescored(rs, values))
    && Falling(after, Rerank)
  }

  /** The first results: `n` of them, all but the last `-n`, or as many as by default. */
  ghost predicate FirstOf(all: seq<Retrieved>, topN: Option<int>, preset: int, rs: seq<Retrieved>) {
    var n := if topN == None || topN == Some(0) then preset else topN.value;
    && rs <= all
    && |rs| == if n > |all| then |all| else if n >= 0 then n else if |all| + n >= 0 then |all| + n else 0
  }

  datatype Result = Found(chunks: seq<Retrieved>) | InvalidQuery | RerankMismatch

  /** What a search with a query returns, given its results in the mode's order. */
  ghost predicate Answered(q: Request, ordered: seq<Retrieved>, topN: Option<int>, preset: int, r: Result) {
    if q.reranker == None || ordered == [] then
      r.Found? && FirstOf(ordered, topN, preset, r.chunks)
    else
      var values := NewScores(q.reranker.value, q.query, ordered);
      if |values| != |ordered| then r == RerankMismatch
      else r.Found? && exists all :: Reranked(ordered, values, all) && FirstOf(all, topN, preset, r.chunks)
  }

  /** The answer to a search, by what can be read off it. */
  ghost predicate IsAnswer(q: Request, topN: Option<int>, preset: int, r: Result) {
    if Strip(q.query) == "" then r == InvalidQuery
    else r != InvalidQuery && exists ordered :: Ordered(q, ordered) && Answered(q, ordered, topN, preset, r)
  }

  // ----- the hit and scores of a result -----

  lemma HitIsOwn(hits: map<nat, Hit>, result: seq<Hit>, id: nat)
    requires Unique(Ids(result)) && id !in hits && id in Ids(result)
    ensures id in WithHits(hits, result) && WithHits(hits, result)[id] in result
    ensures WithHits(hits, result)[id].chunkId == id
  {
    IdIndex(result, id);
    var i :| 0 <= i < |result| && result[i].chunkId == id;
    RegisteredHit(hits, result, i);
  }

  lemma TableHit(q: Request, id: nat)
    requires Keyed(q) && id in Table(q)
    ensures var hit := Table(q)[id];
      && hit.chunkId == id
      && (hit in Asked(q, DenseSim) || (hit in Asked(q, KeywordRank) && id !in Ids(Asked(q, DenseSim))))
  {
    HitsAreFound(q.mode, q.dense, q.keyword);
    var first := if q.mode == Keyword then map[] else WithHits(map[], q.dense);
    WithHitsKeys(map[], q.dense);
    if q.mode != Keyword && id in Ids(q.dense) {
      HitIsOwn(map[], q.dense, id);
      if q.mode == Hybrid { HitsKept(first, q.keyword, id); }
    } else {
      HitIsOwn(first, q.keyword, id);
    }
  }

  lemma HitIn(hits: seq<Hit>, hit: Hit)
    requires hit in hits
    ensures hit.chunkId in Ids(hits) && exists i :: 0 <= i < |hits| && hits[i] == hit
  {
    var i :| 0 <= i < |hits| && hits[i] == hit;
    assert Ids(hits)[i] == hit.chunkId;
  }

  /** What registering one result files for an id under its source, and keeps under the others. */
  lemma FiledScore(scores: map<nat, map<Source, real>>, result: seq<Hit>, source: Source, id: nat)
    requires Unique(Ids(result)) && (id in scores || id in Ids(result))
    requires id in scores ==> source !in scores[id]
    ensures var after := WithScores(scores, result, source);
      && id in after && (source in after[id] <==> id in Ids(result))
      && (forall other :: other != source ==>
            if id in scores && other in scores[id] then other in after[id] && after[id][other] == scores[id][other]
            else other !in after[id])
      && (forall hit :: hit in result && hit.chunkId == id ==> source in after[id] && after[id][source] == hit.score)
  {
    RegisteredScores(scores, result, source, id);
    IdIndex(result, id);
    var after := WithScores(scores, result, source);
    if id in Ids(result) {
      forall i | 0 <= i < |result| && result[i].chunkId == id
        ensures source in after[id] && after[id][source] == result[i].score
      {
      }
    }
  }

  lemma BothScores(dense: seq<Hit>, keyword: seq<Hit>, id: nat)
    requires Unique(Ids(dense)) && Unique(Ids(keyword)) && (id in Ids(dense) || id in Ids(keyword))
    ensures id in SourceScores(Hybrid, dense, keyword)
    ensures var s := SourceScores(Hybrid, dense, keyword)[id];
      && (DenseSim in s <==> id in Ids(dense)) && (KeywordRank in s <==> id in Ids(keyword)) && Rrf !in s && Rerank !in s
      && (forall hit :: hit in dense && hit.chunkId == id ==> DenseSim in s && s[DenseSim] == hit.score)
      && (forall hit :: hit in keyword && hit.chunkId == id ==> KeywordRank in s && s[KeywordRank] == hit.score)
  {
    var first := WithScores(map[], dense, DenseSim);
    if id in Ids(dense) {
      FiledScore(map[], dense, DenseSim, id);
    } else {
      WithScoresKeys(map[], dense, DenseSim);
      forall hit | hit in dense ensures hit.chunkId != id { HitIn(dense, hit); }
    }
    FiledScore(first, keyword, KeywordRank, id);
  }

  lemma TableScores(q: Request, id: nat)
    requires Keyed(q) && id in Table(q)
    ensures id in SourceScores(q.mode, q.dense, q.keyword)
    ensures var s := SourceScores(q.mode, q.dense, q.keyword)[id];
      && Rrf !in s && Rerank !in s
      && ScoredBy(q, DenseSim, Retrieved(Table(q)[id], s)) && ScoredBy(q, KeywordRank, Retrieved(Table(q)[id], s))
  {
    TableHit(q, id);
    HitsAreFound(q.mode, q.dense, q.keyword);
    match q.mode
    case Dense =>
      FiledScore(map[], q.dense, DenseSim, id);
    case Keyword =>
      FiledScore(map[], q.keyword, KeywordRank, id);
    case Hybrid =>
      BothScores(q.dense, q.keyword, id);
  }

  lemma TableRight(q: Request, id: nat)
    requires Keyed(q) && id in Table(q) && id in BaseScores(q.mode, q.dense, q.keyword, q.k)
    ensures Right(q, Retrieved(Table(q)[id], BaseScores(q.mode, q.dense, q.keyword, q.k)[id]))
  {
    TableHit(q, id);
    TableScores(q, id);
    HitsAreFound(q.mode, q.dense, q.keyword);
  }

  // ----- the mode's order -----

  /** The results before any reranking. */
  ghost function FirstResults(q: Request): (rs: seq<Retrieved>)
    ensures |rs| == |FirstOrder(q)|
  {
    LookupsDefined(q.mode, q.dense, q.keyword, q.k);
    Render(FirstOrder(q), Table(q), BaseScores(q.mode, q.dense, q.keyword, q.k))
  }

  lemma FirstRight(q: Request, i: nat)
    requires Keyed(q) && i < |FirstOrder(q)|
    ensures Right(q, FirstResults(q)[i]) && FirstResults(q)[i].hit.chunkId == FirstOrder(q)[i]
  {
    LookupsDefined(q.mode, q.dense, q.keyword, q.k);
    TableHit(q, FirstOrder(q)[i]);
    TableRight(q, FirstOrder(q)[i]);
  }

  lemma FirstFindsAll(q: Request, hit: Hit)
    requires Keyed(q) && hit in Asked(q, DenseSim) + Asked(q, KeywordRank)
    ensures exists i :: 0 <= i < |FirstResults(q)| && FirstResults(q)[i].hit.chunkId == hit.chunkId
  {
    var hits := if hit in Asked(q, DenseSim) then q.dense else q.keyword;
    HitIn(hits, hit);
    HitsAreFound(q.mode, q.dense, q.keyword);
    assert hit.chunkId in FirstOrder(q);
    var i :| 0 <= i < |FirstOrder(q)| && FirstOrder(q)[i] == hit.chunkId;
    FirstRight(q, i);
  }

  lemma OwnHit(hits: seq<Hit>, i: nat, hit: Hit)
    requires Unique(Ids(hits)) && i < |hits| && hit in hits && hit.chunkId == hits[i].chunkId
    ensures hit == hits[i]
  {
    var j :| 0 <= j < |hits| && hits[j] == hit;
    assert Ids(hits)[i] == Ids(hits)[j];
  }

  lemma FirstFalls(q: Request)
    requires Keyed(q) && q.mode == Hybrid
    ensures Falling(FirstResults(q), Rrf)
  {
    var rs, order := FirstResults(q), FirstOrder(q);
    var score := FusedScores(Ids(q.dense), Ids(q.keyword), q.k);
    forall i | 0 <= i < |rs|
      ensures rs[i].hit.chunkId == order[i] && Rrf in rs[i].scores && rs[i].scores[Rrf] == score[order[i]]
    {
      FirstRight(q, i);
    }
    forall i, j | 0 <= i < j < |rs|
      ensures Before(score, order[i], order[j])
    {
    }
  }

  lemma FirstAsRanked(q: Request)
    requires Keyed(q) && q.mode != Hybrid
    ensures var hits := if q.mode == Dense then q.dense else q.keyword;
      |FirstResults(q)| == |hits| && forall i :: 0 <= i < |hits| ==> FirstResults(q)[i].hit == hits[i]
  {
    var hits := if q.mode == Dense then q.dense else q.keyword;
    forall i | 0 <= i < |hits|
      ensures FirstResults(q)[i].hit == hits[i]
    {
      FirstRight(q, i);
      OwnHit(hits, i, FirstResults(q)[i].hit);
    }
  }

  lemma FirstOrdered(q: Request)
    requires Keyed(q)
    ensures Ordered(q, FirstResults(q))
  {
    var rs, order := FirstResults(q), FirstOrder(q);
    forall i | 0 <= i < |rs| ensures Right(q, rs[i]) && rs[i].hit.chunkId == order[i] { FirstRight(q, i); }
    forall hit | hit in Asked(q, DenseSim) + Asked(q, KeywordRank)
      ensures exists i :: 0 <= i < |rs| && rs[i].hit.chunkId == hit.chunkId
    {
      FirstFindsAll(q, hit);
    }
    if q.mode == Hybrid { FirstFalls(q); } else { FirstAsRanked(q); }
  }

  // ----- filing new scores and sorting by them is reranking -----

  /** Rendered by an order of their own scores under a source, results fall by it. */
  lemma RenderFalls(order: seq<nat>, hits: map<nat, Hit>, scores: map<nat, map<Source, real>>, source: Source,
                    score: map<nat, real>)
    requires Sorted(order, score) && score.Keys <= hits.Keys && score.Keys <= scores.Keys
    requires forall id :: id in score ==> hits[id].chunkId == id && source in scores[id] && scores[id][source] == score[id]
    ensures Falling(Render(order, hits, scores), source)
  {
    var rs := Render(order, hits, scores);
    forall i, j | 0 <= i < j < |rs|
      ensures Before(score, order[i], order[j])
    {
    }
  }

  function IdSet(ids: seq<nat>): set<nat> { set id | id in ids }

  lemma {:induction false} UniqueCount(ids: seq<nat>)
    requires Unique(ids)
    ensures |IdSet(ids)| == |ids|
  {
    if ids == [] {
      assert IdSet(ids) == {};
    } else {
      var n := |ids| - 1;
      UniqueCount(ids[..n]);
      assert ids[n] !in IdSet(ids[..n]);
      assert IdSet(ids) == IdSet(ids[..n]) + {ids[n]};
    }
  }

  lemma SameCount(a: seq<nat>, b: seq<nat>)
    requires Unique(a) && Unique(b) && forall id :: id in a <==> id in b
    ensures |a| == |b|
  {
    UniqueCount(a);
    UniqueCount(b);
    assert IdSet(a) == IdSet(b);
  }

  lemma RenderHas(order: seq<nat>, hits: map<nat, Hit>, scores: map<nat, map<Source, real>>, id: nat)
    requires forall i :: 0 <= i < |order| ==> order[i] in hits && order[i] in scores
    requires id in order && id in hits && id in scores
    ensures Retrieved(hits[id], scores[id]) in Render(order, hits, scores)
  {
    var i :| 0 <= i < |order| && order[i] == id;
    assert Render(order, hits, scores)[i] == Retrieved(hits[id], scores[id]);
  }

  lemma RerankHas(first: seq<nat>, hits: map<nat, Hit>, scores: map<nat, map<Source, real>>, values: seq<real>,
                  order: seq<nat>, filed: map<nat, map<Source, real>>)
    requires Unique(first) && |values| == |first| && hits.Keys == scores.Keys == filed.Keys
    requires forall i :: 0 <= i < |first| ==> first[i] in hits && first[i] in order
    requires forall i :: 0 <= i < |order| ==> order[i] in hits && order[i] in first
    requires filed == Filed(scores, Rerank, Zipped(first, values))
    ensures forall r :: r in Render(order, hits, filed) <==> r in Rescored(Render(first, hits, scores), values)
  {
    var after, rescored := Render(order, hits, filed), Rescored(Render(first, hits, scores), values);
    forall i | 0 <= i < |first|
      ensures rescored[i] == Retrieved(hits[first[i]], filed[first[i]])
    {
      ZippedAt(first, values, i);
    }
    forall i | 0 <= i < |first|
      ensures rescored[i] in after
    {
      RenderHas(order, hits, filed, first[i]);
    }
    forall j | 0 <= j < |order|
      ensures after[j] in rescored
    {
      var i :| 0 <= i < |first| && first[i] == order[j];
      assert rescored[i] == after[j];
    }
  }

  lemma RerankFalls(hits: map<nat, Hit>, scores: map<nat, map<Source, real>>, score: map<nat, real>, order: seq<nat>)
    requires score.Keys == hits.Keys == scores.Keys && Sorted(order, score)
    requires forall id :: id in hits ==> hits[id].chunkId == id
    ensures Falling(Render(order, hits, Filed(scores, Rerank, score)), Rerank)
  {
    RenderFalls(order, hits, Filed(scores, Rerank, score), Rerank, score);
  }

  /** Filing the new scores and ordering by them is reranking. */
  lemma RerankRenders(first: seq<nat>, hits: map<nat, Hit>, scores: map<nat, map<Source, real>>, values: seq<real>,
                      order: seq<nat>)
    requires Unique(first) && |values| == |first| && hits.Keys == scores.Keys
    requires forall id :: id in first <==> id in hits
    requires forall i :: 0 <= i < |first| ==> first[i] in hits
    requires forall id :: id in hits ==> hits[id].chunkId == id
    requires forall i :: 0 <= i < |order| ==> order[i] in hits
    requires order == Order(Zipped(first, values))
    ensures Reranked(Render(first, hits, scores), values, Render(order, hits, Filed(scores, Rerank, Zipped(first, values))))
  {
    var score := Zipped(first, values);
    SortedIsUnique(order, score);
    SameCount(first, order);
    RerankFalls(hits, scores, score, order);
    RerankHas(first, hits, scores, values, order, Filed(scores, Rerank, score));
  }

  lemma NewScoresAre(q: Request)
    requires q.reranker.Some?
    ensures NewScores(q.reranker.value, q.query, FirstResults(q)) == Answers(q)
  {
    var rs := FirstResults(q);
    assert seq(|rs|, i requires 0 <= i < |rs| => rs[i].hit.content) == Contents(FirstOrder(q), Table(q));
  }

  lemma FinalReranked(q: Request)
    requires Keyed(q) && Reranks(q, FirstOrder(q)) && Answerable(q)
    ensures forall i :: 0 <= i < |FinalOrder(q)| ==> FinalOrder(q)[i] in Table(q)
    ensures Reranked(FirstResults(q), Answers(q), Render(FinalOrder(q), Table(q), FinalScores(q)))
  {
    LookupsDefined(q.mode, q.dense, q.keyword, q.k);
    forall id | id in Table(q) ensures Table(q)[id].chunkId == id { TableHit(q, id); }
    assert forall i :: 0 <= i < |FinalOrder(q)| ==> FinalOrder(q)[i] in FinalOrder(q);
    RerankRenders(FirstOrder(q), Table(q), BaseScores(q.mode, q.dense, q.keyword, q.k), Answers(q), FinalOrder(q));
  }

  // ----- the results are the answer -----

  lemma CutIsFirst(q: Request, topN: Option<int>, preset: int)
    requires Answerable(q)
    ensures forall i :: 0 <= i < |FinalOrder(q)| ==> FinalOrder(q)[i] in Table(q)
    ensures FirstOf(Render(FinalOrder(q), Table(q), FinalScores(q)), topN, preset, Results(q, topN, preset))
  {
    var order := FinalOrder(q);
    assert forall i :: 0 <= i < |order| ==> order[i] in order;
    RenderPrefix(order, Kept(|order|, Effective(topN, preset)), Table(q), FinalScores(q));
  }

  lemma ResultsAnswer(q: Request, topN: Option<int>, preset: int)
    requires Answerable(q) && Keyed(q)
    ensures Answered(q, FirstResults(q), topN, preset, Found(Results(q, topN, preset)))
  {
    CutIsFirst(q, topN, preset);
    if Reranks(q, FirstOrder(q)) {
      NewScoresAre(q);
      FinalReranked(q);
      assert FirstOf(Render(FinalOrder(q), Table(q), FinalScores(q)), topN, preset, Results(q, topN, preset));
    }
  }

  lemma SearchAnswers(q: Request, topN: Option<int>, preset: int)
    requires Keyed(q) && Strip(q.query) != ""
    ensures IsAnswer(q, topN, preset, if Answerable(q) then Found(Results(q, topN, preset)) else RerankMismatch)
  {
    FirstOrdered(q);
    if Answerable(q) {
      ResultsAnswer(q, topN, preset);
      assert Answered(q, FirstResults(q), topN, preset, Found(Results(q, topN, preset)));
    } else {
      NewScoresAre(q);
      assert Answered(q, FirstResults(q), topN, preset, RerankMismatch);
    }
  }
}
