/** Retrieval: dense and keyword rankings, reciprocal rank fusion, optional rerank. Chunk ids
    are primary keys, so a ranking never lists one twice. */
module Retrieval {
  import opened Prelude
  import opened Text
  import opened Ranking

  datatype Hit = Hit(chunkId: nat, document: nat, filename: string, index: nat, content: string, score: real)
  datatype Mode = Hybrid | Dense | Keyword
  datatype Source = DenseSim | KeywordRank | Rrf | Rerank

  function Ids(hits: seq<Hit>): seq<nat> {
    seq(|hits|, i requires 0 <= i < |hits| => hits[i].chunkId)
  }

  ghost predicate Unique(ids: seq<nat>) {
    forall i, j :: 0 <= i < j < |ids| ==> ids[i] != ids[j]
  }

  // ----- reciprocal rank fusion -----

  function Recip(n: nat): (r: real)
    requires n > 0
    ensures r > 0.0
  {
    1.0 / (n as real)
  }

  /** What a ranking gives an id: `1 / (k + rank + 1)` at 0-based `rank`, nothing if absent. */
  function Share(ids: seq<nat>, k: nat, from: nat, id: nat): (r: real)
    requires from <= |ids|
    ensures r >= 0.0
    decreases |ids| - from
  {
    if from == |ids| then 0.0
    else if ids[from] == id then Recip(k + from + 1)
    else Share(ids, k, from + 1, id)
  }

  lemma {:induction false} ShareAt(ids: seq<nat>, k: nat, from: nat, i: nat)
    requires Unique(ids) && from <= i < |ids|
    ensures Share(ids, k, from, ids[i]) == Recip(k + i + 1)
    decreases i - from
  {
    if from < i { ShareAt(ids, k, from + 1, i); }
  }

  lemma {:induction false} ShareAbsent(ids: seq<nat>, k: nat, from: nat, id: nat)
    requires from <= |ids| && id !in ids[from..]
    ensures Share(ids, k, from, id) == 0.0
    decreases |ids| - from
  {
    if from < |ids| {
      assert ids[from] in ids[from..];
      assert forall x :: x in ids[from + 1..] ==> x in ids[from..];
      ShareAbsent(ids, k, from + 1, id);
    }
  }

  function Candidates(dense: seq<nat>, keyword: seq<nat>): set<nat> {
    (set id | id in dense) + (set id | id in keyword)
  }

  /** The fused score of every candidate: the sum of its shares. */
  function FusedScores(dense: seq<nat>, keyword: seq<nat>, k: nat): map<nat, real> {
    map id | id in Candidates(dense, keyword) :: Share(dense, k, 0, id) + Share(keyword, k, 0, id)
  }

  ghost function HybridOrder(dense: seq<nat>, keyword: seq<nat>, k: nat): seq<nat> {
    Order(FusedScores(dense, keyword, k))
  }

  /** `a` comes before `b` in a result. */
  ghost predicate Precedes(s: seq<nat>, a: nat, b: nat) {
    exists i, j :: 0 <= i < j < |s| && s[i] == a && s[j] == b
  }

  lemma HybridPrecedes(dense: seq<nat>, keyword: seq<nat>, k: nat, a: nat, b: nat)
    requires a in Candidates(dense, keyword) && b in Candidates(dense, keyword) && a != b
    ensures Precedes(HybridOrder(dense, keyword, k), a, b) <==> Before(FusedScores(dense, keyword, k), a, b)
  {
    var score := FusedScores(dense, keyword, k);
    var s := HybridOrder(dense, keyword, k);
    assert a in score && b in score;
    assert a in s;
    assert b in s;
    var i :| 0 <= i < |s| && s[i] == a;
    var j :| 0 <= j < |s| && s[j] == b;
    RankedOrder(s, score.Keys, score, i, j);
    if Precedes(s, a, b) {
      var x, y :| 0 <= x < y < |s| && s[x] == a && s[y] == b;
      assert Before(score, s[x], s[y]);
    }
  }

  // ----- the service -----

  /** `values` are the entries `done` and those in `rest`. */
  ghost predicate Parted(values: map<nat, real>, done: map<nat, real>, rest: map<nat, real>) {
    && rest.Keys <= values.Keys && done.Keys == values.Keys - rest.Keys
    && (forall id :: id in rest ==> rest[id] == values[id])
    && (forall id :: id in done ==> done[id] == values[id])
  }

  lemma PartOne(values: map<nat, real>, done: map<nat, real>, rest: map<nat, real>, id: nat)
    requires Parted(values, done, rest) && id in rest
    ensures Parted(values, done[id := rest[id]], rest - {id})
  {
  }

  lemma PartAll(values: map<nat, real>, done: map<nat, real>)
    requires Parted(values, done, map[])
    ensures done == values
  {
  }

  /** A score filed under one more source, for the ids that have one. */
  function Filed(scores: map<nat, map<Source, real>>, source: Source, values: map<nat, real>): map<nat, map<Source, real>> {
    map id | id in scores :: if id in values then scores[id][source := values[id]] else scores[id]
  }

  lemma FiledOne(scores: map<nat, map<Source, real>>, source: Source, values: map<nat, real>, id: nat, value: real)
    requires id in scores && id !in values
    ensures Filed(scores, source, values)[id := Filed(scores, source, values)[id][source := value]]
         == Filed(scores, source, values[id := value])
  {
  }

  function WithHits(hits: map<nat, Hit>, result: seq<Hit>): map<nat, Hit> {
    if result == [] then hits
    else
      var before, hit := WithHits(hits, result[..|result| - 1]), result[|result| - 1];
      if hit.chunkId in before then before else before[hit.chunkId := hit]
  }

  function WithScores(scores: map<nat, map<Source, real>>, result: seq<Hit>, source: Source): map<nat, map<Source, real>> {
    if result == [] then scores
    else
      var before, hit := WithScores(scores, result[..|result| - 1], source), result[|result| - 1];
      before[hit.chunkId := (if hit.chunkId in before then before[hit.chunkId] else map[])[source := hit.score]]
  }

  class Registry {
    var hits: map<nat, Hit>
    var scores: map<nat, map<Source, real>>

    constructor ()
      ensures hits == map[] && scores == map[]
    {
      hits, scores := map[], map[];
    }

    /** `_register`: the first hit of an id is kept, and its score filed under the source. */
    method Register(result: seq<Hit>, source: Source) returns (ranked: seq<nat>)
      requires hits.Keys == scores.Keys && Unique(Ids(result))
      modifies this
      ensures ranked == Ids(result)
      ensures hits == WithHits(old(hits), result)
      ensures scores == WithScores(old(scores), result, source)
      ensures hits.Keys == scores.Keys
    {
      ranked := [];
      for i := 0 to |result|
        invariant ranked == Ids(result[..i])
        invariant hits == WithHits(old(hits), result[..i])
        invariant scores == WithScores(old(scores), result[..i], source)
        invariant hits.Keys == scores.Keys
      {
        var hit := result[i];
        assert result[..i + 1][..i] == result[..i];
        if hit.chunkId !in hits {
          hits := hits[hit.chunkId := hit];
        }
        var known := if hit.chunkId in scores then scores[hit.chunkId] else map[];
        scores := scores[hit.chunkId := known[source := hit.score]];
        ranked := ranked + [hit.chunkId];
      }
      assert result[..|result|] == result;
    }

    /** `scores[id][source] = value` for every id with a value. */
    method FileAll(source: Source, values: map<nat, real>)
      requires values.Keys <= scores.Keys
      modifies this`scores
      ensures scores == Filed(old(scores), source, values)
    {
      var rest := values;
      ghost var done: map<nat, real> := map[];
      while rest != map[]
        invariant Parted(values, done, rest)
        invariant scores == Filed(old(scores), source, done)
        decreases |rest|
      {
        var id :| id in rest;
        FiledOne(old(scores), source, done, id, rest[id]);
        scores := scores[id := scores[id][source := rest[id]]];
        PartOne(values, done, rest, id);
        done, rest := done[id := rest[id]], rest - {id};
      }
      PartAll(values, done);
    }
  }

  /** The accumulation loop of one ranking. */
  method Accumulate(fused: map<nat, real>, ids: seq<nat>, k: nat) returns (r: map<nat, real>)
    requires Unique(ids)
    ensures r.Keys == fused.Keys + (set id | id in ids)
    ensures forall id :: id in r ==> r[id] == (if id in fused then fused[id] else 0.0) + Share(ids, k, 0, id)
  {
    r := fused;
    for rank := 0 to |ids|
      invariant r.Keys == fused.Keys + (set id | id in ids[..rank])
      invariant forall id :: id in r ==>
        r[id] == (if id in fused then fused[id] else 0.0) + if id in ids[..rank] then Share(ids, k, 0, id) else 0.0
    {
      var id := ids[rank];
      ShareAt(ids, k, 0, rank);
      assert id !in ids[..rank];
      assert ids[..rank + 1] == ids[..rank] + [id];
      r := r[id := (if id in r then r[id] else 0.0) + Recip(k + rank + 1)];
    }
    assert ids[..|ids|] == ids;
    forall id | id in r && id !in ids
      ensures Share(ids, k, 0, id) == 0.0
    {
      assert ids[0..] == ids;
      ShareAbsent(ids, k, 0, id);
    }
  }

  method Fuse(dense: seq<nat>, keyword: seq<nat>, k: nat) returns (fused: map<nat, real>)
    requires Unique(dense) && Unique(keyword)
    ensures fused == FusedScores(dense, keyword, k)
  {
    fused := Accumulate(map[], dense, k);
    fused := Accumulate(fused, keyword, k);
    forall id | id in keyword && id !in dense
      ensures Share(dense, k, 0, id) == 0.0
    {
      assert dense[0..] == dense;
      ShareAbsent(dense, k, 0, id);
    }
  }

  // ----- search -----

  function HitTable(mode: Mode, dense: seq<Hit>, keyword: seq<Hit>): map<nat, Hit> {
    var first := if mode == Keyword then map[] else WithHits(map[], dense);
    if mode == Dense then first else WithHits(first, keyword)
  }

  function SourceScores(mode: Mode, dense: seq<Hit>, keyword: seq<Hit>): map<nat, map<Source, real>> {
    var first := if mode == Keyword then map[] else WithScores(map[], dense, DenseSim);
    if mode == Dense then first else WithScores(first, keyword, KeywordRank)
  }

  ghost function BaseOrder(mode: Mode, dense: seq<Hit>, keyword: seq<Hit>, k: nat): seq<nat> {
    match mode
    case Hybrid => HybridOrder(Ids(dense), Ids(keyword), k)
    case Dense => Ids(dense)
    case Keyword => Ids(keyword)
  }

  ghost function BaseScores(mode: Mode, dense: seq<Hit>, keyword: seq<Hit>, k: nat): map<nat, map<Source, real>> {
    var scores := SourceScores(mode, dense, keyword);
    if mode == Hybrid then Filed(scores, Rrf, FusedScores(Ids(dense), Ids(keyword), k)) else scores
  }

  lemma {:induction false} WithHitsKeys(hits: map<nat, Hit>, result: seq<Hit>)
    ensures WithHits(hits, result).Keys == hits.Keys + (set id | id in Ids(result))
  {
    if result != [] {
      var n := |result| - 1;
      WithHitsKeys(hits, result[..n]);
      assert Ids(result) == Ids(result[..n]) + [result[n].chunkId];
    } else {
      assert Ids(result) == [];
    }
  }

  lemma {:induction false} WithScoresKeys(scores: map<nat, map<Source, real>>, result: seq<Hit>, source: Source)
    ensures WithScores(scores, result, source).Keys == scores.Keys + (set id | id in Ids(result))
  {
    if result != [] {
      var n := |result| - 1;
      WithScoresKeys(scores, result[..n], source);
      assert Ids(result) == Ids(result[..n]) + [result[n].chunkId];
    } else {
      assert Ids(result) == [];
    }
  }

  /** The ids each search mode finds. */
  function FoundIds(mode: Mode, dense: seq<Hit>, keyword: seq<Hit>): set<nat> {
    match mode
    case Hybrid => Candidates(Ids(dense), Ids(keyword))
    case Dense => set id | id in Ids(dense)
    case Keyword => set id | id in Ids(keyword)
  }

  lemma HitsAreFound(mode: Mode, dense: seq<Hit>, keyword: seq<Hit>)
    ensures HitTable(mode, dense, keyword).Keys == FoundIds(mode, dense, keyword)
  {
    WithHitsKeys(map[], dense);
    WithHitsKeys(map[], keyword);
    WithHitsKeys(WithHits(map[], dense), keyword);
  }

  lemma ScoresAreFound(mode: Mode, dense: seq<Hit>, keyword: seq<Hit>)
    ensures SourceScores(mode, dense, keyword).Keys == FoundIds(mode, dense, keyword)
  {
    WithScoresKeys(map[], dense, DenseSim);
    WithScoresKeys(map[], keyword, KeywordRank);
    WithScoresKeys(WithScores(map[], dense, DenseSim), keyword, KeywordRank);
  }

  lemma SortedIsUnique(s: seq<nat>, score: map<nat, real>)
    requires Sorted(s, score)
    ensures Unique(s)
  {
    forall i, j | 0 <= i < j < |s|
      ensures s[i] != s[j]
    {
      assert Before(score, s[i], s[j]);
    }
  }

  /** The ids put in order are exactly those found, each once, and all have a hit and scores. */
  lemma LookupsDefined(mode: Mode, dense: seq<Hit>, keyword: seq<Hit>, k: nat)
    ensures var hits, order := HitTable(mode, dense, keyword), BaseOrder(mode, dense, keyword, k);
      && hits.Keys == SourceScores(mode, dense, keyword).Keys == BaseScores(mode, dense, keyword, k).Keys
      && (forall id :: id in order <==> id in hits)
      && (Unique(Ids(dense)) && Unique(Ids(keyword)) ==> Unique(order))
  {
    HitsAreFound(mode, dense, keyword);
    ScoresAreFound(mode, dense, keyword);
    if mode == Hybrid { SortedIsUnique(BaseOrder(mode, dense, keyword, k), FusedScores(Ids(dense), Ids(keyword), k)); }
  }

  lemma IdsSnoc(result: seq<Hit>)
    requires result != [] && Unique(Ids(result))
    ensures var n := |result| - 1;
      Ids(result) == Ids(result[..n]) + [result[n].chunkId] && Unique(Ids(result[..n])) && result[n].chunkId !in Ids(result[..n])
  {
    var n := |result| - 1;
    var before := Ids(result[..n]);
    assert Ids(result) == before + [result[n].chunkId];
    assert forall i :: 0 <= i < n ==> before[i] == Ids(result)[i];
    assert forall i :: 0 <= i < n ==> Ids(result)[i] != Ids(result)[n];
  }

  lemma {:induction false} HitsKept(hits: map<nat, Hit>, result: seq<Hit>, id: nat)
    requires id in hits
    ensures id in WithHits(hits, result) && WithHits(hits, result)[id] == hits[id]
  {
    if result != [] { HitsKept(hits, result[..|result| - 1], id); }
  }

  /** A hit registered earlier is kept; otherwise an id gets its own hit. */
  lemma {:induction false} RegisteredHit(hits: map<nat, Hit>, result: seq<Hit>, i: nat)
    requires Unique(Ids(result)) && i < |result|
    ensures var id := result[i].chunkId;
      id in WithHits(hits, result) && WithHits(hits, result)[id] == if id in hits then hits[id] else result[i]
  {
    var n := |result| - 1;
    IdsSnoc(result);
    WithHitsKeys(hits, result[..n]);
    if result[i].chunkId in hits {
      HitsKept(hits, result, result[i].chunkId);
    } else if i < n {
      assert Ids(result)[i] != Ids(result)[n];
      RegisteredHit(hits, result[..n], i);
    }
  }

  /** An id in the result has the score it came with under this source, and every other
      source's score as before; an id not in it has what it had. */
  lemma {:induction false} RegisteredScores(scores: map<nat, map<Source, real>>, result: seq<Hit>, source: Source, id: nat)
    requires Unique(Ids(result))
    ensures var after := WithScores(scores, result, source);
      && (id !in Ids(result) ==> (id in after <==> id in scores) && (id in scores ==> after[id] == scores[id]))
      && (forall i :: 0 <= i < |result| && result[i].chunkId == id ==>
            id in after && after[id] == (if id in scores then scores[id] else map[])[source := result[i].score])
  {
    if result != [] {
      var n := |result| - 1;
      IdsSnoc(result);
      RegisteredScores(scores, result[..n], source, id);
      var last := result[n].chunkId;
      assert id in Ids(result) <==> id in Ids(result[..n]) || id == last;
      forall i | 0 <= i < n && result[i].chunkId == id
        ensures id in Ids(result[..n]) && id != last && result[..n][i] == result[i]
      {
        assert Ids(result[..n])[i] == id;
      }
    }
  }

  lemma IdIndex(hits: seq<Hit>, id: nat)
    ensures id in Ids(hits) <==> exists i :: 0 <= i < |hits| && hits[i].chunkId == id
  {
    if id in Ids(hits) {
      var i :| 0 <= i < |hits| && Ids(hits)[i] == id;
      assert hits[i].chunkId == id;
    }
    if i :| 0 <= i < |hits| && hits[i].chunkId == id {
      assert Ids(hits)[i] == id;
    }
  }

  /** The sources a hybrid result names: the searches that found the chunk, with the scores
      they gave it, and the fused score. */
  lemma Breakdown(dense: seq<Hit>, keyword: seq<Hit>, k: nat, id: nat)
    requires Unique(Ids(dense)) && Unique(Ids(keyword)) && id in Candidates(Ids(dense), Ids(keyword))
    ensures id in BaseScores(Hybrid, dense, keyword, k)
    ensures var s := BaseScores(Hybrid, dense, keyword, k)[id];
      && (DenseSim in s <==> id in Ids(dense)) && (KeywordRank in s <==> id in Ids(keyword))
      && (forall i :: 0 <= i < |dense| && dense[i].chunkId == id ==> DenseSim in s && s[DenseSim] == dense[i].score)
      && (forall i :: 0 <= i < |keyword| && keyword[i].chunkId == id ==> KeywordRank in s && s[KeywordRank] == keyword[i].score)
      && Rrf in s && s[Rrf] == Share(Ids(dense), k, 0, id) + Share(Ids(keyword), k, 0, id)
      && Rerank !in s
  {
    var first := WithScores(map[], dense, DenseSim);
    RegisteredScores(map[], dense, DenseSim, id);
    RegisteredScores(first, keyword, KeywordRank, id);
    IdIndex(dense, id);
    IdIndex(keyword, id);
  }
}
