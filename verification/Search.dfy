/** `RetrievalService.search`: the two searches' rankings, ordered, reranked and cut to
    `top_n`; and what its callers may rely on. */
module Search {
  import opened Prelude
  import opened Text
  import opened Ranking
  import opened Retrieval
  import opened SearchResults

  // ----- the service -----

  class RetrievalService {
    const reranker: Option<Reranker>
    const rrfK: nat
    const topN: int

    constructor (reranker: Option<Reranker>, rrfK: nat, topN: int)
      ensures this.reranker == reranker && this.rrfK == rrfK && this.topN == topN
    {
      this.reranker, this.rrfK, this.topN := reranker, rrfK, topN;
    }

    ghost function RequestOf(query: string, mode: Mode, dense: seq<Hit>, keyword: seq<Hit>): Request {
      Request(query, mode, dense, keyword, rrfK, reranker)
    }

    /** Fuse the two rankings, and file the fused scores. */
    method FuseInto(table: Registry, dense: seq<nat>, keyword: seq<nat>) returns (ordered: seq<nat>)
      requires Unique(dense) && Unique(keyword) && Candidates(dense, keyword) <= table.scores.Keys
      modifies table`scores
      ensures ordered == HybridOrder(dense, keyword, rrfK)
      ensures table.scores == Filed(old(table.scores), Rrf, FusedScores(dense, keyword, rrfK))
    {
      var fused := Fuse(dense, keyword, rrfK);
      table.FileAll(Rrf, fused);
      ordered := SortByScore(fused);
    }

    /** The two searches and their order before any reranking. */
    method Gather(table: Registry, mode: Mode, dense: seq<Hit>, keyword: seq<Hit>) returns (ordered: seq<nat>)
      requires Unique(Ids(dense)) && Unique(Ids(keyword)) && table.hits == map[] && table.scores == map[]
      modifies table
      ensures ordered == BaseOrder(mode, dense, keyword, rrfK)
      ensures table.hits == HitTable(mode, dense, keyword)
      ensures table.scores == BaseScores(mode, dense, keyword, rrfK)
    {
      var denseIds, keywordIds := [], [];
      if mode != Keyword {
        denseIds := table.Register(dense, DenseSim);
      }
      if mode != Dense {
        keywordIds := table.Register(keyword, KeywordRank);
      }
      if mode == Hybrid {
        ScoresAreFound(mode, dense, keyword);
        ordered := FuseInto(table, denseIds, keywordIds);
      } else {
        ordered := if mode == Dense then denseIds else keywordIds;
      }
    }

    /** Rerank the ordered list: one call for all its texts, a strict zip, then sort by the new
        scores. `None` is the error of a zip of unequal lengths. */
    method RerankInto(f: Reranker, query: string, table: Registry, ordered: seq<nat>) returns (r: Option<seq<nat>>)
      requires Unique(ordered) && forall i :: 0 <= i < |ordered| ==> ordered[i] in table.hits
      requires table.hits.Keys == table.scores.Keys
      modifies table`scores
      ensures var values := f(query, Contents(ordered, table.hits));
        if |values| != |ordered| then r.None?
        else r == Some(Order(Zipped(ordered, values)))
             && table.scores == Filed(old(table.scores), Rerank, Zipped(ordered, values))
    {
      var values := f(query, Contents(ordered, table.hits));
      if |values| != |ordered| {
        return None;
      }
      var reranked := map[];
      for i := 0 to |ordered|
        invariant reranked == Zipped(ordered[..i], values[..i])
      {
        reranked := reranked[ordered[i] := values[i]];
        assert ordered[..i + 1][..i] == ordered[..i] && values[..i + 1][..i] == values[..i];
      }
      assert ordered[..|ordered|] == ordered && values[..|ordered|] == values;
      table.FileAll(Rerank, reranked);
      var sorted := SortByScore(reranked);
      r := Some(sorted);
    }

    /** `search`, given what the two searches would return. */
    method Search(query: string, mode: Mode, topN: Option<int>, dense: seq<Hit>, keyword: seq<Hit>) returns (r: Result)
      requires Unique(Ids(dense)) && Unique(Ids(keyword))
      ensures var q := RequestOf(query, mode, dense, keyword);
        r == if Words(query) == [] then InvalidQuery
             else if !Answerable(q) then RerankMismatch
             else Found(Results(q, topN, this.topN))
      ensures IsAnswer(RequestOf(query, mode, dense, keyword), topN, this.topN, r)
    {
      StripEmpty(query);
      if Strip(query) == "" {
        return InvalidQuery;
      }
      var n := if topN.Some? && topN.value != 0 then topN.value else this.topN;
      var table := new Registry();
      LookupsDefined(mode, dense, keyword, rrfK);
      var ordered := Gather(table, mode, dense, keyword);
      ghost var q := RequestOf(query, mode, dense, keyword);
      assert ordered == FirstOrder(q) && table.hits == Table(q);
      if reranker.Some? && ordered != [] {
        var reranked := RerankInto(reranker.value, query, table, ordered);
        if reranked.None? {
          SearchAnswers(q, topN, this.topN);
          return RerankMismatch;
        }
        ordered := reranked.value;
      }
      assert ordered == FinalOrder(q) && table.scores == FinalScores(q);
      AllKnown(ordered, n, table.hits.Keys);
      r := Found(Render(Slice(ordered, n), table.hits, table.scores));
      SearchAnswers(q, topN, this.topN);
    }
  }

  // ----- `top_n` -----

  /** When cutting to `n` gives a prefix of cutting to `m`, whatever the length. */
  predicate CutsShorter(n: int, m: int) {
    n == 0 || (n <= m && (n < 0 <==> m < 0))
  }

  /** `len` hits, with ids 0, 1, ... */
  function Numbered(len: nat): seq<Hit> { seq(len, (i: nat) => Hit(i, 0, "", i, "", 0.0)) }

  /** A dense search for `len` chunks. */
  function DenseOnly(len: nat): Request { Request("q", Dense, Numbered(len), [], 0, None) }

  lemma DenseOnlyReturns(len: nat, topN: Option<int>, preset: int)
    ensures Keyed(DenseOnly(len)) && Answerable(DenseOnly(len))
    ensures |Results(DenseOnly(len), topN, preset)| == Kept(len, Effective(topN, preset))
  {
    var q := DenseOnly(len);
    assert Ids(q.keyword) == [];
    assert |FinalOrder(q)| == len;
  }

  lemma SlicePrefix<T>(s: seq<T>, n: int, m: int)
    requires CutsShorter(n, m)
    ensures Kept(|s|, n) <= Kept(|s|, m) && Slice(s, n) == Slice(s, m)[..Kept(|s|, n)]
  {
    PrefixOfPrefix(s, Kept(|s|, m), Kept(|s|, n));
  }

  lemma CutPrefix(q: Request, topN: Option<int>, topM: Option<int>, preset: int)
    requires Answerable(q) && CutsShorter(Effective(topN, preset), Effective(topM, preset))
    ensures Results(q, topN, preset) <= Results(q, topM, preset)
  {
    var n, m := Effective(topN, preset), Effective(topM, preset);
    var order := FinalOrder(q);
    SlicePrefix(order, n, m);
    AllKnown(order, m, Table(q).Keys);
    RenderPrefix(Slice(order, m), Kept(|order|, n), Table(q), FinalScores(q));
  }

  /** How many chunks tell the two cuts apart. */
  function Telling(n: int, m: int): nat
    requires !CutsShorter(n, m)
  {
    if n >= 0 then (if m >= 0 then n else 1)
    else if m < 0 then 1 - n
    else m - n + 1
  }

  /** One `top_n` gives a prefix of what another gives, in every search, exactly when their
      effective values cut shorter: of `1 <= n <= m` the smaller does. */
  lemma TopNPrefixExact(topN: Option<int>, topM: Option<int>, preset: int)
    ensures (forall q :: Keyed(q) && Answerable(q) ==> Results(q, topN, preset) <= Results(q, topM, preset))
       <==> CutsShorter(Effective(topN, preset), Effective(topM, preset))
  {
    var n, m := Effective(topN, preset), Effective(topM, preset);
    if CutsShorter(n, m) {
      forall q | Keyed(q) && Answerable(q)
        ensures Results(q, topN, preset) <= Results(q, topM, preset)
      {
        CutPrefix(q, topN, topM, preset);
      }
    } else {
      var len := Telling(n, m);
      DenseOnlyReturns(len, topN, preset);
      DenseOnlyReturns(len, topM, preset);
      assert Kept(len, n) > Kept(len, m);
      assert !(Results(DenseOnly(len), topN, preset) <= Results(DenseOnly(len), topM, preset));
    }
  }

  /** A `top_n` of zero is not a smaller one: it means the default, and returns more than one does. */
  lemma TopNZero()
    ensures Answerable(DenseOnly(2))
    ensures |Results(DenseOnly(2), Some(0), 8)| == 2 && |Results(DenseOnly(2), Some(1), 8)| == 1
  {
    DenseOnlyReturns(2, Some(0), 8);
    DenseOnlyReturns(2, Some(1), 8);
  }

  // ----- rerank -----

  /** The reranker scores each text by itself. */
  ghost predicate Pointwise(f: Reranker) {
    forall query, texts :: |f(query, texts)| == |texts|
      && forall i :: 0 <= i < |texts| ==> |f(query, [texts[i]])| == 1 && f(query, texts)[i] == f(query, [texts[i]])[0]
  }

  /** Each candidate's score is then that of its own text, wherever the order put it. */
  lemma ScoredAlone(q: Request, id: nat)
    requires Keyed(q) && q.reranker.Some? && Pointwise(q.reranker.value) && id in Table(q)
    ensures Reranks(q, FirstOrder(q)) && Answerable(q) && id in RerankScores(q)
    ensures RerankScores(q)[id] == q.reranker.value(q.query, [Table(q)[id].content])[0]
  {
    var order := FirstOrder(q);
    assert id in order;
    var i :| 0 <= i < |order| && order[i] == id;
    ZippedAt(order, Answers(q), i);
    assert Contents(order, Table(q))[i] == Table(q)[id].content;
  }

  lemma NothingFound(q: Request)
    ensures FirstOrder(q) == [] <==> Table(q).Keys == {}
  {
    assert FirstOrder(q) != [] ==> FirstOrder(q)[0] in Table(q);
  }

  /** With a reranker that scores texts one by one, the order of the results depends only on
      which chunks were found: not on the mode, their ranks, or the fusion constant. */
  lemma RerankIgnoresRanks(a: Request, b: Request)
    requires Keyed(a) && Keyed(b) && a.query == b.query && a.reranker == b.reranker
    requires a.reranker.Some? && Pointwise(a.reranker.value)
    requires Table(a).Keys == Table(b).Keys
    requires forall id :: id in Table(a) ==> Table(a)[id].content == Table(b)[id].content
    ensures Answerable(a) && Answerable(b) && FinalOrder(a) == FinalOrder(b)
  {
    NothingFound(a);
    NothingFound(b);
    if FirstOrder(a) != [] {
      forall id | id in Table(a)
        ensures id in RerankScores(a) && id in RerankScores(b) && RerankScores(a)[id] == RerankScores(b)[id]
      {
        ScoredAlone(a, id);
        ScoredAlone(b, id);
      }
      assert RerankScores(a) == RerankScores(b);
    }
  }
}
