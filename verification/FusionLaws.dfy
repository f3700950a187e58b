/** What reciprocal rank fusion promises: agreement wins, ranks are respected, and nothing
    depends on the order in which the two searches were taken. */
module FusionLaws {
  import opened Prelude
  import opened Ranking
  import opened Retrieval

  // ----- reciprocals -----

  lemma RecipFalls(m: nat, n: nat)
    requires 0 < m < n
    ensures Recip(m) > Recip(n)
  {
    var a, b, ra, rb := m as real, n as real, Recip(m), Recip(n);
    assert a * ra == 1.0 && b * rb == 1.0;
    assert ra - rb == (b * rb) * ra - (a * ra) * rb == (b - a) * (ra * rb);
    assert ra * rb > 0.0;
  }

  lemma RealProducts(a: real, b: real, x: real, ra: real, rb: real, rx: real)
    requires a > 0.0 && b > 0.0 && x > 0.0
    requires a * ra == 1.0 && b * rb == 1.0 && x * rx == 1.0
    ensures ra + rb > rx <==> (a + b) * x > a * b
  {
    var t := a * b * x;
    assert t > 0.0;
    assert t * ra == b * x by { assert t * ra == (a * ra) * (b * x); }
    assert t * rb == a * x by { assert t * rb == (b * rb) * (a * x); }
    assert t * rx == a * b by { assert t * rx == (x * rx) * (a * b); }
    assert t * (ra + rb - rx) == (a + b) * x - a * b;
    var d := ra + rb - rx;
    assert d > 0.0 <==> t * d > 0.0;
  }

  /** Two shares at ranks `p` and `q` beat one at rank 0 exactly when `p * q < x * x`. */
  lemma TwoBeatOne(x: nat, p: nat, q: nat)
    requires x > 0
    ensures Recip(x + p) + Recip(x + q) > Recip(x) <==> p * q < x * x
  {
    var a, b, c := (x + p) as real, (x + q) as real, x as real;
    RealProducts(a, b, c, Recip(x + p), Recip(x + q), Recip(x));
    assert (x + p + (x + q)) * x == 2 * x * x + p * x + q * x;
    assert (x + p) * (x + q) == x * x + p * x + q * x + p * q;
    assert (a + b) * c == ((x + p + (x + q)) * x) as real;
    assert a * b == ((x + p) * (x + q)) as real;
  }

  // ----- agreement -----

  /** Every chunk both rankings found comes before every chunk only one of them found. */
  ghost predicate AgreementWins(dense: seq<nat>, keyword: seq<nat>, k: nat) {
    forall a, b :: a in dense && a in keyword && b in Candidates(dense, keyword) && !(b in dense && b in keyword) ==>
      Precedes(HybridOrder(dense, keyword, k), a, b)
  }

  lemma ShareBounds(ids: seq<nat>, k: nat, id: nat, size: nat)
    requires Unique(ids) && |ids| <= size
    ensures Share(ids, k, 0, id) <= Recip(k + 1)
    ensures id in ids ==> Share(ids, k, 0, id) >= Recip(k + size)
    ensures id !in ids ==> Share(ids, k, 0, id) == 0.0
  {
    if id in ids {
      var i :| 0 <= i < |ids| && ids[i] == id;
      ShareAt(ids, k, 0, i);
      if i > 0 { RecipFalls(k + 1, k + i + 1); }
      if i + 1 < size { RecipFalls(k + i + 1, k + size); }
    } else {
      assert ids[0..] == ids;
      ShareAbsent(ids, k, 0, id);
    }
  }

  lemma AgreementSuffices(dense: seq<nat>, keyword: seq<nat>, k: nat, kd: nat, kk: nat)
    requires Unique(dense) && Unique(keyword) && |dense| <= kd && |keyword| <= kk && kd >= 1 && kk >= 1
    requires (kd - 1) * (kk - 1) < (k + 1) * (k + 1)
    ensures AgreementWins(dense, keyword, k)
  {
    forall a, b | a in dense && a in keyword && b in Candidates(dense, keyword) && !(b in dense && b in keyword)
      ensures Precedes(HybridOrder(dense, keyword, k), a, b)
    {
      ShareBounds(dense, k, a, kd);
      ShareBounds(keyword, k, a, kk);
      ShareBounds(dense, k, b, kd);
      ShareBounds(keyword, k, b, kk);
      TwoBeatOne(k + 1, kd - 1, kk - 1);
      assert k + 1 + (kd - 1) == k + kd && k + 1 + (kk - 1) == k + kk;
      HybridPrecedes(dense, keyword, k, a, b);
    }
  }

  function Run(from: nat, n: nat): seq<nat> { seq(n, i => from + i) }

  lemma PositiveFactors(p: nat, q: nat)
    requires p * q > 0
    ensures p > 0 && q > 0
  {
  }

  /** The worst rankings agree only on the last place of both. */
  lemma WorstRankings(p: nat, q: nat)
    requires p > 0 && q > 0
    ensures var dense, keyword := Run(0, p) + [p + q], Run(p, q) + [p + q];
      && Unique(dense) && Unique(keyword)
      && dense[0] == 0 && dense[p] == keyword[q] == p + q && 0 !in keyword
  {
    var keyword := Run(p, q) + [p + q];
    forall i | 0 <= i < |keyword|
      ensures keyword[i] != 0
    {
    }
  }

  lemma LastPlaceScores(dense: seq<nat>, keyword: seq<nat>, k: nat, p: nat, q: nat, both: nat)
    requires Unique(dense) && Unique(keyword) && 0 < p < |dense| && q < |keyword|
    requires dense[0] == 0 && dense[p] == keyword[q] == both && 0 !in keyword
    requires p * q >= (k + 1) * (k + 1)
    ensures both in dense && both in keyword && 0 in dense && both != 0
    ensures 0 in Candidates(dense, keyword) && both in Candidates(dense, keyword)
    ensures !Before(FusedScores(dense, keyword, k), both, 0)
  {
    ShareAt(dense, k, 0, p);
    ShareAt(keyword, k, 0, q);
    ShareAt(dense, k, 0, 0);
    assert keyword[0..] == keyword;
    ShareAbsent(keyword, k, 0, 0);
    TwoBeatOne(k + 1, p, q);
    assert k + 1 + p == k + p + 1 && k + 1 + q == k + q + 1;
    assert dense[0] in dense && dense[p] in dense && keyword[q] in keyword;
  }

  lemma LastPlaceLoses(dense: seq<nat>, keyword: seq<nat>, k: nat, p: nat, q: nat, both: nat)
    requires Unique(dense) && Unique(keyword) && 0 < p < |dense| && q < |keyword|
    requires dense[0] == 0 && dense[p] == keyword[q] == both && 0 !in keyword
    requires p * q >= (k + 1) * (k + 1)
    ensures !AgreementWins(dense, keyword, k)
  {
    LastPlaceScores(dense, keyword, k, p, q, both);
    HybridPrecedes(dense, keyword, k, both, 0);
    assert !Precedes(HybridOrder(dense, keyword, k), both, 0);
  }

  lemma AgreementLoses(k: nat, p: nat, q: nat)
    requires p * q >= (k + 1) * (k + 1)
    ensures var dense, keyword := Run(0, p) + [p + q], Run(p, q) + [p + q];
      Unique(dense) && Unique(keyword) && !AgreementWins(dense, keyword, k)
  {
    assert (k + 1) * (k + 1) > 0;
    PositiveFactors(p, q);
    WorstRankings(p, q);
    LastPlaceLoses(Run(0, p) + [p + q], Run(p, q) + [p + q], k, p, q, p + q);
  }

  /** Some rankings of these lengths let a chunk found once win. */
  lemma AgreementFails(k: nat, kd: nat, kk: nat)
    requires kd >= 1 && kk >= 1 && (kd - 1) * (kk - 1) >= (k + 1) * (k + 1)
    ensures exists dense, keyword ::
      Unique(dense) && Unique(keyword) && |dense| <= kd && |keyword| <= kk && !AgreementWins(dense, keyword, k)
  {
    AgreementLoses(k, kd - 1, kk - 1);
    var dense, keyword := Run(0, kd - 1) + [kd - 1 + (kk - 1)], Run(kd - 1, kk - 1) + [kd - 1 + (kk - 1)];
    assert |dense| == kd && |keyword| == kk;
  }

  /** Exactly when agreement wins whatever the rankings: `(kDense - 1) * (kKeyword - 1)` is
      below `(rrfK + 1)^2`. The defaults 30, 30 and 60 satisfy it. */
  lemma AgreementExact(k: nat, kd: nat, kk: nat)
    requires kd >= 1 && kk >= 1
    ensures (forall dense, keyword :: Unique(dense) && Unique(keyword) && |dense| <= kd && |keyword| <= kk ==>
               AgreementWins(dense, keyword, k))
       <==> (kd - 1) * (kk - 1) < (k + 1) * (k + 1)
  {
    if (kd - 1) * (kk - 1) < (k + 1) * (k + 1) {
      forall dense, keyword | Unique(dense) && Unique(keyword) && |dense| <= kd && |keyword| <= kk
        ensures AgreementWins(dense, keyword, k)
      {
        AgreementSuffices(dense, keyword, k, kd, kk);
      }
    } else {
      AgreementFails(k, kd, kk);
    }
  }

  /** In particular rankings no longer than `rrfK + 1`. */
  lemma AgreementByDefault(dense: seq<nat>, keyword: seq<nat>, k: nat)
    requires Unique(dense) && Unique(keyword) && |dense| <= k + 1 && |keyword| <= k + 1
    ensures AgreementWins(dense, keyword, k)
  {
    assert k * k < (k + 1) * (k + 1);
    AgreementSuffices(dense, keyword, k, k + 1, k + 1);
  }

  // ----- order -----

  /** Wherever a ranking has `b`, it has `a` before it. */
  ghost predicate RankedNoWorse(ids: seq<nat>, a: nat, b: nat) {
    b in ids ==> Precedes(ids, a, b)
  }

  lemma ShareRespects(ids: seq<nat>, k: nat, a: nat, b: nat)
    requires Unique(ids) && RankedNoWorse(ids, a, b)
    ensures Share(ids, k, 0, a) >= Share(ids, k, 0, b)
    ensures b in ids ==> Share(ids, k, 0, a) > Share(ids, k, 0, b)
  {
    if b in ids {
      var i, j :| 0 <= i < j < |ids| && ids[i] == a && ids[j] == b;
      ShareAt(ids, k, 0, i);
      ShareAt(ids, k, 0, j);
      RecipFalls(k + i + 1, k + j + 1);
    } else {
      assert ids[0..] == ids;
      ShareAbsent(ids, k, 0, b);
    }
  }

  /** A chunk ranked before another in every ranking that holds the other precedes it. */
  lemma FusionRespectsOrder(dense: seq<nat>, keyword: seq<nat>, k: nat, a: nat, b: nat)
    requires Unique(dense) && Unique(keyword)
    requires b in Candidates(dense, keyword) && RankedNoWorse(dense, a, b) && RankedNoWorse(keyword, a, b)
    ensures Precedes(HybridOrder(dense, keyword, k), a, b)
  {
    ShareRespects(dense, k, a, b);
    ShareRespects(keyword, k, a, b);
    if b in dense {
      var i, j :| 0 <= i < j < |dense| && dense[i] == a && dense[j] == b;
    } else {
      var i, j :| 0 <= i < j < |keyword| && keyword[i] == a && keyword[j] == b;
    }
    assert a in Candidates(dense, keyword);
    assert a != b;
    HybridPrecedes(dense, keyword, k, a, b);
  }

  /** When the keyword search finds nothing, hybrid order is dense order. */
  lemma DenseWhenKeywordEmpty(dense: seq<nat>, k: nat)
    requires Unique(dense)
    ensures HybridOrder(dense, [], k) == dense
  {
    var score := FusedScores(dense, [], k);
    forall i, j | 0 <= i < j < |dense|
      ensures Before(score, dense[i], dense[j])
    {
      ShareAt(dense, k, 0, i);
      ShareAt(dense, k, 0, j);
      RecipFalls(k + i + 1, k + j + 1);
    }
    RankingUnique(HybridOrder(dense, [], k), dense, score.Keys, score);
  }

  /** Swapping the two rankings changes nothing. */
  lemma FusionCommutes(dense: seq<nat>, keyword: seq<nat>, k: nat)
    ensures HybridOrder(dense, keyword, k) == HybridOrder(keyword, dense, k)
  {
    assert FusedScores(dense, keyword, k) == FusedScores(keyword, dense, k);
  }
}
