/** Sorting by score: what `sorted(ids, key=lambda id: (-score[id], id))` returns, and that
    nothing else would do. */
module Ranking {

  /** `a` sorts before `b`: a higher score, or the same and a smaller id. */
  predicate Before(score: map<nat, real>, a: nat, b: nat)
    requires a in score && b in score
  {
    score[a] > score[b] || (score[a] == score[b] && a < b)
  }

  ghost predicate Sorted(s: seq<nat>, score: map<nat, real>) {
    && (forall i :: 0 <= i < |s| ==> s[i] in score)
    && (forall i, j :: 0 <= i < j < |s| ==> Before(score, s[i], s[j]))
  }

  ghost predicate Ranked(s: seq<nat>, ids: set<nat>, score: map<nat, real>) {
    Sorted(s, score) && forall id :: id in s <==> id in ids
  }

  function Insert(x: nat, s: seq<nat>, score: map<nat, real>): (r: seq<nat>)
    requires x in score && forall i :: 0 <= i < |s| ==> s[i] in score
  {
    if s == [] || Before(score, x, s[0]) then [x] + s else [s[0]] + Insert(x, s[1..], score)
  }

  lemma {:induction false} InsertRanks(x: nat, s: seq<nat>, ids: set<nat>, score: map<nat, real>)
    requires Ranked(s, ids, score) && x in score && x !in ids
    ensures Ranked(Insert(x, s, score), ids + {x}, score)
  {
    if s == [] || Before(score, x, s[0]) {
    } else {
      var rest := s[1..];
      assert s == [s[0]] + rest;
      InsertRanks(x, rest, ids - {s[0]}, score);
      var r := Insert(x, rest, score);
      forall j | 0 <= j < |r|
        ensures Before(score, s[0], r[j])
      {
        assert r[j] in r;
        if r[j] != x {
          var k :| 0 <= k < |rest| && rest[k] == r[j];
        }
      }
    }
  }

  /** The ids of `rest`, in order of score. */
  ghost function OrderOf(rest: map<nat, real>, score: map<nat, real>): (s: seq<nat>)
    requires rest.Keys <= score.Keys
    ensures Ranked(s, rest.Keys, score)
    decreases |rest|
  {
    if rest == map[] then []
    else
      var x :| x in rest;
      var fewer := rest - {x};
      assert fewer.Keys + {x} == rest.Keys;
      InsertRanks(x, OrderOf(fewer, score), fewer.Keys, score);
      Insert(x, OrderOf(fewer, score), score)
  }

  ghost function Order(score: map<nat, real>): (s: seq<nat>)
    ensures Ranked(s, score.Keys, score)
  {
    OrderOf(score, score)
  }

  lemma RankedTail(s: seq<nat>, ids: set<nat>, score: map<nat, real>)
    requires s != [] && Ranked(s, ids, score)
    ensures Ranked(s[1..], ids - {s[0]}, score)
  {
    assert s == [s[0]] + s[1..];
    forall id
      ensures id in s[1..] <==> id in ids - {s[0]}
    {
      if id in s[1..] {
        var k :| 0 <= k < |s[1..]| && s[1..][k] == id;
        assert s[k + 1] == id;
        assert Before(score, s[0], s[k + 1]);
        assert id in s;
      }
      if id in ids - {s[0]} {
        var k :| 0 <= k < |s| && s[k] == id;
        assert s[1..][k - 1] == id;
      }
    }
  }

  /** There is one ranking: any two agree, whatever order the ids were taken in. */
  lemma {:induction false} RankingUnique(s: seq<nat>, t: seq<nat>, ids: set<nat>, score: map<nat, real>)
    requires Ranked(s, ids, score) && Ranked(t, ids, score)
    ensures s == t
    decreases |s|
  {
    assert t != [] ==> t[0] in t;
    if s == [] {
    } else {
      assert s[0] in s;
      assert s[0] in t;
      assert t[0] in t;
      assert t[0] in s;
      var i :| 0 <= i < |t| && t[i] == s[0];
      var j :| 0 <= j < |s| && s[j] == t[0];
      assert s[0] == t[0];
      RankedTail(s, ids, score);
      RankedTail(t, ids, score);
      RankingUnique(s[1..], t[1..], ids - {s[0]}, score);
      assert s == [s[0]] + s[1..] && t == [t[0]] + t[1..];
    }
  }

  method SortByScore(score: map<nat, real>) returns (s: seq<nat>)
    ensures s == Order(score)
  {
    s := [];
    ghost var done: set<nat> := {};
    var rest := score;
    while rest != map[]
      invariant rest.Keys <= score.Keys && done == score.Keys - rest.Keys
      invariant Ranked(s, done, score)
      decreases |rest|
    {
      var x :| x in rest;
      InsertRanks(x, s, done, score);
      s := Insert(x, s, score);
      rest, done := rest - {x}, done + {x};
    }
    assert done == score.Keys;
    RankingUnique(s, Order(score), score.Keys, score);
  }

  lemma RankedOrder(s: seq<nat>, ids: set<nat>, score: map<nat, real>, i: nat, j: nat)
    requires Ranked(s, ids, score) && i < |s| && j < |s| && s[i] != s[j]
    ensures i < j <==> Before(score, s[i], s[j])
  {
    if j < i { assert Before(score, s[j], s[i]); }
  }
}
