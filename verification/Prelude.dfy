/** Options, extrema, and the few facts about slices that several components need. */
module Prelude {

  datatype Option<+T> = None | Some(value: T)

  function Max(a: int, b: int): int { if a < b then b else a }
  function Min(a: int, b: int): int { if a < b then a else b }

  /** `n` times `k`, by addition. */
  function Times(n: nat, k: nat): nat { if n == 0 then 0 else k + Times(n - 1, k) }

  lemma {:induction false} TimesIsProduct(n: nat, k: nat)
    ensures Times(n, k) == n * k
  {
    if n > 0 { TimesIsProduct(n - 1, k); }
  }

  lemma Shift<T>(a: seq<T>, b: seq<T>, c: seq<T>)
    ensures a + b + c == a + (b + c)
  {
  }

  lemma SliceSnoc<T>(s: seq<T>, lo: nat, hi: nat)
    requires lo <= hi < |s|
    ensures s[lo..hi + 1] == s[lo..hi] + [s[hi]]
  {
  }

  lemma PrefixSnoc<T>(s: seq<T>, n: nat)
    requires n < |s|
    ensures s[..n + 1] == s[..n] + [s[n]]
  {
  }

  /** The parts from `i` on, one after the other. */
  function SumFrom<T>(parts: seq<seq<T>>, i: nat): seq<T>
    requires i <= |parts|
    decreases |parts| - i
  {
    if i == |parts| then [] else parts[i] + SumFrom(parts, i + 1)
  }

  /** Parts `lo` to `hi`, one after the other. */
  function SumBetween<T>(parts: seq<seq<T>>, lo: nat, hi: nat): seq<T>
    requires lo <= hi <= |parts|
    decreases hi - lo
  {
    if lo == hi then [] else parts[lo] + SumBetween(parts, lo + 1, hi)
  }

  lemma {:induction false} SumSplit<T>(parts: seq<seq<T>>, lo: nat, mid: nat, hi: nat)
    requires lo <= mid <= hi <= |parts|
    ensures SumBetween(parts, lo, hi) == SumBetween(parts, lo, mid) + SumBetween(parts, mid, hi)
    decreases mid - lo
  {
    if lo < mid { SumSplit(parts, lo + 1, mid, hi); }
  }

  /** `f` on two sequences at once. */
  function ZipMap<A, B, C>(f: (A, B) -> C, xs: seq<A>, ys: seq<B>): seq<C>
    requires |xs| == |ys|
  {
    seq(|xs|, i requires 0 <= i < |xs| => f(xs[i], ys[i]))
  }

  lemma ZipMapDrop<A, B, C>(f: (A, B) -> C, xs: seq<A>, ys: seq<B>, n: nat)
    requires n <= |xs| == |ys|
    ensures ZipMap(f, xs, ys)[n..] == ZipMap(f, xs[n..], ys[n..])
    ensures ZipMap(f, xs, ys)[..n] == ZipMap(f, xs[..n], ys[..n])
  {
  }

  lemma DropTwice<T>(s: seq<T>, a: nat, b: nat)
    requires a <= b <= |s|
    ensures s[a..][b - a..] == s[b..]
  {
  }

  lemma DropDropTake<T>(s: seq<T>, a: nat, b: nat, n: nat)
    requires a <= b && b + n <= |s|
    ensures s[a..][b - a..][..n] == s[b..b + n]
  {
  }

  lemma PrefixOfPrefix<T>(s: seq<T>, m: nat, n: nat)
    requires n <= m <= |s|
    ensures s[..m][..n] == s[..n]
  {
  }
}
