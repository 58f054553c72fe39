/** Sequence operations behind the pandas calls of the sales-analysis tool:
    column sums, `tail(k)`, relabelling an index from a start value, and the
    stride selection `iloc[::k]` used to thin a chart. */
module Series {

  /** A plotted point: an x-axis label and a revenue value. */
  datatype Point = Point(x: int, y: int)

  function Min(a: int, b: int): int { if a <= b then a else b }

  /** Sum of a revenue column. */
  function Sum(s: seq<int>): int
    decreases |s|
  {
    if s == [] then 0 else s[0] + Sum(s[1..])
  }

  lemma {:induction false} SumConcat(a: seq<int>, b: seq<int>)
    ensures Sum(a + b) == Sum(a) + Sum(b)
    decreases |a|
  {
    if a == [] {
      assert a + b == b;
    } else {
      assert (a + b)[1..] == a[1..] + b;
      SumConcat(a[1..], b);
    }
  }

  /** `tail(k)`: the last min(|s|, k) elements of `s`, in their original order;
      a sequence no longer than `k` is kept whole. */
  function Tail<T>(s: seq<T>, k: nat): (r: seq<T>)
    ensures |r| == Min(|s|, k)
    ensures forall i :: 0 <= i < |r| ==> r[i] == s[|s| - |r| + i]
    ensures |s| <= k ==> r == s
  {
    s[|s| - Min(|s|, k)..]
  }

  /** Assigning the index `range(from, from + n)` to a column: the values keep
      their order and are labelled `from`, `from + 1`, ... with no gap. */
  function Relabel(vs: seq<int>, from: int): (ps: seq<Point>)
    ensures |ps| == |vs|
    ensures forall i :: 0 <= i < |ps| ==> ps[i] == Point(from + i, vs[i])
    decreases |vs|
  {
    if vs == [] then [] else [Point(from, vs[0])] + Relabel(vs[1..], from + 1)
  }

  /** The x-axis labels of a plotted series. */
  function Labels(ps: seq<Point>): (xs: seq<int>)
    ensures |xs| == |ps|
    ensures forall i :: 0 <= i < |xs| ==> xs[i] == ps[i].x
    decreases |ps|
  {
    if ps == [] then [] else [ps[0].x] + Labels(ps[1..])
  }

  /** The position of the i-th element kept by a stride-k selection: 0, k,
      2k, ..., that is i * k. The source simply multiplies; this recursive
      form is a proof device, so that selection proofs need no reasoning
      about products, and PosIsProduct ties it back to i * k. */
  function Pos(i: nat, k: nat): nat
  {
    if i == 0 then 0 else Pos(i - 1, k) + k
  }

  lemma {:induction false} PosIsProduct(i: nat, k: nat)
    ensures Pos(i, k) == i * k
  {
    if i > 0 {
      PosIsProduct(i - 1, k);
      assert (i - 1) * k + k == i * k;
    }
  }

  lemma {:induction false} PosMono(i: nat, j: nat, k: nat)
    requires i <= j
    ensures Pos(i, k) <= Pos(j, k)
    decreases j
  {
    if i < j {
      PosMono(i, j - 1, k);
    }
  }

  /** `iloc[::k]`: the elements at positions 0, k, 2k, ... below |s|, in
      order, and no position of that form below |s| is skipped. */
  function EveryKth<T>(s: seq<T>, k: nat): (r: seq<T>)
    requires k >= 1
    ensures |r| <= |s| <= Pos(|r|, k)
    ensures forall i :: 0 <= i < |r| ==> Pos(i, k) < |s| && r[i] == s[Pos(i, k)]
    decreases |s|
  {
    if s == [] then []
    else
      var rest := EveryKth(s[Min(k, |s|)..], k);
      EveryKthCons(s, k, Min(k, |s|), rest);
      [s[0]] + rest
  }

  /** One step of EveryKth: the first element followed by the selection from
      position k on is the selection from position 0. */
  lemma EveryKthCons<T>(s: seq<T>, k: nat, m: nat, rest: seq<T>)
    requires k >= 1 && s != [] && m == Min(k, |s|)
    requires |rest| <= |s| - m <= Pos(|rest|, k)
    requires forall i :: 0 <= i < |rest| ==> Pos(i, k) < |s| - m && rest[i] == s[m + Pos(i, k)]
    ensures |[s[0]] + rest| <= |s| <= Pos(|[s[0]] + rest|, k)
    ensures forall i :: 0 <= i < |[s[0]] + rest| ==> Pos(i, k) < |s| && ([s[0]] + rest)[i] == s[Pos(i, k)]
  {
    var r := [s[0]] + rest;
    forall i | 0 <= i < |r|
      ensures Pos(i, k) < |s| && r[i] == s[Pos(i, k)]
    {
      if i > 0 {
        assert r[i] == rest[i - 1];
        assert Pos(i, k) == m + Pos(i - 1, k);
      }
    }
  }

  /** Every position that is a multiple of `k` below |s| is kept by
      `iloc[::k]`: with EveryKth's contract, the selection is exactly the
      positions 0, k, 2k, ... */
  lemma EveryKthKeeps<T>(s: seq<T>, k: nat, q: nat)
    requires k >= 1 && Pos(q, k) < |s|
    ensures q < |EveryKth(s, k)| && EveryKth(s, k)[q] == s[Pos(q, k)]
  {
    var r := EveryKth(s, k);
    if |r| <= q {
      PosMono(|r|, q, k);
    }
  }

  lemma MulMono(a: nat, b: nat, k: nat)
    requires a <= b
    ensures a * k <= b * k
  {
  }

  /** Cancelling a positive factor from a strict inequality. */
  lemma MulCancelLess(a: nat, b: nat, k: nat)
    requires k >= 1 && a * k < b * k
    ensures a < b
  {
    if b <= a {
      MulMono(b, a, k);
    }
  }

  /** The display stride `max(1, n // target)`: at least 1, and 1 for any
      series shorter than 2 * target. */
  function Stride(n: nat, target: nat): (k: nat)
    requires target > 0
    ensures k >= 1
    ensures n < 2 * target ==> k == 1
  {
    if n / target >= 1 then n / target else 1
  }

  /** For a series of `target` points or more, the stride is the largest k
      with k * target <= n. */
  lemma StrideBounds(n: nat, target: nat)
    requires target > 0 && n >= target
    ensures Stride(n, target) * target <= n < (Stride(n, target) + 1) * target
  {
  }

  /** Chart thinning: `iloc[::max(1, n // target)]`. It never drops the first
      point, never yields an empty chart for a non-empty series, and takes
      each point from a stride position of the input, in order. */
  function Downsample<T>(s: seq<T>, target: nat): (r: seq<T>)
    requires target > 0
    ensures |r| <= |s|
    ensures s != [] ==> r != [] && r[0] == s[0]
    ensures forall i :: 0 <= i < |r| ==> Pos(i, Stride(|s|, target)) < |s| && r[i] == s[Pos(i, Stride(|s|, target))]
    ensures |s| <= Pos(|r|, Stride(|s|, target))
  {
    EveryKth(s, Stride(|s|, target))
  }

  /** Thinning keeps the chart at no more than 2 * target points, whatever the
      length of the series. */
  lemma DownsampleBound<T>(s: seq<T>, target: nat)
    requires target > 0
    ensures |Downsample(s, target)| <= 2 * target
  {
    var m := |Downsample(s, target)|;
    if m > 0 {
      StrideCount(|s|, target, m);
    }
  }

  /** If m stride positions fit below n, then m <= 2 * target. */
  lemma StrideCount(n: nat, target: nat, m: nat)
    requires target > 0 && m > 0 && Pos(m - 1, Stride(n, target)) < n
    ensures m <= 2 * target
  {
    var k := Stride(n, target);
    if n >= target {
      StrideBounds(n, target);
      PosIsProduct(m - 1, k);
      ThinnedCount(n, target, k, m);
    } else {
      PosIsProduct(m - 1, 1);
    }
  }

  /** The arithmetic of DownsampleBound: if (m - 1) * k < n < (k + 1) * target
      then m <= 2 * target. */
  lemma ThinnedCount(n: nat, target: nat, k: nat, m: nat)
    requires k >= 1 && m >= 1
    requires (m - 1) * k < n < (k + 1) * target
    ensures m <= 2 * target
  {
    MulMono(k + 1, 2 * k, target);
    assert (k + 1) * target <= (2 * k) * target;
    assert (2 * k) * target == (2 * target) * k;
    MulCancelLess(m - 1, 2 * target, k);
  }
}
