/** Bucket aggregation of the weekly and monthly views: rows carry their
    original row labels `first`, `first + 1`, ... (the index is never reset
    before grouping), are grouped by `label / size`, and each group's revenue
    is summed; groups come out in ascending key order. */
module Buckets {
  import opened Series

  /** One group of `groupby(index // size)`: the rows of `vs`, labelled from
      `first`, whose key `label / size` is `key`, in their original order. */
  function KeyRows(first: nat, vs: seq<int>, size: nat, key: int): (g: seq<int>)
    requires size > 0
    ensures |g| <= |vs|
    decreases |vs|
  {
    if vs == [] then []
    else (if first / size == key then [vs[0]] else []) + KeyRows(first + 1, vs[1..], size, key)
  }

  /** The non-empty groups of `groupby(index // size)` in ascending key order,
      cut in one pass: each group runs up to the next label that is a multiple
      of `size`. Every group has between 1 and `size` rows. */
  function Groups(first: nat, vs: seq<int>, size: nat): (gs: seq<seq<int>>)
    requires size > 0
    ensures forall i :: 0 <= i < |gs| ==> 1 <= |gs[i]| <= size
    decreases |vs|
  {
    if vs == [] then []
    else
      var take := Min(|vs|, size - first % size);
      [vs[..take]] + Groups(first + take, vs[take..], size)
  }

  /** `.sum()` applied to every group. */
  function Sums(gs: seq<seq<int>>): (r: seq<int>)
    ensures |r| == |gs|
    ensures forall i :: 0 <= i < |r| ==> r[i] == Sum(gs[i])
    decreases |gs|
  {
    if gs == [] then [] else [Sum(gs[0])] + Sums(gs[1..])
  }

  function Flatten(gs: seq<seq<int>>): seq<int>
    decreases |gs|
  {
    if gs == [] then [] else gs[0] + Flatten(gs[1..])
  }

  /** Number of distinct keys among the labels first .. first + n - 1. */
  function KeySpan(first: nat, n: nat, size: nat): int
    requires size > 0
  {
    if n == 0 then 0 else (first + n - 1) / size - first / size + 1
  }

  // ---------------------------------------------------------------- arithmetic

  lemma DivModUnique(x: int, size: int, q: int, r: int)
    requires size > 0 && 0 <= r < size && x == q * size + r
    ensures x / size == q && x % size == r
  {
    var q', r' := x / size, x % size;
    if q' < q {
      QuotientGap(q', q, size);
    } else if q' > q {
      QuotientGap(q, q', size);
    }
  }

  /** Two multiples of `size` with different factors lie at least `size` apart. */
  lemma QuotientGap(lo: int, hi: int, size: int)
    requires size > 0 && lo < hi
    ensures hi * size >= lo * size + size
  {
    var d := hi - lo;
    assert hi * size == lo * size + d * size;
    MulMono(1, d, size);
  }

  /** Labels first .. first + n - 1 with n <= size - first % size share the
      key of `first`. */
  lemma SameKey(first: nat, n: nat, size: nat)
    requires size > 0 && 1 <= n <= size - first % size
    ensures (first + n - 1) / size == first / size
    ensures n >= 2 ==> (first + 1) / size == first / size && (first + 1) % size == first % size + 1
  {
    var q, r := first / size, first % size;
    DivModUnique(first + n - 1, size, q, r + n - 1);
    if n >= 2 {
      DivModUnique(first + 1, size, q, r + 1);
    }
  }

  /** The label after a group that reaches the next multiple of `size` has
      the next key and starts a fresh group. */
  lemma NextKey(first: nat, size: nat)
    requires size > 0
    ensures (first + (size - first % size)) / size == first / size + 1
    ensures (first + (size - first % size)) % size == 0
  {
    DivModUnique(first + (size - first % size), size, first / size + 1, 0);
  }

  lemma DivMono(a: nat, b: nat, size: nat)
    requires size > 0 && a <= b
    ensures a / size <= b / size
  {
    var qa, qb := a / size, b / size;
    if qb < qa {
      QuotientGap(qb, qa, size);
      assert false;
    }
  }

  // ------------------------------------------------------------------ key rows

  lemma {:induction false} KeyRowsAppend(first: nat, a: seq<int>, b: seq<int>, size: nat, key: int)
    requires size > 0
    ensures KeyRows(first, a + b, size, key) == KeyRows(first, a, size, key) + KeyRows(first + |a|, b, size, key)
    decreases |a|
  {
    if a == [] {
      assert a + b == b;
    } else {
      var head := if first / size == key then [a[0]] else [];
      assert (a + b)[0] == a[0] && (a + b)[1..] == a[1..] + b;
      KeyRowsAppend(first + 1, a[1..], b, size, key);
      assert KeyRows(first, a + b, size, key) == head + KeyRows(first + 1, a[1..] + b, size, key);
      assert KeyRows(first, a, size, key) == head + KeyRows(first + 1, a[1..], size, key);
    }
  }

  /** A run that stays within one key forms exactly that key's group. */
  lemma {:induction false} KeyRowsOfRun(first: nat, a: seq<int>, size: nat, key: int)
    requires size > 0 && |a| <= size - first % size
    ensures KeyRows(first, a, size, key) == if key == first / size then a else []
    decreases |a|
  {
    if a != [] {
      if |a| >= 2 {
        SameKey(first, |a|, size);
      }
      KeyRowsOfRun(first + 1, a[1..], size, key);
      if key == first / size {
        assert a == [a[0]] + a[1..];
      }
    }
  }

  /** No row whose label is at or past `first` has a key below `first / size`. */
  lemma {:induction false} KeyRowsBelow(first: nat, b: seq<int>, size: nat, key: int)
    requires size > 0 && key < first / size
    ensures KeyRows(first, b, size, key) == []
    decreases |b|
  {
    if b != [] {
      DivMono(first, first + 1, size);
      KeyRowsBelow(first + 1, b[1..], size, key);
    }
  }

  // ----------------------------------------------------------- the grouping

  /** The groups partition the rows: concatenated, they give back the rows in
      their original order. */
  lemma {:induction false} GroupsPartition(first: nat, vs: seq<int>, size: nat)
    requires size > 0
    ensures Flatten(Groups(first, vs, size)) == vs
    decreases |vs|
  {
    if vs != [] {
      var take := Min(|vs|, size - first % size);
      GroupsPartition(first + take, vs[take..], size);
      assert vs[..take] + vs[take..] == vs;
    }
  }

  /** There is one group per distinct key among the labels. */
  lemma {:induction false} GroupsCount(first: nat, vs: seq<int>, size: nat)
    requires size > 0
    ensures |Groups(first, vs, size)| == KeySpan(first, |vs|, size)
    decreases |vs|
  {
    if vs != [] {
      var take := Min(|vs|, size - first % size);
      if take == |vs| {
        SameKey(first, |vs|, size);
      } else {
        NextKey(first, size);
        GroupsCount(first + take, vs[take..], size);
      }
    }
  }

  /** The i-th group is exactly the pandas group of key `first / size + i`. */
  lemma {:induction false} GroupsAreKeyGroups(first: nat, vs: seq<int>, size: nat, i: nat)
    requires size > 0 && i < |Groups(first, vs, size)|
    ensures Groups(first, vs, size)[i] == KeyRows(first, vs, size, first / size + i)
    decreases |vs|
  {
    var take := Min(|vs|, size - first % size);
    var gs, rest := Groups(first, vs, size), Groups(first + take, vs[take..], size);
    assert gs == [vs[..take]] + rest;
    if i == 0 {
      FirstKeyRows(first, vs, size);
    } else {
      var key := first / size + i;
      KeyRowsAfterFirst(first, vs, size, key);
      assert take < |vs| && take == size - first % size;
      NextKey(first, size);
      var next := (first + take) / size + (i - 1);
      assert next == key;
      GroupsAreKeyGroups(first + take, vs[take..], size, i - 1);
      assert rest[i - 1] == KeyRows(first + take, vs[take..], size, next);
      assert gs[i] == rest[i - 1];
    }
  }

  /** The rows with the first label's key are the first run of labels up to
      the next multiple of `size`. */
  lemma FirstKeyRows(first: nat, vs: seq<int>, size: nat)
    requires size > 0 && vs != []
    ensures KeyRows(first, vs, size, first / size) == vs[..Min(|vs|, size - first % size)]
  {
    var take := Min(|vs|, size - first % size);
    var key := first / size;
    var head, tail := vs[..take], vs[take..];
    assert vs == head + tail;
    KeyRowsAppend(first, head, tail, size, key);
    KeyRowsOfRun(first, head, size, key);
    if take < |vs| {
      NextKey(first, size);
      KeyRowsBelow(first + take, tail, size, key);
    }
  }

  /** A key other than the first label's has no rows in the first run. */
  lemma KeyRowsAfterFirst(first: nat, vs: seq<int>, size: nat, key: int)
    requires size > 0 && vs != [] && key != first / size
    ensures var take := Min(|vs|, size - first % size);
      KeyRows(first, vs, size, key) == KeyRows(first + take, vs[take..], size, key)
  {
    var take := Min(|vs|, size - first % size);
    var head, tail := vs[..take], vs[take..];
    assert vs == head + tail;
    KeyRowsAppend(first, head, tail, size, key);
    KeyRowsOfRun(first, head, size, key);
  }

  /** The keys that occur are consecutive: a key has rows exactly when it lies
      between the first group's key and the last one's. */
  lemma {:induction false} KeysContiguous(first: nat, vs: seq<int>, size: nat, key: int)
    requires size > 0
    ensures KeyRows(first, vs, size, key) != [] <==> first / size <= key < first / size + |Groups(first, vs, size)|
    decreases |vs|
  {
    var gs := Groups(first, vs, size);
    if first / size <= key < first / size + |gs| {
      GroupsAreKeyGroups(first, vs, size, key - first / size);
    } else if vs != [] {
      var take := Min(|vs|, size - first % size);
      assert vs == vs[..take] + vs[take..];
      KeyRowsAppend(first, vs[..take], vs[take..], size, key);
      KeyRowsOfRun(first, vs[..take], size, key);
      if take < |vs| {
        NextKey(first, size);
        KeysContiguous(first + take, vs[take..], size, key);
      }
    }
  }

  /** The bucket sums add up to the total revenue of the grouped rows. */
  lemma {:induction false} BucketTotal(first: nat, vs: seq<int>, size: nat)
    requires size > 0
    ensures Sum(Sums(Groups(first, vs, size))) == Sum(vs)
    decreases |vs|
  {
    if vs != [] {
      var take := Min(|vs|, size - first % size);
      BucketTotal(first + take, vs[take..], size);
      assert vs == vs[..take] + vs[take..];
      SumConcat(vs[..take], vs[take..]);
    }
  }

  /** When the first label is a multiple of `size`, every group but the last
      holds exactly `size` rows; only the last may be partial. */
  lemma {:induction false} AlignedGroupsFull(first: nat, vs: seq<int>, size: nat)
    requires size > 0 && first % size == 0
    ensures forall i :: 0 <= i < |Groups(first, vs, size)| - 1 ==> |Groups(first, vs, size)[i]| == size
    decreases |vs|
  {
    if |vs| > size {
      NextKey(first, size);
      AlignedGroupsFull(first + size, vs[size..], size);
    }
  }

  /** A run of equal values sums to its length times the value. */
  lemma {:induction false} SumConstant(s: seq<int>, v: int)
    requires forall i :: 0 <= i < |s| ==> s[i] == v
    ensures Sum(s) == |s| * v
    decreases |s|
  {
    if s != [] {
      SumConstant(s[1..], v);
    }
  }

  /** Fourteen days of constant revenue v, labelled from 0, make two weekly
      buckets of 7 * v each. */
  lemma TwoConstantWeeks(vs: seq<int>, v: int)
    requires |vs| == 14 && forall i :: 0 <= i < 14 ==> vs[i] == v
    ensures Sums(Groups(0, vs, 7)) == [7 * v, 7 * v]
  {
    var rest := vs[7..];
    assert Groups(0, vs, 7) == [vs[..7]] + Groups(7, rest, 7);
    assert Groups(7, rest, 7) == [rest[..7]] + Groups(14, rest[7..], 7);
    assert rest[7..] == [];
    SumConstant(vs[..7], v);
    SumConstant(rest[..7], v);
  }

  /** Ten days labelled from 0 make two weekly buckets, the second holding
      only the last three days. */
  lemma TenDaysTwoWeeks(vs: seq<int>)
    requires |vs| == 10
    ensures |Groups(0, vs, 7)| == 2
    ensures Groups(0, vs, 7)[1] == vs[7..] && Sums(Groups(0, vs, 7))[1] == Sum(vs[7..])
  {
    var rest := vs[7..];
    assert Groups(0, vs, 7) == [vs[..7]] + Groups(7, rest, 7);
    assert rest[..3] == rest;
    assert Groups(7, rest, 7) == [rest[..3]] + Groups(10, rest[3..], 7);
    assert rest[3..] == [];
  }
}
