/** Shared vocabulary: optional values, and instants counted in whole microseconds. */
module Basics {

  datatype Option<+T> = None | Some(value: T)

  // `datetime` has microsecond resolution; every instant is a number of microseconds.
  const MICROS := 1_000_000

  function Elements<T>(ids: seq<T>): set<T> {
    set k | k in ids
  }

  lemma {:induction false} DistinctSize<T>(ids: seq<T>)
    requires forall i, j :: 0 <= i < j < |ids| ==> ids[i] != ids[j]
    ensures |Elements(ids)| == |ids|
  {
    if ids != [] {
      var n := |ids| - 1;
      DistinctSize(ids[..n]);
      assert ids == ids[..n] + [ids[n]];
      assert Elements(ids) == Elements(ids[..n]) + {ids[n]};
      assert ids[n] !in ids[..n];
    }
  }

  // The chosen numbers, each once and in increasing order.
  ghost predicate Enumerates(positions: seq<nat>, chosen: set<nat>) {
    && (forall i, j :: 0 <= i < j < |positions| ==> positions[i] < positions[j])
    && (forall k :: k in positions <==> k in chosen)
  }

  lemma EnumeratedNext(positions: seq<nat>, chosen: set<nat>, k: nat)
    requires Enumerates(positions, chosen) && forall c :: c in chosen ==> c < k
    ensures Enumerates(positions + [k], chosen + {k})
  {
    forall i | 0 <= i < |positions| ensures positions[i] < k {
      assert positions[i] in chosen;
    }
  }

  lemma EnumeratedSize(positions: seq<nat>, chosen: set<nat>)
    requires Enumerates(positions, chosen)
    ensures |positions| == |chosen|
  {
    DistinctSize(positions);
    assert Elements(positions) == chosen;
  }

  function Max(x: int, y: int): int {
    if x < y then y else x
  }

  // m * x, by repeated addition
  function Times(m: nat, x: int): (r: int)
    ensures x >= 0 ==> r >= 0
  {
    if m == 0 then 0 else Times(m - 1, x) + x
  }

  lemma {:induction false} TimesIsProduct(m: nat, x: int)
    ensures Times(m, x) == m * x
  {
    if m > 0 {
      TimesIsProduct(m - 1, x);
      assert m * x == (m - 1) * x + x;
    }
  }

  lemma PositiveMultiple(a: int, width: int)
    requires width > 0
    ensures a >= 1 ==> a * width >= width
  {
    if a >= 1 {
      assert (a - 1) * width >= 0;
    }
  }

  lemma QuotientAtLeast(n: nat, width: int, span: int)
    requires width > 0 && n * width <= span
    ensures n <= span / width
  {
    var q, r := span / width, span % width;
    assert span == q * width + r && r < width;
    assert (n - q) * width == n * width - q * width;
    PositiveMultiple(n - q, width);
  }

  lemma ProductMonotone(n: int, m: int, x: int)
    requires n <= m && x >= 0
    ensures n * x <= m * x
  {
    assert (m - n) * x >= 0;
    assert (m - n) * x == m * x - n * x;
  }
}
