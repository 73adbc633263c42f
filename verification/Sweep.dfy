/**
 The expansion of a sweep into its points: the cross-product of the axes, the last axis running fastest.
 */
module Sweep {
  import opened Options
  import opened Arithmetic

  const MAX_POINTS := 512
  const MAX_VALUES := 16

  // ---------------------------------------------------------------- the cells

  /** An axis without values still has one cell, which changes nothing. */
  function Sizes(counts: seq<nat>): (sizes: seq<nat>)
    ensures |sizes| == |counts| && forall i :: 0 <= i < |sizes| ==> sizes[i] == (if counts[i] == 0 then 1 else counts[i]) > 0
  {
    if counts == [] then []
    else Sizes(counts[..|counts| - 1]) + [if counts[|counts| - 1] == 0 then 1 else counts[|counts| - 1]]
  }

  predicate Positive(sizes: seq<nat>) { forall i :: 0 <= i < |sizes| ==> sizes[i] > 0 }

  function Total(sizes: seq<nat>): (n: nat)
    ensures Positive(sizes) ==> n > 0
  {
    if sizes == [] then 1 else Times(Total(sizes[..|sizes| - 1]), sizes[|sizes| - 1])
  }

  function Times(a: nat, b: nat): (p: nat)
    ensures p == a * b && (a > 0 && b > 0 ==> p > 0)
  {
    a * b
  }

  /** Where each axis stands at the n-th point. */
  function CellAt(sizes: seq<nat>, n: nat): (v: seq<nat>)
    requires Positive(sizes)
    ensures |v| == |sizes|
  {
    if sizes == [] then []
    else
      var last := sizes[|sizes| - 1];
      CellAt(sizes[..|sizes| - 1], n / last) + [n % last]
  }

  predicate InRange(sizes: seq<nat>, v: seq<nat>) {
    |v| == |sizes| && forall i :: 0 <= i < |sizes| ==> v[i] < sizes[i]
  }

  /** The point at which the axes stand like that. */
  function NumberOf(sizes: seq<nat>, v: seq<nat>): nat
    requires |v| == |sizes|
  {
    if sizes == [] then 0
    else
      var n := |sizes| - 1;
      Times(NumberOf(sizes[..n], v[..n]), sizes[n]) + v[n]
  }

  lemma {:induction false} Divided(a: nat, d: nat)
    requires d > 0
    ensures Times(a / d, d) + a % d == a && a % d < d
  {
  }

  lemma {:induction false} QuotientBelow(n: nat, a: nat, d: nat)
    requires d > 0 && n < Times(a, d)
    ensures n / d < a
  {
    Divided(n, d);
    if a <= n / d {
      if a < n / d { MulGap(a, n / d, d); }
    }
  }

  lemma {:induction false} CellInRange(sizes: seq<nat>, n: nat)
    requires Positive(sizes)
    ensures InRange(sizes, CellAt(sizes, n))
  {
    if sizes != [] {
      var k := |sizes| - 1;
      CellInRange(sizes[..k], n / sizes[k]);
    }
  }

  lemma {:induction false} NumberOfCell(sizes: seq<nat>, n: nat)
    requires Positive(sizes) && n < Total(sizes)
    ensures NumberOf(sizes, CellAt(sizes, n)) == n
  {
    if sizes != [] {
      var k := |sizes| - 1;
      var v := CellAt(sizes, n);
      QuotientBelow(n, Total(sizes[..k]), sizes[k]);
      NumberOfCell(sizes[..k], n / sizes[k]);
      assert v[..k] == CellAt(sizes[..k], n / sizes[k]);
      Divided(n, sizes[k]);
    }
  }

  lemma {:induction false} CellOfNumber(sizes: seq<nat>, v: seq<nat>)
    requires Positive(sizes) && InRange(sizes, v)
    ensures NumberOf(sizes, v) < Total(sizes) && CellAt(sizes, NumberOf(sizes, v)) == v
  {
    if sizes != [] {
      var k := |sizes| - 1;
      var q := NumberOf(sizes[..k], v[..k]);
      CellOfNumber(sizes[..k], v[..k]);
      DivIs(NumberOf(sizes, v), sizes[k], q, v[k]);
      MulGap(q, Total(sizes[..k]), sizes[k]);
      assert v == v[..k] + [v[k]];
    }
  }

  // ---------------------------------------------------------------- the odometer

  function Next(sizes: seq<nat>, v: seq<nat>): (w: seq<nat>)
    requires |v| == |sizes|
    ensures |w| == |sizes|
  {
    if sizes == [] then []
    else
      var k := |sizes| - 1;
      if v[k] + 1 < sizes[k] then v[..k] + [v[k] + 1] else Next(sizes[..k], v[..k]) + [0]
  }

  /** The last of `d` numbers with one quotient is followed by the first with the next. */
  lemma {:induction false} DividedNext(n: nat, d: nat)
    requires d > 0
    ensures if n % d + 1 < d then (n + 1) / d == n / d && (n + 1) % d == n % d + 1
            else (n + 1) / d == n / d + 1 && (n + 1) % d == 0
  {
    var q, r := n / d, n % d;
    assert n == q * d + r && r < d;
    assert (q + 1) * d == q * d + d;
    if r + 1 < d { DivIs(n + 1, d, q, r + 1); } else { DivIs(n + 1, d, q + 1, 0); }
  }

  lemma {:induction false} CellGrows(sizes: seq<nat>, n: nat)
    requires Positive(sizes) && sizes != []
    ensures var k := |sizes| - 1; var v, w := CellAt(sizes, n), CellAt(sizes, n + 1);
      && v[..k] == CellAt(sizes[..k], n / sizes[k])
      && if v[k] + 1 < sizes[k] then w == v[..k] + [v[k] + 1] else w == CellAt(sizes[..k], n / sizes[k] + 1) + [0]
  {
    DividedNext(n, sizes[|sizes| - 1]);
  }

  lemma {:induction false} NextCell(sizes: seq<nat>, n: nat)
    requires Positive(sizes) && n + 1 < Total(sizes)
    ensures Next(sizes, CellAt(sizes, n)) == CellAt(sizes, n + 1)
  {
    if sizes != [] {
      var k := |sizes| - 1;
      CellGrows(sizes, n);
      if CellAt(sizes, n)[k] + 1 >= sizes[k] {
        DividedNext(n, sizes[k]);
        QuotientBelow(n + 1, Total(sizes[..k]), sizes[k]);
        NextCell(sizes[..k], n / sizes[k]);
      }
    }
  }

  lemma {:induction false} FirstCell(sizes: seq<nat>)
    requires Positive(sizes)
    ensures CellAt(sizes, 0) == Zeros(|sizes|)
  {
    if sizes != [] {
      var k := |sizes| - 1;
      FirstCell(sizes[..k]);
      DivIs(0, sizes[k], 0, 0);
    }
  }

  /** Carrying from the last axis to the first. */
  method Advance(idx: array<nat>, sizes: seq<nat>)
    requires idx.Length == |sizes|
    modifies idx
    ensures idx[..] == Next(sizes, old(idx[..]))
  {
    ghost var was := idx[..];
    var i := |sizes|;
    assert sizes[..i] == sizes && was[..i] == was;
    while i > 0
      invariant 0 <= i <= |sizes|
      invariant idx[..i] == was[..i] && forall j :: i <= j < |sizes| ==> idx[j] == 0
      invariant Next(sizes, was) == Next(sizes[..i], was[..i]) + Zeros(|sizes| - i)
    {
      i := i - 1;
      CarryOrStop(sizes, was, i);
      assert idx[..i + 1][..i] == was[..i] && idx[..i + 1][i] == was[i];
      idx[i] := idx[i] + 1;
      if idx[i] < sizes[i] {
        assert idx[..i + 1] == was[..i] + [was[i] + 1];
        assert idx[..] == idx[..i + 1] + Zeros(|sizes| - i - 1);
        return;
      }
      idx[i] := 0;
      assert idx[..i] == was[..i];
    }
    assert idx[..] == Zeros(|sizes|);
  }

  /** At the i-th axis the odometer stops, or it is zero and carries on. */
  lemma {:induction false} CarryOrStop(sizes: seq<nat>, was: seq<nat>, i: nat)
    requires i < |sizes| == |was|
    ensures Next(sizes[..i + 1], was[..i + 1]) + Zeros(|sizes| - i - 1) ==
      if was[i] + 1 < sizes[i] then was[..i] + [was[i] + 1] + Zeros(|sizes| - i - 1)
      else Next(sizes[..i], was[..i]) + Zeros(|sizes| - i)
  {
    assert sizes[..i + 1][..i] == sizes[..i] && was[..i + 1][..i] == was[..i];
    assert Zeros(|sizes| - i) == [0] + Zeros(|sizes| - i - 1);
  }

  method Expand(sizes: seq<nat>) returns (cells: seq<seq<nat>>)
    requires Positive(sizes)
    ensures |cells| == Total(sizes) && forall n :: 0 <= n < |cells| ==> cells[n] == CellAt(sizes, n)
  {
    cells := [];
    var idx := new nat[|sizes|](_ => 0);
    FirstCell(sizes);
    assert idx[..] == Zeros(|sizes|);
    for n := 0 to Total(sizes)
      invariant |cells| == n && forall m :: 0 <= m < n ==> cells[m] == CellAt(sizes, m)
      invariant n < Total(sizes) ==> idx[..] == CellAt(sizes, n)
    {
      var cell := idx[..];
      cells := cells + [cell];
      Advance(idx, sizes);
      if n + 1 < Total(sizes) { NextCell(sizes, n); }
    }
  }

  /** Refused when an axis or the whole is too large. */
  method ExpandSweep(counts: seq<nat>) returns (cells: Option<seq<seq<nat>>>)
    ensures cells.Some? <==> (forall i :: 0 <= i < |counts| ==> counts[i] <= MAX_VALUES) && Total(Sizes(counts)) <= MAX_POINTS
    ensures cells.Some? ==> |cells.value| == Total(Sizes(counts))
    ensures cells.Some? ==> forall n :: 0 <= n < |cells.value| ==> cells.value[n] == CellAt(Sizes(counts), n)
  {
    for i := 0 to |counts|
      invariant forall j :: 0 <= j < i ==> counts[j] <= MAX_VALUES
    {
      if counts[i] > MAX_VALUES { return None; }
    }
    if Total(Sizes(counts)) > MAX_POINTS { return None; }
    var all := Expand(Sizes(counts));
    return Some(all);
  }

  /** Every combination of axis values is a point, and only one. */
  lemma {:induction false} EveryCellOnce(sizes: seq<nat>, v: seq<nat>)
    requires Positive(sizes)
    ensures InRange(sizes, v) <==> exists n :: 0 <= n < Total(sizes) && CellAt(sizes, n) == v
    ensures forall m, n :: 0 <= m < Total(sizes) && 0 <= n < Total(sizes) && CellAt(sizes, m) == CellAt(sizes, n) ==> m == n
  {
    if InRange(sizes, v) { CellOfNumber(sizes, v); }
    forall n: nat ensures InRange(sizes, CellAt(sizes, n)) { CellInRange(sizes, n); }
    forall m, n | 0 <= m < Total(sizes) && 0 <= n < Total(sizes) && CellAt(sizes, m) == CellAt(sizes, n) ensures m == n {
      NumberOfCell(sizes, m);
      NumberOfCell(sizes, n);
    }
  }

  /** Two points differ in the last axis alone exactly when they are in the same block of its size. */
  lemma {:induction false} LastAxisRunsTogether(sizes: seq<nat>, m: nat, n: nat)
    requires sizes != [] && Positive(sizes) && m < Total(sizes) && n < Total(sizes)
    ensures var k := |sizes| - 1;
      CellAt(sizes, m)[..k] == CellAt(sizes, n)[..k] <==> m / sizes[k] == n / sizes[k]
  {
    CellFront(sizes, m);
    CellFront(sizes, n);
  }

  lemma {:induction false} CellFront(sizes: seq<nat>, n: nat)
    requires sizes != [] && Positive(sizes) && n < Total(sizes)
    ensures var k := |sizes| - 1; CellAt(sizes, n)[..k] == CellAt(sizes[..k], n / sizes[k])
    ensures var k := |sizes| - 1; NumberOf(sizes[..k], CellAt(sizes, n)[..k]) == n / sizes[k]
  {
    var k := |sizes| - 1;
    QuotientBelow(n, Total(sizes[..k]), sizes[k]);
    assert CellAt(sizes, n)[..k] == CellAt(sizes[..k], n / sizes[k]);
    NumberOfCell(sizes[..k], n / sizes[k]);
  }
}
