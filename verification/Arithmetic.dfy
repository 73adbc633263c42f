/** Division that the solver does not find by itself, and rows of zeros. */
module Arithmetic {

  function Zeros(n: nat): (zs: seq<nat>)
    ensures |zs| == n && forall i :: 0 <= i < n ==> zs[i] == 0
  {
    if n == 0 then [] else Zeros(n - 1) + [0]
  }

  lemma {:induction false} DivIs(a: nat, d: nat, q: nat, r: nat)
    requires a == q * d + r && r < d
    ensures a / d == q && a % d == r
  {
    var p := a / d;
    assert a == p * d + a % d;
    if p < q { MulGap(p, q, d); }
    if q < p { MulGap(q, p, d); }
  }

  lemma {:induction false} MulGap(p: nat, q: nat, d: nat)
    requires p < q
    ensures p * d + d <= q * d
    decreases q
  {
    assert q * d == (q - 1) * d + d;
    if p < q - 1 { MulGap(p, q - 1, d); }
  }
}
