/** Integer facts the paging and batching proofs need: Euclidean division by a positive divisor. */
module Arith {

  lemma MulSucc(k: nat, n: nat)
    ensures (k + 1) * n == k * n + n
  {
  }

  lemma MulSub(a: int, b: int, n: int)
    ensures a * n - b * n == (a - b) * n
  {
  }

  lemma MulAtLeast(d: int, n: int)
    requires d >= 1 && n > 0
    ensures d * n >= n
  {
    MulSub(d, 1, n);
  }

  /** Quotient and remainder are determined by `a == q·n + r` with `0 <= r < n`. */
  lemma DivUnique(a: int, n: int, q: int, r: int)
    requires n > 0 && a == q * n + r && 0 <= r < n
    ensures a / n == q && a % n == r
  {
    var q0, r0 := a / n, a % n;
    assert a == q0 * n + r0;
    MulSub(q, q0, n);
    MulSub(q0, q, n);
    if q > q0 {
      MulAtLeast(q - q0, n);
    } else if q < q0 {
      MulAtLeast(q0 - q, n);
    }
  }

  lemma DivAddDivisor(x: nat, n: nat)
    requires n > 0
    ensures (x + n) / n == x / n + 1
  {
    DivUnique(x + n, n, x / n + 1, x % n);
  }

  /** `Math.ceil(a / n)` for a natural `a`: the fewest blocks of `n` that cover `a`. */
  function CeilDiv(a: nat, n: nat): (r: nat)
    requires n > 0
    ensures r * n >= a
    ensures r > 0 ==> (r - 1) * n < a
    ensures r == 0 <==> a == 0
  {
    var q := (a + n - 1) / n;
    DivUnique(a + n - 1, n, q, (a + n - 1) % n);
    MulSucc(if q > 0 then q - 1 else 0, n);
    q
  }

  lemma MulMono(x: int, y: int, n: int)
    requires x <= y && n >= 0
    ensures x * n <= y * n
  {
    MulSub(y, x, n);
  }

  /** `CeilDiv(a, n)` is the only count of blocks that covers `a` without a spare block. */
  lemma CeilDivUnique(a: nat, n: nat, r: nat)
    requires n > 0 && r * n >= a && (r > 0 ==> (r - 1) * n < a)
    ensures r == CeilDiv(a, n)
  {
    var c := CeilDiv(a, n);
    if r > c {
      MulMono(c, r - 1, n);
    } else if r < c {
      MulMono(r, c - 1, n);
    }
  }
}
