/** Facts about whole-number division used to locate cells of row-major
    grids: cell `k` of a grid `s` columns wide sits on row `k / s`, column
    `k % s`; and the regrouping of concatenation. */
module Arith {
  lemma MulAtLeast(a: int, s: int)
    requires a >= 1 && s > 0
    ensures a * s >= s
  {
    assert a * s == (a - 1) * s + s;
    assert (a - 1) * s >= 0;
  }

  lemma DivUnique(n: int, s: int, q: int, r: int)
    requires s > 0 && 0 <= r < s && n == q * s + r
    ensures n / s == q && n % s == r
  {
    var q0, r0 := n / s, n % s;
    assert n == q0 * s + r0 && 0 <= r0 < s;
    if q0 > q {
      assert (q0 - q) * s == q0 * s - q * s;
      MulAtLeast(q0 - q, s);
    } else if q0 < q {
      assert (q - q0) * s == q * s - q0 * s;
      MulAtLeast(q - q0, s);
    }
  }

  lemma QuotientStep(k: int, s: int)
    requires s > 0 && k >= s
    ensures (k - s) / s == k / s - 1 && (k - s) % s == k % s
  {
    assert k == (k / s) * s + k % s;
    assert k - s == (k / s - 1) * s + k % s;
    DivUnique(k - s, s, k / s - 1, k % s);
  }

  /** Concatenation regroups freely; the emitters use it to split the cells
      they append into the ones before and after a step. */
  lemma AppendAssoc<T>(a: seq<T>, b: seq<T>, c: seq<T>)
    ensures (a + b) + c == a + (b + c)
  {
  }
}
