/** What several parts use. */
module Common {

  datatype Option<+T> = None | Some(value: T)

  predicate Distinct<T(==)>(s: seq<T>) {
    forall i, j :: 0 <= i < j < |s| ==> s[i] != s[j]
  }

  function Pow2(k: nat): (r: nat)
    ensures r > 0
  {
    if k == 0 then 1 else 2 * Pow2(k - 1)
  }

  lemma {:induction false} Pow2Add(a: nat, b: nat)
    ensures Pow2(a + b) == Pow2(a) * Pow2(b)
    decreases b
  {
    if b > 0 { Pow2Add(a, b - 1); }
  }

  lemma DivModUnique(a: nat, n: nat, q: nat, r: nat)
    requires n > 0 && a == n * q + r && r < n
    ensures a / n == q && a % n == r
  {
    var q', r' := a / n, a % n;
    assert n * q' + r' == n * q + r;
    ProductOrder(n, q, q');
    ProductOrder(n, q', q);
  }

  lemma ProductOrder(n: nat, p: nat, q: nat)
    ensures p < q ==> n * q >= n * p + n
  {
    if p < q {
      var d: nat := q - p - 1;
      assert q == p + 1 + d;
      assert n * (p + 1 + d) == n * p + n + n * d;
    }
  }
}
