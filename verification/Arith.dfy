/** Multiplication and division by repeated addition and subtraction, and their link to the
    operators. Specifications use these forms because they unfold one step at a time. */
module Arith {

  lemma MulMono(a: int, b: int, c: nat)
    requires a <= b
    ensures a * c <= b * c
  {
  }

  lemma MulSucc(a: int, k: int)
    ensures (a + 1) * k == a * k + k
  {
  }

  lemma DivModUnique(x: int, n: int, q: int, r: int)
    requires n > 0 && x == q * n + r && 0 <= r < n
    ensures x / n == q && x % n == r
  {
    var d := x / n - q;
    assert x == (x / n) * n + x % n;
    assert (x / n) * n - q * n == d * n;
    assert d * n == r - x % n;
    assert d >= 1 ==> d * n >= n;
    assert d <= -1 ==> d * n <= -n;
  }

  lemma DivMod(x: nat, n: nat)
    requires n > 0
    ensures (x / n) * n + x % n == x && 0 <= x % n < n && x / n >= 0
  {
  }

  lemma DivDiv(x: nat, a: nat, b: nat)
    requires a > 0 && b > 0
    ensures a * b > 0 && x / (a * b) == x / a / b
  {
    var q, r := x / a, x % a;
    var q1, r1 := q / b, q % b;
    DivMod(x, a);
    DivMod(q, b);
    assert (q1 * b + r1) * a == q1 * (a * b) + r1 * a;
    MulMono(r1 + 1, b, a);
    MulSucc(r1, a);
    DivModUnique(x, a * b, q1, r1 * a + r);
  }

  /** k added n times. */
  function Times(n: nat, k: nat): nat {
    if n == 0 then 0 else Times(n - 1, k) + k
  }

  lemma {:induction false} TimesMul(n: nat, k: nat)
    ensures Times(n, k) == n * k
  {
    if n > 0 {
      TimesMul(n - 1, k);
      MulSucc(n - 1, k);
    }
  }

  lemma {:induction false} TimesLess(m: nat, n: nat, k: nat)
    requires m < n
    ensures Times(m, k) + k <= Times(n, k)
  {
    if m + 1 < n { TimesLess(m, n - 1, k); }
  }

  /** How often n goes into x. */
  function Quo(x: nat, n: nat): nat
    requires n > 0
  {
    if x < n then 0 else 1 + Quo(x - n, n)
  }

  function Rem(x: nat, n: nat): (r: nat)
    requires n > 0
    ensures r < n
  {
    if x < n then x else Rem(x - n, n)
  }

  lemma {:induction false} QuoRem(x: nat, n: nat)
    requires n > 0
    ensures x == Times(Quo(x, n), n) + Rem(x, n)
    ensures Quo(x, n) == x / n && Rem(x, n) == x % n
  {
    if x >= n {
      QuoRem(x - n, n);
      DivMod(x - n, n);
      MulSucc((x - n) / n, n);
      DivModUnique(x, n, (x - n) / n + 1, (x - n) % n);
    } else {
      DivModUnique(x, n, 0, x);
    }
  }

  lemma QuoLess(x: nat, k: nat, n: nat)
    requires n > 0 && x < Times(k, n)
    ensures Quo(x, n) < k
  {
    QuoRem(x, n);
    if k < Quo(x, n) { TimesLess(k, Quo(x, n), n); }
  }

  /** x and c have the same quotient exactly when their remainders differ as x and c do; a run that
      does not pass the next multiple keeps the quotient. */
  lemma SameQuo(n: nat, c: nat, x: nat)
    requires n > 0
    ensures Quo(x, n) == Quo(c, n) <==> Rem(x, n) - Rem(c, n) == x - c
    ensures c <= x < c + n - Rem(c, n) ==> Quo(x, n) == Quo(c, n)
  {
    QuoRem(c, n);
    QuoRem(x, n);
    if Quo(x, n) < Quo(c, n) { TimesLess(Quo(x, n), Quo(c, n), n); }
    if Quo(c, n) < Quo(x, n) { TimesLess(Quo(c, n), Quo(x, n), n); }
  }
}
