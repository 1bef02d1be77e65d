/** Products, quotients and remainders by a variable, defined by repeated addition and
    subtraction so that index computations stay linear; `TimesIs` and `QuotIs` identify them
    with the built-in operators. */
module Arith {

  function Times(a: nat, b: nat): nat
  {
    if a == 0 then 0 else Times(a - 1, b) + b
  }

  function Quot(n: nat, d: nat): nat
  {
    if d == 0 || n < d then 0 else Quot(n - d, d) + 1
  }

  function Rem(n: nat, d: nat): (r: nat)
    ensures d > 0 ==> r < d
  {
    if d == 0 || n < d then n else Rem(n - d, d)
  }

  lemma {:induction false} TimesIs(a: nat, b: nat)
    ensures Times(a, b) == a * b
  {
    if a > 0 {
      TimesIs(a - 1, b);
      assert a * b == (a - 1) * b + b;
    }
  }

  lemma {:induction false} TimesWider(q: nat, a: nat, b: nat)
    requires a <= b
    ensures Times(q, a) <= Times(q, b)
  {
    if q > 0 { TimesWider(q - 1, a, b); }
  }

  lemma MulLe(a: int, b: int, c: int)
    requires a <= b && c >= 0
    ensures a * c <= b * c
  {
  }

  lemma QuotIs(n: nat, d: nat)
    requires d > 0
    ensures Quot(n, d) == n / d && Rem(n, d) == n % d
  {
    QuotRem(n, d);
    TimesIs(Quot(n, d), d);
    DivUnique(n, d, Quot(n, d), Rem(n, d));
  }

  lemma DivUnique(n: int, d: int, q: int, r: int)
    requires d > 0 && n == q * d + r && 0 <= r < d
    ensures n / d == q && n % d == r
  {
    var q', r' := n / d, n % d;
    assert q' * d + r' == n;
    assert (q - 1) * d == q * d - d && (q + 1) * d == q * d + d;
    if q' < q { MulLe(q', q - 1, d); }
    if q < q' { MulLe(q + 1, q', d); }
  }

  lemma {:induction false} QuotRem(n: nat, d: nat)
    requires d > 0
    ensures Times(Quot(n, d), d) + Rem(n, d) == n
  {
    if n >= d { QuotRem(n - d, d); }
  }

  lemma {:induction false} QuotUnique(q: nat, d: nat, r: nat)
    requires r < d
    ensures Quot(Times(q, d) + r, d) == q && Rem(Times(q, d) + r, d) == r
  {
    if q > 0 { QuotUnique(q - 1, d, r); }
  }

  lemma {:induction false} TimesLess(a: nat, b: nat, d: nat)
    requires a < b
    ensures Times(a, d) + d <= Times(b, d)
  {
    if a + 1 < b { TimesLess(a, b - 1, d); }
  }

  /** A row number is in range when the index is inside the table. */
  lemma QuotBelow(n: nat, d: nat, rows: nat)
    requires d > 0 && n < Times(rows, d)
    ensures Quot(n, d) < rows
  {
    QuotRem(n, d);
    if rows < Quot(n, d) {
      TimesLess(rows, Quot(n, d), d);
      assert false;
    }
  }
}
