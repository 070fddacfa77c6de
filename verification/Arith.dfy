/** Division facts the address proofs share. */
module Arith {

  lemma MulOrder(a: nat, b: nat, m: nat)
    requires a < b
    ensures a * m + m <= b * m
  {
    assert (b - a) * m == b * m - a * m;
    assert (b - a - 1) * m >= 0;
    assert (b - a - 1) * m == (b - a) * m - m;
  }

  function Times(a: nat, b: nat): nat {
    a * b
  }

  /** q * m + r splits back into q and r. */
  lemma Split(q: nat, r: nat, m: nat)
    requires r < m
    ensures (q * m + r) / m == q && (q * m + r) % m == r
  {
    var x := q * m + r;
    assert x == (x / m) * m + x % m;
    if x / m < q {
      MulOrder(x / m, q, m);
    } else if q < x / m {
      MulOrder(q, x / m, m);
    }
  }

  lemma SplitUnique(q: nat, r: nat, q': nat, r': nat, m: nat)
    requires r < m && r' < m && q * m + r == q' * m + r'
    ensures q == q' && r == r'
  {
    Split(q, r, m);
    Split(q', r', m);
  }

  lemma Rejoin(x: nat, x': nat, m: nat)
    requires 0 < m && x / m == x' / m && x % m == x' % m
    ensures x == x'
  {
    Whole(x, m);
    Whole(x', m);
  }

  lemma Whole(x: nat, m: nat)
    requires 0 < m
    ensures x == (x / m) * m + x % m && 0 <= x / m && x % m < m
  {}

  lemma DivLess(x: nat, q: nat, m: nat)
    requires 0 < m && x < q * m
    ensures x / m < q
  {
    Whole(x, m);
    if q <= x / m {
      assert q < x / m + 1;
      MulOrder(q, x / m + 1, m);
    }
  }

  lemma SplitLess(q: nat, r: nat, m: nat, n: nat)
    requires q < n && r < m
    ensures q * m + r < n * m
  {
    MulOrder(q, n, m);
  }

  lemma Spread(a: nat, b: nat, c: nat)
    ensures (a + b) * c == a * c + b * c && a * b * c == a * (b * c)
  {}

  lemma Positive(a: nat, b: nat)
    requires 0 < a && 0 < b
    ensures 0 < a * b && a * b == b * a
  {
    MulOrder(0, b, a);
  }

  lemma DivDiv(x: nat, a: nat, b: nat)
    requires 0 < a && 0 < b
    ensures 0 < a * b && (x / a) / b == x / (a * b)
  {
    Positive(a, b);
    var y := x / a;
    var q, r := y / b, (y % b) * a + x % a;
    Whole(x, a);
    Whole(y, b);
    Spread(q * b, y % b, a);
    Spread(q, b, a);
    assert x == q * (b * a) + r;
    SplitLess(y % b, x % a, a, b);
    Split(q, r, b * a);
  }

  /** Adding a whole number of moduli changes nothing. */
  lemma ModShift(x: nat, q: nat, m: nat)
    requires 0 < m
    ensures (x + q * m) % m == x % m && (x + q * m) / m == x / m + q
  {
    Whole(x, m);
    Spread(x / m, q, m);
    Split(x / m + q, x % m, m);
  }

  lemma ModAdd(x: nat, y: nat, m: nat)
    requires 0 < m
    ensures (x + y) % m == (x % m + y) % m
  {
    Whole(x, m);
    ModShift(x % m + y, x / m, m);
    assert x % m + y + (x / m) * m == x + y;
  }

  /** Equal residues of numbers less than a modulus apart are equal numbers. */
  lemma ModInjective(a: nat, b: nat, s: nat, m: nat)
    requires a < m && b < m && (a + s) % m == (b + s) % m
    ensures a == b
  {
    var s' := s % m;
    ModAdd(s, a, m);
    ModAdd(s, b, m);
    assert (s' + a) % m == (s' + b) % m;
    Small(s' + a, m);
    Small(s' + b, m);
  }

  lemma Small(x: nat, m: nat)
    requires 0 < m && x < 2 * m
    ensures x % m == if x < m then x else x - m
  {
    if m <= x {
      Split(1, x - m, m);
    } else {
      Split(0, x, m);
    }
  }

  lemma DivNext(n: nat, m: nat)
    requires 0 < m
    ensures n % m + 1 < m ==> (n + 1) / m == n / m && (n + 1) % m == n % m + 1
    ensures n % m + 1 == m ==> (n + 1) / m == n / m + 1 && (n + 1) % m == 0
  {
    Whole(n, m);
    if n % m + 1 < m {
      Split(n / m, n % m + 1, m);
    } else {
      Spread(n / m, 1, m);
      Split(n / m + 1, 0, m);
    }
  }

  /** Division rounding up. */
  function CeilDiv(a: nat, b: nat): (q: nat)
    requires 0 < b
    ensures a <= Times(q, b) < a + b && (0 < a ==> 0 < q)
  {
    Whole(a + b - 1, b);
    var q: nat := (a + b - 1) / b;
    assert Times(0, b) == 0;
    q
  }

  function Pow2(n: nat): (p: nat)
    ensures 0 < p
  {
    if n == 0 then 1 else 2 * Pow2(n - 1)
  }

  lemma {:induction false} Pow2Add(a: nat, b: nat)
    ensures Pow2(a + b) == Pow2(a) * Pow2(b)
  {
    if b != 0 {
      Pow2Add(a, b - 1);
      Spread(2, Pow2(a), Pow2(b - 1));
      Spread(Pow2(a), 2, Pow2(b - 1));
      Positive(Pow2(a), 2);
    }
  }

  /** Rounding down to a multiple of a. */
  function Align(x: nat, a: nat): (y: nat)
    requires 0 < a
    ensures y == x / a * a && y <= x
  {
    Whole(x, a);
    x - x % a
  }

  lemma MultipleOf(m: nat, a: nat)
    requires 0 < a && m % a == 0
    ensures m == m / a * a && 0 <= m / a
  {
    Whole(m, a);
  }

  /** Rounding leaves whole multiples alone. */
  lemma AlignWhole(q: nat, w: nat, m: nat, a: nat)
    requires 0 < a && m % a == 0
    ensures Align(Times(q, m) + w, a) == Times(q, m) + Align(w, a)
    ensures (Times(q, m) + w) / a == Times(q, m / a) + w / a
  {
    MultipleOf(m, a);
    var n := m / a;
    Whole(w, a);
    Spread(q, n, a);
    ModShift(w, q * n, a);
    Whole(Times(q, m) + w, a);
    Spread(q * n, w / a, a);
  }

  // ---- Common divisors ----

  /** The greatest common divisor, by Euclid's algorithm. */
  function Gcd(a: nat, b: nat): (g: nat)
    requires 0 < b
    ensures 0 < g <= b
    decreases b
  {
    if a % b == 0 then b else Gcd(b, a % b)
  }

  lemma {:induction false} GcdDivides(a: nat, b: nat)
    requires 0 < b
    ensures a % Gcd(a, b) == 0 && b % Gcd(a, b) == 0
    decreases b
  {
    if a % b != 0 {
      var r, g := a % b, Gcd(b, a % b);
      GcdDivides(b, r);
      MultipleOf(b, g);
      MultipleOf(r, g);
      Whole(a, b);
      Spread(a / b, b / g, g);
      Spread(a / b * (b / g), r / g, g);
      Split(a / b * (b / g) + r / g, 0, g);
    } else {
      Split(1, 0, b);
    }
  }

  /** The greatest common divisor is a combination of the two. */
  lemma {:induction false} Combination(a: nat, b: nat) returns (x: int, y: int)
    requires 0 < b
    ensures x * a + y * b == Gcd(a, b)
    decreases b
  {
    if a % b == 0 {
      x, y := 0, 1;
    } else {
      var u, v := Combination(b, a % b);
      var q := a / b;
      Whole(a, b);
      x, y := v, u - v * q;
      assert v * (a % b) == v * a - v * (q * b);
      assert v * (q * b) == v * q * b;
      assert (u - v * q) * b == u * b - v * q * b;
    }
  }

  lemma Distribute(x: int, y: int, k: int)
    ensures (x + y) * k == x * k + y * k
  {}

  lemma Associate(x: int, y: int, k: int)
    ensures x * (y * k) == x * y * k
  {}

  lemma ModShiftInt(x: nat, z: int, t: nat, b: nat)
    requires 0 < b && t == z * b + x
    ensures t % b == x % b
  {
    if 0 <= z {
      ModShift(x, z, b);
    } else {
      Distribute(z, -z, b);
      ModShift(t, -z, b);
    }
  }

  /** Some multiple of a is the greatest common divisor, modulo b. */
  lemma Bezout(a: nat, b: nat) returns (m: nat)
    requires 0 < b
    ensures m < b && m * a % b == Gcd(a, b) % b
  {
    var x, y := Combination(a, b);
    m := x % b;
    var q, g := x / b, Gcd(a, b);
    assert x == q * b + m;
    Distribute(q * b, m, a);
    Associate(q, a, b);
    assert q * b * a == q * a * b by { Associate(q, b, a); }
    Distribute(-(q * a), -y, b);
    Distribute(q * a, -(q * a), b);
    Distribute(y, -y, b);
    var z := -(q * a) + -y;
    assert m * a == z * b + g;
    NotNegative(m, a);
    ModShiftInt(g, z, m * a, b);
  }

  lemma NotNegative(a: nat, b: nat)
    ensures 0 <= a * b
  {}

  /** Every common divisor divides the greatest. */
  lemma CommonDivides(a: nat, b: nat, k: nat)
    requires 0 < b && 0 < k && a % k == 0 && b % k == 0
    ensures Gcd(a, b) % k == 0
  {
    var x, y := Combination(a, b);
    MultipleOf(a, k);
    MultipleOf(b, k);
    var p, q := a / k, b / k;
    Associate(x, p, k);
    Associate(y, q, k);
    Distribute(x * p, y * q, k);
    CombinationDivides(x * a, y * b, x * p, y * q, Gcd(a, b), k);
  }

  lemma CombinationDivides(u: int, v: int, s: int, t: int, g: nat, k: nat)
    requires 0 < k && u == s * k && v == t * k && g == u + v
    ensures g % k == 0
  {
    Distribute(s, t, k);
    ModShiftInt(0, s + t, g, k);
    Split(0, 0, k);
  }
}
