/** Fixed-width words as integers: powers of two, residues and the two readings of a 32-bit word. */
module Words {

  /** A 32-bit register value. */
  type Word = x: int | 0 <= x < 0x1_0000_0000

  /** A 64-bit register value. */
  type DWord = x: int | 0 <= x < 0x1_0000_0000_0000_0000

  /** The two's complement reading of a word. */
  function Signed(x: Word): int {
    if x < 0x8000_0000 then x else x - 0x1_0000_0000
  }

  function Pow2(n: nat): (p: nat)
    ensures p > 0
  {
    if n == 0 then 1 else 2 * Pow2(n - 1)
  }

  lemma {:induction false} Pow2Add(m: nat, n: nat)
    ensures Pow2(m + n) == Pow2(m) * Pow2(n)
  {
    if m > 0 {
      Pow2Add(m - 1, n);
      assert Pow2(m + n) == 2 * Pow2(m - 1 + n);
      MulAssoc(2, Pow2(m - 1), Pow2(n));
    }
  }

  lemma {:induction false} Pow2Monotone(m: nat, n: nat)
    requires m <= n
    ensures Pow2(m) <= Pow2(n)
  {
    if m < n { Pow2Monotone(m, n - 1); }
  }

  lemma Pow2Values()
    ensures Pow2(31) == 0x8000_0000
    ensures Pow2(32) == 0x1_0000_0000
    ensures Pow2(64) == 0x1_0000_0000_0000_0000
  {
    hide Pow2;
    Pow2Small();
    Pow2Add(8, 8);
    Pow2Add(16, 16);
    Pow2Add(32, 32);
    Pow2Add(1, 31);
  }

  lemma Pow2Small()
    ensures Pow2(1) == 2 && Pow2(8) == 256
  {
    assert Pow2(4) == 16;
  }

  /** Multiples of n that are not 0 lie at least n away from 0. */
  lemma MultipleBounds(d: int, n: int)
    requires n > 0
    ensures d >= 1 ==> d * n >= n
    ensures d <= -1 ==> d * n <= -n
  {
  }

  lemma MulMonotone(x: int, y: int, n: int)
    requires n >= 0
    ensures x <= y ==> x * n <= y * n
  {
  }

  lemma MulAssoc(x: int, y: int, z: int)
    ensures (x * y) * z == x * (y * z)
  {
  }

  /** Quotient and remainder are determined by the division identity. */
  lemma DivModUnique(x: int, n: int, q: int, r: int)
    requires n > 0 && x == q * n + r && 0 <= r < n
    ensures x / n == q && x % n == r
  {
    var d := x / n - q;
    assert x == (x / n) * n + x % n;
    assert d * n == r - x % n by {
      assert d * n == (x / n) * n - q * n;
    }
    MultipleBounds(d, n);
  }

  lemma ModShift(x: int, k: int, n: int)
    requires n > 0
    ensures (x + k * n) % n == x % n
    ensures (x + k * n) / n == x / n + k
  {
    assert (x / n + k) * n == (x / n) * n + k * n;
    DivModUnique(x + k * n, n, x / n + k, x % n);
  }

  lemma ModAdd(x: int, y: int, n: int)
    requires n > 0
    ensures (x % n + y % n) % n == (x + y) % n
  {
    var k := x / n + y / n;
    assert k * n == (x / n) * n + (y / n) * n;
    assert x + y == x % n + y % n + k * n;
    ModShift(x % n + y % n, k, n);
  }

  lemma ModMul(x: int, y: int, n: int)
    requires n > 0
    ensures ((x % n) * y) % n == (x * y) % n
  {
    var k := (x / n) * y;
    assert x * y == ((x / n) * n + x % n) * y;
    assert ((x / n) * n + x % n) * y == (x / n) * n * y + (x % n) * y;
    assert (x / n) * n * y == k * n by {
      MulAssoc(x / n, n, y);
      MulAssoc(x / n, y, n);
    }
    ModShift((x % n) * y, k, n);
  }

  /** A residue modulo m*n refines one modulo n, and its upper part is the residue of the quotient. */
  lemma ModModFactor(x: int, m: int, n: int)
    requires m > 0 && n > 0 && m * n > 0
    ensures (x % (m * n)) % n == x % n
    ensures (x % (m * n)) / n == (x / n) % m
  {
    var q, r := x / (m * n), x % (m * n);
    assert x == q * (m * n) + r;
    assert q * (m * n) == (q * m) * n by { MulAssoc(q, m, n); }
    ModShift(r, q * m, n);
    assert x / n == r / n + q * m;
    assert r == (r / n) * n + r % n;
    MulMonotone(m, r / n, n);
    MultipleBounds(r / n, n);
    DivModUnique(x / n, m, q, r / n);
  }

  /** Dividing twice. */
  lemma DivDiv(n: int, a: int, b: int)
    requires n >= 0 && a > 0 && b > 0
    ensures n / a / b == n / (a * b)
  {
    var q, r := n / a / b, n / a % b;
    assert n == (n / a) * a + n % a && n / a == q * b + r;
    assert (q * b + r) * a == q * (a * b) + r * a by { MulAssoc(q, b, a); }
    MulMonotone(r, b - 1, a);
    assert (b - 1) * a == a * b - a;
    DivModUnique(n, a * b, q, r * a + n % a);
  }
}
