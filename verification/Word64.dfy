/** Unsigned 64-bit arithmetic, as size_t does it. */
module Word64 {
  const MODULUS: nat := 0x1_0000_0000_0000_0000
  /** The largest power of two that fits in a word. */
  const TOP_BIT: nat := 0x8000_0000_0000_0000

  type Word = x: nat | x < MODULUS

  function Add(a: Word, b: Word): Word {
    (a + b) % MODULUS
  }

  function Sub(a: Word, b: Word): Word {
    (a - b) % MODULUS
  }

  /** Bitwise conjunction, one bit at a time. */
  function And(a: nat, b: nat): nat
    decreases a
  {
    if a == 0 then 0 else (a % 2) * (b % 2) + 2 * And(a / 2, b / 2)
  }

  function Pow2(k: nat): nat {
    if k == 0 then 1 else 2 * Pow2(k - 1)
  }

  ghost predicate IsPow2(n: nat) {
    exists k: nat :: n == Pow2(k)
  }

  /** Masking with 2^k - 1 keeps the k low bits: it is the remainder modulo 2^k. */
  lemma {:induction false} AndMask(a: nat, k: nat)
    ensures Pow2(k) >= 1
    ensures And(a, Pow2(k) - 1) == a % Pow2(k)
    decreases k
  {
    if k == 0 {
      AndZero(a);
    } else {
      var p := Pow2(k - 1);
      AndMask(a / 2, k - 1);
      HalfMask(p);
      HalfRemainder(a, p);
      if a > 0 {
        calc {
          And(a, 2 * p - 1);
          (a % 2) * 1 + 2 * And(a / 2, (2 * p - 1) / 2);
          a % 2 + 2 * ((a / 2) % p);
        }
      }
    }
  }

  lemma {:induction false} AndZero(a: nat)
    ensures And(a, 0) == 0
  {
    if a > 0 { AndZero(a / 2); }
  }

  lemma HalfMask(p: nat)
    requires p >= 1
    ensures (2 * p - 1) % 2 == 1 && (2 * p - 1) / 2 == p - 1
  {
  }

  lemma HalfRemainder(a: nat, p: nat)
    requires p >= 1
    ensures a % (2 * p) == a % 2 + 2 * ((a / 2) % p)
  {
    var h := a / 2;
    var q, r := h / p, h % p;
    assert h == q * p + r;
    assert a == q * (2 * p) + (a % 2 + 2 * r);
    DivModUnique(a, 2 * p, q, a % 2 + 2 * r);
  }

  lemma DivModUnique(a: int, n: nat, q: int, r: nat)
    requires r < n && a == q * n + r
    ensures a % n == r
  {
    MultiplesApart(q - a / n, n);
  }

  lemma MultiplesApart(x: int, n: nat)
    ensures x == 0 || x * n >= n || x * n + n <= 0
  {
    if x >= 1 {
      assert (x - 1) * n >= 0;
    } else if x <= -1 {
      assert (x + 1) * n <= 0;
    }
  }

  lemma {:induction false} Pow2Positive(k: nat)
    ensures Pow2(k) >= 1
  {
    if k > 0 { Pow2Positive(k - 1); }
  }

  lemma DoubleIsPow2(n: nat)
    requires IsPow2(n)
    ensures IsPow2(2 * n) && n >= 1
  {
    var k: nat :| n == Pow2(k);
    Pow2Positive(k);
    assert Pow2(k + 1) == 2 * n;
  }
}
