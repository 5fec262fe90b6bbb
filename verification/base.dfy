/** Machine integers, failure-carrying results and single-bit arithmetic shared
    by the pattern codec. Rust's `u8` and `u16` become subset types of `int`;
    every place where the source could overflow states its no-overflow
    condition explicitly. */
module Base {

  /** Rust `u8`. */
  type u8 = x: int | 0 <= x < 0x100

  /** Rust `u16`. */
  type u16 = x: int | 0 <= x < 0x1_0000

  datatype Option<T> = None | Some(value: T)

  /** Rust `Result<T, E>`. */
  datatype Result<T, E> = Ok(value: T) | Err(error: E)

  /** `b as u8`, and `b as usize` where a flag indexes its table: 1 for a
      set flag, 0 otherwise. */
  function FlagValue(b: bool): (r: u8)
    ensures r <= 1 && (r == 1 <==> b)
  {
    if b then 1 else 0
  }

  /** `1 << k` */
  function Pow2(k: nat): (r: nat)
    ensures r >= 1
  {
    if k == 0 then 1 else 2 * Pow2(k - 1)
  }

  /** Bit `k` of `x`, i.e. `(x & (1 << k)) >> k`. */
  function Bit(x: nat, k: nat): (b: nat)
    ensures b <= 1
    ensures k == 0 ==> b == x % 2
  {
    if k == 0 then x % 2 else Bit(x / 2, k - 1)
  }

  lemma Pow2Sixteen()
    ensures Pow2(4) == 16 && Pow2(8) == 256 && Pow2(12) == 4096 && Pow2(16) == 0x1_0000
  {
  }

  lemma {:induction false} Pow2Monotone(a: nat, b: nat)
    requires a <= b
    ensures Pow2(a) <= Pow2(b)
    decreases b
  {
    if a < b {
      Pow2Monotone(a, b - 1);
    }
  }

  /** Adding an even number halves cleanly. */
  lemma HalveEvenSum(a: nat, m: nat)
    ensures (a + 2 * m) / 2 == a / 2 + m && (a + 2 * m) % 2 == a % 2
  {
  }

  /** Adding a multiple of `2^k` leaves the bits below `k` alone. */
  lemma {:induction false} BitBelowUnaffected(a: nat, c: nat, k: nat, n: nat)
    requires n < k
    ensures Bit(a + c * Pow2(k), n) == Bit(a, n)
  {
    var m := c * Pow2(k - 1);
    var x := a + c * Pow2(k);
    assert x == a + 2 * m;
    HalveEvenSum(a, m);
    if n > 0 {
      assert Bit(x, n) == Bit(a / 2 + m, n - 1);
      BitBelowUnaffected(a / 2, c, k - 1, n - 1);
    }
  }

  /** Below `2^k`, bit `k` of `a + c * 2^k` is `c`. */
  lemma {:induction false} BitAtTop(a: nat, c: nat, k: nat)
    requires a < Pow2(k) && c <= 1
    ensures Bit(a + c * Pow2(k), k) == c
  {
    if k == 0 {
      assert a == 0 && Pow2(k) == 1;
      assert a + c * Pow2(k) == c;
    } else {
      var m := c * Pow2(k - 1);
      var x := a + c * Pow2(k);
      assert x == a + 2 * m;
      HalveEvenSum(a, m);
      assert Bit(x, k) == Bit(a / 2 + m, k - 1);
      BitAtTop(a / 2, c, k - 1);
      assert Bit(x, k) == c;
    }
  }

  /** A two-bit code is its low bit plus twice its high bit. */
  lemma TwoBitCode(c: nat)
    requires c <= 3
    ensures c == Bit(c, 0) + 2 * Bit(c, 1)
    ensures Bit(c, 0) + 2 * Bit(c, 1) <= 3
  {
    assert Bit(c, 1) == Bit(c / 2, 0);
  }

  /** Bit 3 of a value: the value divided by eight, taken modulo two. */
  lemma BitThree(x: nat)
    ensures Bit(x, 3) == (x / 8) % 2
  {
    assert Bit(x, 3) == Bit(x / 2, 2) == Bit(x / 2 / 2, 1) == Bit(x / 2 / 2 / 2, 0);
    assert x / 2 / 2 / 2 == x / 8;
  }
}
