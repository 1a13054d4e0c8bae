/** Small shared vocabulary: optional values, results and fixed-width integers. */
module Basics {

  datatype Option<+T> = None | Some(value: T)

  datatype Result<+T, +E> = Ok(value: T) | Err(error: E)

  /** The exceptions that some code distinguishes, and all others. */
  datatype Exn = ConcurrencyException | OperationCanceledException | OtherException(code: int)

  const TWO_31: int := 0x8000_0000
  const TWO_32: int := 0x1_0000_0000
  const TWO_63: int := 0x8000_0000_0000_0000
  const TWO_64: int := 0x1_0000_0000_0000_0000

  /** Two's complement truncation of a mathematical integer to a 32-bit `int`. */
  function Wrap32(x: int): (r: int)
    ensures -TWO_31 <= r < TWO_31
    ensures -TWO_31 <= x < TWO_31 ==> r == x
  {
    (x + TWO_31) % TWO_32 - TWO_31
  }

  /** Two's complement truncation of a mathematical integer to a 64-bit `long`. */
  function Wrap64(x: int): (r: int)
    ensures -TWO_63 <= r < TWO_63
    ensures -TWO_63 <= x < TWO_63 ==> r == x
  {
    (x + TWO_63) % TWO_64 - TWO_63
  }

  lemma ModIdempotent(x: int, d: int, m: int)
    requires m > 0
    ensures (x % m + d) % m == (x + d) % m
  {
    var q, p := x / m, (x % m + d) / m;
    assert x + d == m * (q + p) + (x % m + d) % m by {
      assert x == m * q + x % m;
      assert x % m + d == m * p + (x % m + d) % m;
    }
    QuotientUnique(x + d, q + p, (x % m + d) % m, m);
  }

  lemma MultipleAtLeast(m: int, k: int)
    requires m > 0 && k >= 1
    ensures m * k >= m
  {
  }

  lemma QuotientUnique(x: int, q: int, r: int, m: int)
    requires m > 0 && 0 <= r < m && x == m * q + r
    ensures x % m == r
  {
    var k := q - x / m;
    assert m * k == x % m - r;
    if k >= 1 {
      MultipleAtLeast(m, k);
    } else if k <= -1 {
      MultipleAtLeast(m, -k);
    }
  }

  /** Adding to an already truncated value truncates like adding to the exact one. */
  lemma Wrap64Add(x: int, d: int)
    ensures Wrap64(Wrap64(x) + d) == Wrap64(x + d)
  {
    ModIdempotent(x + TWO_63, d, TWO_64);
  }
}
