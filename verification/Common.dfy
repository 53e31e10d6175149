/** Vocabulary shared by every component: bytes, the optional value, and offsets. */
module Common {
  type byte = x: int | 0 <= x < 256

  datatype Option<+T> = None | Some(value: T)

  function Min(a: int, b: int): int { if a <= b then a else b }

  function Max(a: int, b: int): int { if a >= b then a else b }

  /**
   k * n by repeated addition. Specifications write the offsets of slots and rows with it,
   which keeps products of variables out of the proofs that only move along one slot or row;
   code computes the product (`Product`).
   */
  ghost function Times(k: nat, n: nat): nat { if k == 0 then 0 else Times(k - 1, n) + n }

  lemma {:induction false} TimesIsProduct(k: nat, n: nat)
    ensures Times(k, n) == k * n
  {
    if k == 0 {
    } else {
      TimesIsProduct(k - 1, n);
      assert (k - 1) * n + n == k * n;
    }
  }

  method Product(k: nat, n: nat) returns (p: nat)
    ensures p == Times(k, n)
  {
    TimesIsProduct(k, n);
    p := k * n;
  }

  /** Different multiples are at least n apart, in order. */
  lemma {:induction false} TimesApart(a: nat, b: nat, n: nat)
    requires a < b
    ensures Times(a, n) + n <= Times(b, n)
    decreases b
  {
    if a == b - 1 {
    } else {
      TimesApart(a, b - 1, n);
    }
  }
}
