/** Identities and the integer helpers the contracts use on ledger values. */
module Common {

  /** An account or contract identity; its internals are opaque to the contracts. */
  datatype Address = Address(id: nat)

  /** An asset ticker or other short name. */
  type Symbol = string

  /** Unsigned subtraction that stops at zero (`saturating_sub`). */
  function SatSub(a: nat, b: nat): (d: nat)
    ensures d <= a
    ensures b <= a ==> d + b == a
    ensures a <= b ==> d == 0
  {
    if a >= b then a - b else 0
  }

  /** Absolute difference of two unsigned values. */
  function AbsDiff(a: nat, b: nat): nat {
    if a > b then a - b else b - a
  }

  function Min(a: int, b: int): int {
    if a <= b then a else b
  }

  function Max(a: int, b: int): int {
    if a >= b then a else b
  }

  /** Signed division that rounds toward zero, as Rust's `/` on signed integers. */
  function TruncDiv(a: int, b: int): int
    requires b > 0
  {
    if a >= 0 then a / b else -((-a) / b)
  }
}
