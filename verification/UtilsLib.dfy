/** uint256-level helpers. `iszero`, `lt` and `gt` yield the words 0 and 1. */
module UtilsLib {
  import opened Wrappers
  import opened Words
  import opened MathLib

  const TWO_256: nat := MAX_UINT256 + 1

  function Flag(b: bool): uint256 {
    if b then 1 else 0
  }

  /** EVM `mul` and `sub` wrap around. */
  function WrappingMul(x: uint256, y: uint256): uint256 {
    x * y % TWO_256
  }

  function WrappingSub(x: uint256, y: uint256): uint256 {
    (x - y) % TWO_256
  }

  /** Exclusive or, bit by bit. */
  function Xor(x: nat, y: nat): nat {
    if x == 0 && y == 0 then 0
    else 2 * Xor(x / 2, y / 2) + (if x % 2 == y % 2 then 0 else 1)
  }

  lemma {:induction false} XorCancels(x: nat, y: nat)
    ensures Xor(x, 0) == x
    ensures Xor(x, Xor(x, y)) == y
  {
    if x != 0 || y != 0 {
      XorCancels(x / 2, y / 2);
      assert Xor(x, y) / 2 == Xor(x / 2, y / 2);
    }
  }

  function ExactlyOneZero(x: uint256, y: uint256): (z: bool)
    ensures z <==> (x == 0) != (y == 0)
  {
    Xor(Flag(x == 0), Flag(y == 0)) == 1
  }

  /** The product has a factor 0 or 1, so it does not wrap. */
  function Min(x: uint256, y: uint256): (z: uint256)
    ensures z == if y < x then y else x
  {
    XorCancels(x, y);
    Xor(x, Xor(x, y) * Flag(y < x))
  }

  function ZeroFloorSub(x: uint256, y: uint256): (z: uint256)
    ensures z == if x > y then x - y else 0
  {
    WrappingMul(Flag(x > y), WrappingSub(x, y))
  }

  function ToUint128(x: uint256): Result<uint128, Error> {
    if x <= MAX_UINT128 then Success(x) else Failure(MaxUint128Exceeded)
  }
}
