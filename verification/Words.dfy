/** Machine words and addresses used by the contracts. */
module Words {
  const MAX_UINT32: nat := 0xffff_ffff
  const MAX_UINT64: nat := 0xffff_ffff_ffff_ffff
  const MAX_UINT128: nat := 0xffff_ffff_ffff_ffff_ffff_ffff_ffff_ffff
  const MAX_UINT256: nat := 0xffff_ffff_ffff_ffff_ffff_ffff_ffff_ffff_ffff_ffff_ffff_ffff_ffff_ffff_ffff_ffff

  type byte = x: int | 0 <= x < 256
  type uint32 = x: int | 0 <= x <= MAX_UINT32
  type uint64 = x: int | 0 <= x <= MAX_UINT64
  type uint128 = x: int | 0 <= x <= MAX_UINT128
  type uint256 = x: int | 0 <= x <= MAX_UINT256

  type Address = nat
}
