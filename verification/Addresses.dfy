/** Tron addresses as bytes: the prefix 0x41 and twenty more (pkg/tronutils/base58.go). */
module Addresses {
  import opened Numerals

  type Address = seq<Byte>

  const ADDRESS_LENGTH := 21
  const TRON_PREFIX := 0x41

  predicate IsTronAddress(a: Address) {
    |a| == ADDRESS_LENGTH && a[0] == TRON_PREFIX
  }
}
