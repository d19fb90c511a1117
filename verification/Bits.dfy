/** Single bits of a natural number. */
module Bits {
  function Bit(a: nat, k: nat): nat { if k == 0 then a % 2 else Bit(a / 2, k - 1) }
}
