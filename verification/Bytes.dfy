/** Casting between bytes and numbers. */
module Bytes {
  lemma CastsInvert(n: int)
    requires 0 <= n < 256
    ensures (n as bv8) as int == n
  {}
}
