/** Bytes as integers. */
module Bytes {
  lemma BackToInt(i: int)
    requires 0 <= i < 256
    ensures (i as bv8) as int == i
  {}

  lemma BackToByte(b: bv8)
    ensures 0 <= b as int < 256 && (b as int) as bv8 == b
  {}
}
