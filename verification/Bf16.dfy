/** BF16 words, by their bits. */
module Bf16 {
  /** Neither infinite nor NaN: the exponent is not all ones. */
  predicate FiniteBf16(word: bv16) {
    word & 0x7F80 != 0x7F80
  }
}
