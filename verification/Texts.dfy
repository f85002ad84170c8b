/** Text as the original's strings hold it: UTF-16 code units, paired surrogates or not. */
module Texts {

  newtype CodeUnit = x: int | 0 <= x < 0x10000

  type Text = seq<CodeUnit>
}
