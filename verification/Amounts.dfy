/** The smaller and the larger of two amounts. */
module Amounts {
  function Lesser(a: nat, b: nat): nat { if a <= b then a else b }

  function Greater(a: nat, b: nat): nat { if a < b then b else a }
}
