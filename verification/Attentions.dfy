/** How much something asks of a person. */
module Attentions {
  datatype Attention = Fine | Notice | Critical

  function Rank(a: Attention): nat {
    match a case Fine => 0 case Notice => 1 case Critical => 2
  }

  function Max(a: Attention, b: Attention): Attention {
    if Rank(a) >= Rank(b) then a else b
  }
}
