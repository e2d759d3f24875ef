/**
 * `Utils::CalcAlignment<T, Alignment>` (source/utility/Utils.hpp): a second
 * copy of the rounding helper whose template parameters come in the other
 * order (the value type first, the alignment second, defaulting to 4).
 */
module Utils {
  import Utility

  function CalcAlignment(x: nat, alignment: nat := 4): (r: nat)
    requires Utility.IsPowerOfTwo(alignment) && alignment < Utility.Word && x < Utility.Word
    ensures r == Utility.CalcAlignment(x, alignment)
    ensures r % alignment == 0
    ensures Utility.NoOverflow(x, alignment) ==> x <= r < x + alignment
  {
    Utility.ClearLowBits((x + alignment - 1) % Utility.Word, alignment)
  }

  /** The copy is idempotent on its own output. */
  lemma CalcAlignmentIdempotent(x: nat, a: nat)
    requires Utility.IsPowerOfTwo(a) && a < Utility.Word && x < Utility.Word
    ensures CalcAlignment(CalcAlignment(x, a), a) == CalcAlignment(x, a)
  {
  }
}
