/**
 * The 64-bit pipeline-state descriptor `PipelineStateFlag`
 * (source/core/render/dx12/DxUtility.hpp): its enumerated fields, the masks
 * callers apply, and the masked update `(current & ~mask) | flag` that
 * `SetPipelineStateFlag` performs.
 *
 * A descriptor is represented by the set of its 1-bit positions (bit 0 is
 * the least significant). Under this representation `a & b` is `a * b`,
 * `a | b` is `a + b`, `a & ~b` is `a - b`, and `a & m == v` compares the
 * bits of `a` inside `m` with `v`. Each constant below carries its
 * hexadecimal value in its comment.
 */
module PipelineFlags {
  type Flag = set<nat>

  /** The descriptor fits the 64-bit `uint64_t`. */
  predicate IsWord(f: Flag) {
    forall b :: b in f ==> b < 64
  }

  /** `flag` sets no bit outside `mask`. */
  predicate Within(flag: Flag, mask: Flag) {
    flag <= mask
  }

  const ShaderComb0: Flag := {}              // 0x0
  const ShaderComb1: Flag := {0}             // 0x1
  const ShaderComb2: Flag := {1}             // 0x2
  const ShaderComb3: Flag := {0, 1}          // 0x3
  const CullModeNone: Flag := {}             // 0x0
  const CullModeFront: Flag := {3}           // 0x8
  const CullModeBack: Flag := {4}            // 0x10
  const FrontClockwise: Flag := {}           // 0x0
  const FrontCounterClockwise: Flag := {5}   // 0x20
  const InitialFlag: Flag := {}              // 0x0
  const DefaultFlag: Flag := {4, 5}          // 0x30

  const ShaderCombMask: Flag := {0, 1, 2}                // 0x7
  const CullModeMask: Flag := {3, 4}                     // 0x18
  const WindingMask: Flag := {5}                         // 0x20
  const MaterialMask: Flag := {3, 4, 5}                  // 0x38
  const RenderTargetMask: Flag := {12, 13, 14}           // 0x7000
  const ComputeVariantMask: Flag := {0, 1, 2, 3}         // 0xF
  const ComputePassMask: Flag := {0, 1, 2, 3, 15}        // 0x800F
  const WholeMask: Flag := set b: nat | b < 32           // 0xFFFFFFFF

  /** The field masks are pairwise disjoint, and the material mask is cull mode plus winding. */
  lemma MasksDisjoint()
    ensures ShaderCombMask * CullModeMask == {}
    ensures ShaderCombMask * WindingMask == {}
    ensures CullModeMask * WindingMask == {}
    ensures (ShaderCombMask + MaterialMask) * RenderTargetMask == {}
    ensures (ShaderCombMask + MaterialMask + RenderTargetMask) * (ComputePassMask - ComputeVariantMask) == {}
    ensures MaterialMask == CullModeMask + WindingMask
    ensures ShaderCombMask + MaterialMask + RenderTargetMask + ComputePassMask <= WholeMask
  {
  }

  /** The enumerators lie within their fields and the default flag is back-face culling with counter-clockwise fronts. */
  lemma EnumValuesWithinFields()
    ensures Within(ShaderComb0, ShaderCombMask) && Within(ShaderComb1, ShaderCombMask)
    ensures Within(ShaderComb2, ShaderCombMask) && Within(ShaderComb3, ShaderCombMask)
    ensures Within(CullModeNone, CullModeMask) && Within(CullModeFront, CullModeMask) && Within(CullModeBack, CullModeMask)
    ensures Within(FrontClockwise, WindingMask) && Within(FrontCounterClockwise, WindingMask)
    ensures DefaultFlag == ShaderComb0 + CullModeBack + FrontCounterClockwise
  {
  }

  /** `(current & ~mask) | flag`. */
  function Merge(current: Flag, flag: Flag, mask: Flag): (r: Flag)
    ensures r * mask == flag * mask
    ensures r - mask == (current + flag) - mask
    ensures Within(flag, mask) ==> r - mask == current - mask
    ensures IsWord(current) && IsWord(flag) ==> IsWord(r)
  {
    (current - mask) + flag
  }

  /** Repeating a masked update changes nothing more. */
  lemma MergeIdempotent(current: Flag, flag: Flag, mask: Flag)
    ensures Merge(Merge(current, flag, mask), flag, mask) == Merge(current, flag, mask)
  {
  }

  /** Updates of disjoint fields commute. */
  lemma {:induction false} MergeCommutes(c: Flag, f1: Flag, m1: Flag, f2: Flag, m2: Flag)
    requires m1 * m2 == {} && Within(f1, m1) && Within(f2, m2)
    ensures Merge(Merge(c, f1, m1), f2, m2) == Merge(Merge(c, f2, m2), f1, m1)
  {
    var lhs := Merge(Merge(c, f1, m1), f2, m2);
    var rhs := Merge(Merge(c, f2, m2), f1, m1);
    assert forall b :: b in lhs <==> b in rhs by {
      forall b ensures b in lhs <==> b in rhs {
        if b in f1 { assert b !in m1 * m2; }
        if b in f2 { assert b !in m1 * m2; }
      }
    }
  }

  /** A later update of a field hides an earlier update of the same field. */
  lemma MergeOverwrites(c: Flag, f1: Flag, f2: Flag, m: Flag)
    requires Within(f1, m) && Within(f2, m)
    ensures Merge(Merge(c, f1, m), f2, m) == Merge(c, f2, m)
  {
  }

  /**
   * An update under the whole 32-bit mask replaces the descriptor, as long
   * as neither the old descriptor nor the new value uses the upper half.
   */
  lemma MergeWholeMaskReplaces(c: Flag, f: Flag)
    requires Within(c, WholeMask) && Within(f, WholeMask)
    ensures Merge(c, f, WholeMask) == f
  {
  }
}
