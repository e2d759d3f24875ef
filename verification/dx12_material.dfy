/**
 * `Dx12Material` (source/asset/dx12/Dx12Material.cpp): a material owns the
 * cull-mode and winding part of the pipeline-state descriptor and merges
 * it, without committing, before its mesh draws.
 */
module Materials {
  import opened PipelineFlags
  import opened PipelineDecode
  import PsoCache

  datatype Material = Material(matAddress: nat, texHandle: nat, flag: Flag)

  /** A root-parameter binding recorded on the command list. */
  datatype RootBinding =
    | RootConstantBufferView(parameter: nat, address: nat)
    | RootDescriptorTable(parameter: nat, handle: nat)

  /**
   * The constructor: a double-sided material culls nothing (0x20), a
   * single-sided one culls front faces (0x28); both treat counter-clockwise
   * triangles as front-facing.
   */
  function NewMaterial(matAddress: nat, texHandle: nat, isDoubleSide: bool): (m: Material)
    ensures Within(m.flag, MaterialMask)
    ensures m.flag * CullModeMask == (if isDoubleSide then CullModeNone else CullModeFront)
    ensures m.flag * WindingMask == FrontCounterClockwise
    ensures m.matAddress == matAddress && m.texHandle == texHandle
  {
    var cull := if isDoubleSide then CullModeNone else CullModeFront;
    Material(matAddress, texHandle, cull + FrontCounterClockwise)
  }

  /** The two material descriptors as numbers: 0x20 and 0x28. */
  lemma MaterialFlagValues()
    ensures NewMaterial(0, 0, true).flag == {5}
    ensures NewMaterial(0, 0, false).flag == {3, 5}
  {
  }

  /** Materials differ in their descriptor exactly when they differ in sidedness. */
  lemma MaterialFlagInjective(a: bool, b: bool)
    ensures NewMaterial(0, 0, a).flag == NewMaterial(0, 0, b).flag <==> a == b
  {
    if a != b {
      assert 3 in NewMaterial(0, 0, false).flag;
    }
  }

  /**
   * `OnRender`: merge the material descriptor under mask 0x38 without
   * committing, then bind the material constants (root parameter 2) and
   * textures (root parameter 3).
   */
  function OnRender(k: FlagConstants, cache: PsoCache.Cache, m: Material): (r: (PsoCache.Cache, seq<RootBinding>))
    requires Within(m.flag, MaterialMask)
    ensures r.0.current * MaterialMask == m.flag
    ensures r.0.current - MaterialMask == cache.current - MaterialMask
    ensures r.0.bound == cache.bound && r.0.cached == cache.cached && r.0.psos == cache.psos
    ensures r.1 == [RootConstantBufferView(2, m.matAddress), RootDescriptorTable(3, m.texHandle)]
  {
    PsoCache.NonFinalNeverEmits(k, cache, m.flag, MaterialMask);
    (PsoCache.SetPipelineStateFlag(k, cache, m.flag, MaterialMask, false),
     [RootConstantBufferView(2, m.matAddress), RootDescriptorTable(3, m.texHandle)])
  }
}
