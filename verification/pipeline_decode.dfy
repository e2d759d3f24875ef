/**
 * Decoding a pipeline-state descriptor into the pipeline state that
 * `CreatePipelineStateObject` (source/core/render/dx12/GraphicsManager.cpp)
 * builds for it, and the encoding that is its partner.
 *
 * The G-buffer render-target value and the compute constants that the
 * decoder tests are not defined in DxUtility.hpp. They are the parameters
 * `FlagConstants`, constrained only by the masks the decoder applies to
 * them and by being distinct `case` labels of one `switch`.
 */
module PipelineDecode {
  import opened Results
  import opened PipelineFlags
  import VertexLayouts
  import opened DxgiFormats

  datatype FlagConstants = FlagConstants(
    renderGBuffer: Flag,
    renderComputeShader: Flag,
    denoise0: Flag, denoise1: Flag, denoise2: Flag, denoise4: Flag, denoise8: Flag,
    denoise16: Flag, denoiseRP: Flag, denoiseReadback: Flag, denoiseVariance: Flag)
  {
    /** The compute variants in `switch` order, which is also compute-shader order. */
    function Variants(): (r: seq<Flag>)
      ensures |r| == 9
    {
      [denoise0, denoise1, denoise2, denoise4, denoise8, denoise16, denoiseRP, denoiseReadback, denoiseVariance]
    }

    predicate Valid() {
      && renderGBuffer != {} && Within(renderGBuffer, RenderTargetMask)
      && renderComputeShader != {} && Within(renderComputeShader, ComputePassMask)
      && renderComputeShader * ComputeVariantMask == {}
      && (forall i :: 0 <= i < |Variants()| ==> Within(Variants()[i], ComputeVariantMask))
      && (forall i, j :: 0 <= i < j < |Variants()| ==> Variants()[i] != Variants()[j])
    }
  }

  /** One admissible choice: G-buffer 0x1000, compute 0x8000, variants 0x0 to 0x8. */
  const SampleConstants := FlagConstants({12}, {15}, {}, {0}, {1}, {0, 1}, {2}, {0, 2}, {1, 2}, {0, 1, 2}, {3})

  lemma SampleConstantsValid()
    ensures SampleConstants.Valid()
  {
    var v := SampleConstants.Variants();
    assert forall i, j :: 0 <= i < j < 9 ==> v[i] != v[j] by {
      forall i, j | 0 <= i < j < 9 ensures v[i] != v[j] {
        assert 0 in v[1] && 1 in v[2] && 1 in v[3] && 0 in v[3];
        assert 2 in v[4] && 2 in v[5] && 2 in v[6] && 2 in v[7] && 3 in v[8];
      }
    }
  }

  datatype CullMode = CullNone | CullFront | CullBack

  /** Render-target formats, depth-stencil format, and whether depth is written and tested normally. */
  datatype TargetLayout = TargetLayout(renderTargets: seq<Format>, depthFormat: Format, depthWrite: bool)

  /** Five G-buffer targets over a depth-stencil buffer with the default depth state. */
  const GBufferTargets := TargetLayout([RGBA32Float, RGBA32Float, RGBA32Float, RGBA32Float, R32Uint], D24UnormS8Uint, true)

  /** One back-buffer target; depth writes off and the depth test always passing. */
  const BackBufferTargets := TargetLayout([RGBA8Unorm], UnknownFormat, false)

  /** A created pipeline state; shaders are indices into the manager's shader lists. */
  datatype PsoDesc =
    | ComputePso(computeShader: Option<nat>)
    | GraphicsPso(targets: TargetLayout, vertexShader: Option<nat>, pixelShader: Option<nat>,
                  inputLayout: Option<VertexLayouts.VertexFormat>, cull: CullMode, frontCounterClockwise: bool)

  predicate IsCompute(c: FlagConstants, flag: Flag) {
    flag * c.renderComputeShader != {}
  }

  /** Position of `v` in `vs`, as a chain of `case` labels selects it. */
  function IndexOf(vs: seq<Flag>, v: Flag): (r: Option<nat>)
    ensures r.Some? ==> r.value < |vs| && vs[r.value] == v && v !in vs[..r.value]
    ensures r.None? <==> v !in vs
  {
    if |vs| == 0 then None
    else if vs[0] == v then Some(0)
    else match IndexOf(vs[1..], v)
      case None => None
      case Some(k) => Some(k + 1)
  }

  /** Shader combinations 0, 1, 2 use vertex and pixel shader 0, 1, 2; combination 3 has none. */
  function ShaderOf(comb: Flag): (r: Option<nat>)
    ensures r.Some? ==> r.value < 3
  {
    if comb == ShaderComb0 then Some(0)
    else if comb == ShaderComb1 then Some(1)
    else if comb == ShaderComb2 then Some(2)
    else None
  }

  /** Combination 0 reads `Vertex0`, combination 1 reads `Vertex1`; the others have no input layout. */
  function LayoutOf(comb: Flag): Option<VertexLayouts.VertexFormat> {
    if comb == ShaderComb0 then Some(VertexLayouts.Vertex0)
    else if comb == ShaderComb1 then Some(VertexLayouts.Vertex1)
    else None
  }

  function CullOf(flag: Flag): CullMode {
    var cull := flag * CullModeMask;
    if cull == CullModeFront then CullFront
    else if cull == CullModeBack then CullBack
    else CullNone
  }

  /** The pipeline state `CreatePipelineStateObject` builds for `flag`. */
  function Decode(c: FlagConstants, flag: Flag): PsoDesc {
    if IsCompute(c, flag) then
      ComputePso(IndexOf(c.Variants(), flag * ComputeVariantMask))
    else
      var comb := flag * ShaderCombMask;
      GraphicsPso(
        if flag * RenderTargetMask == c.renderGBuffer then GBufferTargets else BackBufferTargets,
        ShaderOf(comb), ShaderOf(comb), LayoutOf(comb),
        CullOf(flag),
        flag * WindingMask != {})
  }

  // ---------------------------------------------------------------------
  // Encoding: the partner of Decode
  // ---------------------------------------------------------------------

  /** A graphics configuration: G-buffer targets or not, shader combination 0 to 3, cull mode, winding. */
  datatype GraphicsConfig = GraphicsConfig(gbuffer: bool, comb: nat, cull: CullMode, counterClockwise: bool)
  {
    predicate Valid() { comb < 4 }
  }

  function CombBits(comb: nat): (r: Flag)
    requires comb < 4
    ensures Within(r, ShaderCombMask)
  {
    [ShaderComb0, ShaderComb1, ShaderComb2, ShaderComb3][comb]
  }

  function CullBits(cull: CullMode): (r: Flag)
    ensures Within(r, CullModeMask)
  {
    match cull
    case CullNone => CullModeNone
    case CullFront => CullModeFront
    case CullBack => CullModeBack
  }

  function WindingBits(counterClockwise: bool): (r: Flag)
    ensures Within(r, WindingMask)
  {
    if counterClockwise then FrontCounterClockwise else FrontClockwise
  }

  /** The descriptor a draw with configuration `g` commits. */
  function EncodeGraphics(c: FlagConstants, g: GraphicsConfig): (r: Flag)
    requires c.Valid() && g.Valid()
    ensures Within(r, ShaderCombMask + MaterialMask + RenderTargetMask)
  {
    (if g.gbuffer then c.renderGBuffer else {}) + CombBits(g.comb) + CullBits(g.cull) + WindingBits(g.counterClockwise)
  }

  /** `RENDER_COMPUTE_SHADER | variant`. */
  function EncodeCompute(c: FlagConstants, variant: nat): (r: Flag)
    requires c.Valid() && variant < 9
    ensures Within(r, ComputePassMask)
  {
    c.renderComputeShader + c.Variants()[variant]
  }

  /** Round trip: every field of a graphics configuration is recovered from its descriptor. */
  lemma DecodeEncodeGraphics(c: FlagConstants, g: GraphicsConfig)
    requires c.Valid() && g.Valid()
    ensures !IsCompute(c, EncodeGraphics(c, g))
    ensures Decode(c, EncodeGraphics(c, g)) == GraphicsPso(
      if g.gbuffer then GBufferTargets else BackBufferTargets,
      if g.comb < 3 then Some(g.comb) else None,
      if g.comb < 3 then Some(g.comb) else None,
      if g.comb == 0 then Some(VertexLayouts.Vertex0) else if g.comb == 1 then Some(VertexLayouts.Vertex1) else None,
      g.cull, g.counterClockwise)
  {
    var f := EncodeGraphics(c, g);
    var rt: Flag := if g.gbuffer then c.renderGBuffer else {};
    assert f * c.renderComputeShader == {} by {
      ComputeShaderBit(c);
    }
    assert f * RenderTargetMask == rt;
    assert f * ShaderCombMask == CombBits(g.comb);
    assert f * CullModeMask == CullBits(g.cull);
    assert f * WindingMask == WindingBits(g.counterClockwise);
  }

  /** Distinct graphics configurations never share a descriptor. */
  lemma EncodeGraphicsInjective(c: FlagConstants, g1: GraphicsConfig, g2: GraphicsConfig)
    requires c.Valid() && g1.Valid() && g2.Valid()
    requires EncodeGraphics(c, g1) == EncodeGraphics(c, g2)
    ensures g1 == g2
  {
    DecodeEncodeGraphics(c, g1);
    DecodeEncodeGraphics(c, g2);
  }

  /** The compute marker can only be bit 15 (0x8000), the one bit of 0x800F outside the variant nibble. */
  lemma ComputeShaderBit(c: FlagConstants)
    requires c.Valid()
    ensures c.renderComputeShader == {15}
  {
    forall x | x in c.renderComputeShader
      ensures x == 15
    {
      assert x !in c.renderComputeShader * ComputeVariantMask;
    }
    var y :| y in c.renderComputeShader;
    assert y == 15;
  }

  /** A compute descriptor selects the compute shader of its variant. */
  lemma DecodeEncodeCompute(c: FlagConstants, variant: nat)
    requires c.Valid() && variant < 9
    ensures IsCompute(c, EncodeCompute(c, variant))
    ensures Decode(c, EncodeCompute(c, variant)) == ComputePso(Some(variant))
  {
    var v := c.Variants()[variant];
    assert Within(v, ComputeVariantMask);
    ComputeShaderBit(c);
    assert EncodeCompute(c, variant) == {15} + v;
    assert EncodeCompute(c, variant) * ComputeVariantMask == v;
    var x :| x in c.renderComputeShader;
    assert x in EncodeCompute(c, variant) * c.renderComputeShader;
    IndexOfDistinct(c.Variants(), variant);
  }

  lemma {:induction false} IndexOfDistinct(vs: seq<Flag>, k: nat)
    requires k < |vs|
    requires forall i, j :: 0 <= i < j < |vs| ==> vs[i] != vs[j]
    ensures IndexOf(vs, vs[k]) == Some(k)
  {
    if k > 0 {
      assert vs[0] != vs[k];
      assert vs[1..][k - 1] == vs[k];
      IndexOfDistinct(vs[1..], k - 1);
    }
  }

  /**
   * The description of a compute descriptor whose low nibble matches none of
   * the nine variants leaves the compute shader empty (the `default` branch);
   * no other descriptor yields a description without a compute shader.
   */
  lemma UnknownVariantHasNoShader(c: FlagConstants, flag: Flag)
    ensures Decode(c, flag) == ComputePso(None) <==> IsCompute(c, flag) && flag * ComputeVariantMask !in c.Variants()
  {
  }
}
