/**
 * The pipeline-state objects `Pipeline::OnInit` creates ahead of rendering
 * (source/app/Pipeline.cpp), the G-buffer pass that later binds them, and
 * the window-size clamp of `Pipeline::OnResize`.
 *
 * The pass begins with a non-final update of the render-target field to
 * `RENDER_GBUFFER`; every mesh then merges its material's cull and winding
 * bits and commits its shader combination. A graphics object is only built
 * by `CreatePipelineStateObject`, so a committed descriptor that was never
 * pre-created binds the null entry `operator[]` inserts.
 */
module PipelineSetup {
  import opened Results
  import opened PipelineFlags
  import opened PipelineDecode
  import opened PsoCache
  import Materials
  import Meshes

  /** The shader combinations the G-buffer loop pre-creates. */
  const LayoutFlags: seq<Flag> := [ShaderComb0, ShaderComb1]

  /** The material descriptors the G-buffer loop pre-creates: no culling, and back-face culling, both counter-clockwise. */
  const MaterialFlagsAsWritten: seq<Flag> := [CullModeNone + FrontCounterClockwise, CullModeBack + FrontCounterClockwise]

  /**
   * The material descriptors pre-created in the corrected set: those above
   * and the front-face culling descriptor that single-sided materials use.
   */
  const MaterialFlags: seq<Flag> := [CullModeNone + FrontCounterClockwise, CullModeFront + FrontCounterClockwise, CullModeBack + FrontCounterClockwise]

  /** The descriptor of the full-screen composite pass: combination 2, back-face culling, clockwise fronts. */
  const CompositeFlag: Flag := ShaderComb2 + CullModeBack + FrontClockwise

  /** `RENDER_GBUFFER | layout | material`, materials varying fastest, as the nested loop creates them. */
  function GBufferFlags(k: FlagConstants, materials: seq<Flag>): (r: seq<Flag>)
    ensures |r| == |LayoutFlags| * |materials|
    ensures forall j :: 0 <= j < |materials| ==>
      r[j] == k.renderGBuffer + ShaderComb0 + materials[j] &&
      r[|materials| + j] == k.renderGBuffer + ShaderComb1 + materials[j]
  {
    seq(|materials|, j requires 0 <= j < |materials| => k.renderGBuffer + ShaderComb0 + materials[j]) +
    seq(|materials|, j requires 0 <= j < |materials| => k.renderGBuffer + ShaderComb1 + materials[j])
  }

  /** `RENDER_COMPUTE_SHADER | DENOISE_x` for the nine variants, in creation order. */
  function ComputeFlags(k: FlagConstants): (r: seq<Flag>)
    requires k.Valid()
    ensures |r| == 9
    ensures forall i :: 0 <= i < 9 ==> IsCompute(k, r[i]) && Decode(k, r[i]) == ComputePso(Some(i))
  {
    var r := seq(9, i requires 0 <= i < 9 => EncodeCompute(k, i));
    assert forall i :: 0 <= i < 9 ==> IsCompute(k, r[i]) && Decode(k, r[i]) == ComputePso(Some(i)) by {
      forall i | 0 <= i < 9 ensures IsCompute(k, r[i]) && Decode(k, r[i]) == ComputePso(Some(i)) {
        DecodeEncodeCompute(k, i);
      }
    }
    r
  }

  /** Every descriptor created at start-up, in creation order, for a given list of material descriptors. */
  function PreCreatedFlags(k: FlagConstants, materials: seq<Flag>): (r: seq<Flag>)
    requires k.Valid()
    ensures |r| == 2 * |materials| + 10
    ensures forall f :: f in r <==>
      (f in GBufferFlags(k, materials) || f == CompositeFlag || f in ComputeFlags(k))
  {
    GBufferFlags(k, materials) + [CompositeFlag] + ComputeFlags(k)
  }

  /** Every entry in the map is the object its key decodes to; no null entries. */
  ghost predicate Faithful(k: FlagConstants, m: Cache) {
    forall f :: f in m.psos ==> m.psos[f] == Some(Decode(k, f))
  }

  /**
   * `CreatePipelineStateObject` for each descriptor of `flags` in turn; the
   * first creation that throws ends the sequence.
   */
  function CreateAll(k: FlagConstants, m: Cache, flags: seq<Flag>): (r: Result<Cache, Cache>)
    ensures r.Ok? <==> forall i :: 0 <= i < |flags| ==> !CreateThrows(k, flags[i])
    ensures r.Ok? ==> r.value.current == m.current && r.value.cached == m.cached && r.value.bound == m.bound
    ensures r.Ok? ==> forall f :: f in r.value.psos <==> f in m.psos || f in flags
    ensures r.Ok? && Faithful(k, m) ==> Faithful(k, r.value)
    ensures r.Ok? && Valid(k, m) ==> Valid(k, r.value)
    decreases |flags|
  {
    if flags == [] then Ok(m)
    else
      match CreatePipelineStateObject(k, m, flags[0])
      case Err(left) => Err(left)
      case Ok(next) =>
        var r := CreateAll(k, next, flags[1..]);
        assert forall i :: 1 <= i < |flags| ==> flags[i] == flags[1..][i - 1];
        r
  }

  /** No descriptor created at start-up throws: every one is a graphics descriptor or a known compute variant. */
  lemma PreCreatedNeverThrow(k: FlagConstants, materials: seq<Flag>)
    requires k.Valid()
    requires forall j :: 0 <= j < |materials| ==> Within(materials[j], MaterialMask)
    ensures forall i :: 0 <= i < |PreCreatedFlags(k, materials)| ==> !CreateThrows(k, PreCreatedFlags(k, materials)[i])
  {
    var r := PreCreatedFlags(k, materials);
    var g := GBufferFlags(k, materials);
    ComputeShaderBit(k);
    MasksDisjoint();
    forall i | 0 <= i < |r| ensures !CreateThrows(k, r[i]) {
      if i < |g| {
        assert Within(r[i], RenderTargetMask + ShaderCombMask + MaterialMask);
        assert 15 !in r[i];
      } else if i == |g| {
        assert 15 !in CompositeFlag;
      } else {
        assert r[i] == ComputeFlags(k)[i - |g| - 1];
      }
    }
  }

  /**
   * The cache after start-up: a new manager, then every pre-created
   * descriptor; the creation succeeds.
   */
  function PreCreate(k: FlagConstants, materials: seq<Flag>): (r: Cache)
    requires k.Valid()
    requires forall j :: 0 <= j < |materials| ==> Within(materials[j], MaterialMask)
    ensures CreateAll(k, NewCache(), PreCreatedFlags(k, materials)) == Ok(r)
    ensures Valid(k, r) && Faithful(k, r)
    ensures forall f :: f in r.psos <==> f in PreCreatedFlags(k, materials)
    ensures r.current == InitialFlag && r.cached == InitialFlag && r.bound == []
  {
    NewCacheValid(k);
    PreCreatedNeverThrow(k, materials);
    CreateAll(k, NewCache(), PreCreatedFlags(k, materials)).value
  }

  /** The start of the G-buffer pass: the render-target field becomes `RENDER_GBUFFER`, nothing is bound. */
  function BeginGBufferPass(k: FlagConstants, m: Cache): (r: Cache)
    ensures r.current * RenderTargetMask == k.renderGBuffer * RenderTargetMask
    ensures r.current - RenderTargetMask == (m.current + k.renderGBuffer) - RenderTargetMask
    ensures r.bound == m.bound && r.cached == m.cached && r.psos == m.psos
  {
    SetPipelineStateFlag(k, m, k.renderGBuffer, RenderTargetMask, false)
  }

  /** The descriptor a G-buffer draw commits: the pass, material and mesh fields and nothing else. */
  function DrawFlag(k: FlagConstants, mesh: Meshes.Mesh): Flag {
    k.renderGBuffer + mesh.material.flag + mesh.flag
  }

  /**
   * Starting from a descriptor that uses only the graphics fields (the
   * initial one, or the composite pass of the previous frame), a mesh drawn
   * in the G-buffer pass commits exactly `RENDER_GBUFFER | material | mesh`.
   */
  lemma GBufferDrawCommits(k: FlagConstants, m: Cache, mesh: Meshes.Mesh)
    requires k.Valid()
    requires Within(m.current, ShaderCombMask + MaterialMask + RenderTargetMask)
    requires Within(mesh.material.flag, MaterialMask) && Within(mesh.flag, ShaderCombMask)
    ensures Meshes.OnRender(k, BeginGBufferPass(k, m), mesh).0.current == DrawFlag(k, mesh)
    ensures !IsCompute(k, DrawFlag(k, mesh))
  {
    var c := BeginGBufferPass(k, m);
    Meshes.DrawCommitsMaterialAndMesh(k, c, mesh);
    MasksDisjoint();
    assert c.current == (m.current - RenderTargetMask) + k.renderGBuffer;
    assert k.renderGBuffer * (MaterialMask + ShaderCombMask) == {};
    ComputeShaderBit(k);
  }

  /** The descriptor a single-sided material produces is `CULL_MODE_FRONT | FRONT_COUNTER_CLOCKWISE`. */
  lemma SingleSidedFlag(matAddress: nat, texHandle: nat)
    ensures Materials.NewMaterial(matAddress, texHandle, false).flag == CullModeFront + FrontCounterClockwise
  {
    var flag := Materials.NewMaterial(matAddress, texHandle, false).flag;
    assert flag == flag * CullModeMask + flag * WindingMask;
  }

  /** As written, no pre-created descriptor is the one a single-sided material's draw commits. */
  lemma SingleSidedFlagMissing(k: FlagConstants, mesh: Meshes.Mesh)
    requires k.Valid()
    requires mesh.flag in LayoutFlags
    requires mesh.material.flag == CullModeFront + FrontCounterClockwise
    ensures DrawFlag(k, mesh) !in PreCreatedFlags(k, MaterialFlagsAsWritten)
  {
    var f := DrawFlag(k, mesh);
    var g := GBufferFlags(k, MaterialFlagsAsWritten);
    assert f * MaterialMask == {3, 5} by { MasksDisjoint(); }
    assert f !in g by {
      forall j | 0 <= j < |g| ensures g[j] != f {
        assert g[j] * MaterialMask != {3, 5};
      }
    }
    ComputeShaderBit(k);
    assert 15 !in f;
    assert f !in ComputeFlags(k) by {
      forall i | 0 <= i < 9 ensures ComputeFlags(k)[i] != f {
        assert IsCompute(k, ComputeFlags(k)[i]);
      }
    }
    var x :| x in k.renderGBuffer;
    assert x in f && x !in CompositeFlag;
  }

  /**
   * As written, the first G-buffer draw of a mesh with a single-sided
   * material binds a null pipeline state.
   */
  lemma SingleSidedDrawBindsNull(k: FlagConstants, mesh: Meshes.Mesh)
    requires k.Valid()
    requires mesh.flag in LayoutFlags
    requires mesh.material.flag == CullModeFront + FrontCounterClockwise
    ensures Meshes.OnRender(k, BeginGBufferPass(k, PreCreate(k, MaterialFlagsAsWritten)), mesh).0.bound
         == [Binding(DrawFlag(k, mesh), None)]
  {
    var m := PreCreate(k, MaterialFlagsAsWritten);
    var f := DrawFlag(k, mesh);
    SingleSidedFlagMissing(k, mesh);
    GBufferDrawCommits(k, m, mesh);
    Meshes.DrawCommitsMaterialAndMesh(k, BeginGBufferPass(k, m), mesh);
    var x :| x in k.renderGBuffer;
    assert x in f;
  }

  /** Every descriptor a G-buffer draw of a loaded mesh can commit is in the corrected set. */
  lemma EveryDrawFlagPreCreated(k: FlagConstants, mesh: Meshes.Mesh)
    requires k.Valid()
    requires mesh.flag in LayoutFlags && mesh.material.flag in MaterialFlags
    ensures DrawFlag(k, mesh) in PreCreatedFlags(k, MaterialFlags)
  {
    var g := GBufferFlags(k, MaterialFlags);
    var j :| 0 <= j < 3 && MaterialFlags[j] == mesh.material.flag;
    if mesh.flag == ShaderComb0 {
      assert g[j] == DrawFlag(k, mesh);
    } else {
      assert g[3 + j] == DrawFlag(k, mesh);
    }
  }

  /**
   * With the corrected set, a G-buffer draw from any faithful cache that
   * holds the pre-created objects binds the object its descriptor decodes
   * to, whenever it binds at all.
   */
  lemma GBufferDrawBindsCreatedState(k: FlagConstants, m: Cache, mesh: Meshes.Mesh)
    requires k.Valid() && Valid(k, m) && Faithful(k, m)
    requires forall f :: f in PreCreatedFlags(k, MaterialFlags) ==> f in m.psos
    requires Within(m.current, ShaderCombMask + MaterialMask + RenderTargetMask)
    requires mesh.flag in LayoutFlags && mesh.material.flag in MaterialFlags
    ensures var r := Meshes.OnRender(k, BeginGBufferPass(k, m), mesh).0;
      r.current == DrawFlag(k, mesh) &&
      (DrawFlag(k, mesh) != m.cached ==> r.bound == m.bound + [Binding(DrawFlag(k, mesh), Some(Decode(k, DrawFlag(k, mesh))))])
  {
    GBufferDrawCommits(k, m, mesh);
    EveryDrawFlagPreCreated(k, mesh);
    Meshes.DrawCommitsMaterialAndMesh(k, BeginGBufferPass(k, m), mesh);
  }

  /** Every material a model loads uses a descriptor of the corrected set. */
  lemma MaterialsArePreCreated(matAddress: nat, texHandle: nat, isDoubleSide: bool)
    ensures Materials.NewMaterial(matAddress, texHandle, isDoubleSide).flag in MaterialFlags
    ensures isDoubleSide ==> Materials.NewMaterial(matAddress, texHandle, isDoubleSide).flag in MaterialFlagsAsWritten
  {
    var flag := Materials.NewMaterial(matAddress, texHandle, isDoubleSide).flag;
    assert flag == flag * CullModeMask + flag * WindingMask;
  }

  /** The corrected set keeps every descriptor the original one creates. */
  lemma CorrectedSetExtendsOriginal(k: FlagConstants)
    requires k.Valid()
    ensures forall f :: f in PreCreatedFlags(k, MaterialFlagsAsWritten) ==> f in PreCreatedFlags(k, MaterialFlags)
  {
    var g, h := GBufferFlags(k, MaterialFlagsAsWritten), GBufferFlags(k, MaterialFlags);
    assert g[0] == h[0] && g[1] == h[2] && g[2] == h[3] && g[3] == h[5];
  }

  // ---------------------------------------------------------------------
  // OnResize
  // ---------------------------------------------------------------------

  /** `max(1, extent)` on the 16-bit window extent. */
  function ClampExtent(extent: nat): (r: nat)
    requires extent < 0x1_0000
    ensures r < 0x1_0000
    ensures r >= 1 && r >= extent
    ensures r == 1 || r == extent
  {
    if extent < 1 then 1 else extent
  }

  /** Clamping an already clamped extent changes nothing, and a positive extent is kept. */
  lemma ClampExtentIdempotent(extent: nat)
    requires extent < 0x1_0000
    ensures ClampExtent(ClampExtent(extent)) == ClampExtent(extent)
    ensures extent > 0 ==> ClampExtent(extent) == extent
  {
  }
}
