/**
 * `Texture2D` (source/core/render/dx12/Texture2D.hpp) over `GpuResource`
 * (source/core/render/dx12/GpuResource.hpp): a texture that remembers the
 * state it believes the GPU resource is in and emits a transition barrier
 * only when asked for a different state.
 *
 * Besides the tracked state the model keeps the state the resource is
 * actually in: the state it was created in, then the target of each
 * barrier. A barrier is correct when its before-state is the actual state.
 */
module Textures {
  import opened Results
  import opened DxgiFormats
  import Utility

  datatype ResourceState =
    | Common | RenderTarget | UnorderedAccess | PixelShaderResource
    | NonPixelShaderResource | CopyDest | CopySource | Present | DepthWrite

  /** The `D3D12_RESOURCE_FLAGS` a texture is created with; only equality with a single flag is tested. */
  datatype ResourceFlags = FlagNone | AllowRenderTarget | AllowUnorderedAccess | OtherFlags

  /** A recorded transition barrier. */
  datatype Barrier = Barrier(before: ResourceState, after: ResourceState)

  datatype Texture = Texture(
    format: Format, width: nat, height: nat,
    usageState: ResourceState,    // m_usageState: the state passed at creation
    trackedState: ResourceState,  // m_transitioningState: the state ChangeState believes in
    actualState: ResourceState)   // the state the resource is in

  /** The tracked state is the actual one. */
  predicate Consistent(t: Texture) {
    t.trackedState == t.actualState
  }

  /** The barrier takes the resource from the state it is in. */
  predicate CorrectBarrier(t: Texture, b: Barrier) {
    b.before == t.actualState
  }

  /** `CD3DX12_RESOURCE_BARRIER::Transition` applied on the GPU: the resource ends in the after-state. */
  function ApplyBarrier(t: Texture, b: Barrier): Texture {
    t.(actualState := b.after)
  }

  /**
   * `ChangeState`: when `state` differs from the tracked state, emit a
   * barrier from the tracked state to `state` and track `state`; otherwise
   * do nothing.
   */
  function ChangeState(t: Texture, state: ResourceState): (r: (Texture, Option<Barrier>))
    ensures r.1.Some? <==> state != t.trackedState
    ensures r.1.Some? ==> r.1.value == Barrier(t.trackedState, state)
    ensures r.0.trackedState == state
    ensures r.0.format == t.format && r.0.width == t.width && r.0.height == t.height && r.0.usageState == t.usageState
    ensures r.1.None? ==> r.0 == t
    ensures Consistent(t) ==> Consistent(r.0) && (r.1.Some? ==> CorrectBarrier(t, r.1.value))
  {
    if t.trackedState != state then
      var b := Barrier(t.trackedState, state);
      (ApplyBarrier(t.(trackedState := state), b), Some(b))
    else
      (t, None)
  }

  /** Asking for the same state twice emits at most one barrier. */
  lemma ChangeStateTwice(t: Texture, state: ResourceState)
    ensures ChangeState(ChangeState(t, state).0, state).1 == None
    ensures ChangeState(ChangeState(t, state).0, state).0 == ChangeState(t, state).0
  {
  }

  /**
   * The first constructor as written: `m_usageState` becomes
   * UNORDERED_ACCESS exactly when the flag is ALLOW_UNORDERED_ACCESS, the
   * resource is created in `m_usageState`, but the tracked state keeps the
   * base class's COMMON.
   */
  function NewTextureAsWritten(format: Format, width: nat, height: nat, flags: ResourceFlags): (t: Texture)
    ensures t.usageState == (if flags == AllowUnorderedAccess then UnorderedAccess else Common)
    ensures t.trackedState == Common && t.actualState == t.usageState
    ensures t.format == format && t.width == width && t.height == height
  {
    var usage := if flags == AllowUnorderedAccess then UnorderedAccess else Common;
    Texture(format, width, height, usage, Common, usage)
  }

  /** The as-written constructor loses track of a UAV texture's state. */
  lemma UavTextureInconsistent(format: Format, width: nat, height: nat)
    ensures !Consistent(NewTextureAsWritten(format, width, height, AllowUnorderedAccess))
    ensures var t := NewTextureAsWritten(format, width, height, AllowUnorderedAccess);
      !CorrectBarrier(t, ChangeState(t, PixelShaderResource).1.value)
    ensures var t := NewTextureAsWritten(format, width, height, AllowUnorderedAccess);
      ChangeState(t, Common).1.None? && ChangeState(t, Common).0.actualState == UnorderedAccess
  {
  }

  /** The corrected constructor: the tracked state starts as the creation state. */
  function NewTexture(format: Format, width: nat, height: nat, flags: ResourceFlags): (t: Texture)
    ensures Consistent(t)
    ensures t.usageState == (if flags == AllowUnorderedAccess then UnorderedAccess else Common)
    ensures t.actualState == t.usageState
    ensures t.format == format && t.width == width && t.height == height
  {
    var usage := if flags == AllowUnorderedAccess then UnorderedAccess else Common;
    Texture(format, width, height, usage, usage, usage)
  }

  /** The two constructors differ only for UAV textures. */
  lemma ConstructorsAgreeWithoutUav(format: Format, width: nat, height: nat, flags: ResourceFlags)
    requires flags != AllowUnorderedAccess
    ensures NewTextureAsWritten(format, width, height, flags) == NewTexture(format, width, height, flags)
  {
  }

  /** Successive `ChangeState` calls and the barriers they emit. */
  function ChangeStates(t: Texture, states: seq<ResourceState>): (r: (Texture, seq<Barrier>))
    ensures |r.1| <= |states|
    ensures |states| > 0 ==> r.0.trackedState == states[|states| - 1]
    decreases |states|
  {
    if |states| == 0 then (t, [])
    else
      var (t1, b) := ChangeState(t, states[0]);
      var (t2, bs) := ChangeStates(t1, states[1..]);
      (t2, (if b.Some? then [b.value] else []) + bs)
  }

  /** Executed in order from `state`, each barrier starts from the state the previous one left. */
  ghost predicate Chained(state: ResourceState, barriers: seq<Barrier>)
    decreases |barriers|
  {
    |barriers| == 0 ||
    (barriers[0].before == state && Chained(barriers[0].after, barriers[1..]))
  }

  /** Any sequence of state requests on a consistent texture emits only correct, non-trivial barriers. */
  lemma {:induction false} ChangeStatesCorrect(t: Texture, states: seq<ResourceState>)
    requires Consistent(t)
    ensures Consistent(ChangeStates(t, states).0)
    ensures Chained(t.actualState, ChangeStates(t, states).1)
    ensures forall b :: b in ChangeStates(t, states).1 ==> b.before != b.after
    decreases |states|
  {
    if |states| > 0 {
      var (t1, b) := ChangeState(t, states[0]);
      ChangeStatesCorrect(t1, states[1..]);
      var bs := ChangeStates(t1, states[1..]).1;
      if b.Some? {
        assert ChangeStates(t, states).1 == [b.value] + bs;
        assert ([b.value] + bs)[1..] == bs;
      } else {
        assert ChangeStates(t, states).1 == bs;
      }
    }
  }

  /**
   * The upload constructor: create in COMMON, move to COPY_DEST for the
   * copy, then back to COMMON. It records exactly those two barriers.
   */
  function NewUploadedTexture(format: Format, width: nat, height: nat): (r: (Texture, seq<Barrier>))
    ensures r.1 == [Barrier(Common, CopyDest), Barrier(CopyDest, Common)]
    ensures r.0.trackedState == Common && Consistent(r.0)
    ensures Chained(NewTexture(format, width, height, AllowRenderTarget).actualState, r.1)
  {
    var t := NewTexture(format, width, height, AllowRenderTarget);
    var (t1, b1) := ChangeState(t, CopyDest);
    var (t2, b2) := ChangeState(t1, Common);
    (t2, [b1.value, b2.value])
  }

  /**
   * The upload's row pitch: `width * 4` in 32-bit arithmetic, rounded up to
   * D3D12_TEXTURE_DATA_PITCH_ALIGNMENT (256) and stored back in 32 bits.
   */
  function UploadRowPitch(width: nat): (r: nat)
    requires width < 0x1_0000_0000
    ensures r % 256 == 0 && r < 0x1_0000_0000
    ensures width * 4 + 255 < 0x1_0000_0000 ==> width * 4 <= r < width * 4 + 256
  {
    var bytes := Wrap32(width * 4);
    var aligned := Utility.CalcAlignment(bytes, 256);
    PitchTruncation(width * 4, bytes, aligned);
    Wrap32(aligned)
  }

  /** Truncation to 32 bits. */
  function Wrap32(x: nat): (r: nat)
    ensures r < 0x1_0000_0000
    ensures x < 0x1_0000_0000 ==> r == x
  {
    x % 0x1_0000_0000
  }

  /** Truncating a multiple of 256 below 2^32 + 256 to 32 bits keeps it a multiple of 256. */
  lemma PitchTruncation(x: nat, bytes: nat, aligned: nat)
    requires bytes == Wrap32(x)
    requires aligned % 256 == 0 && bytes <= aligned < bytes + 256
    ensures Wrap32(aligned) % 256 == 0
    ensures x + 255 < 0x1_0000_0000 ==> x <= Wrap32(aligned) < x + 256
  {
    if aligned >= 0x1_0000_0000 {
      assert Wrap32(aligned) == aligned - 0x1_0000_0000;
    }
  }
}
