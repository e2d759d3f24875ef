/**
 * The deferred-shading G-buffer `PrePass` (source/core/render/dx12/GBuffer.hpp):
 * five screen-sized textures with consecutive render-target handles and
 * consecutive shader-resource views, switched as a group between
 * render-target and shader-resource use.
 *
 * Descriptor handles are modelled as numbers. Offsetting a handle by one
 * descriptor adds the heap's increment size.
 */
module GBuffers {
  import opened Results
  import opened DxgiFormats
  import opened Textures

  /** The G-buffer's targets, in the order of their descriptors. */
  datatype Target = BaseColor | Misc | Position | Normal | ObjectId

  const TargetCount: nat := 5

  /** Descriptor slot of each target: the order of the RTVs and SRVs. */
  function SlotOf(t: Target): (k: nat)
    ensures k < TargetCount
  {
    match t
    case BaseColor => 0
    case Misc => 1
    case Position => 2
    case Normal => 3
    case ObjectId => 4
  }

  /** The target stored in descriptor slot `k`. */
  function TargetAt(k: nat): (t: Target)
    requires k < TargetCount
    ensures SlotOf(t) == k
  {
    [BaseColor, Misc, Position, Normal, ObjectId][k]
  }

  lemma SlotsAreABijection(t: Target)
    ensures TargetAt(SlotOf(t)) == t
  {
  }

  /** The order in which the group operations transition the textures. */
  const TransitionOrder: seq<Target> := [BaseColor, Position, Normal, Misc, ObjectId]

  /** Object ids are 32-bit unsigned integers; everything else is four 32-bit floats. */
  function FormatOf(t: Target): (f: Format)
    ensures f == R32Uint <==> t == ObjectId
    ensures f == RGBA32Float <==> t != ObjectId
  {
    if t == ObjectId then R32Uint else RGBA32Float
  }

  /** A view: the descriptor it lives in, the texture it reads and the format it reads it as. */
  datatype View = View(handle: nat, target: Target, format: Format)

  datatype PrePass = PrePass(
    rtvHandles: seq<nat>,
    srvCpuHandle: nat,
    srvGpuHandle: nat,
    srvDescriptorSize: nat,
    textures: map<Target, Texture>,   // empty until the first resize
    rtvs: seq<View>,
    srvs: seq<View>)

  /** Sized: every target has a texture, and the views describe them. */
  predicate Sized(p: PrePass) {
    (forall t: Target :: t in p.textures) &&
    |p.rtvHandles| == TargetCount && |p.rtvs| == TargetCount && |p.srvs| == TargetCount
  }

  /**
   * The constructor: the five RTV handles are consecutive from
   * `rtvHandle`, one RTV increment apart. No texture exists yet.
   */
  method NewPrePass(rtvHandle: nat, rtvDescriptorSize: nat, srvCpuHandle: nat, srvGpuHandle: nat, srvDescriptorSize: nat)
    returns (p: PrePass)
    ensures |p.rtvHandles| == TargetCount
    ensures forall k :: 0 <= k < TargetCount ==> p.rtvHandles[k] == rtvHandle + k * rtvDescriptorSize
    ensures p.srvCpuHandle == srvCpuHandle && p.srvGpuHandle == srvGpuHandle
    ensures p.srvDescriptorSize == srvDescriptorSize
    ensures p.textures == map[] && p.rtvs == [] && p.srvs == []
  {
    var handles: seq<nat> := [];
    var handle := rtvHandle;
    while |handles| < TargetCount
      invariant |handles| <= TargetCount
      invariant handle == rtvHandle + |handles| * rtvDescriptorSize
      invariant forall k :: 0 <= k < |handles| ==> handles[k] == rtvHandle + k * rtvDescriptorSize
    {
      handles := handles + [handle];
      handle := handle + rtvDescriptorSize;
    }
    p := PrePass(handles, srvCpuHandle, srvGpuHandle, srvDescriptorSize, map[], [], []);
  }

  /**
   * `ResizeBuffer`: create the five textures with render-target use, then
   * the RTVs in the existing handles and the SRVs consecutively from the
   * SRV base, both in slot order.
   */
  function ResizeBuffer(p: PrePass, width: nat, height: nat): (r: PrePass)
    requires |p.rtvHandles| == TargetCount
    ensures Sized(r)
    ensures forall t: Target :: r.textures[t] == NewTexture(FormatOf(t), width, height, AllowRenderTarget)
    ensures forall t: Target :: r.rtvs[SlotOf(t)] == View(p.rtvHandles[SlotOf(t)], t, FormatOf(t))
    ensures forall t: Target :: r.srvs[SlotOf(t)] == View(p.srvCpuHandle + SlotOf(t) * p.srvDescriptorSize, t, FormatOf(t))
    ensures r.rtvHandles == p.rtvHandles && r.srvCpuHandle == p.srvCpuHandle && r.srvGpuHandle == p.srvGpuHandle
  {
    var textures := map t: Target | true :: NewTexture(FormatOf(t), width, height, AllowRenderTarget);
    var rtvs := seq(TargetCount, k requires 0 <= k < TargetCount => View(p.rtvHandles[k], TargetAt(k), FormatOf(TargetAt(k))));
    var srvs := seq(TargetCount, k requires 0 <= k < TargetCount =>
      View(p.srvCpuHandle + k * p.srvDescriptorSize, TargetAt(k), FormatOf(TargetAt(k))));
    p.(textures := textures, rtvs := rtvs, srvs := srvs)
  }

  /** Every G-buffer texture is created in, and tracks, COMMON. */
  lemma ResizedTexturesStartCommon(p: PrePass, width: nat, height: nat, t: Target)
    requires |p.rtvHandles| == TargetCount
    ensures ResizeBuffer(p, width, height).textures[t].trackedState == Common
    ensures Consistent(ResizeBuffer(p, width, height).textures[t])
  {
  }

  /** Transition every target, in `order`, to `state`; collect the barriers. */
  function ChangeAll(textures: map<Target, Texture>, order: seq<Target>, state: ResourceState)
    : (r: (map<Target, Texture>, seq<(Target, Barrier)>))
    requires forall t :: t in order ==> t in textures
    ensures r.0.Keys == textures.Keys
    ensures forall t :: t in order ==> r.0[t].trackedState == state
    ensures forall t :: t in textures && t !in order ==> r.0[t] == textures[t]
    ensures forall tb :: tb in r.1 ==>
              tb.0 in order && textures[tb.0].trackedState != state && tb.1 == Barrier(textures[tb.0].trackedState, state)
    ensures |r.1| <= |order|
    decreases |order|
  {
    if |order| == 0 then (textures, [])
    else
      var t := order[0];
      var (tex, b) := ChangeState(textures[t], state);
      var (rest, bs) := ChangeAll(textures[t := tex], order[1..], state);
      (rest, (if b.Some? then [(t, b.value)] else []) + bs)
  }

  /** `GetSrvHandle`: the GPU handle of the first SRV. */
  function GetSrvHandle(p: PrePass): (h: nat)
    ensures h == p.srvGpuHandle
  {
    p.srvGpuHandle
  }

  /** The commands `AsRenderTarget` records. */
  datatype Recorded = Recorded(barriers: seq<(Target, Barrier)>, clears: seq<nat>)

  /**
   * `AsRenderTarget`: move every texture to RENDER_TARGET, clear the five
   * RTVs in slot order and hand out the RTV handles.
   */
  function AsRenderTarget(p: PrePass): (r: (PrePass, Recorded, seq<nat>))
    requires Sized(p)
    ensures Sized(r.0)
    ensures forall t: Target :: r.0.textures[t].trackedState == RenderTarget
    ensures r.1.clears == p.rtvHandles && r.2 == p.rtvHandles && |r.2| == TargetCount
    ensures forall tb :: tb in r.1.barriers ==> tb.1 == Barrier(p.textures[tb.0].trackedState, RenderTarget)
    ensures r.0.rtvs == p.rtvs && r.0.srvs == p.srvs && r.0.rtvHandles == p.rtvHandles
  {
    assert forall t: Target :: t in TransitionOrder by { TransitionOrderCovers(); }
    var (textures, barriers) := ChangeAll(p.textures, TransitionOrder, RenderTarget);
    (p.(textures := textures), Recorded(barriers, p.rtvHandles), p.rtvHandles)
  }

  /** `AsShaderResource`: move every texture to `state` and hand out the SRV table's GPU handle. */
  function AsShaderResource(p: PrePass, state: ResourceState := PixelShaderResource): (r: (PrePass, seq<(Target, Barrier)>, nat))
    requires Sized(p)
    ensures Sized(r.0)
    ensures forall t: Target :: r.0.textures[t].trackedState == state
    ensures r.2 == GetSrvHandle(p)
    ensures forall tb :: tb in r.1 ==> tb.1 == Barrier(p.textures[tb.0].trackedState, state)
    ensures r.0.rtvs == p.rtvs && r.0.srvs == p.srvs && r.0.rtvHandles == p.rtvHandles
  {
    assert forall t: Target :: t in TransitionOrder by { TransitionOrderCovers(); }
    var (textures, barriers) := ChangeAll(p.textures, TransitionOrder, state);
    (p.(textures := textures), barriers, p.srvGpuHandle)
  }

  /** Where each target sits in the transition order. */
  function SlotInOrder(t: Target): (i: nat)
    ensures i < |TransitionOrder| && TransitionOrder[i] == t
  {
    match t
    case BaseColor => 0
    case Position => 1
    case Normal => 2
    case Misc => 3
    case ObjectId => 4
  }

  /** Every target appears in the transition order, once. */
  lemma TransitionOrderCovers()
    ensures forall t: Target :: t in TransitionOrder
    ensures forall i, j :: 0 <= i < j < |TransitionOrder| ==> TransitionOrder[i] != TransitionOrder[j]
  {
    forall t: Target ensures t in TransitionOrder {
      assert TransitionOrder[SlotInOrder(t)] == t;
    }
  }

  /** A group transition to the state every texture already tracks records nothing and changes nothing. */
  lemma {:induction false} ChangeAllSettled(textures: map<Target, Texture>, order: seq<Target>, state: ResourceState)
    requires forall t :: t in order ==> t in textures && textures[t].trackedState == state
    ensures ChangeAll(textures, order, state) == (textures, [])
    decreases |order|
  {
    if |order| > 0 {
      var t := order[0];
      assert ChangeState(textures[t], state).0 == textures[t];
      assert textures[t := textures[t]] == textures;
      ChangeAllSettled(textures, order[1..], state);
    }
  }

  /**
   * A group transition away from a state every texture tracks records one
   * barrier per texture, in `order`.
   */
  lemma {:induction false} ChangeAllFromOther(textures: map<Target, Texture>, order: seq<Target>, state: ResourceState)
    requires forall t :: t in order ==> t in textures && textures[t].trackedState != state
    requires forall i, j :: 0 <= i < j < |order| ==> order[i] != order[j]
    ensures |ChangeAll(textures, order, state).1| == |order|
    ensures forall i :: 0 <= i < |order| ==>
              ChangeAll(textures, order, state).1[i] == (order[i], Barrier(textures[order[i]].trackedState, state))
    decreases |order|
  {
    if |order| > 0 {
      var t := order[0];
      var (tex, b) := ChangeState(textures[t], state);
      var rest := order[1..];
      assert forall u :: u in rest ==> u != t by {
        forall u | u in rest ensures u != t {
          var k :| 0 <= k < |rest| && rest[k] == u;
          assert order[k + 1] == u;
        }
      }
      ChangeAllFromOther(textures[t := tex], rest, state);
    }
  }

  /** On consistent textures a group transition keeps them consistent and every barrier starts from the actual state. */
  lemma {:induction false} ChangeAllCorrect(textures: map<Target, Texture>, order: seq<Target>, state: ResourceState)
    requires forall t :: t in textures ==> Consistent(textures[t])
    requires forall t :: t in order ==> t in textures
    ensures forall t :: t in textures ==> Consistent(ChangeAll(textures, order, state).0[t])
    ensures forall tb :: tb in ChangeAll(textures, order, state).1 ==> CorrectBarrier(textures[tb.0], tb.1)
    decreases |order|
  {
    if |order| > 0 {
      var t := order[0];
      var (tex, b) := ChangeState(textures[t], state);
      ChangeAllCorrect(textures[t := tex], order[1..], state);
    }
  }

  /** Reading the G-buffer twice in the same state transitions nothing the second time. */
  lemma ShaderResourceTwice(p: PrePass, state: ResourceState)
    requires Sized(p)
    ensures var (q, _, h) := AsShaderResource(p, state);
      AsShaderResource(q, state).1 == [] && AsShaderResource(q, state).0 == q && AsShaderResource(q, state).2 == h
  {
    var q := AsShaderResource(p, state).0;
    ChangeAllSettled(q.textures, TransitionOrder, state);
  }

  /** Switching to render targets from any other tracked state records one barrier per target, in the transition order. */
  lemma RenderFromOther(q: PrePass, state: ResourceState)
    requires Sized(q) && state != RenderTarget
    requires forall t: Target :: q.textures[t].trackedState == state
    ensures |AsRenderTarget(q).1.barriers| == TargetCount
    ensures forall i :: 0 <= i < TargetCount ==>
              AsRenderTarget(q).1.barriers[i] == (TransitionOrder[i], Barrier(state, RenderTarget))
  {
    TransitionOrderCovers();
    ChangeAllFromOther(q.textures, TransitionOrder, RenderTarget);
  }

  /**
   * Writing after reading: the render-target switch records one barrier per
   * target, in the transition order, each from the read state.
   */
  lemma RenderAfterRead(p: PrePass, state: ResourceState)
    requires Sized(p) && state != RenderTarget
    ensures |AsRenderTarget(AsShaderResource(p, state).0).1.barriers| == TargetCount
    ensures forall i :: 0 <= i < TargetCount ==>
              AsRenderTarget(AsShaderResource(p, state).0).1.barriers[i] == (TransitionOrder[i], Barrier(state, RenderTarget))
  {
    var q := AsShaderResource(p, state).0;
    RenderFromOther(q, state);
  }

  /** A freshly sized G-buffer has consistent textures, so its first switch to render targets emits correct barriers. */
  lemma FirstRenderCorrect(p: PrePass, width: nat, height: nat)
    requires |p.rtvHandles| == TargetCount
    ensures var q := ResizeBuffer(p, width, height);
      forall tb :: tb in AsRenderTarget(q).1.barriers ==> CorrectBarrier(q.textures[tb.0], tb.1)
    ensures var q := ResizeBuffer(p, width, height);
      forall t: Target :: Consistent(AsRenderTarget(q).0.textures[t])
  {
    var q := ResizeBuffer(p, width, height);
    TransitionOrderCovers();
    ChangeAllCorrect(q.textures, TransitionOrder, RenderTarget);
  }
}
