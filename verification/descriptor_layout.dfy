/**
 * Descriptor-heap slot assignment: the per-frame layout that
 * `Dx12GraphicsManager::OnInit` builds (source/core/render/dx12/GraphicsManager.cpp)
 * and the constant-buffer views of `RenderResource::CreateRenderResource`
 * (source/core/render/dx12/RenderResource.cpp).
 *
 * A descriptor handle is the heap start plus an index times the
 * descriptor size; the model keeps the index.
 */
module DescriptorLayout {
  import Utils
  import Utility

  /** The descriptors of one frame slot, as heap indices. */
  datatype SlotLayout = SlotLayout(
    rtv: nat,          // the back buffer's render-target view
    gbufferRtv: nat,   // first of the five G-buffer render-target views
    gbufferSrv: nat,   // first of the five G-buffer shader-resource views
    uav0: nat, uav1: nat, uav2: nat,
    srv0: nat, srv1: nat)

  /** Render-target heap size: six views per frame. */
  function RtvHeapSize(n: nat): nat { 6 * n }

  /** CBV/SRV/UAV heap size: nine views per frame and eight more. */
  function SsvHeapSize(n: nat): nat { 9 * n + 8 }

  /** The layout of slot `i` of `n`, in closed form. */
  function Slot(i: nat, n: nat): (s: SlotLayout)
    requires i < n
    ensures s.gbufferRtv + 5 <= RtvHeapSize(n) && s.rtv < s.gbufferRtv
    ensures s.gbufferSrv + 5 <= s.uav0 < s.uav1 < s.srv0 < s.srv1 < s.uav2 < SsvHeapSize(n)
  {
    SlotLayout(6 * i, 6 * i + 1, 9 * i, 9 * i + 5, 9 * i + 6, 9 * n, 9 * i + 7, 9 * i + 8)
  }

  /**
   * `OnInit`'s loop: two running handles; each slot takes one render-target
   * view then five for the G-buffer, five shader-visible views for the
   * G-buffer then uav0, uav1, srv0, srv1; a second loop then gives every
   * slot the next shader-visible index as uav2.
   */
  method AssignSlots(n: nat) returns (slots: seq<SlotLayout>)
    ensures |slots| == n
    ensures forall i :: 0 <= i < n ==> slots[i] == Slot(i, n)
  {
    var rtv := 0;
    var ssv := 0;
    var firstPass: seq<SlotLayout> := [];
    var index := 0;
    while index < n
      invariant index <= n
      invariant rtv == 6 * index && ssv == 9 * index
      invariant |firstPass| == index
      invariant forall i :: 0 <= i < index ==> firstPass[i] == Slot(i, n).(uav2 := 0)
    {
      var s := SlotLayout(rtv, rtv + 1, ssv, ssv + 5, ssv + 6, 0, ssv + 7, ssv + 8);
      firstPass := firstPass + [s];
      rtv := rtv + 6;
      ssv := ssv + 9;
      index := index + 1;
    }
    slots := [];
    index := 0;
    while index < n
      invariant index <= n
      invariant |slots| == index
      invariant forall i :: 0 <= i < index ==> slots[i] == firstPass[i].(uav2 := ssv)
    {
      slots := slots + [firstPass[index].(uav2 := ssv)];
      index := index + 1;
    }
  }

  /** Every view of every slot lies inside its heap. */
  lemma SlotsInRange(i: nat, n: nat)
    requires i < n
    ensures Slot(i, n).gbufferRtv + 4 < RtvHeapSize(n)
    ensures Slot(i, n).uav2 < SsvHeapSize(n) && Slot(i, n).srv1 < SsvHeapSize(n)
  {
  }

  /** The shader-visible views `9i .. 9i+8` of distinct slots never overlap; only uav2 is shared. */
  lemma {:induction false} SlotsDisjoint(i: nat, j: nat, n: nat, a: nat, b: nat)
    requires i < n && j < n && i != j && a < 9 && b < 9
    ensures Slot(i, n).gbufferSrv + a != Slot(j, n).gbufferSrv + b
    ensures Slot(i, n).uav2 == Slot(j, n).uav2
  {
    if i < j {
      assert 9 * i + a < 9 * (i + 1) <= 9 * j;
    } else {
      assert 9 * j + b < 9 * (j + 1) <= 9 * i;
    }
  }

  /**
   * The constructor of `RenderResource`: one render-target view per frame,
   * the handle advancing by one descriptor each time, so frame `n`'s view
   * is at index `n`.
   */
  method AssignFrameRtvs(frameCount: nat) returns (rtvs: seq<nat>)
    ensures |rtvs| == frameCount
    ensures forall n :: 0 <= n < frameCount ==> rtvs[n] == n
  {
    var handle := 0;
    rtvs := [];
    while handle < frameCount
      invariant handle <= frameCount && |rtvs| == handle
      invariant forall n :: 0 <= n < handle ==> rtvs[n] == n
    {
      rtvs := rtvs + [handle];
      handle := handle + 1;
    }
  }

  // ---------------------------------------------------------------------
  // RenderResource::CreateRenderResource
  // ---------------------------------------------------------------------

  const U32: nat := 0x1_0000_0000
  const U64: nat := 0x1_0000_0000_0000_0000

  /** A constant-buffer view: heap index, owning frame, byte offset in its buffer, `SizeInBytes`. */
  datatype CbvView = CbvView(slot: int, frame: nat, isMain: bool, byteOffset: nat, size: nat)

  /** `CalcAlignment<256>`: constant-buffer views are sized in multiples of 256 bytes. */
  function Align256(size: nat): (r: nat)
    requires size + 255 < U64
    ensures r % 256 == 0 && size <= r < size + 256
  {
    Utils.CalcAlignment(size, 256)
  }

  /** The `INT` a 32-bit pattern reads as: two's complement. */
  function AsInt32(x: nat): (r: int)
    requires x < U32
    ensures -0x8000_0000 <= r < 0x8000_0000
    ensures (x - r) % U32 == 0
  {
    if x < 0x8000_0000 then x else x - U32
  }

  /** `m_numConstPerFrame = numObject + 1`: a `size_t` sum stored in a `uint32_t`. */
  function NumConstPerFrame(numObject: nat): (r: nat)
    requires numObject < U64
    ensures r < U32
    ensures numObject + 1 < U32 ==> r == numObject + 1
    ensures numObject + 1 == U32 ==> r == 0
  {
    ((numObject + 1) % U64) % U32
  }

  /**
   * `NumDescriptors`: one main and `numObject` object views per frame, then
   * materials and textures. The per-frame product is a 32-bit `unsigned`,
   * the sums are `size_t`, and the total is stored in a `UINT`.
   */
  function CbvHeapSize(frameCount: nat, numObject: nat, numMat: nat, numTex: nat): (r: nat)
    requires frameCount < 256 && numObject < U64 && numMat < U64 && numTex < U64
    ensures r < U32
    ensures frameCount * (numObject + 1) + numMat + numTex < U32 ==>
              r == frameCount * (numObject + 1) + numMat + numTex
  {
    var perFrame := NumConstPerFrame(numObject);
    var r := ((((frameCount * perFrame) % U32 + numMat) % U64 + numTex) % U64) % U32;
    assert frameCount * (numObject + 1) + numMat + numTex < U32 ==>
             r == frameCount * (numObject + 1) + numMat + numTex by {
      if frameCount * (numObject + 1) + numMat + numTex < U32 {
        PerFrameNoWrap(frameCount, numObject);
        SumNoWrap(frameCount * perFrame, numMat, numTex);
      }
    }
    r
  }

  /** A sum that fits 32 bits is unchanged by the truncations along the way. */
  lemma SumNoWrap(prod: nat, numMat: nat, numTex: nat)
    requires prod + numMat + numTex < U32
    ensures ((((prod % U32) + numMat) % U64 + numTex) % U64) % U32 == prod + numMat + numTex
  {
  }

  /** While the per-frame block count fits 32 bits, `m_numConstPerFrame` holds `numObject + 1` exactly. */
  lemma PerFrameNoWrap(frameCount: nat, numObject: nat)
    requires numObject < U64 && frameCount * (numObject + 1) < U32
    ensures frameCount * NumConstPerFrame(numObject) == frameCount * (numObject + 1)
  {
    if frameCount > 0 {
      Utility.MulMono(numObject + 1, 1, frameCount);
      assert NumConstPerFrame(numObject) == numObject + 1;
    }
  }

  /**
   * The heap index of view `k` of frame `f`: `Offset(index * m_numConstPerFrame)`
   * takes the `size_t` product as an `INT`, and each later view is one
   * `Offset(1)` further.
   */
  function CbvSlot(f: nat, k: nat, perFrame: nat): (r: int)
    requires f < 256 && perFrame < U32
    ensures f * perFrame < 0x8000_0000 ==> r == f * perFrame + k
  {
    var start := f * perFrame;
    assert start < 0x8000_0000 ==> AsInt32((start % U64) % U32) == start by {
      if start < 0x8000_0000 {
        SmallNoWrap(start);
      }
    }
    AsInt32((start % U64) % U32) + k
  }

  /** A value below 2^32 survives the `size_t` and 32-bit truncations. */
  lemma SmallNoWrap(x: nat)
    requires x < U32
    ensures (x % U64) % U32 == x
  {
  }

  /**
   * View `k` of frame `f`: the main view for `k == 0`, object `k - 1`'s view
   * otherwise; the buffer offset is a `size_t` product and `SizeInBytes` a
   * `UINT`.
   */
  function ExpectedView(f: nat, k: nat, perFrame: nat, mainSize: nat, objectSize: nat): CbvView
    requires f < 256 && perFrame < U32
  {
    if k == 0 then CbvView(CbvSlot(f, 0, perFrame), f, true, 0, mainSize % U32)
    else CbvView(CbvSlot(f, k, perFrame), f, false, ((k - 1) * objectSize) % U64, objectSize % U32)
  }

  /**
   * The views `CreateRenderResource` creates, one block per frame: the main
   * view at `index * m_numConstPerFrame`, then object `k`'s view at the next
   * index with buffer offset `k * objectSize`. Both view sizes are the
   * structure sizes rounded up to 256 bytes.
   */
  method CreateCbvs(frameCount: nat, numObject: nat, mainStructSize: nat, objectStructSize: nat)
    returns (blocks: seq<seq<CbvView>>, perFrame: nat, mainSize: nat, objectSize: nat)
    requires frameCount < 256 && numObject < U64
    requires mainStructSize + 255 < U64 && objectStructSize + 255 < U64
    ensures perFrame == NumConstPerFrame(numObject)
    ensures mainSize == Align256(mainStructSize) && objectSize == Align256(objectStructSize)
    ensures |blocks| == frameCount
    ensures forall f :: 0 <= f < frameCount ==> |blocks[f]| == numObject + 1
    ensures forall f, k :: 0 <= f < frameCount && 0 <= k <= numObject ==>
      blocks[f][k] == ExpectedView(f, k, perFrame, mainSize, objectSize)
  {
    perFrame := NumConstPerFrame(numObject);
    mainSize := Align256(mainStructSize);
    objectSize := Align256(objectStructSize);
    blocks := CbvBlocks(frameCount, numObject, perFrame, mainSize, objectSize);
  }

  /** The two nested loops of `CreateRenderResource`, for a given `m_numConstPerFrame` and view sizes. */
  method CbvBlocks(frameCount: nat, numObject: nat, perFrame: nat, mainSize: nat, objectSize: nat) returns (blocks: seq<seq<CbvView>>)
    requires frameCount < 256 && perFrame < U32
    ensures |blocks| == frameCount
    ensures forall f :: 0 <= f < frameCount ==> |blocks[f]| == numObject + 1
    ensures forall f, k :: 0 <= f < frameCount && 0 <= k <= numObject ==>
      blocks[f][k] == ExpectedView(f, k, perFrame, mainSize, objectSize)
  {
    blocks := [];
    var index := 0;
    while index < frameCount
      invariant index <= frameCount
      invariant |blocks| == index
      invariant forall f :: 0 <= f < index ==> |blocks[f]| == numObject + 1
      invariant forall f, k :: 0 <= f < index && 0 <= k <= numObject ==>
        blocks[f][k] == ExpectedView(f, k, perFrame, mainSize, objectSize)
    {
      var slot := AsInt32(((index * perFrame) % U64) % U32);
      var block := [CbvView(slot, index, true, 0, mainSize % U32)];
      var offset := 0;
      while offset < numObject
        invariant offset <= numObject
        invariant |block| == offset + 1
        invariant forall k :: 0 <= k <= offset ==> block[k] == ExpectedView(index, k, perFrame, mainSize, objectSize)
      {
        block := block + [CbvView(slot + 1 + offset, index, false, (offset * objectSize) % U64, objectSize % U32)];
        offset := offset + 1;
      }
      blocks := blocks + [block];
      index := index + 1;
    }
  }

  /**
   * While the view count stays below 2^31, nothing wraps: views of distinct
   * frames or objects never share an index, every view lies below
   * `frameCount * (numObject + 1)`, and that range fits inside the heap,
   * leaving the rest to materials and textures.
   */
  lemma {:induction false} CbvRangesDisjoint(f: nat, g: nat, k: nat, l: nat, frameCount: nat, numObject: nat, numMat: nat, numTex: nat)
    requires frameCount < 256 && numObject < U64 && numMat < U64 && numTex < U64
    requires f < frameCount && g < frameCount && k <= numObject && l <= numObject
    requires f != g || k != l
    requires frameCount * (numObject + 1) + numMat + numTex < 0x8000_0000
    ensures CbvSlot(f, k, NumConstPerFrame(numObject)) != CbvSlot(g, l, NumConstPerFrame(numObject))
    ensures 0 <= CbvSlot(f, k, NumConstPerFrame(numObject)) < frameCount * (numObject + 1)
    ensures frameCount * (numObject + 1) <= CbvHeapSize(frameCount, numObject, numMat, numTex)
  {
    HeapSizeExact(frameCount, numObject, numMat, numTex);
    SlotExact(f, k, frameCount, numObject);
    ViewSlotsDisjoint(f, g, k, l, frameCount, numObject);
  }

  /** Distinct frames or objects get distinct views while the view count stays below 2^31. */
  lemma ViewSlotsDisjoint(f: nat, g: nat, k: nat, l: nat, frameCount: nat, numObject: nat)
    requires frameCount < 256 && numObject < U64
    requires f < frameCount && g < frameCount && k <= numObject && l <= numObject
    requires f != g || k != l
    requires frameCount * (numObject + 1) < 0x8000_0000
    ensures CbvSlot(f, k, NumConstPerFrame(numObject)) != CbvSlot(g, l, NumConstPerFrame(numObject))
  {
    var p := numObject + 1;
    SlotExact(f, k, frameCount, numObject);
    SlotExact(g, l, frameCount, numObject);
    if f < g {
      FrameBlockBelow(f, g, p);
    } else if g < f {
      FrameBlockBelow(g, f, p);
    }
  }

  /** Below 2^32 descriptors, the heap size is the exact count. */
  lemma HeapSizeExact(frameCount: nat, numObject: nat, numMat: nat, numTex: nat)
    requires frameCount < 256 && numObject < U64 && numMat < U64 && numTex < U64
    requires frameCount * (numObject + 1) + numMat + numTex < U32
    ensures CbvHeapSize(frameCount, numObject, numMat, numTex) == frameCount * (numObject + 1) + numMat + numTex
  {
  }

  /** Below 2^31 views, view `k` of frame `f` sits at `f*(numObject+1) + k`, and its frame's block ends inside the range. */
  lemma SlotExact(f: nat, k: nat, frameCount: nat, numObject: nat)
    requires frameCount < 256 && numObject < U64
    requires f < frameCount && k <= numObject
    requires frameCount * (numObject + 1) < 0x8000_0000
    ensures CbvSlot(f, k, NumConstPerFrame(numObject)) == f * (numObject + 1) + k
    ensures f * (numObject + 1) + numObject + 1 <= frameCount * (numObject + 1)
    ensures 0 <= CbvSlot(f, k, NumConstPerFrame(numObject)) < frameCount * (numObject + 1)
  {
    var p := numObject + 1;
    Utility.MulMono(p, 1, frameCount);
    Utility.MulMono(p, 0, f);
    assert NumConstPerFrame(numObject) == p;
    FrameBlockBelow(f, frameCount, p);
  }

  /** A frame's block of `p` indices ends at or before the next frame's start. */
  lemma FrameBlockBelow(f: nat, g: nat, p: nat)
    requires f < g
    ensures f * p + p <= g * p
  {
    Utility.MulMono(p, f + 1, g);
    assert p * (f + 1) == p * f + p;
  }

  /**
   * The wrap the bound above excludes: with `numObject == 2^32 - 1`,
   * `m_numConstPerFrame` is 0, so both frames' main views share index 0 and
   * the heap is sized for the materials and textures alone, while object
   * views run far past it.
   */
  lemma CbvCountWraps(numMat: nat, numTex: nat)
    requires numMat + numTex < 0x1000
    ensures NumConstPerFrame(U32 - 1) == 0
    ensures CbvHeapSize(2, U32 - 1, numMat, numTex) == numMat + numTex
    ensures CbvSlot(0, 0, NumConstPerFrame(U32 - 1)) == CbvSlot(1, 0, NumConstPerFrame(U32 - 1))
    ensures CbvSlot(0, 0x1000, NumConstPerFrame(U32 - 1)) >= CbvHeapSize(2, U32 - 1, numMat, numTex)
  {
  }
}
