/**
 * `Dx12Mesh` (source/asset/dx12/Dx12Mesh.cpp): a mesh selects its vertex
 * structure from its descriptor, lays one vertex-buffer view per attribute
 * back to back in its vertex buffer, describes its whole index buffer as
 * 32-bit indices, and draws after its material.
 *
 * Byte offsets and addresses are `size_t` / 64-bit and wrap modulo 2^64;
 * the view's size and stride fields are 32-bit and truncate.
 */
module Meshes {
  import opened PipelineFlags
  import opened PipelineDecode
  import opened DxgiFormats
  import VertexLayouts
  import PsoCache
  import Materials
  import Utility

  const U32: nat := 0x1_0000_0000
  const U64: nat := 0x1_0000_0000_0000_0000

  /**
   * `GetSOA`: the whole descriptor is compared with the case labels, so only
   * COMB_0 itself selects `Vertex0`; COMB_1 and everything else select `Vertex1`.
   */
  function GetSoa(flag: Flag): (f: VertexLayouts.VertexFormat)
    ensures f == VertexLayouts.Vertex0 <==> flag == ShaderComb0
    ensures flag == ShaderComb1 ==> f == VertexLayouts.Vertex1
  {
    if flag == ShaderComb0 then VertexLayouts.Vertex0 else VertexLayouts.Vertex1
  }

  datatype VertexBufferView = VertexBufferView(location: nat, sizeInBytes: nat, stride: nat)
  datatype IndexBufferView = IndexBufferView(location: nat, sizeInBytes: nat, format: Format)

  /** Bytes taken by the first `i` attributes: each attribute holds `vertexCount` elements. */
  function Offset(sizes: seq<nat>, vertexCount: nat, i: nat): (r: nat)
    requires i <= |sizes|
    ensures i == 0 ==> r == 0
    decreases i
  {
    if i == 0 then 0 else Offset(sizes, vertexCount, i - 1) + sizes[i - 1] * vertexCount
  }

  /** The view the constructor writes for attribute `i`, in the source's widths. */
  function ViewAt(base: nat, sizes: seq<nat>, vertexCount: nat, i: nat): (v: VertexBufferView)
    requires i < |sizes|
    ensures v.location < U64 && v.sizeInBytes < U32 && v.stride < U32
  {
    VertexBufferView((base + Offset(sizes, vertexCount, i)) % U64,
                     (sizes[i] * vertexCount) % U64 % U32,
                     sizes[i] % U32)
  }

  /**
   * The constructor's view loop: one view per attribute; view `i` starts at
   * the buffer's address plus the running offset, which then grows by the
   * attribute's `size * vertexCount` bytes.
   */
  method VertexBufferViews(base: nat, sizes: seq<nat>, vertexCount: nat) returns (views: seq<VertexBufferView>)
    requires base < U64
    ensures |views| == |sizes|
    ensures forall i :: 0 <= i < |sizes| ==> views[i] == ViewAt(base, sizes, vertexCount, i)
  {
    views := [];
    var addrOffset: nat := 0;
    var index := 0;
    while index < |sizes|
      invariant index <= |sizes| && |views| == index
      invariant addrOffset == Offset(sizes, vertexCount, index) % U64
      invariant forall i :: 0 <= i < index ==> views[i] == ViewAt(base, sizes, vertexCount, i)
    {
      var byteSize := (sizes[index] * vertexCount) % U64;
      Utility.ModAddLeft(base, Offset(sizes, vertexCount, index), U64);
      Utility.ModAddRight(base, Offset(sizes, vertexCount, index), U64);
      var location := (base + addrOffset) % U64;
      views := views + [VertexBufferView(location, byteSize % U32, sizes[index] % U32)];
      Utility.ModAddBoth(Offset(sizes, vertexCount, index), sizes[index] * vertexCount, U64);
      addrOffset := (addrOffset + byteSize) % U64;
      index := index + 1;
    }
  }

  /** Nothing in the vertex buffer wraps: every view's size fits in 32 bits and the end fits in 64. */
  predicate NoWrap(base: nat, sizes: seq<nat>, vertexCount: nat) {
    base + Offset(sizes, vertexCount, |sizes|) < U64 &&
    forall i :: 0 <= i < |sizes| ==> sizes[i] * vertexCount < U32 && sizes[i] < U32
  }

  lemma {:induction false} OffsetMono(sizes: seq<nat>, vertexCount: nat, i: nat, j: nat)
    requires i <= j <= |sizes|
    ensures Offset(sizes, vertexCount, i) <= Offset(sizes, vertexCount, j)
    decreases j
  {
    if i < j {
      OffsetMono(sizes, vertexCount, i, j - 1);
    }
  }

  /**
   * Without wrap-around the views tile the buffer: the first starts at the
   * base, each next one starts where the previous ends, each has stride
   * equal to its attribute size, and the last ends at the base plus the
   * total `Offset`.
   */
  lemma ViewsContiguous(base: nat, sizes: seq<nat>, vertexCount: nat)
    requires NoWrap(base, sizes, vertexCount)
    ensures forall i :: 0 <= i < |sizes| ==>
              ViewAt(base, sizes, vertexCount, i).location == base + Offset(sizes, vertexCount, i) &&
              ViewAt(base, sizes, vertexCount, i).sizeInBytes == sizes[i] * vertexCount &&
              ViewAt(base, sizes, vertexCount, i).stride == sizes[i]
    ensures forall i :: 0 <= i < |sizes| ==>
              ViewAt(base, sizes, vertexCount, i).location + ViewAt(base, sizes, vertexCount, i).sizeInBytes
                == base + Offset(sizes, vertexCount, i + 1)
  {
    forall i | 0 <= i < |sizes|
      ensures ViewAt(base, sizes, vertexCount, i) ==
                VertexBufferView(base + Offset(sizes, vertexCount, i), sizes[i] * vertexCount, sizes[i])
    {
      ViewAtNoWrap(base, sizes, vertexCount, i);
    }
  }

  lemma ViewAtNoWrap(base: nat, sizes: seq<nat>, vertexCount: nat, i: nat)
    requires NoWrap(base, sizes, vertexCount) && i < |sizes|
    ensures ViewAt(base, sizes, vertexCount, i) ==
              VertexBufferView(base + Offset(sizes, vertexCount, i), sizes[i] * vertexCount, sizes[i])
  {
    OffsetMono(sizes, vertexCount, i, |sizes|);
    var x := base + Offset(sizes, vertexCount, i);
    Utility.DivModUnique(x, U64, 0, x);
    var b := sizes[i] * vertexCount;
    Utility.DivModUnique(b, U64, 0, b);
    Utility.DivModUnique(b, U32, 0, b);
    Utility.DivModUnique(sizes[i], U32, 0, sizes[i]);
  }

  /** The total the views cover is `vertexCount` times the vertex structure's size. */
  lemma {:induction false} OffsetIsScaledSum(sizes: seq<nat>, vertexCount: nat, i: nat)
    requires i <= |sizes|
    ensures Offset(sizes, vertexCount, i) == VertexLayouts.Sum(sizes[..i]) * vertexCount
    decreases i
  {
    if i > 0 {
      OffsetIsScaledSum(sizes, vertexCount, i - 1);
      assert sizes[..i][..i - 1] == sizes[..i - 1];
    }
  }

  datatype Mesh = Mesh(
    flag: Flag, material: Materials.Material, indexCount: nat,
    vertexViews: seq<VertexBufferView>, indexView: IndexBufferView)

  /**
   * The constructor: views for the attributes of the structure `GetSOA`
   * picks, and an index view over the whole index buffer as R32_UINT.
   * The buffers' addresses and the index buffer's byte size are inputs.
   */
  method NewMesh(vertexAddress: nat, vertexCount: nat, indexAddress: nat, indexByteSize: nat, indexCount: nat,
                 flag: Flag, material: Materials.Material)
    returns (m: Mesh)
    requires vertexAddress < U64
    ensures |m.vertexViews| == |VertexLayouts.Attributes(GetSoa(flag))|
    ensures forall i :: 0 <= i < |m.vertexViews| ==>
              m.vertexViews[i] == ViewAt(vertexAddress, VertexLayouts.AttributeSizes(GetSoa(flag)), vertexCount, i)
    ensures m.indexView == IndexBufferView(indexAddress, indexByteSize, R32Uint)
    ensures m.flag == flag && m.material == material && m.indexCount == indexCount
  {
    var sizes := VertexLayouts.AttributeSizes(GetSoa(flag));
    var views := VertexBufferViews(vertexAddress, sizes, vertexCount);
    m := Mesh(flag, material, indexCount, views, IndexBufferView(indexAddress, indexByteSize, R32Uint));
  }

  /** A COMB_0 mesh gets two views of 12-byte strides; the views together span one `Vertex0` per vertex. */
  lemma Comb0MeshLayout(vertexCount: nat)
    ensures VertexLayouts.AttributeSizes(GetSoa(ShaderComb0)) == [12, 12]
    ensures Offset([12, 12], vertexCount, 2) == VertexLayouts.StructSize(VertexLayouts.Vertex0) * vertexCount
  {
    VertexLayouts.StructSizes();
    assert VertexLayouts.AttributeSizes(VertexLayouts.Vertex0) == [12, 12];
    OffsetIsScaledSum([12, 12], vertexCount, 2);
    assert [12, 12][..2] == [12, 12];
  }

  /** A recorded draw command. */
  datatype DrawCommand =
    | SetVertexBuffers(views: seq<VertexBufferView>)
    | SetIndexBuffer(view: IndexBufferView)
    | DrawIndexedInstanced(indexCount: nat)

  /**
   * `OnRender`: the material merges its part without committing, then the
   * mesh merges its own under mask 0x7 and commits; the buffers are bound
   * and one indexed instance is drawn.
   */
  function OnRender(k: FlagConstants, cache: PsoCache.Cache, m: Mesh): (r: (PsoCache.Cache, seq<Materials.RootBinding>, seq<DrawCommand>))
    requires Within(m.material.flag, MaterialMask)
    ensures r.0.cached == r.0.current
    ensures r.2 == [SetVertexBuffers(m.vertexViews), SetIndexBuffer(m.indexView), DrawIndexedInstanced(m.indexCount)]
    ensures PsoCache.Valid(k, cache) ==> PsoCache.Valid(k, r.0)
  {
    var (c1, roots) := Materials.OnRender(k, cache, m.material);
    var c2 := PsoCache.SetPipelineStateFlag(k, c1, m.flag, ShaderCombMask, true);
    (c2, roots, [SetVertexBuffers(m.vertexViews), SetIndexBuffer(m.indexView), DrawIndexedInstanced(m.indexCount)])
  }

  /** The descriptor a draw commits: the material's bits, the mesh's bits, the rest of the current descriptor. */
  function Committed(current: Flag, m: Mesh): Flag {
    (current - (MaterialMask + ShaderCombMask)) + m.material.flag + m.flag
  }

  /**
   * The committed descriptor carries both the material and the mesh bits
   * and keeps every other bit; the draw binds a state exactly when that
   * descriptor differs from the one bound before.
   */
  lemma DrawCommitsMaterialAndMesh(k: FlagConstants, cache: PsoCache.Cache, m: Mesh)
    requires Within(m.material.flag, MaterialMask) && Within(m.flag, ShaderCombMask)
    ensures OnRender(k, cache, m).0.current == Committed(cache.current, m)
    ensures Committed(cache.current, m) * MaterialMask == m.material.flag
    ensures Committed(cache.current, m) * ShaderCombMask == m.flag
    ensures Committed(cache.current, m) - (MaterialMask + ShaderCombMask) == cache.current - (MaterialMask + ShaderCombMask)
    ensures |OnRender(k, cache, m).0.bound| == |cache.bound| + (if Committed(cache.current, m) != cache.cached then 1 else 0)
  {
    var c1 := Materials.OnRender(k, cache, m.material).0;
    assert c1.current == (cache.current - MaterialMask) + m.material.flag;
    var c := Committed(cache.current, m);
    assert Merge(c1.current, m.flag, ShaderCombMask) == c by {
      MasksDisjoint();
    }
  }
}
