/**
 * `GpuBuffer` (source/core/render/dx12/GpuBuffer.hpp): a buffer of
 * `elementNum` elements of `elementSize` bytes whose byte size and element
 * addresses are computed in the source's integer widths: the element
 * count, element size and byte size are `uint32_t`, the virtual address is
 * a 64-bit `D3D12_GPU_VIRTUAL_ADDRESS`. The constructor passes its usage
 * state to `GpuResource`, which records it as both the usage state and the
 * tracked state.
 */
module GpuBuffers {
  import Utility
  import Textures
  const U32: nat := 0x1_0000_0000
  const U64: nat := 0x1_0000_0000_0000_0000

  datatype GpuBuffer = GpuBuffer(
    elementNum: nat, elementSize: nat, byteSize: nat, virtualAddress: nat,
    usageState: Textures.ResourceState,    // m_usageState
    trackedState: Textures.ResourceState)  // m_transitioningState

  /** The fields hold values of their C++ types. */
  predicate Valid(b: GpuBuffer) {
    b.elementNum < U32 && b.elementSize < U32 && b.byteSize < U32 && b.virtualAddress < U64
  }

  /**
   * The constructor: the byte size is the 32-bit product, the address starts
   * at 0, and the base records the usage state as the tracked state too.
   */
  function NewGpuBuffer(elementNum: nat, elementSize: nat, usageState: Textures.ResourceState): (b: GpuBuffer)
    requires elementNum < U32 && elementSize < U32
    ensures Valid(b)
    ensures b.usageState == usageState && b.trackedState == usageState
    ensures b.virtualAddress == 0
    ensures b.elementNum == elementNum && b.elementSize == elementSize
    ensures elementNum * elementSize < U32 ==> b.byteSize == elementNum * elementSize
    ensures b.byteSize == (elementNum * elementSize) % U32
  {
    GpuBuffer(elementNum, elementSize, (elementNum * elementSize) % U32, 0, usageState, usageState)
  }

  function GetByteSize(b: GpuBuffer): (r: nat)
    requires Valid(b)
    ensures r < U32 && r == b.byteSize
  {
    b.byteSize
  }

  /**
   * `GetGpuVirtualAddress(i)`: the base plus `i * elementSize`, the product
   * taken in 32 bits and the sum in 64 bits.
   */
  function GetGpuVirtualAddress(b: GpuBuffer, elementIndex: nat := 0): (r: nat)
    requires Valid(b) && elementIndex < U32
    ensures r < U64
    ensures elementIndex == 0 ==> r == b.virtualAddress
    ensures elementIndex * b.elementSize < U32 && b.virtualAddress + elementIndex * b.elementSize < U64 ==>
              r == b.virtualAddress + elementIndex * b.elementSize
  {
    (b.virtualAddress + (elementIndex * b.elementSize) % U32) % U64
  }

  /**
   * Reference layout: when neither the byte size nor the address wraps,
   * element `i` of an element array occupies `[base + i*size, base + (i+1)*size)`,
   * which lies inside `[base, base + byteSize)`.
   */
  lemma ElementInBounds(elementNum: nat, elementSize: nat, base: nat, i: nat, usageState: Textures.ResourceState)
    requires elementNum < U32 && elementSize < U32
    requires elementNum * elementSize < U32 && base + elementNum * elementSize < U64
    requires i < elementNum
    ensures var b := NewGpuBuffer(elementNum, elementSize, usageState).(virtualAddress := base);
      base <= GetGpuVirtualAddress(b, i) && GetGpuVirtualAddress(b, i) + elementSize <= base + GetByteSize(b)
  {
    var b := NewGpuBuffer(elementNum, elementSize, usageState).(virtualAddress := base);
    Utility.MulMono(elementSize, i + 1, elementNum);
    Utility.MulMono(elementSize, 0, i);
    assert elementSize * (i + 1) == i * elementSize + elementSize;
    assert GetGpuVirtualAddress(b, i) == base + i * elementSize;
    assert GetByteSize(b) == elementNum * elementSize;
  }

  /** Consecutive elements are one element size apart. */
  lemma ElementsAreStrided(b: GpuBuffer, i: nat)
    requires Valid(b) && i + 1 < U32
    requires (i + 1) * b.elementSize < U32 && b.virtualAddress + (i + 1) * b.elementSize < U64
    ensures GetGpuVirtualAddress(b, i + 1) == GetGpuVirtualAddress(b, i) + b.elementSize
  {
    Utility.MulMono(b.elementSize, i, i + 1);
  }

  /** The 32-bit product wraps: a byte size of 2^32 reads as 0. */
  lemma ByteSizeWraps()
    ensures NewGpuBuffer(0x1_0000, 0x1_0000, Textures.Common).byteSize == 0
  {
  }
}
