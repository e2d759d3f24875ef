/**
 * The DXR shader table `Pipeline::OnInit` fills and the dispatch
 * description that points into it (source/app/Pipeline.cpp).
 *
 * The table holds a ray-generation record and a miss record, each in a
 * 64-byte slot, then one hit record per texture: the hit-group identifier
 * followed by the texture's GPU descriptor handle, in a 32-byte-aligned
 * record. The table size and the running offset are `uint32_t` and wrap
 * modulo 2^32; descriptor handles and GPU addresses wrap modulo 2^64.
 */
module ShaderTables {
  import Utility

  const U32: nat := 0x1_0000_0000
  const U64: nat := Utility.Word

  /** `D3D12_SHADER_IDENTIFIER_SIZE_IN_BYTES`. */
  const IdentifierSize: nat := 32

  /** Bytes of a GPU descriptor handle. */
  const HandleSize: nat := 8

  /** Alignment the runtime demands of a shader table's start address. */
  const TableAlignment: nat := 64

  /** Alignment the runtime demands of a shader record's stride. */
  const RecordAlignment: nat := 32

  /** `CalcAlignment<64>(identifier size)`: the slot of the ray-generation and of the miss record. */
  function TopSlot(): (r: nat)
    ensures r == 64 && r % TableAlignment == 0 && r >= IdentifierSize
  {
    Utility.CalcAlignment(IdentifierSize, 64)
  }

  /** `CalcAlignment<32>(identifier size + 8)`: the stride of hit records. */
  function HitStride(): (r: nat)
    ensures r == 64 && r % RecordAlignment == 0 && r >= IdentifierSize + HandleSize
  {
    Utility.CalcAlignment(IdentifierSize + HandleSize, 32)
  }

  /** `CalcAlignment<32>(8)`: the room the handle takes after the identifier. */
  function HandleSlot(): (r: nat)
    ensures r == 32 && r >= HandleSize
  {
    Utility.CalcAlignment(HandleSize, 32)
  }

  /** `CalcAlignment<32>(identifier size)`: the described size of the ray-generation and miss records. */
  function RecordSize(): (r: nat)
    ensures r == 32 && r >= IdentifierSize
  {
    Utility.CalcAlignment(IdentifierSize, 32)
  }

  /** `shaderTableSize`: two top slots and `n` hit records, truncated to 32 bits. */
  function TableSize(n: nat): (r: nat)
    ensures r < U32
    ensures 128 + 64 * n < U32 ==> r == 128 + 64 * n
  {
    (TopSlot() + TopSlot() + HitStride() * n) % U32
  }

  /** Where hit record `i` is written: after the two top slots, one stride per earlier record. */
  function HitRecordOffset(i: nat): (r: nat)
    ensures r < U32
  {
    (2 * TopSlot() + i * HitStride()) % U32
  }

  /** The descriptor handle of texture `i`: the heap's texture base advanced `i` descriptors. */
  function TextureHandle(texBase: nat, descriptorSize: nat, i: nat): (r: nat)
    ensures r < U64
  {
    (texBase + i * descriptorSize) % U64
  }

  datatype Payload = RayGenIdentifier | MissIdentifier | HitGroupIdentifier | DescriptorHandle(handle: nat)

  /** One `CopyData(source, length, offset)` into the table. */
  datatype Write = Write(offset: nat, length: nat, payload: Payload)

  /** The writes hit record `i` takes: the identifier, then the handle after it. */
  function HitWrites(texBase: nat, descriptorSize: nat, i: nat): (w: seq<Write>)
    ensures |w| == 2
  {
    [Write(HitRecordOffset(i), IdentifierSize, HitGroupIdentifier),
     Write((HitRecordOffset(i) + IdentifierSize) % U32, HandleSize, DescriptorHandle(TextureHandle(texBase, descriptorSize, i)))]
  }

  /** The hit records of the first `n` textures, in order. */
  function HitRecords(texBase: nat, descriptorSize: nat, n: nat): (w: seq<Write>)
    ensures |w| == 2 * n
  {
    if n == 0 then [] else HitRecords(texBase, descriptorSize, n - 1) + HitWrites(texBase, descriptorSize, n - 1)
  }

  /** Record `i` of the hit records is the pair of writes for texture `i`. */
  lemma {:induction false} HitRecordsAt(texBase: nat, descriptorSize: nat, n: nat, i: nat)
    requires i < n
    ensures HitRecords(texBase, descriptorSize, n)[2 * i .. 2 * i + 2] == HitWrites(texBase, descriptorSize, i)
  {
    var prev := HitRecords(texBase, descriptorSize, n - 1);
    if i < n - 1 {
      HitRecordsAt(texBase, descriptorSize, n - 1, i);
      assert HitRecords(texBase, descriptorSize, n)[2 * i .. 2 * i + 2] == prev[2 * i .. 2 * i + 2];
    } else {
      assert HitRecords(texBase, descriptorSize, n)[2 * i ..] == HitWrites(texBase, descriptorSize, i);
    }
  }

  /**
   * The filling loop: ray generation at offset 0, miss at the next top
   * slot, then for each texture the hit-group identifier and its handle,
   * the offset growing by the identifier size and then by the handle slot;
   * the final offset is the table size.
   */
  method FillShaderTable(textureCount: nat, texBase: nat, descriptorSize: nat) returns (writes: seq<Write>, byteOffset: nat)
    requires texBase < U64
    ensures writes == [Write(0, IdentifierSize, RayGenIdentifier), Write(TopSlot(), IdentifierSize, MissIdentifier)]
                      + HitRecords(texBase, descriptorSize, textureCount)
    ensures byteOffset == TableSize(textureCount)
  {
    writes := [Write(0, IdentifierSize, RayGenIdentifier)];
    byteOffset := TopSlot();
    writes := writes + [Write(byteOffset, IdentifierSize, MissIdentifier)];
    byteOffset := byteOffset + TopSlot();
    var texHandle := texBase;
    var i := 0;
    while i < textureCount
      invariant i <= textureCount
      invariant writes == [Write(0, IdentifierSize, RayGenIdentifier), Write(TopSlot(), IdentifierSize, MissIdentifier)]
                          + HitRecords(texBase, descriptorSize, i)
      invariant byteOffset == HitRecordOffset(i)
      invariant texHandle == TextureHandle(texBase, descriptorSize, i)
    {
      writes := writes + [Write(byteOffset, IdentifierSize, HitGroupIdentifier)];
      byteOffset := (byteOffset + IdentifierSize) % U32;
      writes := writes + [Write(byteOffset, HandleSize, DescriptorHandle(texHandle))];
      NextRecord(i);
      byteOffset := (byteOffset + HandleSlot()) % U32;
      NextHandle(texBase, descriptorSize, i);
      texHandle := (texHandle + descriptorSize) % U64;
      i := i + 1;
    }
  }

  /** Where the filling loop puts things: ray generation first, miss second, hit record `i` at `2 + 2i`. */
  lemma FilledTableLayout(textureCount: nat, texBase: nat, descriptorSize: nat, writes: seq<Write>, i: nat)
    requires writes == [Write(0, IdentifierSize, RayGenIdentifier), Write(TopSlot(), IdentifierSize, MissIdentifier)]
                       + HitRecords(texBase, descriptorSize, textureCount)
    requires i < textureCount
    ensures |writes| == 2 + 2 * textureCount
    ensures writes[0].payload == RayGenIdentifier && writes[0].offset == 0
    ensures writes[1].payload == MissIdentifier && writes[1].offset == 64
    ensures writes[2 + 2 * i .. 4 + 2 * i] == HitWrites(texBase, descriptorSize, i)
  {
    HitRecordsAt(texBase, descriptorSize, textureCount, i);
    assert writes[2..][2 * i .. 2 * i + 2] == writes[2 + 2 * i .. 4 + 2 * i];
  }

  /** The offset after a hit record's identifier and handle slot is the next record's offset. */
  lemma NextRecord(i: nat)
    ensures ((HitRecordOffset(i) + IdentifierSize) % U32 + HandleSlot()) % U32 == HitRecordOffset(i + 1)
  {
    Utility.ModAddLeft(2 * TopSlot() + i * HitStride(), IdentifierSize, U32);
    Utility.ModAddLeft(2 * TopSlot() + i * HitStride() + IdentifierSize, HandleSlot(), U32);
  }

  lemma NextHandle(texBase: nat, descriptorSize: nat, i: nat)
    ensures (TextureHandle(texBase, descriptorSize, i) + descriptorSize) % U64 == TextureHandle(texBase, descriptorSize, i + 1)
  {
    Utility.ModAddLeft(texBase + i * descriptorSize, descriptorSize, U64);
  }

  /**
   * Without wrap-around, every write lies inside the table, and each hit
   * record's two writes end before the next record starts.
   */
  lemma {:induction false} WritesInBounds(n: nat, texBase: nat, descriptorSize: nat, i: nat)
    requires 128 + 64 * n < U32 && i < n
    ensures IdentifierSize <= TopSlot() && TopSlot() + IdentifierSize <= HitRecordOffset(0)
    ensures var w := HitWrites(texBase, descriptorSize, i);
      && w[0].offset == 128 + 64 * i
      && w[0].offset + w[0].length <= w[1].offset
      && w[1].offset + w[1].length <= w[0].offset + HitStride()
      && w[1].offset + w[1].length <= TableSize(n)
  {
    Utility.DivModUnique(128 + 64 * i, U32, 0, 128 + 64 * i);
    Utility.DivModUnique(128 + 64 * i + 32, U32, 0, 128 + 64 * i + 32);
    Utility.DivModUnique(128, U32, 0, 128);
  }

  /** A range of shader records: start address, size and stride, as the dispatch description holds them. */
  datatype RecordRange = RecordRange(start: nat, size: nat, stride: nat)

  datatype DispatchTables = DispatchTables(rayGen: RecordRange, miss: RecordRange, hitGroup: RecordRange)

  /** The shader-table part of the dispatch description, for a table at GPU address `va`. */
  function DescribeTables(va: nat, textureCount: nat): (d: DispatchTables)
    requires va < U64
    ensures d.rayGen.start == va
    ensures d.miss.start == (va + TopSlot()) % U64
    ensures d.hitGroup.start == (va + 2 * TopSlot()) % U64
    ensures d.miss.stride % RecordAlignment == 0 && d.hitGroup.stride % RecordAlignment == 0
    ensures d.rayGen.size >= IdentifierSize && d.miss.size >= IdentifierSize
    ensures d.hitGroup.stride >= IdentifierSize + HandleSize
  {
    DispatchTables(
      RecordRange(va, RecordSize(), 0),
      RecordRange((va + TopSlot()) % U64, RecordSize(), RecordSize()),
      RecordRange((va + TopSlot() * 2) % U64, (HitStride() * textureCount) % U64, HitStride()))
  }

  /**
   * The description agrees with the writes: for a table placed at a
   * 64-byte-aligned address with nothing wrapping, every table starts on a
   * 64-byte boundary, ray generation and miss start where their
   * identifiers were written, hit record `i` sits at `start + i * stride`
   * exactly where the loop wrote it, and the hit-group range ends at the
   * end of the table.
   */
  lemma DescriptionMatchesWrites(va: nat, textureCount: nat)
    requires va < U64 && va % TableAlignment == 0
    requires 128 + 64 * textureCount < U32 && va + 128 + 64 * textureCount < U64
    ensures var d := DescribeTables(va, textureCount);
      && d.rayGen.start % TableAlignment == 0
      && d.miss.start % TableAlignment == 0
      && d.hitGroup.start % TableAlignment == 0
      && d.miss.start == va + TopSlot()
      && (forall i :: 0 <= i < textureCount ==> d.hitGroup.start + i * d.hitGroup.stride == va + HitRecordOffset(i))
      && d.hitGroup.start + d.hitGroup.size == va + TableSize(textureCount)
  {
    var n := textureCount;
    Utility.DivModUnique(va + 64, U64, 0, va + 64);
    Utility.DivModUnique(va + 128, U64, 0, va + 128);
    Utility.DivModUnique(64 * n, U64, 0, 64 * n);
    var q := va / 64;
    assert va == 64 * q;
    Utility.DivModUnique(va + 64, 64, q + 1, 0);
    Utility.DivModUnique(va + 128, 64, q + 2, 0);
    forall i | 0 <= i < n
      ensures (va + 128) + i * 64 == va + HitRecordOffset(i)
    {
      Utility.MulMono(64, i, n);
      Utility.DivModUnique(128 + i * 64, U32, 0, 128 + i * 64);
    }
  }
}
