# A Dafny model of a Direct3D 12 / DXR renderer's sequential core

The renderer is a deferred, ray-traced renderer built on Direct3D 12 and
DXR. Most of it is GPU plumbing. Inside that plumbing sit several pieces of
sequential logic that decide what the GPU is told to do. This project models
those pieces with the GPU abstracted away, and proves properties of them:

- **Pipeline-state descriptors** (`dx_utility.dfy`, `pipeline_decode.dfy`,
  `graphics_manager.dfy`). A 64-bit descriptor is built up by masked merges
  `(current & ~mask) | flag`. A state is bound only on a final merge that
  changes the descriptor. `CreatePipelineStateObject` decodes the descriptor
  into a shader combination, cull mode, winding, render-target layout or
  compute variant, and caches the result in a map keyed by the descriptor.
- **Materials, meshes and the G-buffer pass** (`dx12_material.dfy`,
  `dx12_mesh.dfy`, `pipeline.dfy`). Material, mesh and pass each merge a
  disjoint field of the descriptor. The model proves which descriptor a draw
  commits, and checks it against the set of objects created at start-up.
- **Command queue** (`command_queue.dfy`). This covers the monotone fence
  counter, the FIFO of `(fence value, allocator)` entries and the
  command-list FIFO. An allocator is reused only after the GPU has passed
  its fence.
- **Frame ring** (`frame_ring.dfy`). The per-frame slot index advances
  modulo the frame count and is re-seeded from the back buffer on resize.
  Each slot's fence is awaited and then recorded. A per-slot dirty flag
  pays for exactly one acceleration-structure refit.
- **Resource-state tracking** (`texture2d.dfy`, `gbuffer.dfy`).
  `Texture2D::ChangeState` emits a barrier only on a change of state. The
  G-buffer drives five such textures.
- **Layout arithmetic** (`utility.dfy`, `utils.dfy`, `descriptor_layout.dfy`,
  `shader_table.dfy`, `gpu_buffer.dfy`, `dx12_struct.dfy`). This covers
  power-of-two round-up, per-frame descriptor slots, constant-buffer views,
  the DXR shader-table layout, vertex-buffer views and element addressing.
- **Denoising schedule** (`denoise.dfy`). The three UI toggles decide which
  compute passes are dispatched, in which order, and with which UAV and SRV
  tables and descriptor masks.
- **Scene graph** (`scene_node.dfy`, `camera.dfy`). This covers dirty
  propagation by `Pollute`, the update traversal, and the constant-buffer
  writes gated by `dirtyCount`. It also covers the render traversal that
  binds those constants, and the camera's input handling and zoom clamp.
- **glTF primitive validation** (`dx12_model.dfy`). This covers the
  attribute checks, the choice of vertex structure and the buffer sizing.

## Representation

A pipeline-state descriptor (`uint64_t` in the source) is modelled as the
set of its one-bits, `set<nat>`, with bit `b` standing for `2^b`. Under this
representation:

- `a & b` is `a * b` (intersection);
- `a | b` is `a + b` (union);
- `a & ~m` is `a - m` (difference);
- "`a` uses no bit outside `m`" is `a <= m` (the predicate `Within`);
- a descriptor fits in 64 bits when every bit position is below 64 (`IsWord`).

This representation is exact for the bitwise operations the source applies
to descriptors: it never adds or multiplies them arithmetically.

Some descriptor constants are used by the source but not defined in the
enum: `RENDER_GBUFFER`, `RENDER_COMPUTE_SHADER` and the nine `DENOISE_*`
values. They are fields of a `FlagConstants` record (`FlagConstants.Valid`),
constrained by what the code relies on:

- `RENDER_GBUFFER` is non-zero. The composite and back-buffer descriptors
  leave the render-target field at 0. If `RENDER_GBUFFER` were 0 too, those
  descriptors would decode to five G-buffer targets instead of one
  back-buffer target (`DecodeEncodeGraphics`).
- `RENDER_GBUFFER` lies within `0x7000`.
- `RENDER_COMPUTE_SHADER` is non-zero. The decoder selects the compute path
  on `flag & RENDER_COMPUTE_SHADER`, which would never hold for 0.
- Each variant lies within `0xF`, and the nine variants are distinct.
- `RENDER_COMPUTE_SHADER | variant` lies within `0x800F`.
- The compute marker is disjoint from the variant nibble.

The last two conditions, with `RENDER_COMPUTE_SHADER` non-zero, force the
compute marker to be bit 15 (`ComputeShaderBit`).

Other modelling choices:

- Integer widths are explicit. `size_t`/`uint64_t` sums wrap modulo 2^64
  (`Utility.Word`), and `uint32_t` products wrap modulo 2^32.
- Matrices are an opaque datatype: `Product(a, b)` stands for `a * b`.
- The value the GPU has completed on a fence is the queue's `completed`
  field. Only `GpuProgress` advances it, monotonically and never past the
  last signalled value. A wait takes the value the GPU has reached when the
  caller wakes as a parameter.
- A C++ `assert` in the model loader is a debug-build stop. It is modelled
  as an error result.

## Model

| member | source | states |
|---|---|---|
| Utility.CalcAlignment | source/utility/Utility.hpp:24-27 | The round-up is a multiple of the power-of-two alignment and stays below 2^64. When `x + A - 1` does not wrap, it lies in `[x, x + A)`. An aligned `x` is returned unchanged. The default alignment is 4. |
| Utility.CalcAlignmentIdempotent | source/utility/Utility.hpp:24-27 | Rounding up an already rounded size changes nothing. |
| Utility.CalcAlignmentIsLeastMultiple | source/utility/Utility.hpp:24-27 | When nothing wraps, the result is no larger than any multiple of `A` that is at least `x`, so it is the least such multiple. |
| Utility.RoundUpFacts | source/utility/Utility.hpp:26 | Clearing the low bits of the wrapped sum `x + A - 1` gives a 64-bit multiple of `A`. It lies within `A` above `x` when nothing wraps, and equals `x` for aligned `x`. |
| Utility.AlignedNeverOverflows | source/utility/Utility.hpp:26 | For an aligned `x` below 2^64, the sum `x + A - 1` never wraps. |
| Utils.CalcAlignment | source/utility/Utils.hpp:16-19 | The duplicate computes the same value as the Utility version. It is a multiple of `A`, and `x <= r < x + A` when nothing wraps. |
| Utils.CalcAlignmentIdempotent | source/utility/Utils.hpp:16-19 | The duplicate is idempotent on its own output. |
| PipelineFlags.MasksDisjoint | source/core/render/dx12/DxUtility.hpp:68-85 | The shader-combination (0x7), cull (0x18) and winding (0x20) fields are pairwise disjoint. The material mask 0x38 is cull plus winding. |
| PipelineFlags.EnumValuesWithinFields | source/core/render/dx12/DxUtility.hpp:72-91 | Every enumerator lies in its field. `DEFAULT_FLAG` (0x30) is `COMB_0 \| CULL_MODE_BACK \| FRONT_COUNTER_CLOCKWISE`. |
| PipelineFlags.Merge | source/core/render/dx12/GraphicsManager.cpp:359 | After a masked merge, the bits inside the mask are the flag's. The bits outside it are the old ones plus any the flag sets outside the mask, and none when the flag lies within the mask. A 64-bit input gives a 64-bit result. |
| PipelineFlags.MergeIdempotent | source/core/render/dx12/GraphicsManager.cpp:359 | Repeating a masked merge changes nothing more. |
| PipelineFlags.MergeCommutes | source/core/render/dx12/GraphicsManager.cpp:359 | Merges into disjoint fields commute, so material, mesh and pass may update in any order. |
| PipelineFlags.MergeOverwrites | source/core/render/dx12/GraphicsManager.cpp:359 | A later merge into a field hides an earlier merge into the same field. |
| PipelineFlags.MergeWholeMaskReplaces | source/core/render/dx12/GraphicsManager.cpp:359 | A merge under `0xFFFFFFFF` replaces a descriptor that uses only the low 32 bits. |
| PipelineDecode.IndexOf | source/core/render/dx12/GraphicsManager.cpp:218-248 | A chain of case labels selects the first label equal to the value. When no label matches, the default branch is taken. |
| PipelineDecode.EncodeGraphics | source/core/render/dx12/DxUtility.hpp:72-85 | A graphics configuration's descriptor uses only the combination, cull, winding and render-target fields. |
| PipelineDecode.EncodeCompute | source/core/render/dx12/GraphicsManager.cpp:212-218 | `RENDER_COMPUTE_SHADER \| variant` lies within 0x800F. |
| PipelineDecode.DecodeEncodeGraphics | source/core/render/dx12/GraphicsManager.cpp:255-339 | Round trip: the decoder recovers every field of a graphics descriptor. `RENDER_GBUFFER` gives five targets plus depth, and anything else one back-buffer target. Combinations 0-2 select shaders 0-2 and COMB_3 none. Combinations 0 and 1 select `Vertex0` and `Vertex1`. The cull field and the 0x20 winding bit are read as encoded. |
| PipelineDecode.EncodeGraphicsInjective | source/core/render/dx12/GraphicsManager.cpp:255-339 | Distinct graphics configurations never share a descriptor. |
| PipelineDecode.ComputeShaderBit | source/core/render/dx12/GraphicsManager.cpp:212-218 | The compute marker can only be bit 15, the one bit of 0x800F outside the variant nibble. |
| PipelineDecode.DecodeEncodeCompute | source/core/render/dx12/GraphicsManager.cpp:212-248 | The compute bit is tested first. Variant `i` of the nine selects compute shader `i`. |
| PipelineDecode.UnknownVariantHasNoShader | source/core/render/dx12/GraphicsManager.cpp:218-248 | The decoded description has no compute shader exactly when the descriptor is a compute one whose low nibble matches no variant. |
| PsoCache.NewCache | source/core/render/dx12/GraphicsManager.cpp:7-12 | A new manager starts with current and cached descriptor both `INITIAL_FLAG`, and with nothing created or bound. |
| PsoCache.NewCacheValid | source/core/render/dx12/GraphicsManager.cpp:7-12 | A new manager satisfies the cache invariant. |
| PsoCache.Lookup | source/core/render/dx12/GraphicsManager.cpp:362 | Indexing the map at a missing key yields a null object. |
| PsoCache.SetPipelineStateFlag | source/core/render/dx12/GraphicsManager.cpp:357-366 | The descriptor is merged. A state is bound exactly when the call is final and the merged descriptor differs from the bound one. The object bound is the map's entry, a null entry being inserted for a missing key, and the bound descriptor is then the cached one. No existing entry changes. |
| PsoCache.CreatePipelineStateObject | source/core/render/dx12/GraphicsManager.cpp:209-355 | Creation fails exactly for a compute descriptor whose low nibble matches no variant. The failed call leaves a null entry under that key. Otherwise a compute descriptor always (re)creates its object, and a graphics descriptor creates one only when its key is absent. The created object is the decoded one, and the cache invariant is kept. |
| PsoCache.UnknownVariantThrows | source/core/render/dx12/GraphicsManager.cpp:244-252 | A compute descriptor with an unknown variant throws. The map then holds a null entry under that key, which a later lookup returns. |
| PsoCache.RepeatedFinalBindEmitsOnce | source/core/render/dx12/GraphicsManager.cpp:357-366 | Repeating the same final merge binds nothing the second time and changes no state. |
| PsoCache.NonFinalNeverEmits | source/core/render/dx12/GraphicsManager.cpp:361 | A non-final call changes only the current descriptor. |
| PsoCache.GraphicsCreatedOnce | source/core/render/dx12/GraphicsManager.cpp:255-258 | Creating a graphics descriptor never throws, and creating it twice creates it once. |
| PsoCache.ComputeAlwaysCreated | source/core/render/dx12/GraphicsManager.cpp:212-252 | Creating a known compute descriptor twice compiles it twice. |
| PsoCache.BindAfterCreate | source/core/render/dx12/GraphicsManager.cpp:362 | Binding a descriptor whose object was created binds exactly the decoded state. |
| PsoCache.BindWithoutCreateIsNull | source/core/render/dx12/GraphicsManager.cpp:362 | Binding a descriptor that was never created binds a null object and inserts the key. |
| PsoCache.UpperHalfStaysClear | source/core/render/dx12/GraphicsManager.cpp:359 | Merging a low-32-bit value into a low-32-bit descriptor keeps the upper half clear. |
| PsoCache.GetInstance | source/core/render/dx12/GraphicsManager.hpp:27-30 | The first call creates a new manager and stores it. Later calls return the stored one. |
| PsoCache.GetInstanceStable | source/core/render/dx12/GraphicsManager.hpp:27-30 | Every call after the first returns the instance the first call created. |
| VertexLayouts.Attributes | source/asset/dx12/Dx12Struct.hpp:21-31 | `Vertex0` is POSITION and NORMAL, each 3 floats. `Vertex1` adds TANGENT (4 floats) and TEXCOORD (2 floats). Every attribute is Float with semantic index 0 and 2 to 4 components. |
| VertexLayouts.AttributeSizes | source/asset/dx12/Dx12Struct.hpp:6-18 | One size per attribute, in declaration order, each the size of its reflected vector type. |
| VertexLayouts.StructSizes | source/asset/dx12/Dx12Struct.hpp:21-31 | `Vertex0` packs 24 bytes and `Vertex1` 48, and `Vertex1` begins with `Vertex0`'s members. |
| Materials.NewMaterial | source/asset/dx12/Dx12Material.cpp:10-11 | A double-sided material culls nothing and a single-sided one culls front faces. Both treat counter-clockwise triangles as front-facing, and the flag lies within 0x38. |
| Materials.MaterialFlagValues | source/asset/dx12/Dx12Material.cpp:10-11 | The two material descriptors are 0x20 and 0x28. |
| Materials.MaterialFlagInjective | source/asset/dx12/Dx12Material.cpp:10-11 | Materials differ in their descriptor exactly when they differ in sidedness. |
| Materials.OnRender | source/asset/dx12/Dx12Material.cpp:14-18 | The material field becomes the material's flag, every other bit stays, and nothing is bound. It then binds the constants to root parameter 2 and the textures to root parameter 3. |
| Meshes.GetSoa | source/asset/dx12/Dx12Mesh.cpp:15-25 | The whole flag selects `Vertex0` exactly when it equals COMB_0. COMB_1 and every other value select `Vertex1`. |
| Meshes.ViewAt | source/asset/dx12/Dx12Mesh.cpp:40-45 | Each view's location, size and stride fit their 64-, 32- and 32-bit fields. |
| Meshes.VertexBufferViews | source/asset/dx12/Dx12Mesh.cpp:36-48 | The loop yields one view per attribute. View `i` starts at the buffer address plus the byte sizes of the earlier attributes. |
| Meshes.ViewsContiguous | source/asset/dx12/Dx12Mesh.cpp:36-48 | Without wrap-around the views tile the buffer. The first starts at the base, each has stride equal to its attribute size and size `size * vertexCount`, and each next one starts where the previous ends. |
| Meshes.ViewAtNoWrap | source/asset/dx12/Dx12Mesh.cpp:43-45 | Without wrap-around a view's fields are the exact unbounded sums and products. |
| Meshes.OffsetIsScaledSum | source/asset/dx12/Dx12Mesh.cpp:36-48 | The bytes the first `i` views cover equal `vertexCount` times the sum of the first `i` attribute sizes. |
| Meshes.NewMesh | source/asset/dx12/Dx12Mesh.cpp:3-55 | The constructor builds one view per attribute of the selected structure, laid out as above. The index view covers the whole index buffer as R32_UINT. |
| Meshes.Comb0MeshLayout | source/asset/dx12/Dx12Mesh.cpp:15-48 | A COMB_0 mesh gets two 12-byte-stride views that together span one `Vertex0` per vertex. |
| Meshes.OnRender | source/asset/dx12/Dx12Mesh.cpp:57-67 | The draw commits the descriptor, keeps the cache invariant, binds the vertex and index buffers, and draws one indexed instance. |
| Meshes.DrawCommitsMaterialAndMesh | source/asset/dx12/Dx12Mesh.cpp:59-60 | The committed descriptor carries the material's bits in 0x38 and the mesh's bits in 0x7, and keeps every other bit. A state is bound exactly when it differs from the one bound before. |
| Models.ScanAttributes | source/asset/dx12/Dx12Model.cpp:25-51 | The loop succeeds exactly when every attribute is float with its semantic's shape. On failure it reports the first failing attribute. On success it reports which known semantics occur, and a vertex count equal to the last attribute's count. |
| Models.BuildPrimitive | source/asset/dx12/Dx12Model.cpp:18-110 | A primitive builds exactly when all assertions hold. The index buffer is 4 bytes per index. `Vertex0` is used exactly for 2 or 3 attributes. The vertex buffer is struct size times vertex count, wrapped to 64 bits. Each error names the assertion that failed. |
| Models.TwoRequiredNames | source/asset/dx12/Dx12Model.cpp:63-66 | With POSITION and NORMAL present, there are at least two attributes. |
| Models.FourAttributesAreTheKnownOnes | source/asset/dx12/Dx12Model.cpp:85-95 | A well-formed four-attribute primitive has exactly the four known semantics, so the `Vertex1` path copies every attribute. |
| SceneGraph.NewNode | source/asset/SceneNode.cpp:3-10 | A new node is visible and dirty, in composite mode, with `dirtyCount = FrameCount` and no children. |
| SceneGraph.ObjectOffset | source/asset/dx12/Dx12SceneNode.cpp:16 | A node's constant offset is its index times the 256-aligned structure size, wrapped to 64 bits. |
| SceneGraph.Pollute | source/asset/SceneNode.cpp:62-69 | The node ends dirty, and an already dirty node is untouched. Only dirty flags change. |
| SceneGraph.PolluteAll | source/asset/SceneNode.cpp:64-66 | Each child subtree is polluted in turn. |
| SceneGraph.PolluteDirtiesSubtree | source/asset/SceneNode.cpp:62-69 | On a tree where everything below a dirty node is dirty, `Pollute` leaves the whole subtree dirty. |
| SceneGraph.PolluteAtKeepsInvariant | source/asset/SceneNode.cpp:62-69 | Polluting any node of the tree keeps the invariant "below a dirty node everything is dirty". |
| SceneGraph.PolluteAtAllDirty | source/asset/SceneNode.cpp:62-69 | Polluting inside an all-dirty tree changes nothing. |
| SceneGraph.SetMatrix | source/asset/SceneNode.cpp:40-50 | Composite mode is selected, and each given factor replaces the old one while a missing factor keeps it. The subtree ends all dirty. |
| SceneGraph.SetSingleMatrix | source/asset/SceneNode.cpp:52-56 | Single-matrix mode is selected and the local transform is the given matrix. The subtree ends all dirty. |
| SceneGraph.PassesPartitionComponents | source/asset/dx12/Dx12SceneNode.cpp:35-37 | Every component runs in exactly one of the two passes: non-mesh components on update, static meshes on render. |
| SceneGraph.OnUpdate | source/asset/dx12/Dx12SceneNode.cpp:3-20 | An update ends clean. A dirty node's world transform becomes its local one times the parent's, and a clean node keeps its transform. `dirtyCount` is reset on dirty and then drops by one without underflow. |
| SceneGraph.OwnWrite | source/asset/dx12/Dx12SceneNode.cpp:6-19 | A node writes its own constants exactly once while a write is owed. |
| SceneGraph.UpdateAll | source/asset/SceneNode.cpp:26-28 | Every child is updated under the new world transform. |
| SceneGraph.UpdateCleansTree | source/asset/SceneNode.cpp:12-30 | After an update no node of the tree is dirty. |
| SceneGraph.UpdateWritesWriters | source/asset/dx12/Dx12SceneNode.cpp:6-19 | An update writes the constants of exactly the nodes that were dirty or still owed a write, each once. |
| SceneGraph.UpdateSettlesCounts | source/asset/dx12/Dx12SceneNode.cpp:6-18 | After an update, no node owes a write, provided every count is bounded by `FrameCount`. |
| SceneGraph.SecondUpdateWritesNothing | source/asset/dx12/Dx12SceneNode.cpp:6-18 | Without a new `Pollute`, a second update writes no constants. |
| SceneGraph.SceneOnUpdate | source/asset/SceneNode.cpp:71-88 | The root's world transform is its local one, the root ends clean, and every child is updated under it. |
| SceneGraph.SceneUpdateCleansScene | source/asset/SceneNode.cpp:71-88 | After the root updates, no node of the scene is dirty. |
| SceneGraph.OnRender | source/asset/dx12/Dx12SceneNode.cpp:24-43 | A node with components first binds its constants at the buffer address plus its offset. |
| SceneGraph.SceneOnRender | source/asset/SceneNode.cpp:90-94 | The root renders only its children. |
| SceneGraph.RenderBindsWhatUpdateWrote | source/asset/dx12/Dx12SceneNode.cpp:14-33 | The render pass binds the address plus exactly the offset the update pass wrote at. |
| Cameras.MoveOf | source/asset/SceneNode.cpp:128-172 | Exactly W, S, D, A (either case) are movement keys. |
| Cameras.CameraInput | source/asset/SceneNode.cpp:126-185 | Every input pollutes, and the subtree ends all dirty. An input that is neither a movement key nor mouse movement changes nothing else. |
| Cameras.Wheel | source/asset/SceneNode.cpp:276-281 | The new distance lies in `[min, max]` and equals the moved distance when that is strictly inside. The bounds are unchanged. |
| Cameras.PersonInput | source/asset/SceneNode.cpp:223-289 | Every input pollutes. Only a third-person camera's wheel changes the zoom, and it keeps the distance within bounds. |
| Cameras.ZoomStaysInBounds | source/asset/SceneNode.cpp:243-289 | From construction on, whatever the inputs, the distance stays in `[20, 1000]`. |
| Cameras.ZoomsKeepBounds | source/asset/SceneNode.cpp:276-281 | Any run of inputs keeps an in-bounds distance in bounds. |
| Cameras.CameraOnUpdate | source/asset/dx12/Dx12SceneNode.cpp:45-61 | A camera update ends clean, and a dirty camera's world transform becomes `r`. The main constants are written exactly when a write is owed, and `dirtyCount` drops without underflow. |
| Cameras.SettledCameraWritesNothing | source/asset/dx12/Dx12SceneNode.cpp:48 | A clean camera that owes no write leaves the main constants alone. |
| Cameras.InputThenUpdatesWriteOnce | source/asset/dx12/Dx12SceneNode.cpp:45-61 | After any input, the next update writes the main constants and the one after does not. |
| CommandQueues.NewQueue | source/core/render/dx12/CommandQueue.cpp:3-19 | A new queue satisfies the invariant. Fence 0 is complete and fence 1 is not. |
| CommandQueues.GpuProgress | source/core/render/dx12/CommandQueue.cpp:69-71 | The GPU's completed value only grows, so a complete fence stays complete. |
| CommandQueues.Signal | source/core/render/dx12/CommandQueue.cpp:63-67 | The counter grows by exactly one, the new value is returned, and it is not yet complete. |
| CommandQueues.WaitForFenceValue | source/core/render/dx12/CommandQueue.cpp:73-79 | A complete value returns at once with nothing changed. Otherwise the wait returns exactly when the value was signalled, and then the value is complete. |
| CommandQueues.Flush | source/core/render/dx12/CommandQueue.cpp:81-83 | Afterwards every signalled value, and every queued allocator's fence, is complete. |
| CommandQueues.GetCommandList | source/core/render/dx12/CommandQueue.cpp:23-53 | The front allocator is popped and reused exactly when the queue is non-empty and its fence is complete; otherwise a new one is created. The front command list is reused whenever there is one, with no fence check. |
| CommandQueues.ExecuteCommandList | source/core/render/dx12/CommandQueue.cpp:97-115 | Submission signals, queues `(new fence, allocator)` and the list at the backs of the FIFOs, and returns the new fence. The fences in the FIFO stay strictly increasing. |
| CommandQueues.HandedOutAllocatorIsIdle | source/core/render/dx12/CommandQueue.cpp:28-37 | An allocator handed out is new or one whose last submission is complete, so it is never reset while in use. |
| CommandQueues.PendingFrontBlocksAll | source/core/render/dx12/CommandQueue.cpp:28-37 | When the front entry is pending, every entry behind it is pending too, and a new allocator is created. |
| CommandQueues.SubmissionsIncrease | source/core/render/dx12/CommandQueue.cpp:97-115 | Consecutive submissions return consecutive fence values. |
| CommandQueues.FlushThenReuse | source/core/render/dx12/CommandQueue.cpp:81-83 | After a flush the next request reuses the front allocator. |
| FrameRing.NewFrameResource | source/core/render/dx12/GraphicsManager.hpp:11-13 | A new slot has fence 0, which every queue regards as complete. |
| FrameRing.Next | source/core/render/dx12/GraphicsManager.cpp:188 | `(i + 1) % n`: the next slot, wrapping from the last to 0. |
| FrameRing.Reseed | source/core/render/dx12/GraphicsManager.cpp:182 | `(backBuffer + n - 1) % n` is the slot whose successor is the back buffer. |
| FrameRing.NewManagerRing | source/core/render/dx12/GraphicsManager.cpp:7-21 | The manager starts with one fresh slot per frame, satisfies the invariant, and has frame index 0. |
| FrameRing.NewRenderResourceRing | source/core/render/dx12/RenderResource.cpp:3-118 | A render resource reseeds its index so that the first advance lands on the back buffer. |
| FrameRing.ManagerFirstUpdate | source/core/render/dx12/GraphicsManager.cpp:8-21 | Without a resize, the manager's first advance lands on slot 1, whatever the back buffer. After a resize, it lands on the back buffer. |
| FrameRing.GetFrameResource | source/core/render/dx12/GraphicsManager.hpp:63 | The current slot is one of the ring's, and its fence has been signalled. |
| FrameRing.Advance | source/core/render/dx12/GraphicsManager.cpp:188-190 | The index steps to the next slot, and that slot's fence is complete when the wait returns. |
| FrameRing.OnUpdate | source/core/render/dx12/GraphicsManager.cpp:188-199 | After the advance, a dirty slot records exactly one update-mode refit sourced from its own top-level structure and is cleared. A clean slot records none. |
| FrameRing.OnRender | source/core/render/dx12/GraphicsManager.hpp:35-45 | The submission's fence is stored in the current slot only, and it is newer than every other slot's. |
| FrameRing.OnResize | source/core/render/dx12/GraphicsManager.cpp:182 | The index is re-seeded so that the next advance lands on the back buffer. |
| FrameRing.FirstUpdateLandsOnBackBuffer | source/core/render/dx12/GraphicsManager.cpp:182-189 | The first advance after a resize lands on the back buffer. |
| FrameRing.RefitsConsumeMarks | source/core/render/dx12/GraphicsManager.cpp:193-199 | Over any run of frames, refits recorded plus slots still dirty is constant. With no slot marked, no refit is ever recorded. |
| FrameRing.TickTouchesOneSlot | source/core/render/dx12/GraphicsManager.hpp:43 | A frame overwrites only the fence of the slot it lands on. |
| FrameRing.RenderResourceOnUpdate | source/core/render/dx12/RenderResource.hpp:39-43 | The older ring advances the index, and the new slot's fence is complete before a list is handed out. |
| FrameRing.RenderResourceFlush | source/core/render/dx12/RenderResource.hpp:50-52 | `Flush` (and `OnResize`) leave every slot's fence complete. |
| DescriptorLayout.Slot | source/core/render/dx12/GraphicsManager.cpp:87-124 | Slot `i` uses render-target view `6i`, G-buffer views `6i+1..6i+5`, and shader-visible views `9i..9i+8` in the order G-buffer, uav0, uav1, srv0, srv1. Its uav2 is below `9n+8`. |
| DescriptorLayout.AssignSlots | source/core/render/dx12/GraphicsManager.cpp:87-124 | The two running-handle loops assign exactly the closed-form slots. |
| DescriptorLayout.SlotsInRange | source/core/render/dx12/GraphicsManager.cpp:73-124 | Every view of every slot lies inside its heap of `6n` and `9n+8` descriptors. |
| DescriptorLayout.SlotsDisjoint | source/core/render/dx12/GraphicsManager.cpp:87-124 | Distinct slots' shader-visible views never overlap. Only uav2 is shared. |
| DescriptorLayout.AssignFrameRtvs | source/core/render/dx12/RenderResource.cpp:67-75 | Frame `n`'s render-target view is at heap index `n`. |
| DescriptorLayout.Align256 | source/core/render/dx12/RenderResource.cpp:181-182 | Constant-buffer view sizes are the least multiples of 256 at or above the structure size. |
| DescriptorLayout.CreateCbvs | source/core/render/dx12/RenderResource.cpp:168-213 | Frame `f`'s main view is at the 32-bit signed index `f*perFrame`, where `perFrame` is `numObject + 1` truncated to `uint32`. Object `k`'s view follows at buffer offset `k * objectSize` modulo 2^64. Both sizes are rounded up to 256 and truncated to `UINT`. |
| DescriptorLayout.NumConstPerFrame | source/core/render/dx12/RenderResource.cpp:171 | The per-frame count is below 2^32, equals `numObject + 1` when that fits, and is 0 when `numObject + 1 == 2^32`. |
| DescriptorLayout.CbvHeapSize | source/core/render/dx12/RenderResource.cpp:175 | The heap size is below 2^32 and equals `frameCount*(numObject+1) + numMat + numTex` when that fits. |
| DescriptorLayout.CbvSlot | source/core/render/dx12/RenderResource.cpp:189-192 | The `INT` offset is read as two's complement. Below 2^31 the view index is `f*perFrame + k`. |
| DescriptorLayout.CbvBlocks | source/core/render/dx12/RenderResource.cpp:185-211 | The nested loops create `perFrame` views per frame at the truncated indices, offsets and sizes above. |
| DescriptorLayout.CbvRangesDisjoint | source/core/render/dx12/RenderResource.cpp:171-209 | While `frameCount*(numObject+1) + numMat + numTex < 2^31`, views of distinct frames or objects never share an index. All lie below `frameCount*(numObject+1)`, inside the heap of size `CbvHeapSize`. |
| DescriptorLayout.CbvCountWraps | source/core/render/dx12/RenderResource.cpp:171-193 | With `numObject = 2^32 - 1`, the per-frame count wraps to 0. Frames 0 and 1 then share main view 0, and the heap holds only the material and texture views. |
| Textures.ChangeState | source/core/render/dx12/Texture2D.hpp:68-75 | A barrier is emitted exactly when the state changes, from the tracked state to the new one. The tracked state becomes the new one and nothing else changes. A texture whose tracked state was actual stays so, and its barrier is correct. |
| Textures.ChangeStateTwice | source/core/render/dx12/Texture2D.hpp:68-75 | Asking for the same state twice emits at most one barrier. |
| Textures.NewTextureAsWritten | source/core/render/dx12/Texture2D.hpp:7-27 | The usage state is UNORDERED_ACCESS exactly when the flag is ALLOW_UNORDERED_ACCESS, and the resource is created in it. The tracked state stays the base class's COMMON. |
| Textures.UavTextureInconsistent | source/core/render/dx12/Texture2D.hpp:18 | As written, a UAV texture's tracked state is not its actual state. Its first barrier starts from the wrong state, and a request for COMMON emits nothing while the texture stays in UAV state. |
| Textures.NewTexture | source/core/render/dx12/Texture2D.hpp:18-24 | Corrected: the tracked state starts as the creation state, so the texture is consistent. |
| Textures.ConstructorsAgreeWithoutUav | source/core/render/dx12/Texture2D.hpp:18 | The two constructors differ only for UAV textures. |
| Textures.ChangeStatesCorrect | source/core/render/dx12/Texture2D.hpp:68-75 | Any run of state requests on a consistent texture keeps it consistent. Every barrier starts where the previous one left the resource, and none is trivial. |
| Textures.NewUploadedTexture | source/core/render/dx12/Texture2D.hpp:29-66 | The upload constructor records exactly COMMON to COPY_DEST, then COPY_DEST to COMMON, and ends tracking COMMON. |
| Textures.UploadRowPitch | source/core/render/dx12/Texture2D.hpp:54 | The row pitch is a 32-bit multiple of 256, and within 256 above `width * 4` when nothing wraps. |
| GBuffers.SlotsAreABijection | source/core/render/dx12/GBuffer.hpp:61-68 | The RTV and SRV slots are baseColor, misc, position, normal, objectID: one slot per target. |
| GBuffers.FormatOf | source/core/render/dx12/GBuffer.hpp:48-52 | objectID is R32_UINT and every other target RGBA32F. |
| GBuffers.NewPrePass | source/core/render/dx12/GBuffer.hpp:19-39 | RTV handle `k` is the base plus `k` increments. No texture exists yet. |
| GBuffers.ResizeBuffer | source/core/render/dx12/GBuffer.hpp:41-97 | Every target gets a render-target texture of its format. RTVs are written in the existing handles, and SRVs consecutively from the SRV base, in slot order. |
| GBuffers.ResizedTexturesStartCommon | source/core/render/dx12/GBuffer.hpp:48-52 | Every G-buffer texture is created in and tracks COMMON. |
| GBuffers.ChangeAll | source/core/render/dx12/GBuffer.hpp:107-111 | A group transition moves each listed texture to the state and leaves the rest alone. Barriers are emitted only for textures that change, each from its tracked state. |
| GBuffers.GetSrvHandle | source/core/render/dx12/GBuffer.hpp:99-101 | The SRV table handle is the GPU base. |
| GBuffers.AsRenderTarget | source/core/render/dx12/GBuffer.hpp:103-120 | All five textures become RENDER_TARGET, all five RTVs are cleared, and the five handles are returned. |
| GBuffers.AsShaderResource | source/core/render/dx12/GBuffer.hpp:122-133 | All five textures move to the requested state. The handle returned is the one `GetSrvHandle` gives. |
| GBuffers.TransitionOrderCovers | source/core/render/dx12/GBuffer.hpp:107-111 | The transition order names every target once. |
| GBuffers.ChangeAllCorrect | source/core/render/dx12/GBuffer.hpp:107-111 | On consistent textures a group transition keeps them consistent, and every barrier starts from the actual state. |
| GBuffers.ShaderResourceTwice | source/core/render/dx12/GBuffer.hpp:122-133 | Reading the G-buffer twice in the same state emits no barrier the second time. |
| GBuffers.RenderAfterRead | source/core/render/dx12/GBuffer.hpp:103-133 | A switch to render targets after a read emits one barrier per texture, in transition order, from the read state. |
| GBuffers.FirstRenderCorrect | source/core/render/dx12/GBuffer.hpp:41-120 | A freshly sized G-buffer's first switch to render targets emits only correct barriers. |
| GpuBuffers.NewGpuBuffer | source/core/render/dx12/GpuBuffer.hpp:7-13 | The byte size is the 32-bit product of element count and size, and the address starts at 0. The usage state and the tracked state both equal the given state. |
| GpuBuffers.GetByteSize | source/core/render/dx12/GpuBuffer.hpp:17 | The stored 32-bit byte size. |
| GpuBuffers.GetGpuVirtualAddress | source/core/render/dx12/GpuBuffer.hpp:18-20 | Element 0 is at the base. Element `i` is at base plus `i * elementSize` when nothing wraps. |
| GpuBuffers.ElementInBounds | source/core/render/dx12/GpuBuffer.hpp:11-20 | Without wrap-around, element `i < elementNum` lies inside `[base, base + byteSize)`. |
| GpuBuffers.ElementsAreStrided | source/core/render/dx12/GpuBuffer.hpp:18-20 | Consecutive elements are one element size apart. |
| GpuBuffers.ByteSizeWraps | source/core/render/dx12/GpuBuffer.hpp:11 | The 32-bit product wraps: `0x10000 * 0x10000` bytes read as 0. |
| PipelineSetup.GBufferFlags | source/app/Pipeline.cpp:254-261 | The nested loop creates `RENDER_GBUFFER \| layout \| material` for both layouts and every material, materials varying fastest. |
| PipelineSetup.ComputeFlags | source/app/Pipeline.cpp:270-314 | Nine compute descriptors, each decoding to its variant's compute shader. |
| PipelineSetup.PreCreatedFlags | source/app/Pipeline.cpp:244-314 | Start-up creates the G-buffer descriptors, the composite one and the nine compute ones: `2m + 10` in all. |
| PipelineSetup.CreateAll | source/app/Pipeline.cpp:254-314 | The list is created without a throw exactly when no descriptor in it throws. After a successful run, the map holds exactly the old keys plus the list. Faithfulness and the cache invariant are kept. |
| PipelineSetup.PreCreatedNeverThrow | source/app/Pipeline.cpp:244-314 | No pre-created descriptor throws: the G-buffer and composite ones are graphics descriptors, and each compute one names a known variant. |
| PipelineSetup.PreCreate | source/app/Pipeline.cpp:244-314 | Start-up creation succeeds. The map then holds exactly the pre-created descriptors, each mapped to its decoded object. Nothing is bound yet. |
| PipelineSetup.BeginGBufferPass | source/app/Pipeline.cpp:545-547 | The render-target field becomes `RENDER_GBUFFER` and nothing is bound. |
| PipelineSetup.GBufferDrawCommits | source/app/Pipeline.cpp:545-547 | After the pass begins, a mesh draw commits exactly `RENDER_GBUFFER \| material \| mesh`, a graphics descriptor. |
| PipelineSetup.SingleSidedFlag | source/asset/dx12/Dx12Material.cpp:10-11 | A single-sided material's descriptor is `CULL_MODE_FRONT \| FRONT_COUNTER_CLOCKWISE`. |
| PipelineSetup.SingleSidedFlagMissing | source/app/Pipeline.cpp:249-261 | As written, no pre-created descriptor is the one a single-sided material's draw commits. |
| PipelineSetup.SingleSidedDrawBindsNull | source/app/Pipeline.cpp:249-261 | As written, the first G-buffer draw of a single-sided mesh binds a null pipeline state. |
| PipelineSetup.EveryDrawFlagPreCreated | source/app/Pipeline.cpp:249-261 | With CULL_FRONT added to the material set, every descriptor a G-buffer draw can commit is pre-created. |
| PipelineSetup.GBufferDrawBindsCreatedState | source/app/Pipeline.cpp:254-261 | With the corrected set, every G-buffer draw that binds binds the decoded object for its descriptor. |
| PipelineSetup.MaterialsArePreCreated | source/asset/dx12/Dx12Material.cpp:10-11 | Every material descriptor is in the corrected set. Only double-sided ones are in the original set. |
| PipelineSetup.CorrectedSetExtendsOriginal | source/app/Pipeline.cpp:249-252 | The corrected set keeps every descriptor the original one creates. |
| PipelineSetup.ClampExtent | source/app/Pipeline.cpp:780-781 | `max(1, extent)` is at least 1 and at least the extent, is one of the two, and stays 16-bit. |
| PipelineSetup.ClampExtentIdempotent | source/app/Pipeline.cpp:780-781 | Clamping twice is clamping once, and a positive extent is kept. |
| ShaderTables.TableSize | source/app/Pipeline.cpp:441-443 | The table is `64 + 64 + 64n` bytes, truncated to 32 bits. |
| ShaderTables.FillShaderTable | source/app/Pipeline.cpp:445-469 | The loop writes ray generation at 0, miss at 64, and the hit identifier then texture handle `i` for each texture. Its final offset is the table size. |
| ShaderTables.FilledTableLayout | source/app/Pipeline.cpp:445-469 | Ray generation is write 0 at offset 0, miss is write 1 at offset 64, and hit record `i` is writes `2+2i` and `3+2i`. |
| ShaderTables.NextRecord | source/app/Pipeline.cpp:465-467 | Identifier plus handle slot advance the offset to the next record. |
| ShaderTables.NextHandle | source/app/Pipeline.cpp:468 | The texture handle advances by one descriptor per record. |
| ShaderTables.WritesInBounds | source/app/Pipeline.cpp:441-469 | Hit record `i` is at `128 + 64i`. Its handle sits after its identifier, and both end before the next record and inside the table. |
| ShaderTables.DescribeTables | source/app/Pipeline.cpp:471-480 | The tables start at the base, `+64` and `+128`. Strides are multiples of 32, and record sizes hold an identifier (plus a handle for hits). |
| ShaderTables.DescriptionMatchesWrites | source/app/Pipeline.cpp:441-480 | For an aligned table, every start is a multiple of 64. Hit record `i` is at `start + i * stride`, exactly where it was written, and the hit table ends at the table's end. |
| DenoiseSchedule.PrologueRuns | source/app/Pipeline.cpp:583-593 | The prologue only binds tables: output UAV 0 and input SRV 1. |
| DenoiseSchedule.BlendPassRuns | source/app/Pipeline.cpp:595-612 | Blending dispatches the reprojecting variant when reprojection is on, else variant 0, under the whole 32-bit mask. |
| DenoiseSchedule.FirstDenoisePassRuns | source/app/Pipeline.cpp:614-622 | The first bilateral pass writes UAV 1 and reads SRV 0, committing variant 1 under the whole mask. |
| DenoiseSchedule.DenoisePassRuns | source/app/Pipeline.cpp:624-667 | A later pass commits exactly `RENDER_COMPUTE_SHADER \| variant` under 0x800F and dispatches with its own tables. |
| DenoiseSchedule.VariancePassRuns | source/app/Pipeline.cpp:671-687 | The variance pass dispatches its variant with UAV 0 and SRV 1. |
| DenoiseSchedule.ChainVariant | source/app/Pipeline.cpp:614-668 | The chain's variants are six of the nine, excluding 0, reprojection and variance. |
| DenoiseSchedule.ChainPassRuns | source/app/Pipeline.cpp:624-667 | Chain pass `i` records the `i`-th dispatch of the reference chain. |
| DenoiseSchedule.DenoiseChainRuns | source/app/Pipeline.cpp:614-668 | The bilateral section records exactly the reference chain: variants 1, 2, 4, 8, 16, read-back. |
| DenoiseSchedule.OpeningRuns | source/app/Pipeline.cpp:583-612 | Before the chain, only the optional blending dispatch is recorded. |
| DenoiseSchedule.ScheduleAllOff | source/app/Pipeline.cpp:671-687 | With every toggle off, only the variance pass runs. |
| DenoiseSchedule.ScheduleWithoutDenoise | source/app/Pipeline.cpp:595-612 | Without bilateral denoising only blending dispatches. Reprojection alone dispatches nothing. |
| DenoiseSchedule.ScheduleWithDenoise | source/app/Pipeline.cpp:595-668 | With bilateral denoising: the optional blending dispatch, then the six-pass chain. |
| DenoiseSchedule.ScheduleCases | source/app/Pipeline.cpp:583-687 | For every toggle combination the schedule is the reference one. It is empty exactly for reprojection alone. |
| DenoiseSchedule.ScheduleDecodes | source/app/Pipeline.cpp:583-687 | Every dispatched descriptor builds the compute shader of its variant. |
| DenoiseSchedule.ScheduleViews | source/app/Pipeline.cpp:583-687 | Every pass writes UAV 0 or 1 and reads the SRV of the other index. |
| DenoiseSchedule.PassesReadOwnOutputAsWritten | source/core/render/dx12/GraphicsManager.cpp:175-176 | As written, every pass writing UAV 0 samples the very texture it writes. |
| DenoiseSchedule.SecondPassBreaksPingPongAsWritten | source/core/render/dx12/GraphicsManager.cpp:176 | As written, the second bilateral pass reads its own output instead of what the first pass wrote. |
| DenoiseSchedule.ChainReadsNoOwnOutput | source/app/Pipeline.cpp:614-667 | With each SRV on its own target, no pass of the bilateral chain samples the texture it writes. |
| DenoiseSchedule.OpeningPassReadsTrace | source/app/Pipeline.cpp:568-686 | The first dispatch reads SRV 1 exactly when frame blending is on (the blend pass), or when denoising and reprojection are both off (the variance pass). Such a pass writes UAV 0, the traced target. As written, SRV 1 views that traced target; under the chain's mapping it would not. |
| DenoiseSchedule.ChainPingPongs | source/app/Pipeline.cpp:614-668 | With each SRV on its own target, every bilateral pass after the first reads what the previous one wrote. |
| DenoiseSchedule.ThreadGroups | source/app/Pipeline.cpp:611 | `width / 256 + 1` groups of 256 cover every column, with at most one group to spare. |

## Left out

- I/O and the GPU are out of scope. This includes device, swap-chain, heap and committed-resource creation, `Present`, shader compilation, file reading and tinygltf loading. It also includes root signatures and the DXR state object, ImGui, the message loop, the frame throttle and the random seed. None of these carries logic beyond the indices and sizes modelled here.
- GPU concurrency is not modelled. The GPU's progress is the monotone `completed` value of the queue model, advanced by `GpuProgress`. `memcpy` into upload buffers and barrier execution on the GPU are not modelled.
- Floating point is not modelled. Matrices are opaque, so transforms, `Rotation`, `Perspective`, `Inverse`, `SetLens`, `GetView`, `GetProj` and `SceneNode::GetTransform` are out.
- Cameras.Wheel: the third-person distance is a real number, not a 32-bit float, so float rounding of `x * 0.05` is not modelled.
- `ThirdPersonCamera::OnUpdate` and `CameraNode::SetMatrix` are not modelled. Both compute matrix products, and neither touches the dirty-count logic beyond what `CameraOnUpdate` covers.
- `FirstPersonCamera::SetParentVisibility`, `AddChild` and `AddComponent` are not modelled separately. Trees and component lists are built directly as values.
- CommandQueues.Signal: the fence counter is unbounded, so `uint64_t` wrap-around is not modelled. It would need 2^64 submissions.
- `CopyData` and the vertex-data copies (`CopyToBuffer`) in the model loader are not modelled. The loader's empty `BuildNode` is not modelled either.
- Header and source revisions differ: the `OnInit` signature (GraphicsManager.hpp:32 vs GraphicsManager.cpp:14), the `Dx12Model` and `Dx12Mesh` constructors, and `Dx12SceneNode::OnRender`. The model follows the `.cpp` files.
- The `FrameResource` in GraphicsManager.hpp has no dirty flag or top-level structure. The model takes both from their use in GraphicsManager.cpp:192-199.
- `RenderResource.cpp:181-182` writes `Utils::CalcAlignment<256>`, but `Utils::CalcAlignment` takes the alignment as its second template parameter. The model uses the evident meaning, alignment 256 (DescriptorLayout.Align256).
- The bit-layout comment at DxUtility.hpp:70 puts the winding bit at 0x10. The enum and the decoder use 0x20, and the model follows the enum.
- The denoising log records only the output UAV table (root parameter 1) and the input SRV table (root parameter 4). It leaves out the root constants, the other tables and the G-buffer transition the prologue performs.
- PipelineDecode.Decode: the root-signature argument and the fixed fields of the pipeline-state description are not modelled. These are blend, rasterizer and sample settings that do not depend on the descriptor.
- The undefined descriptor constants are `FlagConstants` parameters. They are constrained by the masks the code applies and by `RENDER_GBUFFER` and `RENDER_COMPUTE_SHADER` being non-zero (see Representation). Properties hold for every choice that satisfies these conditions.
- DescriptorLayout.CbvRangesDisjoint: disjointness and the heap bound hold only while `frameCount*(numObject+1) + numMat + numTex < 2^31`. Beyond that the `uint32_t`, `UINT` and `INT` truncations wrap and views collide; `CbvCountWraps` exhibits one such input.
- `ThrowIfFailed` failures of device calls are not modelled. The only modelled throw is the compute-state creation without a shader.
- The manager's frame index starts at 0 and is reseeded only by `OnResize` (GraphicsManager.cpp:182). The order of the window's first `WM_SIZE` (Pipeline.cpp:883-885) relative to the first frame is not modelled; `FrameRing.ManagerFirstUpdate` states the first advance for both orders.
- `Mesh.cpp` and the trivial resource wrappers are not part of this model.

## Findings

| source | as written | input that shows it | evidently intended | confidence | as-written member | corrected member |
|---|---|---|---|---|---|---|
| source/app/Pipeline.cpp:249-252 | Pre-creates G-buffer states only for `CULL_NONE \| CCW` and `CULL_BACK \| CCW`. Dx12Material.cpp:10 gives single-sided materials `CULL_FRONT \| CCW`, so their draw looks up a missing key. `operator[]` inserts and binds a null pipeline state. | Any mesh whose material has `isDoubleSide == false` | Pre-create every descriptor a material can produce, including `CULL_FRONT \| CCW` | not executed | PipelineSetup.SingleSidedDrawBindsNull | PipelineSetup.GBufferDrawBindsCreatedState |
| source/core/render/dx12/GraphicsManager.cpp:176 | `srvCpuHandle[1]` is created on `rayTracingTarget[0]`, the same texture as `srvCpuHandle[0]` | Denoising on: the second bilateral pass writes UAV 0 (target 0) and reads SRV 1, which is also target 0 | Within the bilateral chain (Pipeline.cpp:614-667), each pass that writes UAV 0 reads target 1, the previous pass's output. Viewing SRV 1 on `rayTracingTarget[1]` does this. The blend pass (Pipeline.cpp:587-611) and the variance pass (Pipeline.cpp:680-686) also read SRV 1 and expect the fresh trace in target 0 (Pipeline.cpp:568), so they must then bind an SRV on target 0 (`OpeningPassReadsTrace`). | not executed | DenoiseSchedule.SecondPassBreaksPingPongAsWritten | DenoiseSchedule.ChainPingPongs |
| source/core/render/dx12/Texture2D.hpp:18 | A texture created with ALLOW_UNORDERED_ACCESS is created in UNORDERED_ACCESS. Its tracked state stays COMMON (GpuResource.hpp:6-9). | `Texture2D(format, w, h, ALLOW_UNORDERED_ACCESS)` followed by `ChangeState(PIXEL_SHADER_RESOURCE)` emits a barrier from COMMON | Track the creation state, so the first barrier starts from UNORDERED_ACCESS | not executed | Textures.UavTextureInconsistent | Textures.NewTexture |
