# Rabbet voxel engine core, modelled in Dafny

This project models the deterministic core of the Rabbet / Fredrick C# game engine:

- **Voxel storage.** A `Chunk` holds a 32 × 32 × 32 grid of byte voxel ids in one array, addressed by the bit-packed index `x << 10 | z << 5 | y`. It keeps an opacity map and three flags (empty, needs render update, marked for removal). The `Terrain` is a sparse dictionary from chunk coordinate to chunk.
- **Face-culling meshing.** Both `ChunkRenderer.updateVoxelMesh` versions scan a chunk in x / z / y order. For every drawn voxel they append one `VoxelFace` per direction whose neighbour is not opaque, into a preallocated array of 98304 slots. Both also build the static `k -> k / 4` index pattern.
- **GPU-buffer bookkeeping.** `VertexArrayObject` has once-only optional buffers, an ordered vertex-buffer list and the attribute numbering and byte offsets that `finishBuilding` assigns. `Renderer` keeps the named static-draw registry, the draw-call counter and the frame counter modulo 4096.
- **The fixed-timestep scheduler.** `TicksAndFps.update` counts frames per second and turns elapsed time into a capped number of ticks.
- **Comparison helpers.** The `AABB` collider predicates and `offset`, and the `clamp` / `max3` / `min3` / `max6` / `smooth3` helpers.

## How the model is built

- The modules follow the source files:

  | module | models |
  |---|---|
  | `Chunks` | `chunk.dfy`, the chunk |
  | `Terrains` | `terrain.dfy`, the terrain |
  | `Meshing` | `meshing.dfy`, the scan both renderers share |
  | `TerrainChunkRendering` | the Terrain-coupled renderer |
  | `CacheChunkRendering` | the ChunkCache renderer |
  | `VertexArrays` | `VertexArrayObject` |
  | `Rendering` | `Renderer` |
  | `Timing` | `TicksAndFps` |
  | `Colliders` | `AABB` |
  | `MathUtil` | the helpers |

  `Bits` writes out C# 32-bit `int` shifts, `|` and `&`. A shift by k is k one-bit shifts, and each one drops the top bit; `Bits.ShiftLeftIsModPow` proves that this keeps the bit pattern of x · 2^k modulo 2^32, which is how C# defines `<<`. `Common` has the shared value types.
- Classes whose fields the source updates in place are Dafny classes with `modifies` clauses: `Chunk`, `Terrain`, both `ChunkRenderer`s, `VertexArrayObject`, `Renderer` and `TicksAndFps`. `AABB` is a C# struct, so it is a datatype, and its updates are functions returning the new box.
- Static classes and static fields (`Renderer`, `TicksAndFps`) become one object whose fields are the statics.
- The voxel array and the face array stay arrays. The nested loops of `updateVoxelMesh`, `init`, `finishBuilding`, `bind`, `delete`, `drawAllStaticRenderObjects`, `onClosing` and `generateSpawnChunks` stay `while` loops.
- Each loop is proved against a specification function:
  - `Meshing.Faces` is the mesh, defined cell by cell in scan order.
  - `VertexArrays.AllAttribPointers` is the attribute table `finishBuilding` sets.
  - `Chunks.WriteVoxel` / `Chunks.ReadVoxel` are the voxel array after a write and the value of a read.

  The properties the source promises are lemmas about those functions.
- Collaborators whose code is not part of this model are function-valued parameters:
  - `VoxelType.isVoxelOpaque` and `VoxelType.getVoxelById`;
  - `Terrain.getLocalVoxelFromChunk` and `getLocalLightLevelFromChunk`;
  - `ChunkCache.getVoxelAtVoxelCoords` and `getLightLevelAtVoxelCoords`.

  GL object names are parameters. The stopwatch reading is a parameter of `Update` and `Init`.
- `OpaqueVoxelMap` is modelled by its contents: the set of coordinates marked opaque.
- `VoxelFace.SIZE_IN_BYTES` and `DrawCommand.SIZE_BYTES` are defined outside the modelled classes, so they are parameters. `new VertexBufferLayout()` is the empty, non-instanced layout.
- Both renderers' static `init` builds the same index array. `Meshing.InitIndices` models both: `Rabbet-Game-Engine/Source/Rendering/SubRendering/ChunkRenderer.cs` lines 27-36 are the same code as the Terrain renderer's.
- **Two behaviours of the code that are easy to misread:**
  - `Terrain.getChunkCoord` truncates toward zero (an `(int)` cast of `pos / 32`) rather than flooring, so -1 lies in chunk 0 (`Terrains.TruncatesTowardZero`).
  - The scan can emit 6 · 32768 = 196608 faces (`Meshing.TransparentChunkOverflows`), twice the 98304 slots of the face array.

  So `UpdateVoxelMesh` carries the capacity as an explicit precondition on the voxel configuration. `Meshing.FitsWhenFewSolid` gives one sufficient condition.

## Model

| member | source | states |
|---|---|---|
| Chunks.ShiftConstantsAgree | Rabbet-Game-Engine/Source/Universe/Worldgen/Chunk.cs:7-16 | 1 << 10 is 1024 = 32 · 32, 1 << 5 is 32, and 32 · 1024 is 32768 |
| Chunks.PackedIndex | Rabbet-Game-Engine/Source/Universe/Worldgen/Chunk.cs:52 | the C# value of `x << 10 \| z << 5 \| y` on 32-bit ints; its meaning is given by PackedIndexInChunk and PackedIndexDecodes, and its wrap-around by the aliasing lemmas |
| Chunks.PackedIndexInChunk | Rabbet-Game-Engine/Source/Universe/Worldgen/Chunk.cs:52-53 | for 0 ≤ x, y, z < 32 the C# value of `x << 10 \| z << 5 \| y` is x · 1024 + z · 32 + y, inside [0, 32768) |
| Chunks.PackedIndexDecodes | Rabbet-Game-Engine/Source/Universe/Worldgen/Chunk.cs:52 | the in-chunk packed index decodes back to x = i / 1024, z = i / 32 % 32, y = i % 32 |
| Chunks.CellDecodesInChunk | Rabbet-Game-Engine/Source/Universe/Worldgen/Chunk.cs:76-77 | every array index in [0, 32768) is the packed index of exactly the in-chunk triple it decodes to |
| Chunks.PackedIndexInjective | Rabbet-Game-Engine/Source/Universe/Worldgen/Chunk.cs:52 | distinct in-chunk triples never share an array cell |
| Chunks.HighYAliasesNextZ | Rabbet-Game-Engine/Source/Universe/Worldgen/Chunk.cs:76-77 | y = 32 passes the only upper-bound test: (0, 32, 0) reads cell 32, the cell of (0, 0, 1) |
| Chunks.ShiftWrapAliasesOrigin | Rabbet-Game-Engine/Source/Universe/Worldgen/Chunk.cs:76 | x = 2^22 shifts wholly out of the 32-bit int, so (2^22, 0, 0) packs to index 0, the cell of the origin |
| Chunks.NegativeIndexPassesGuard | Rabbet-Game-Engine/Source/Universe/Worldgen/Chunk.cs:76-77 | as written, x = 2^21 packs to -2^31, which the `index >= CHUNK_SIZE_CUBED` test lets through although it is outside the array |
| Chunks.CorrectedGuardRefinesWritten | Rabbet-Game-Engine/Source/Universe/Worldgen/Chunk.cs:53 | the corrected bounds test accepts only indices the written one accepts, and the two agree on every non-negative index |
| Chunks.ReadVoxel | Rabbet-Game-Engine/Source/Universe/Worldgen/Chunk.cs:73-78 | corrected guard, see Findings: any negative coordinate reads 0 |
| Chunks.WriteVoxel | Rabbet-Game-Engine/Source/Universe/Worldgen/Chunk.cs:49-53 | corrected guard, see Findings: a write keeps the array length, is a no-op for a negative coordinate, and leaves every cell other than the packed index unchanged |
| Chunks.OutOfArrayIgnored | Rabbet-Game-Engine/Source/Universe/Worldgen/Chunk.cs:52-53 | corrected guard, see Findings: a packed index outside [0, 32768), too large as the source tests or negative after the shift wraps, reads 0 and leaves the array unchanged |
| Chunks.WrappedIndexIgnored | Rabbet-Game-Engine/Source/Universe/Worldgen/Chunk.cs:76-77 | the input (2^21, 0, 0) that passes the source's test reads 0 and writes nothing under the corrected guard |
| Chunks.ReadInChunk | Rabbet-Game-Engine/Source/Universe/Worldgen/Chunk.cs:73-78 | inside the chunk a read returns cell x · 1024 + z · 32 + y |
| Chunks.ReadAfterWrite | Rabbet-Game-Engine/Source/Universe/Worldgen/Chunk.cs:49-78 | setVoxelAt then getVoxelAt at the same in-chunk coordinates returns the id written |
| Chunks.ReadOtherAfterWrite | Rabbet-Game-Engine/Source/Universe/Worldgen/Chunk.cs:52-53 | a write leaves the voxel at every other in-chunk coordinate as it was |
| Chunks.WriteOpacity | Rabbet-Game-Engine/Source/Universe/Worldgen/Chunk.cs:54-59 | after a write at non-negative coordinates the cell is opaque iff the id is non-zero and isVoxelOpaque(id); no other cell's opacity changes; negative coordinates change nothing |
| Chunks.Chunk.constructor | Rabbet-Game-Engine/Source/Universe/Worldgen/Chunk.cs:29-47 | worldCoord is coord · 32, all 32768 voxels are air, nothing is opaque, updateFlag starts true, removalFlag false, isEmpty true |
| Chunks.Chunk.SetVoxelAt | Rabbet-Game-Engine/Source/Universe/Worldgen/Chunk.cs:49-61 | corrected guard, see Findings: the array becomes WriteVoxel of the old one, the opacity map WriteOpacity of the old one, isEmpty is cleared exactly by a non-zero id at non-negative coordinates, and neither flag changes |
| Chunks.Chunk.GetVoxelAtIsOpaque | Rabbet-Game-Engine/Source/Universe/Worldgen/Chunk.cs:80-83 | whether the opacity map holds the coordinate, which SetVoxelAt keeps equal to WriteOpacity of the previous map |
| Chunks.Chunk.GetVoxelAt | Rabbet-Game-Engine/Source/Universe/Worldgen/Chunk.cs:73-78 | corrected guard, see Findings: the result is ReadVoxel of the current array |
| Chunks.Chunk.MarkForRenderUpdate | Rabbet-Game-Engine/Source/Universe/Worldgen/Chunk.cs:90-93 | sets updateFlag and changes nothing else |
| Chunks.Chunk.UnMarkForRenderUpdate | Rabbet-Game-Engine/Source/Universe/Worldgen/Chunk.cs:95-98 | clears updateFlag and changes nothing else |
| Chunks.Chunk.MarkForRemoval | Rabbet-Game-Engine/Source/Universe/Worldgen/Chunk.cs:105-108 | sets removalFlag and changes nothing else; no method clears it |
| Bits.ShiftLeftIsModPow | Rabbet-Game-Engine/Source/Universe/Worldgen/Chunk.cs:52 | the modelled `x << k` has the bit pattern of x · 2^k modulo 2^32, for every int x, negative ones included |
| Bits.TruncDiv | Rabbet-Game-Engine/Source/Universe/Worldgen/Terrain.cs:65-66 | C# division rounded toward zero: the remainder a - d · q lies in [0, d) for a ≥ 0 and in (-d, 0] for a < 0 |
| Bits.And31IsMod32 | Rabbet-Game-Engine/Source/Universe/Worldgen/Terrain.cs:34 | `v & 31` on a C# int is the non-negative remainder of v modulo 32, negative v included |
| Terrains.ChunkCoordOf | Rabbet-Game-Engine/Source/Universe/Worldgen/Terrain.cs:63-67 | the (int) cast of v / 32: for v ≥ 0, c · 32 ≤ v < c · 32 + 32; for v < 0, c · 32 - 32 < v ≤ c · 32 |
| Terrains.ChunkKey | Rabbet-Game-Engine/Source/Universe/Worldgen/Terrain.cs:63-67 | getChunkCoord: ChunkCoordOf on each axis |
| Terrains.LocalCoord | Rabbet-Game-Engine/Source/Universe/Worldgen/Terrain.cs:25 | `v & CHUNK_SIZE_MINUS_ONE`; LocalCoordInChunk gives its value |
| Terrains.NegativeShiftsOneChunk | Rabbet-Game-Engine/Source/Universe/Worldgen/Terrain.cs:25 | every negative v that is not a multiple of 32 resolves to the cell of v + 32: world -33 reads chunk -1, local 31, the cell that chunk -1 would place at world -1 (world -1 itself reads chunk 0, local 31) |
| Terrains.LocalCoordInChunk | Rabbet-Game-Engine/Source/Universe/Worldgen/Terrain.cs:25 | the local coordinate handed to the chunk is v mod 32 and always lies in [0, 31] |
| Terrains.LocalIndex | Rabbet-Game-Engine/Source/Universe/Worldgen/Terrain.cs:31-35 | the cell a world coordinate names in its chunk is the chunk's packed index of the three local coordinates, inside [0, 32768) |
| Terrains.NonNegativeDecomposes | Rabbet-Game-Engine/Source/Universe/Worldgen/Terrain.cs:63-67 | for v ≥ 0, chunk coordinate · 32 + local coordinate is v |
| Terrains.TruncatesTowardZero | Rabbet-Game-Engine/Source/Universe/Worldgen/Terrain.cs:63-67 | world coordinate -1 lies in chunk 0, where floor division would give chunk -1 |
| Terrains.NegativeBandAliases | Rabbet-Game-Engine/Source/Universe/Worldgen/Terrain.cs:63-67 | for -32 < v < 0, v and v + 32 resolve to chunk 0 and to the same local coordinate |
| Terrains.Terrain.constructor | Rabbet-Game-Engine/Source/Universe/Worldgen/Terrain.cs:14-17 | the chunk map starts empty |
| Terrains.Terrain.GetChunkAtCoord | Rabbet-Game-Engine/Source/Universe/Worldgen/Terrain.cs:45-52 | there is a result exactly when the truncated chunk key is present, and then it is the chunk stored under that key |
| Terrains.Terrain.GetVoxelIdAt | Rabbet-Game-Engine/Source/Universe/Worldgen/Terrain.cs:31-35 | 0 when no chunk exists at the computed key, otherwise the chunk's cell at the masked local coordinates |
| Terrains.Terrain.GetVoxelAt | Rabbet-Game-Engine/Source/Universe/Worldgen/Terrain.cs:22-26 | null (None) when no chunk exists, otherwise the registry's type for the voxel id at those coordinates |
| Terrains.Terrain.SetVoxelIdAt | Rabbet-Game-Engine/Source/Universe/Worldgen/Terrain.cs:37-42 | when the chunk exists, a later getVoxelIdAt returns id and the chunk changes as Chunk.setVoxelAt says; every other chunk, the map itself and all flags are unchanged, so a missing chunk means no change at all |
| Terrains.Terrain.AddChunk | Rabbet-Game-Engine/Source/Universe/Worldgen/Terrain.cs:75 | adds one fresh chunk under an absent key, stored under its own coordinate |
| Terrains.Terrain.SpawnAt | Rabbet-Game-Engine/Source/Universe/Worldgen/Terrain.cs:75 | one Dictionary.Add of the spawn loops: adds key (x - 4, 0, z - 4), or fails, changing nothing, when that key was already present |
| Terrains.Terrain.GenerateSpawnRow | Rabbet-Game-Engine/Source/Universe/Worldgen/Terrain.cs:73-76 | the inner loop adds the eight keys of row x in order, or stops at a key already present |
| Terrains.Terrain.GenerateSpawnChunks | Rabbet-Game-Engine/Source/Universe/Worldgen/Terrain.cs:69-77 | succeeds iff none of the 64 keys (x - 4, 0, z - 4), x, z in [0, 8), was present; then exactly those 64 keys are added; it never adds another key and never changes an existing entry; on failure there is a first iteration (x, z) whose key was present, and exactly the keys of the iterations before it were added |
| Terrains.SpawnTwice | Rabbet-Game-Engine/Source/Universe/Worldgen/Terrain.cs:69-77 | on a new terrain the first generateSpawnChunks succeeds with 64 chunks and a second one fails on a duplicate key |
| Meshing.ScanOrderBijective | Rabbet-Game-Engine/Source/Rendering/SubRendering/Terrain/ChunkRenderer.cs:71-77 | the x / z / y loops visit each in-chunk cell at scan position x · 1024 + z · 32 + y, and that position decodes back to the cell |
| Meshing.ScanCellInChunk | Rabbet-Game-Engine/Source/Rendering/SubRendering/Terrain/ChunkRenderer.cs:71-77 | every scan position in [0, 32768) names an in-chunk cell whose scan position it is |
| Meshing.FacesUpToMembers | Rabbet-Game-Engine/Source/Rendering/SubRendering/Terrain/ChunkRenderer.cs:71-93 | after the first t cells of the scan, the emitted faces are exactly the visible faces of cells before position t |
| Meshing.FaceEmittedIff | Rabbet-Game-Engine/Source/Rendering/SubRendering/Terrain/ChunkRenderer.cs:79-89 | a face (x, y, z, l, i, id) is in the mesh iff (x, y, z) is in the chunk, its voxel is drawn as id, the neighbour in faceDirections[i] is not opaque, and l is the neighbour's light |
| Meshing.FaceCountBound | Rabbet-Game-Engine/Source/Rendering/SubRendering/Terrain/ChunkRenderer.cs:82-88 | the number of faces emitted is at most six times the number of drawn cells |
| Meshing.NaiveBoundExceedsCapacity | Rabbet-Game-Engine/Source/Rendering/SubRendering/Terrain/ChunkRenderer.cs:13 | every mesh has at most 6 · 32768 faces, which is twice MAX_CHUNK_FACE_COUNT |
| Meshing.FitsWhenFewSolid | Rabbet-Game-Engine/Source/Rendering/SubRendering/Terrain/ChunkRenderer.cs:13 | a chunk with at most 16384 drawn cells always fits the 98304-slot face array |
| Meshing.TransparentChunkOverflows | Rabbet-Game-Engine/Source/Rendering/SubRendering/Terrain/ChunkRenderer.cs:82-88 | a chunk of drawn, non-opaque voxels emits 196608 faces, more than the array holds, so capacity is an obligation on the configuration |
| Meshing.FacesOrdered | Rabbet-Game-Engine/Source/Rendering/SubRendering/Terrain/ChunkRenderer.cs:71-88 | faces come out strictly ordered by (x, z, y, direction index) |
| Meshing.InitIndices | Rabbet-Game-Engine/Source/Rendering/SubRendering/Terrain/ChunkRenderer.cs:27-33 | a fresh array of 4 · 98304 entries with entry k equal to k / 4 |
| Meshing.AppendCellFaces | Rabbet-Game-Engine/Source/Rendering/SubRendering/Terrain/ChunkRenderer.cs:79-90 | the body of the y loop for one cell appends exactly that cell's visible faces, in direction order, after the faces already in the array |
| Meshing.ScanColumn | Rabbet-Game-Engine/Source/Rendering/SubRendering/Terrain/ChunkRenderer.cs:77-91 | the y loop appends the faces of the 32 cells of one column in scan order |
| Meshing.ScanSlice | Rabbet-Game-Engine/Source/Rendering/SubRendering/Terrain/ChunkRenderer.cs:74-92 | the z loop appends the faces of the 1024 cells of one x slice in scan order |
| Meshing.ScanChunk | Rabbet-Game-Engine/Source/Rendering/SubRendering/Terrain/ChunkRenderer.cs:66-93 | starting from count 0, the three loops leave the count equal to the number of faces of the whole mesh and the array's first count slots equal to the mesh, never writing past the array |
| TerrainChunkRendering.DrawnId | Rabbet-Game-Engine/Source/Rendering/SubRendering/Terrain/ChunkRenderer.cs:79 | id 0 is air and is skipped; any other id is drawn as itself |
| TerrainChunkRendering.TerrainFaceEmittedIff | Rabbet-Game-Engine/Source/Rendering/SubRendering/Terrain/ChunkRenderer.cs:79-89 | a face is in this renderer's mesh iff its cell is in the chunk with the non-zero id it carries, its neighbour in direction i is not opaque, and its light is the neighbour's, not the voxel's |
| TerrainChunkRendering.ChunkRenderer.constructor | Rabbet-Game-Engine/Source/Rendering/SubRendering/Terrain/ChunkRenderer.cs:48-57 | an array of 98304 face slots and a VAO whose only buffer is one dynamic buffer of 98304 · SIZE_IN_BYTES bytes with the default layout |
| TerrainChunkRendering.ChunkRenderer.UpdateVoxelMesh | Rabbet-Game-Engine/Source/Rendering/SubRendering/Terrain/ChunkRenderer.cs:63-97 | when the mesh fits, addedVoxelFaceCount is the mesh size, the first that many slots are the mesh, one upload of count · SIZE_IN_BYTES bytes to buffer 0 is made, and the chunk's render-update flag is false |
| TerrainChunkRendering.ChunkRenderer.Delete | Rabbet-Game-Engine/Source/Rendering/SubRendering/Terrain/ChunkRenderer.cs:112-115 | releases the renderer's one vertex buffer and no other buffer |
| CacheChunkRendering.StoredFacesAreLocal | Rabbet-Game-Engine/Source/Rendering/SubRendering/ChunkRenderer.cs:77-94 | every stored face has coordinates in [0, 32), relative to voxelMinBounds (so the byte casts lose nothing), a direction in [0, 6), the type of the voxel at min + those coordinates, and the light of its neighbour |
| CacheChunkRendering.VisibleFacesAreStored | Rabbet-Game-Engine/Source/Rendering/SubRendering/ChunkRenderer.cs:85-94 | conversely, every world cell of the chunk with a non-null type and a non-opaque neighbour in direction i has its face stored at world minus voxelMinBounds |
| CacheChunkRendering.ChunkRenderer.constructor | Rabbet-Game-Engine/Source/Rendering/SubRendering/ChunkRenderer.cs:51-63 | voxelMinBounds is coordinate · 32, voxelMaxBounds is voxelMinBounds + 32 on each axis, the bounding box spans them, and the VAO has one dynamic face buffer |
| CacheChunkRendering.ChunkRenderer.UpdateVoxelMesh | Rabbet-Game-Engine/Source/Rendering/SubRendering/ChunkRenderer.cs:69-104 | when the mesh of the cells from voxelMinBounds fits, the count and the array's first count slots are that mesh, count · SIZE_IN_BYTES bytes go to buffer 0, and the chunk is unmarked for render update |
| CacheChunkRendering.ChunkRenderer.VisibleVoxelFaceCount | Rabbet-Game-Engine/Source/Rendering/SubRendering/ChunkRenderer.cs:141-142 | the number of faces the last update stored |
| CacheChunkRendering.ChunkRenderer.IsChunkMarkedForRemoval | Rabbet-Game-Engine/Source/Rendering/SubRendering/ChunkRenderer.cs:124-127 | the parent chunk's removal flag |
| CacheChunkRendering.ChunkRenderer.IsChunkMarkedForRenderUpdate | Rabbet-Game-Engine/Source/Rendering/SubRendering/ChunkRenderer.cs:129-132 | the parent chunk's render-update flag |
| CacheChunkRendering.ChunkRenderer.Pos | Rabbet-Game-Engine/Source/Rendering/SubRendering/ChunkRenderer.cs:137-138 | the parent chunk's coordinate |
| CacheChunkRendering.ChunkRenderer.Delete | Rabbet-Game-Engine/Source/Rendering/SubRendering/ChunkRenderer.cs:119-122 | releases the renderer's one vertex buffer and no other buffer |
| VertexArrays.OffsetsPack | Rabbet-Game-Engine/Source/Rendering/RenderObjects/VertexArrayObject.cs:117-140 | within one buffer the first offset is 0, element j starts where element j - 1 ends (offset plus count · size), and every element ends inside the layout's total size |
| VertexArrays.VboPointersConsecutive | Rabbet-Game-Engine/Source/Rendering/RenderObjects/VertexArrayObject.cs:114-141 | pointer k of the vertex buffers has attribute index k and reads one of the listed buffers |
| VertexArrays.AttribIndicesConsecutive | Rabbet-Game-Engine/Source/Rendering/RenderObjects/VertexArrayObject.cs:107-166 | attributes are numbered 0, 1, 2, ... with no gap, vertex buffers first then the instance layout, and their number is the total element count |
| VertexArrays.BufferPointers | Rabbet-Game-Engine/Source/Rendering/RenderObjects/VertexArrayObject.cs:119-140 | the inner loop produces one pointer per element, numbered from the running counter, with the accumulated byte offset |
| VertexArrays.VertexArrayObject.constructor | Rabbet-Game-Engine/Source/Rendering/RenderObjects/VertexArrayObject.cs:34-38 | no buffers, no optional buffers, no attribute pointers |
| VertexArrays.VertexArrayObject.AddIndicesBuffer | Rabbet-Game-Engine/Source/Rendering/RenderObjects/VertexArrayObject.cs:53-60 | only the first index-buffer call takes effect; later ones leave the index buffer as it was; usesIndices == hasSetUpIndices is kept |
| VertexArrays.VertexArrayObject.AddIndicesBufferDynamic | Rabbet-Game-Engine/Source/Rendering/RenderObjects/VertexArrayObject.cs:71-78 | once only, a dynamic index buffer of initialCount · sizeof(uint) bytes |
| VertexArrays.VertexArrayObject.AddInstanceBuffer | Rabbet-Game-Engine/Source/Rendering/RenderObjects/VertexArrayObject.cs:62-69 | once only, the instance buffer with its layout and data |
| VertexArrays.VertexArrayObject.AddIndirectBuffer | Rabbet-Game-Engine/Source/Rendering/RenderObjects/VertexArrayObject.cs:80-87 | once only, an indirect buffer of initialCount · DrawCommand.SIZE_BYTES bytes |
| VertexArrays.VertexArrayObject.AddBuffer | Rabbet-Game-Engine/Source/Rendering/RenderObjects/VertexArrayObject.cs:90-95 | appends a static vertex buffer, so index i is the i-th buffer added |
| VertexArrays.VertexArrayObject.AddBufferDynamic | Rabbet-Game-Engine/Source/Rendering/RenderObjects/VertexArrayObject.cs:97-102 | appends a dynamic vertex buffer of the given byte size |
| VertexArrays.VertexArrayObject.FinishBuilding | Rabbet-Game-Engine/Source/Rendering/RenderObjects/VertexArrayObject.cs:107-166 | the pointers set are AllAttribPointers of the buffer list and the instance buffer in use, and debugTotalAttributes is their number |
| VertexArrays.VertexArrayObject.UpdateBuffer | Rabbet-Game-Engine/Source/Rendering/RenderObjects/VertexArrayObject.cs:183-186 | an index inside the list logs one upload of that size; an index outside it (ElementAt throws) logs nothing |
| VertexArrays.VertexArrayObject.Bind | Rabbet-Game-Engine/Source/Rendering/RenderObjects/VertexArrayObject.cs:198-208 | binds the index, indirect and instance buffers each iff used, then every vertex buffer in list order |
| VertexArrays.VertexArrayObject.Delete | Rabbet-Game-Engine/Source/Rendering/RenderObjects/VertexArrayObject.cs:223-238 | releases every vertex buffer in order, then the index, indirect and instance buffers each only if used and set up |
| Rendering.NextFrame | Src/Rendering/Renderer.cs:133-134 | the frame counter stays in [0, 4096), counts up by one and wraps from 4095 to 0 |
| Rendering.FramesWrap | Src/Rendering/Renderer.cs:129-135 | after n postRender calls from 0 the counter is n mod 4096 |
| Rendering.Renderer.constructor | Src/Rendering/Renderer.cs:19-54 | an empty registry, zero draw calls, frame 0 |
| Rendering.Renderer.AddStaticDraw | Src/Rendering/Renderer.cs:137-145 | an object already under the name is deleted exactly once and removed; the name then maps to the new object; other names are unchanged |
| Rendering.Renderer.AddStaticDrawTriangles | Src/Rendering/Renderer.cs:137-145 | as AddStaticDraw, for a triangles object with the given shader |
| Rendering.Renderer.AddStaticDrawTrianglesDefaultShader | Src/Rendering/Renderer.cs:147-155 | as AddStaticDraw, for a triangles object with the triangles shader |
| Rendering.Renderer.AddStaticDrawLines | Src/Rendering/Renderer.cs:157-165 | as AddStaticDraw, for a lines object with the given shader |
| Rendering.Renderer.AddStaticDrawLinesDefaultShader | Src/Rendering/Renderer.cs:167-175 | as AddStaticDraw, for a lines object with the lines shader |
| Rendering.Renderer.AddStaticDrawPoints | Src/Rendering/Renderer.cs:177-185 | as AddStaticDraw, for a points object |
| Rendering.Renderer.RemoveStaticDraw | Src/Rendering/Renderer.cs:186-193 | a present name is deleted once and removed; an absent name changes nothing |
| Rendering.Renderer.PreRender | Src/Rendering/Renderer.cs:112-117 | the draw-call count restarts at 0 |
| Rendering.Renderer.PostRender | Src/Rendering/Renderer.cs:129-135 | the frame counter advances by NextFrame and stays in range |
| Rendering.Renderer.DrawAllStaticRenderObjects | Src/Rendering/Renderer.cs:195-202 | every registered name is drawn exactly once and the draw-call count grows by the registry size |
| Rendering.Renderer.DeleteEach | Src/Rendering/Renderer.cs:222-225 | the foreach deletes every registered object once, in some order of the names, and appends exactly those objects to the log |
| Rendering.Renderer.OnClosing | Src/Rendering/Renderer.cs:220-225 | every registered object is deleted exactly once, and nothing else is deleted |
| Timing.TickStep | FredrickTechDemo/Src/Game/TicksAndFps.cs:49-73 | the tick half of update; its properties are TickBounds, UncappedTicks, LeftoverDiscarded and CapKeepsAccumulator |
| Timing.FpsStep | FredrickTechDemo/Src/Game/TicksAndFps.cs:35-47 | the FPS half of update; its properties are FpsCounting and TimerStaysBelowOne |
| Timing.TruncToInt | FredrickTechDemo/Src/Game/TicksAndFps.cs:65 | inside the int range, the C# (int) cast rounds toward zero, and is non-negative exactly for values above -1 |
| Timing.TickBounds | FredrickTechDemo/Src/Game/TicksAndFps.cs:63-73 | with non-negative elapsed time, 0 ≤ ticksElapsed ≤ (int)tps / 2 after every update |
| Timing.UncappedTicks | FredrickTechDemo/Src/Game/TicksAndFps.cs:63-73 | when the cap does not fire, ticksElapsed is (int)percentToNextTick |
| Timing.LeftoverDiscarded | FredrickTechDemo/Src/Game/TicksAndFps.cs:53-63 | after a frame that ticked, the accumulator restarts at this frame's deltaTime / timePerTick |
| Timing.CapKeepsAccumulator | FredrickTechDemo/Src/Game/TicksAndFps.cs:63-73 | the cap lowers the tick count only: the accumulator keeps the full amount, at least 1 |
| Timing.ThirtyTpsExamples | FredrickTechDemo/Src/Game/TicksAndFps.cs:63-73 | at 30 tps from an empty accumulator a 34 ms frame gives 1 tick and a 10000 ms frame is capped at 15 ticks |
| Timing.TickedFrameKeepsWholeTick | FredrickTechDemo/Src/Game/TicksAndFps.cs:53-73 | every frame that ticks leaves the accumulator at 1 or more, capped or not, so it is not the fraction in [0, 1) that the field's comment at line 22 describes; from 2 tps up, an accumulator of 1 or more means the frame ticked |
| Timing.FpsCounting | FredrickTechDemo/Src/Game/TicksAndFps.cs:39-47 | each update counts one frame; once the timer reaches 1 s, fps takes the previous count, the count restarts and the timer drops by 1 |
| Timing.TimerStaysBelowOne | FredrickTechDemo/Src/Game/TicksAndFps.cs:39-44 | with frames shorter than a second the timer stays in [0, 1) |
| Timing.TicksAndFps.constructor | FredrickTechDemo/Src/Game/TicksAndFps.cs:13-22 | the static initial values: time 0, fps 1, no frames, no ticks |
| Timing.TicksAndFps.Init | FredrickTechDemo/Src/Game/TicksAndFps.cs:24-31 | sets ticksPerSecond and timePerTick = 1 / tps, and lastTime to the stopwatch reading |
| Timing.TicksAndFps.Update | FredrickTechDemo/Src/Game/TicksAndFps.cs:33-74 | the new FPS fields are FpsStep and the tick fields TickStep of the old ones, with deltaTime the milliseconds since the last update over 1000; when time does not run backwards and the accumulator was non-negative, the tick count lies in [0, (int)tps / 2] and the accumulator stays non-negative |
| Timing.TicksAndFps.UpdateFps | FredrickTechDemo/Src/Game/TicksAndFps.cs:35-47 | the timer, frame count and fps become FpsStep of their old values |
| Timing.TicksAndFps.UpdateTicks | FredrickTechDemo/Src/Game/TicksAndFps.cs:49-73 | ticksElapsed and percentToNextTick become TickStep of their old values; nothing else changes |
| Timing.TicksAndFps.GetTicksElapsed | FredrickTechDemo/Src/Game/TicksAndFps.cs:98-101 | the tick count of the last update |
| Timing.TicksAndFps.GetPercentageToNextTick | FredrickTechDemo/Src/Game/TicksAndFps.cs:102-105 | the accumulator itself, which is 1 or more after every frame that ticked (Timing.TickedFrameKeepsWholeTick) |
| Colliders.Aabb.GetType | RabbetGameEngine/Src/Physics/Colliders/AABB.cs:98-101 | always the AABB collider kind |
| Colliders.SetBounds | RabbetGameEngine/Src/Physics/Colliders/AABB.cs:30-43 | the given bounds without a parent, the bounds moved by the parent's position with one |
| Colliders.Offset | RabbetGameEngine/Src/Physics/Colliders/AABB.cs:108-112 | both corners move by the direction on every axis |
| Colliders.OffsetXYZ | RabbetGameEngine/Src/Physics/Colliders/AABB.cs:114-123 | the per-field overload gives the same box as offset by the vector (x, y, z) |
| Colliders.Negate | RabbetGameEngine/Src/Physics/Colliders/AABB.cs:108-112 | a helper standing for the vector negation `-v` of the vector type, not code at these lines: the negated direction cancels the direction, so their sum is the zero vector; it states the undo half of OffsetKeepsExtents |
| Colliders.AreBoxesNotTouching | RabbetGameEngine/Src/Physics/Colliders/AABB.cs:51-55 | false exactly when the closed intervals of the two boxes meet on all three axes |
| Colliders.IsPositionNotInsideBox | RabbetGameEngine/Src/Physics/Colliders/AABB.cs:58-63 | false exactly when min ≤ p ≤ max on every axis |
| Colliders.OverlappingX | RabbetGameEngine/Src/Physics/Colliders/AABB.cs:71-74 | for boxes of positive width on x, true exactly when the later low end lies below the earlier high end |
| Colliders.OverlappingY | RabbetGameEngine/Src/Physics/Colliders/AABB.cs:82-85 | the same on y |
| Colliders.OverlappingZ | RabbetGameEngine/Src/Physics/Colliders/AABB.cs:93-96 | the same on z |
| Colliders.Aabb.MinX | RabbetGameEngine/Src/Physics/Colliders/AABB.cs:125 | the x coordinate of the min corner (likewise the rows below for the other getters) |
| Colliders.Aabb.MinY | RabbetGameEngine/Src/Physics/Colliders/AABB.cs:126 | the y coordinate of the min corner |
| Colliders.Aabb.MinZ | RabbetGameEngine/Src/Physics/Colliders/AABB.cs:127 | the z coordinate of the min corner |
| Colliders.Aabb.MaxX | RabbetGameEngine/Src/Physics/Colliders/AABB.cs:129 | the x coordinate of the max corner |
| Colliders.Aabb.MaxY | RabbetGameEngine/Src/Physics/Colliders/AABB.cs:130 | the y coordinate of the max corner |
| Colliders.Aabb.MaxZ | RabbetGameEngine/Src/Physics/Colliders/AABB.cs:131 | the z coordinate of the max corner |
| Colliders.Aabb.ExtentX | RabbetGameEngine/Src/Physics/Colliders/AABB.cs:135 | the distance from either x face to the centre: min + extent = max - extent, non-negative when the corners are in order |
| Colliders.Aabb.ExtentY | RabbetGameEngine/Src/Physics/Colliders/AABB.cs:136 | the same on y |
| Colliders.Aabb.ExtentZ | RabbetGameEngine/Src/Physics/Colliders/AABB.cs:137 | the same on z |
| Colliders.NotTouchingSymmetric | RabbetGameEngine/Src/Physics/Colliders/AABB.cs:51-55 | areBoxesNotTouching(a, b) == areBoxesNotTouching(b, a) |
| Colliders.TouchingIff | RabbetGameEngine/Src/Physics/Colliders/AABB.cs:51-63 | two boxes whose corners are in order touch iff some point is inside both, in the sense of isPositionNotInsideBox |
| Colliders.OverlappingSymmetric | RabbetGameEngine/Src/Physics/Colliders/AABB.cs:71-96 | overlappingX, overlappingY and overlappingZ are symmetric |
| Colliders.OverlapImpliesTouching | RabbetGameEngine/Src/Physics/Colliders/AABB.cs:51-96 | strict overlap on all three axes implies the boxes touch |
| Colliders.InsideIff | RabbetGameEngine/Src/Physics/Colliders/AABB.cs:51-63 | a box contains a point iff it touches the degenerate box at that point |
| Colliders.OffsetKeepsExtents | RabbetGameEngine/Src/Physics/Colliders/AABB.cs:108-137 | offset keeps extentX/Y/Z, and offsetting back by the negated direction restores the box |
| Colliders.OffsetKeepsCollisions | RabbetGameEngine/Src/Physics/Colliders/AABB.cs:51-112 | moving the boxes and the point by one direction changes no touching, inside or overlapping answer |
| MathUtil.Lerp | Coictus/Src/Game/MathUtil.cs:24-27 | factor 0 gives src, factor 1 gives dest, and a factor in [0, 1] gives a value between them |
| MathUtil.Clamp | Coictus/Src/Game/MathUtil.cs:17-22 | with min ≤ max the result is in [min, max] and is val when val is in range; with min > max it is max, since the max test comes last |
| MathUtil.ClampIdempotent | Coictus/Src/Game/MathUtil.cs:17-22 | clamping twice is clamping once |
| MathUtil.Max3 | Coictus/Src/Game/MathUtil.cs:93-104 | one of the three inputs, and at least each of them |
| MathUtil.Min3 | Coictus/Src/Game/MathUtil.cs:106-117 | one of the three inputs, and at most each of them |
| MathUtil.Max6 | Coictus/Src/Game/MathUtil.cs:119-142 | one of the six inputs, and at least each of them |
| MathUtil.MaxMinAgree | Coictus/Src/Game/MathUtil.cs:93-142 | max6 is max3 of the two halves' max3, and min3 is the negated max3 of the negations |
| MathUtil.Smooth3 | Coictus/Src/Game/MathUtil.cs:67-91 | a factor ≤ 0 leaves x, y, z unchanged; otherwise each moves min(factor, 1) of the way to the average, the sum is kept, and a factor ≥ 1 makes all three the average |

## Left out

- GL calls are not modelled: buffer creation, binding, attribute pointer calls, `GL.DeleteVertexArray`, `GL.EnableVertexAttribArray`, the shader and texture utilities, `OffScreen`, `SkyboxRenderer` and `BatchManager`. Buffers are tracked only as references and logged operations.
- The small GL getters and pass-throughs are not modelled: `getRendererName`, `bindVAO`, the renderers' static `onClosing`, `getVBOIDAt`, `getName`, `beginBuilding` and `unBind`.
- The resize and update pass-throughs of `VertexArrayObject` are not modelled: `resizeBuffer`, `resizeIndices`, `resizeIndirect`, `updateIndices` and `updateIndirectBuffer`. They only forward to GL buffer objects, which are not part of this model.
- `Renderer` window handling is not modelled: `init`'s loading and GL setup, `onResize`, `onToggleFullscreen`, matrices, `requestRender`, `onTickStart`/`onTickEnd` and `renderAll`. They are GL, window or batching plumbing.
- The order in which `drawAllStaticRenderObjects` and `onClosing` enumerate the dictionary is not modelled. .NET does not specify it, so the model proves the properties for any order.
- `TicksAndFps.displayFps`, `getMiliseconds` and `getFps` are not modelled: GUI output, stopwatch access and a field read.
- Rendering.Renderer.constructor: the shader names `ShaderUtil.trianglesName` and `linesName` are constructor parameters, because their values are not part of this model.
- Timing.TicksAndFps.Update: times and the accumulator are exact reals, not `float`/`double`, so rounding and NaN are not modelled. `init` must be given a positive tick rate, because `1 / 0` gives infinity in C#, which the reals cannot represent.
- Timing.TicksAndFps.GetPercentageToNextTick: the `(float)` narrowing of the result is not modelled.
- Timing.TruncToInt: a double outside the int range has an unspecified `(int)` value in C# (on x64 .NET before 9 it is -2147483648); the model truncates every real exactly. So Timing.TickBounds and Timing.TicksAndFps.Update's tick bound hold only while the accumulator and the tick rate stay below 2^31; a single frame about 833 days long at 30 ticks a second would leave ticksElapsed negative in the engine.
- Colliders.Offset: the `float` additions are exact in the model; `float` rounding is not modelled.
- Colliders.Aabb.ExtentX: the `float` subtraction `maxBounds.X - minBounds.X` is exact in the model; `float` rounding is not modelled. So the centre equation min + extent = max - extent holds over exact reals only: at min 1f and max 16777218f the engine's extent is 8388608, and the two sides differ by 1.
- Colliders.Aabb.ExtentY: the `float` subtraction on y is exact in the model; `float` rounding is not modelled, so the centre equation holds over exact reals only.
- Colliders.Aabb.ExtentZ: the `float` subtraction on z is exact in the model; `float` rounding is not modelled, so the centre equation holds over exact reals only.
- Colliders.AreBoxesNotTouching: over reals, which have no NaN. With a NaN coordinate every C# comparison is false, so the engine reports touching although the closed intervals do not meet; the if-and-only-if is not promised for NaN.
- Colliders.IsPositionNotInsideBox: over reals, which have no NaN. With a NaN coordinate the engine reports the point inside, so the if-and-only-if is not promised for NaN.
- Colliders.TouchingIff: holds over reals only; a NaN coordinate breaks it as it breaks Colliders.AreBoxesNotTouching.
- Colliders.InsideIff: holds over reals only; a NaN coordinate breaks it as it breaks Colliders.IsPositionNotInsideBox.
- Colliders.OffsetKeepsExtents: holds over exact reals only. With `float` rounding an offset by 1e8 and back can collapse a box of width 0.9 to width 0, so neither the box nor its extents need be restored.
- Colliders.OffsetKeepsCollisions: holds over exact reals only. `float` rounding of the shifted corners can change a touching, inside or overlapping answer.
- MathUtil.Lerp: holds over exact reals only. With `double` rounding, `lerp(1e20, 1, 1)` gives 0 rather than dest, so the endpoint and betweenness facts are not promised for the engine's doubles.
- MathUtil.Clamp: over reals, which have no NaN. In C# `clamp(NaN, 0, 1)` returns NaN, so the range facts are not promised for a NaN argument.
- MathUtil.Max3: over reals, which have no NaN. In C# `max3(NaN, 1, 2)` returns 2, which is not at least every input.
- MathUtil.Min3: over reals, which have no NaN. A NaN argument can make the C# result fail to be at most every input.
- MathUtil.Max6: over reals, which have no NaN. A NaN argument can make the C# result fail to be at least every input.
- MathUtil.Smooth3: covers both `smooth3` and `smooth3F` over exact reals. The double and float rounding that distinguishes them is not modelled.
- Colliders.SetBounds: the direction vectors `vecToBackRight`, `vecToBackLeft`, `vecToFrontRight` and `centerVec` are float geometry and are not modelled. The `AABB` constructor (lines 18-26) only calls `setBounds`, so `SetBounds` models it; `getCenterVec` and `centerVec` are float geometry and are left out.
- Chunks.Chunk.constructor: `coordinate * CHUNK_SIZE` is exact in the model; the C# `int` product wraps for chunk coordinates outside [-2^26, 2^26), and that wrap is not modelled.
- CacheChunkRendering.ChunkRenderer.constructor: the `Vector3i` arithmetic `coordinate * CHUNK_SIZE` and `voxelMinBounds + new Vector3i(CHUNK_SIZE)` is exact in the model. In C# it wraps, so for chunk coordinates outside [-2^26, 2^26 - 1) the bounds differ: at x-coordinate 2^26 - 1, voxelMaxBounds.X wraps to -2^31, and max - min = 32 no longer holds.
- CacheChunkRendering.ChunkRenderer.UpdateVoxelMesh: with the same exact bounds, the model scans all 32768 cells for every chunk coordinate. In C#, the wrapped bounds at chunk x-coordinate 2^26 - 1 make the loops run zero times and the mesh empty, and `pos + faceDirections[i]` wraps at world coordinate 2^31 - 1. Chunk coordinates outside [-2^26, 2^26 - 1) are not modelled.
- Terrains.Terrain.GetChunkAtCoord: the `int`-to-`float` conversion of the coordinates is taken as exact, so coordinates beyond 2^24, where `float` loses precision, are not modelled.
- `Terrain.unLoad` and `Chunk.unLoad` are not modelled: `Chunk.unLoad` is not part of this model. The constructor's `Random` parameter is unused and dropped.
- `Chunk.setLightLevelAt`, `getLightLevelAt`, `getVoxels`, `worldToChunkPos` and `worldToVoxelPos` are not modelled. `LightMap` and `MathUtil.rightShift` are not part of this model, and the last two are float geometry.
- The meshing model does not compute `Terrain.getLocalVoxelFromChunk`, `getLocalLightLevelFromChunk` and the `ChunkCache` lookups. They are not part of this model, so the renderers take them as functions of coordinates, including at the neighbours one step outside the chunk.
- `VoxelFace` is modelled by its six fields. Its byte layout and `SIZE_IN_BYTES` are not part of this model.
- `VertexBufferLayout.getStride` is not modelled, and neither is the GL type-size table behind `getSizeOfType`: each element carries its type size.
- `generateSpawnChunks` calls a `Chunk(int, int, int)` constructor that is not part of this model. It is modelled as the `Vector3i` constructor on the same key.
- `Renderer.onClosing` also calls `BatchManager.deleteAll`, `ShaderUtil.deleteAll`, `TextureUtil.deleteAll` and `OffScreen.onClose`. These are not part of this model.
- `Chunk.isMarkedForRenderUpdate` and `isMarkedForRemoval` are plain getters. The model reads the flags as fields (`updateFlag`, `removalFlag`), as the renderers' `IsChunkMarked*` predicates do.
- CacheChunkRendering.ChunkRenderer.constructor: `AABB.fromBounds` is not part of this model; the bounding box is taken to be the box with those two corners.
- `Profiler` calls are not modelled, because they do not affect the engine's state.
- CacheChunkRendering.ChunkRenderer.UpdateVoxelMesh: the `int` overflow of `addedVoxelFaceCount * SIZE_IN_BYTES` and of `MAX_CHUNK_FACE_COUNT * SIZE_IN_BYTES` is not modelled. The products are exact integers.
- TerrainChunkRendering.ChunkRenderer.UpdateVoxelMesh: the same product overflow is not modelled. Line 95 of that file assigns to `isMarkedForRenderUpdate`, a method name, so it would not compile. It is modelled as the evident intent, `unMarkForRenderUpdate`.

## Findings

| source | as written | input that shows it | evidently intended | confidence | as-written member | corrected member |
|---|---|---|---|---|---|---|
| Rabbet-Game-Engine/Source/Universe/Worldgen/Chunk.cs:76-77 | `getVoxelAt` (and `setVoxelAt`, lines 52-53) rejects negative coordinates and indices ≥ 32768 only; `x << 10` on an `int` can set the sign bit, giving a negative index that passes the test | x = 2097152 (2^21), y = z = 0: the index is -2147483648, and `voxels[index]` throws IndexOutOfRangeException | any index outside [0, 32768) reads 0 and is not written; the corrected `setVoxelAt` still updates the opacity map and `isEmpty` for such an index, as lines 54-60 would after the write | not executed | Chunks.NegativeIndexPassesGuard | Chunks.OutOfArrayIgnored, Chunks.WriteVoxel, Chunks.Chunk.SetVoxelAt, Chunks.Chunk.GetVoxelAt |
