/**
 * The Terrain-coupled ChunkRenderer: it meshes its parent chunk in chunk-local
 * coordinates (0 .. 31 on each axis) through Terrain.getLocalVoxelFromChunk,
 * whose lookups outside the chunk (-1 and 32) are the terrain's business and
 * so are left abstract here.
 */
module TerrainChunkRendering {
  import opened Common
  import opened Chunks
  import opened Meshing
  import opened VertexArrays

  /** The terrain renderer draws any non-zero voxel id as itself; id 0 is air. */
  function DrawnId(id: int): (r: Option<int>)
    ensures r.None? <==> id == 0
    ensures r.Some? ==> r.value == id
  {
    if id == 0 then None else Some(id)
  }

  /**
   * What updateVoxelMesh(Terrain) reads: `voxelAt` is getLocalVoxelFromChunk,
   * `isOpaque` is VoxelType.isVoxelOpaque and `lightAt` is
   * getLocalLightLevelFromChunk, all at chunk-local coordinates.
   */
  function TerrainSource(voxelAt: Vec3i -> int, isOpaque: int -> bool, lightAt: Vec3i -> int): MeshSource
  {
    MeshSource(voxelAt, DrawnId, isOpaque, lightAt)
  }

  /** The scan of this renderer starts at the chunk's local origin. */
  const LOCAL_ORIGIN: Vec3i := Vec3i(0, 0, 0)

  /**
   * A face is in the terrain renderer's mesh exactly when its cell is inside the
   * chunk, holds the non-zero id the face carries, and the neighbour in its
   * direction is not opaque; the face's light is the neighbour's light.
   */
  lemma TerrainFaceEmittedIff(voxelAt: Vec3i -> int, isOpaque: int -> bool, lightAt: Vec3i -> int, f: VoxelFace)
    ensures f in Faces(TerrainSource(voxelAt, isOpaque, lightAt), LOCAL_ORIGIN) <==>
      && InChunk(f.x, f.y, f.z)
      && 0 <= f.face < FACE_COUNT
      && voxelAt(Vec3i(f.x, f.y, f.z)) != 0
      && f.id == voxelAt(Vec3i(f.x, f.y, f.z))
      && var neighbour := Add(Vec3i(f.x, f.y, f.z), FACE_DIRECTIONS[f.face]);
         && !isOpaque(voxelAt(neighbour))
         && f.light == lightAt(neighbour)
  {
    var src := TerrainSource(voxelAt, isOpaque, lightAt);
    FaceEmittedIff(src, LOCAL_ORIGIN, f);
    assert Add(LOCAL_ORIGIN, Vec3i(f.x, f.y, f.z)) == Vec3i(f.x, f.y, f.z);
  }

  class ChunkRenderer {
    const parentChunk: Chunk
    const voxelFaceBuffer: array<VoxelFace>
    const voxelsVAO: VertexArrayObject
    /** VoxelFace.SIZE_IN_BYTES; the VoxelFace layout is not part of this model. */
    const faceSizeInBytes: nat
    var addedVoxelFaceCount: nat

    /** The renderer's VAO holds its one dynamic face buffer and none of the optional buffers. */
    ghost predicate Valid()
      reads this, voxelsVAO
    {
      && voxelFaceBuffer.Length == MAX_CHUNK_FACE_COUNT
      && voxelsVAO.Valid()
      && |voxelsVAO.vbos| == 1
      && voxelsVAO.ibo.None? && voxelsVAO.indbo.None? && voxelsVAO.instbo.None?
    }

    /** The face array of MAX_CHUNK_FACE_COUNT slots, and a VAO with one dynamic buffer of that many faces. */
    constructor (parentChunk: Chunk, vaoId: int, faceSizeInBytes: nat)
      ensures Valid() && fresh(voxelFaceBuffer) && fresh(voxelsVAO)
      ensures this.parentChunk == parentChunk && this.faceSizeInBytes == faceSizeInBytes
      ensures addedVoxelFaceCount == 0
      ensures voxelsVAO.vaoId == vaoId
      ensures voxelsVAO.vbos == [VertexBuffer(Layout([], false), DynamicSize(MAX_CHUNK_FACE_COUNT * faceSizeInBytes))]
      ensures voxelsVAO.updates == []
    {
      this.parentChunk := parentChunk;
      this.faceSizeInBytes := faceSizeInBytes;
      addedVoxelFaceCount := 0;
      voxelFaceBuffer := new VoxelFace[MAX_CHUNK_FACE_COUNT](_ => VoxelFace(0, 0, 0, 0, 0, 0));
      var vao := new VertexArrayObject(vaoId);
      vao.AddBufferDynamic(MAX_CHUNK_FACE_COUNT * faceSizeInBytes, Layout([], false));
      voxelsVAO := vao;
    }

    /**
     * updateVoxelMesh(Terrain): the face array's first addedVoxelFaceCount slots
     * become the chunk's mesh, exactly that many faces' bytes are uploaded to
     * buffer 0, and the chunk's render-update flag is cleared. The mesh must fit
     * the array: a configuration with more visible faces has no defined outcome.
     */
    method UpdateVoxelMesh(voxelAt: Vec3i -> int, isOpaque: int -> bool, lightAt: Vec3i -> int)
      requires Valid()
      requires |Faces(TerrainSource(voxelAt, isOpaque, lightAt), LOCAL_ORIGIN)| <= MAX_CHUNK_FACE_COUNT
      modifies voxelFaceBuffer, this`addedVoxelFaceCount, voxelsVAO`updates, parentChunk`updateFlag
      ensures Valid()
      ensures addedVoxelFaceCount == |Faces(TerrainSource(voxelAt, isOpaque, lightAt), LOCAL_ORIGIN)|
      ensures voxelFaceBuffer[..addedVoxelFaceCount] == Faces(TerrainSource(voxelAt, isOpaque, lightAt), LOCAL_ORIGIN)
      ensures voxelsVAO.updates == old(voxelsVAO.updates) + [BufferUpdate(0, addedVoxelFaceCount * faceSizeInBytes)]
      ensures !parentChunk.updateFlag
    {
      var src := TerrainSource(voxelAt, isOpaque, lightAt);
      addedVoxelFaceCount := 0;
      var count := ScanChunk(src, LOCAL_ORIGIN, voxelFaceBuffer);
      addedVoxelFaceCount := count;
      var _ := voxelsVAO.UpdateBuffer(0, addedVoxelFaceCount * faceSizeInBytes);
      parentChunk.UnMarkForRenderUpdate();
    }

    /** delete: releases the renderer's one vertex buffer and nothing else. */
    method Delete() returns (released: seq<BufferRef>)
      requires Valid()
      ensures released == [Vbo(0)]
    {
      released := voxelsVAO.Delete();
      assert VboRefs(1) == [Vbo(0)];
    }
  }
}
