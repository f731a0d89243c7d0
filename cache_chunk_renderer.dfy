/**
 * The ChunkCache-based ChunkRenderer: it scans its chunk in world voxel
 * coordinates, from voxelMinBounds up to voxelMaxBounds, and stores each face
 * at its coordinates relative to voxelMinBounds.
 */
module CacheChunkRendering {
  import opened Common
  import opened Chunks
  import opened Meshing
  import opened VertexArrays
  import Colliders

  function ToReal(v: Vec3i): Colliders.Vec3
  {
    Colliders.Vec3(v.x as real, v.y as real, v.z as real)
  }

  /**
   * What updateVoxelMesh(ChunkCache) reads, at world voxel coordinates:
   * `voxelAt` is getVoxelAtVoxelCoords, `typeOf` maps an id to the id of its
   * VoxelType (None where getVoxelById gives null), `isOpaque` is
   * VoxelType.isVoxelOpaque and `lightAt` is getLightLevelAtVoxelCoords.
   */
  function CacheSource(voxelAt: Vec3i -> int, typeOf: int -> Option<int>, isOpaque: int -> bool, lightAt: Vec3i -> int): MeshSource
  {
    MeshSource(voxelAt, typeOf, isOpaque, lightAt)
  }

  /**
   * Every face the cache renderer stores has coordinates in [0, 32), so the
   * byte casts of x - min, y - min and z - min lose nothing, and the voxel it
   * belongs to is the one at voxelMinBounds plus those coordinates.
   */
  lemma StoredFacesAreLocal(src: MeshSource, minBounds: Vec3i, f: VoxelFace)
    requires f in Faces(src, minBounds)
    ensures 0 <= f.x < CHUNK_SIZE && 0 <= f.y < CHUNK_SIZE && 0 <= f.z < CHUNK_SIZE
    ensures 0 <= f.face < FACE_COUNT
    ensures src.typeOf(src.voxelAt(Add(minBounds, Vec3i(f.x, f.y, f.z)))) == Some(f.id)
    ensures f.light == src.lightAt(Add(Add(minBounds, Vec3i(f.x, f.y, f.z)), FACE_DIRECTIONS[f.face]))
  {
    FaceEmittedIff(src, minBounds, f);
  }

  /** Conversely, every visible face of a drawn voxel of the chunk is stored. */
  lemma VisibleFacesAreStored(src: MeshSource, minBounds: Vec3i, world: Vec3i, i: int)
    requires minBounds.x <= world.x < minBounds.x + CHUNK_SIZE
    requires minBounds.y <= world.y < minBounds.y + CHUNK_SIZE
    requires minBounds.z <= world.z < minBounds.z + CHUNK_SIZE
    requires 0 <= i < FACE_COUNT && src.typeOf(src.voxelAt(world)).Some?
    requires !src.isOpaque(src.voxelAt(Add(world, FACE_DIRECTIONS[i])))
    ensures VoxelFace(world.x - minBounds.x, world.y - minBounds.y, world.z - minBounds.z,
                      src.lightAt(Add(world, FACE_DIRECTIONS[i])), i, src.typeOf(src.voxelAt(world)).value)
            in Faces(src, minBounds)
  {
    var f := VoxelFace(world.x - minBounds.x, world.y - minBounds.y, world.z - minBounds.z,
                       src.lightAt(Add(world, FACE_DIRECTIONS[i])), i, src.typeOf(src.voxelAt(world)).value);
    assert Add(minBounds, Vec3i(f.x, f.y, f.z)) == world;
    FaceEmittedIff(src, minBounds, f);
  }

  class ChunkRenderer {
    const parentChunk: Chunk
    const voxelMinBounds: Vec3i
    const voxelMaxBounds: Vec3i
    const rendererBoundingBox: Colliders.Aabb
    const voxelFaceBuffer: array<VoxelFace>
    const voxelsVAO: VertexArrayObject
    /** VoxelFace.SIZE_IN_BYTES; the VoxelFace layout is not part of this model. */
    const faceSizeInBytes: nat
    var addedVoxelFaceCount: nat

    /** The bounds span exactly the parent chunk, and the VAO holds the one dynamic face buffer. */
    ghost predicate Valid()
      reads this, voxelsVAO
    {
      && voxelMinBounds == Scale(parentChunk.coord, CHUNK_SIZE)
      && voxelMaxBounds == Add(voxelMinBounds, Vec3i(CHUNK_SIZE, CHUNK_SIZE, CHUNK_SIZE))
      && voxelFaceBuffer.Length == MAX_CHUNK_FACE_COUNT
      && voxelsVAO.Valid()
      && |voxelsVAO.vbos| == 1
      && voxelsVAO.ibo.None? && voxelsVAO.indbo.None? && voxelsVAO.instbo.None?
    }

    /** Bounds from the chunk coordinate, the bounding box over them, and the face array and its VAO. */
    constructor (parentChunk: Chunk, vaoId: int, faceSizeInBytes: nat)
      ensures Valid() && fresh(voxelFaceBuffer) && fresh(voxelsVAO)
      ensures this.parentChunk == parentChunk && this.faceSizeInBytes == faceSizeInBytes
      ensures voxelMinBounds == Scale(parentChunk.coord, CHUNK_SIZE)
      ensures voxelMaxBounds.x - voxelMinBounds.x == CHUNK_SIZE
      ensures voxelMaxBounds.y - voxelMinBounds.y == CHUNK_SIZE
      ensures voxelMaxBounds.z - voxelMinBounds.z == CHUNK_SIZE
      ensures rendererBoundingBox == Colliders.Aabb(ToReal(voxelMinBounds), ToReal(voxelMaxBounds))
      ensures addedVoxelFaceCount == 0
      ensures voxelsVAO.vaoId == vaoId
      ensures voxelsVAO.vbos == [VertexBuffer(Layout([], false), DynamicSize(MAX_CHUNK_FACE_COUNT * faceSizeInBytes))]
      ensures voxelsVAO.updates == []
    {
      this.parentChunk := parentChunk;
      this.faceSizeInBytes := faceSizeInBytes;
      var minBounds := Scale(parentChunk.coord, CHUNK_SIZE);
      var maxBounds := Add(minBounds, Vec3i(CHUNK_SIZE, CHUNK_SIZE, CHUNK_SIZE));
      voxelMinBounds := minBounds;
      voxelMaxBounds := maxBounds;
      rendererBoundingBox := Colliders.Aabb(ToReal(minBounds), ToReal(maxBounds));
      addedVoxelFaceCount := 0;
      voxelFaceBuffer := new VoxelFace[MAX_CHUNK_FACE_COUNT](_ => VoxelFace(0, 0, 0, 0, 0, 0));
      var vao := new VertexArrayObject(vaoId);
      vao.AddBufferDynamic(MAX_CHUNK_FACE_COUNT * faceSizeInBytes, Layout([], false));
      voxelsVAO := vao;
    }

    /**
     * updateVoxelMesh(ChunkCache): the first addedVoxelFaceCount slots become
     * the mesh of the cells from voxelMinBounds, exactly that many faces' bytes
     * are uploaded to buffer 0, and the chunk is unmarked for render update.
     * The mesh must fit the face array.
     */
    method UpdateVoxelMesh(voxelAt: Vec3i -> int, typeOf: int -> Option<int>, isOpaque: int -> bool, lightAt: Vec3i -> int)
      requires Valid()
      requires |Faces(CacheSource(voxelAt, typeOf, isOpaque, lightAt), voxelMinBounds)| <= MAX_CHUNK_FACE_COUNT
      modifies voxelFaceBuffer, this`addedVoxelFaceCount, voxelsVAO`updates, parentChunk`updateFlag
      ensures Valid()
      ensures addedVoxelFaceCount == |Faces(CacheSource(voxelAt, typeOf, isOpaque, lightAt), voxelMinBounds)|
      ensures voxelFaceBuffer[..addedVoxelFaceCount] == Faces(CacheSource(voxelAt, typeOf, isOpaque, lightAt), voxelMinBounds)
      ensures voxelsVAO.updates == old(voxelsVAO.updates) + [BufferUpdate(0, addedVoxelFaceCount * faceSizeInBytes)]
      ensures !parentChunk.updateFlag
    {
      var src := CacheSource(voxelAt, typeOf, isOpaque, lightAt);
      addedVoxelFaceCount := 0;
      var count := ScanChunk(src, voxelMinBounds, voxelFaceBuffer);
      addedVoxelFaceCount := count;
      var _ := voxelsVAO.UpdateBuffer(0, addedVoxelFaceCount * faceSizeInBytes);
      parentChunk.UnMarkForRenderUpdate();
    }

    /** visibleVoxelFaceCount: the number of faces the last update stored. */
    function VisibleVoxelFaceCount(): (r: nat)
      reads this
      ensures r == addedVoxelFaceCount
    {
      addedVoxelFaceCount
    }

    /** isChunkMarkedForRemoval and isChunkMarkedForRenderUpdate read the parent chunk's flags. */
    predicate IsChunkMarkedForRemoval()
      reads this, parentChunk
    {
      parentChunk.removalFlag
    }

    predicate IsChunkMarkedForRenderUpdate()
      reads this, parentChunk
    {
      parentChunk.updateFlag
    }

    /** pos: the parent chunk's coordinate. */
    function Pos(): Vec3i
    {
      parentChunk.coord
    }

    /** delete: releases the renderer's one vertex buffer and nothing else. */
    method Delete() returns (released: seq<BufferRef>)
      requires Valid()
      ensures released == [Vbo(0)]
    {
      released := voxelsVAO.Delete();
      assert VboRefs(1) == [Vbo(0)];
    }
  }
}
