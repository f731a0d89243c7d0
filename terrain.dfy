/**
 * The terrain: a sparse map from chunk coordinate to chunk. World
 * coordinates resolve to a chunk by truncating division by the chunk size
 * and to a cell inside it by `& 31`; a missing chunk reads as air.
 */
module Terrains {
  import opened Common
  import opened Bits
  import opened Chunks

  /** Radius of the square of chunks generated around the origin at spawn. */
  const SPAWN_CHUNK_RADIUS: int := 8

  /**
   * getChunkCoord on one axis: `(int)(pos / CHUNK_SIZE)`. The cast truncates
   * toward zero, so -31..31 all land in chunk 0.
   */
  function ChunkCoordOf(v: Int32): (c: int)
    ensures v >= 0 ==> c * CHUNK_SIZE <= v < c * CHUNK_SIZE + CHUNK_SIZE
    ensures v < 0 ==> c * CHUNK_SIZE - CHUNK_SIZE < v <= c * CHUNK_SIZE
  {
    TruncDiv(v, CHUNK_SIZE)
  }

  function ChunkKey(x: Int32, y: Int32, z: Int32): Vec3i
  {
    Vec3i(ChunkCoordOf(x), ChunkCoordOf(y), ChunkCoordOf(z))
  }

  /** The local coordinate handed to the chunk: `v & CHUNK_SIZE_MINUS_ONE`. */
  function LocalCoord(v: Int32): (l: Int32)
  {
    And32(v, CHUNK_SIZE_MINUS_ONE)
  }

  /** The local coordinate is always inside the chunk: it is v modulo 32, for negative v too. */
  lemma LocalCoordInChunk(v: Int32)
    ensures LocalCoord(v) == v % CHUNK_SIZE
    ensures 0 <= LocalCoord(v) < CHUNK_SIZE
  {
    And31IsMod32(v);
  }

  /** For non-negative coordinates chunk and local coordinate decompose the world coordinate. */
  lemma NonNegativeDecomposes(v: Int32)
    requires v >= 0
    ensures ChunkCoordOf(v) * CHUNK_SIZE + LocalCoord(v) == v
  {
    LocalCoordInChunk(v);
  }

  /** Truncation, not floor division: world coordinate -1 lies in chunk 0, not chunk -1. */
  lemma TruncatesTowardZero()
    ensures ChunkCoordOf(-1) == 0
    ensures -1 / CHUNK_SIZE == -1
  {
  }

  /**
   * Every negative v that is not a multiple of 32 resolves to the cell of
   * v + 32: chunk coordinate times 32 plus the local coordinate is v + 32, so
   * world -33 reads the cell that chunk -1 would place at world -1 (chunk -1,
   * local 31), not the cell world -1 itself reads (chunk 0, local 31).
   */
  lemma NegativeShiftsOneChunk(v: Int32)
    requires v < 0 && v % CHUNK_SIZE != 0
    ensures ChunkCoordOf(v) * CHUNK_SIZE + LocalCoord(v) == v + CHUNK_SIZE
  {
    LocalCoordInChunk(v);
    var w := -v;
    var q, r := w / 32, w % 32;
    assert w == 32 * q + r;
    if r == 0 {
      DivModUnique(v, 32, -q, 0);
      assert false;
    }
    DivModUnique(v, 32, -q - 1, 32 - r);
    assert ChunkCoordOf(v) == -q;
    assert LocalCoord(v) == 32 - r;
  }

  /** For -32 < v < 0, v and v + 32 resolve to the same chunk and the same local coordinate. */
  lemma NegativeBandAliases(v: Int32)
    requires -CHUNK_SIZE < v < 0
    ensures ChunkCoordOf(v) == ChunkCoordOf(v + CHUNK_SIZE) == 0
    ensures LocalCoord(v) == LocalCoord(v + CHUNK_SIZE)
  {
    LocalCoordInChunk(v);
    LocalCoordInChunk(v + CHUNK_SIZE);
    DivModUnique(v, 32, -1, v + 32);
    DivModUnique(v + 32, 32, 0, v + 32);
    DivModUnique(-v, 32, 0, -v);
  }

  /** The key generateSpawnChunks adds on loop iteration (x, z). */
  function SpawnKey(x: int, z: int): Vec3i
  {
    Vec3i(x - SPAWN_CHUNK_RADIUS / 2, 0, z - SPAWN_CHUNK_RADIUS / 2)
  }

  /** k is added by an iteration that comes before (x, z) in the loop order. */
  predicate SpawnedBefore(k: Vec3i, x: int, z: int)
  {
    var a, b := k.x + SPAWN_CHUNK_RADIUS / 2, k.z + SPAWN_CHUNK_RADIUS / 2;
    k.y == 0 && 0 <= a && 0 <= b < SPAWN_CHUNK_RADIUS && (a < x || (a == x && b < z))
  }

  /** The 64 keys generateSpawnChunks adds: a square of radius / 2 chunks around the origin, at y = 0. */
  predicate IsSpawnKey(k: Vec3i)
  {
    SpawnedBefore(k, SPAWN_CHUNK_RADIUS, 0)
  }

  /** In m the chunks under `before` are kept, and the n keys added since are the iterations before (x, z), none of them in `before`. */
  ghost predicate SpawnedSince<C>(m: map<Vec3i, C>, before: map<Vec3i, C>, x: int, z: int, n: int)
  {
    && (forall k :: k in m <==> k in before || SpawnedBefore(k, x, z))
    && (forall k | SpawnedBefore(k, x, z) :: k !in before)
    && |m| == |before| + n
  }

  /** m keeps every entry of prev. */
  ghost predicate Extends<C>(m: map<Vec3i, C>, prev: map<Vec3i, C>)
  {
    forall k | k in prev :: k in m && m[k] == prev[k]
  }

  /** One successful Add on iteration (x, z) moves the loop state to the next iteration. */
  lemma SpawnStep<C>(m: map<Vec3i, C>, before: map<Vec3i, C>, x: int, z: int, n: int, c: C)
    requires 0 <= x < SPAWN_CHUNK_RADIUS && 0 <= z < SPAWN_CHUNK_RADIUS
    requires SpawnedSince(m, before, x, z, n) && SpawnKey(x, z) !in m
    ensures SpawnedSince(m[SpawnKey(x, z) := c], before, x, z + 1, n + 1)
    ensures forall prev | Extends(m, prev) :: Extends(m[SpawnKey(x, z) := c], prev)
  {
    var key := SpawnKey(x, z);
    var m' := m[key := c];
    forall k ensures k in m' <==> k in before || SpawnedBefore(k, x, z + 1) {
      assert SpawnedBefore(k, x, z + 1) <==> SpawnedBefore(k, x, z) || k == key;
    }
    forall k | SpawnedBefore(k, x, z + 1) ensures k !in before {
      assert SpawnedBefore(k, x, z) || k == key;
    }
  }

  /** The end of row x of the loops is the start of row x + 1. */
  lemma RowDone<C>(m: map<Vec3i, C>, before: map<Vec3i, C>, x: int, n: int)
    requires SpawnedSince(m, before, x, SPAWN_CHUNK_RADIUS, n)
    ensures SpawnedSince(m, before, x + 1, 0, n)
  {
    forall k ensures SpawnedBefore(k, x, SPAWN_CHUNK_RADIUS) <==> SpawnedBefore(k, x + 1, 0) {
    }
  }

  /** Part way through the loops, every key is an old one or a spawn key. */
  lemma SpawnedSinceSpawnKeys<C>(m: map<Vec3i, C>, before: map<Vec3i, C>, x: int, z: int, n: int)
    requires 0 <= x < SPAWN_CHUNK_RADIUS && 0 <= z <= SPAWN_CHUNK_RADIUS
    requires SpawnedSince(m, before, x, z, n)
    ensures forall k | k in m :: k in before || IsSpawnKey(k)
  {
    forall k | k in m && k !in before ensures IsSpawnKey(k) {
      assert SpawnedBefore(k, x, z);
    }
  }

  /** The flat index of the cell that world coordinates (x, y, z) name inside their chunk. */
  function LocalIndex(x: Int32, y: Int32, z: Int32): (i: int)
    ensures 0 <= i < CHUNK_SIZE_CUBED
    ensures i == PackedIndex(LocalCoord(x), LocalCoord(y), LocalCoord(z))
  {
    LocalCoordInChunk(x);
    LocalCoordInChunk(y);
    LocalCoordInChunk(z);
    PackedIndexInChunk(LocalCoord(x), LocalCoord(y), LocalCoord(z));
    LocalCoord(x) * CHUNK_SIZE_SQUARED + LocalCoord(z) * CHUNK_SIZE + LocalCoord(y)
  }

  class Terrain {
    var chunkMap: map<Vec3i, Chunk>

    ghost function Arrays(): set<array<Byte>>
      reads this
    {
      set c | c in chunkMap.Values :: c.voxels
    }

    /** Every chunk is well formed, is stored under its own coordinate, and owns its voxel array. */
    ghost predicate Valid()
      reads this, chunkMap.Values
    {
      && (forall k | k in chunkMap :: chunkMap[k].Valid() && chunkMap[k].coord == k)
      && (forall k1, k2 | k1 in chunkMap && k2 in chunkMap && k1 != k2 :: chunkMap[k1].voxels != chunkMap[k2].voxels)
    }

    constructor ()
      ensures Valid() && chunkMap == map[]
    {
      chunkMap := map[];
    }

    function GetChunkAtCoord(x: Int32, y: Int32, z: Int32): (r: Option<Chunk>)
      reads this
      ensures r.Some? <==> ChunkKey(x, y, z) in chunkMap
      ensures r.Some? ==> r.value == chunkMap[ChunkKey(x, y, z)]
    {
      var key := ChunkKey(x, y, z);
      if key in chunkMap then Some(chunkMap[key]) else None
    }

    /** The voxel id at world coordinates; 0 for air and for a coordinate whose chunk is missing. */
    function GetVoxelIdAt(x: Int32, y: Int32, z: Int32): (r: Byte)
      requires Valid()
      reads this, chunkMap.Values, Arrays()
      ensures ChunkKey(x, y, z) !in chunkMap ==> r == 0
      ensures ChunkKey(x, y, z) in chunkMap ==>
        r == chunkMap[ChunkKey(x, y, z)].voxels[LocalIndex(x, y, z)]
    {
      LocalCoordInChunk(x);
      LocalCoordInChunk(y);
      LocalCoordInChunk(z);
      match GetChunkAtCoord(x, y, z)
      case None => 0
      case Some(c) =>
        assert c.voxels in Arrays();
        ReadInChunk(c.voxels[..], LocalCoord(x), LocalCoord(y), LocalCoord(z));
        c.GetVoxelAt(LocalCoord(x), LocalCoord(y), LocalCoord(z))
    }

    /** The voxel type at world coordinates; None for a missing chunk, otherwise the registry's answer for the id. */
    function GetVoxelAt<T>(x: Int32, y: Int32, z: Int32, getVoxelById: Byte -> Option<T>): (r: Option<T>)
      requires Valid()
      reads this, chunkMap.Values, Arrays()
      ensures ChunkKey(x, y, z) !in chunkMap ==> r == None
      ensures ChunkKey(x, y, z) in chunkMap ==> r == getVoxelById(GetVoxelIdAt(x, y, z))
    {
      match GetChunkAtCoord(x, y, z)
      case None => None
      case Some(c) =>
        assert c.voxels in Arrays();
        getVoxelById(c.GetVoxelAt(LocalCoord(x), LocalCoord(y), LocalCoord(z)))
    }

    method SetVoxelIdAt(x: Int32, y: Int32, z: Int32, id: Byte, isVoxelOpaque: Byte -> bool)
      requires Valid()
      modifies chunkMap.Values, Arrays()
      ensures Valid()
      ensures ChunkKey(x, y, z) in chunkMap ==> GetVoxelIdAt(x, y, z) == id
      ensures ChunkKey(x, y, z) in chunkMap ==>
        var c, lx, ly, lz := chunkMap[ChunkKey(x, y, z)], LocalCoord(x), LocalCoord(y), LocalCoord(z);
        && c.voxels[..] == WriteVoxel(old(c.voxels[..]), lx, ly, lz, id)
        && c.opaqueCells == WriteOpacity(old(c.opaqueCells), lx, ly, lz, id, isVoxelOpaque)
        && c.isEmpty == (old(c.isEmpty) && id == 0)
      ensures forall k | k in chunkMap && k != ChunkKey(x, y, z) ::
        var c := chunkMap[k];
        c.voxels[..] == old(c.voxels[..]) && c.opaqueCells == old(c.opaqueCells) && c.isEmpty == old(c.isEmpty)
      ensures forall c | c in chunkMap.Values ::
        c.updateFlag == old(c.updateFlag) && c.removalFlag == old(c.removalFlag)
    {
      var key := ChunkKey(x, y, z);
      var lx, ly, lz := LocalCoord(x), LocalCoord(y), LocalCoord(z);
      LocalCoordInChunk(x);
      LocalCoordInChunk(y);
      LocalCoordInChunk(z);
      if key in chunkMap {
        var c := chunkMap[key];
        assert c.voxels in Arrays();
        c.SetVoxelAt(lx, ly, lz, id, isVoxelOpaque);
        ReadAfterWrite(old(c.voxels[..]), lx, ly, lz, id);
      }
    }

    /** One `chunkMap.Add(key, new Chunk(key))` on a key known to be absent. */
    method AddChunk(key: Vec3i) returns (c: Chunk)
      requires Valid() && key !in chunkMap
      modifies this`chunkMap
      ensures Valid()
      ensures fresh(c) && c.coord == key && c.isEmpty && c.updateFlag && !c.removalFlag
      ensures chunkMap == old(chunkMap)[key := c]
      ensures |chunkMap| == |old(chunkMap)| + 1
    {
      c := new Chunk(key);
      chunkMap := chunkMap[key := c];
    }

    /** One iteration (x, z) of the spawn loops: `chunkMap.Add(key, new Chunk(key))`, which fails on a present key. */
    method SpawnAt(x: int, z: int, ghost before: map<Vec3i, Chunk>, ghost n: int) returns (added: bool)
      requires 0 <= x < SPAWN_CHUNK_RADIUS && 0 <= z < SPAWN_CHUNK_RADIUS
      requires Valid() && SpawnedSince(chunkMap, before, x, z, n) && Extends(chunkMap, before)
      modifies this`chunkMap
      ensures Valid() && Extends(chunkMap, old(chunkMap)) && Extends(chunkMap, before)
      ensures added ==> SpawnedSince(chunkMap, before, x, z + 1, n + 1)
      ensures !added ==> SpawnKey(x, z) in before && IsSpawnKey(SpawnKey(x, z)) && chunkMap == old(chunkMap)
    {
      var key := SpawnKey(x, z);
      assert !SpawnedBefore(key, x, z) && IsSpawnKey(key);
      if key in chunkMap {
        added := false;
      } else {
        ghost var m0 := chunkMap;
        var c := AddChunk(key);
        SpawnStep(m0, before, x, z, n, c);
        added := true;
      }
    }

    /** The inner loop of generateSpawnChunks for one x. */
    method GenerateSpawnRow(x: int, ghost before: map<Vec3i, Chunk>) returns (ok: bool)
      requires 0 <= x < SPAWN_CHUNK_RADIUS
      requires Valid() && SpawnedSince(chunkMap, before, x, 0, SPAWN_CHUNK_RADIUS * x) && Extends(chunkMap, before)
      modifies this`chunkMap
      ensures Valid() && Extends(chunkMap, before)
      ensures ok ==> SpawnedSince(chunkMap, before, x + 1, 0, SPAWN_CHUNK_RADIUS * (x + 1))
      ensures !ok ==> exists k :: IsSpawnKey(k) && k in before
      ensures !ok ==> exists z | 0 <= z < SPAWN_CHUNK_RADIUS ::
        SpawnKey(x, z) in before && SpawnedSince(chunkMap, before, x, z, SPAWN_CHUNK_RADIUS * x + z)
      ensures forall k | k in chunkMap :: k in before || IsSpawnKey(k)
    {
      ghost var n := SPAWN_CHUNK_RADIUS * x;
      var z := 0;
      while z < SPAWN_CHUNK_RADIUS
        invariant 0 <= z <= SPAWN_CHUNK_RADIUS && n == SPAWN_CHUNK_RADIUS * x + z
        invariant Valid() && SpawnedSince(chunkMap, before, x, z, n)
        invariant Extends(chunkMap, before)
      {
        var added := SpawnAt(x, z, before, n);
        if !added {
          SpawnedSinceSpawnKeys(chunkMap, before, x, z, n);
          assert SpawnKey(x, z) in before && SpawnedSince(chunkMap, before, x, z, SPAWN_CHUNK_RADIUS * x + z);
          ok := false;
          return;
        }
        z := z + 1;
        n := n + 1;
      }
      RowDone(chunkMap, before, x, n);
      SpawnedSinceSpawnKeys(chunkMap, before, x, SPAWN_CHUNK_RADIUS, n);
      ok := true;
    }

    /**
     * Adds a fresh chunk under each spawn key, in the loop order. Dictionary.Add
     * throws on a key that is already present: then ok is false and the chunks
     * added before it, in the loop order, stay.
     */
    method GenerateSpawnChunks(spawnX: Int32, spawnY: Int32, spawnZ: Int32) returns (ok: bool)
      requires Valid()
      modifies this`chunkMap
      ensures Valid()
      ensures ok <==> (forall k | IsSpawnKey(k) :: k !in old(chunkMap))
      ensures ok ==> forall k :: k in chunkMap <==> k in old(chunkMap) || IsSpawnKey(k)
      ensures ok ==> |chunkMap| == |old(chunkMap)| + SPAWN_CHUNK_RADIUS * SPAWN_CHUNK_RADIUS
      ensures forall k | k in chunkMap :: k in old(chunkMap) || IsSpawnKey(k)
      ensures Extends(chunkMap, old(chunkMap))
      ensures !ok ==> exists x, z | 0 <= x < SPAWN_CHUNK_RADIUS && 0 <= z < SPAWN_CHUNK_RADIUS ::
        SpawnKey(x, z) in old(chunkMap) && SpawnedSince(chunkMap, old(chunkMap), x, z, SPAWN_CHUNK_RADIUS * x + z)
    {
      var origin := ChunkKey(spawnX, spawnY, spawnZ); // computed and unused, as in the source
      ghost var before := chunkMap;
      var x := 0;
      while x < SPAWN_CHUNK_RADIUS
        invariant 0 <= x <= SPAWN_CHUNK_RADIUS
        invariant Valid() && SpawnedSince(chunkMap, before, x, 0, SPAWN_CHUNK_RADIUS * x)
        invariant Extends(chunkMap, before)
      {
        ok := GenerateSpawnRow(x, before);
        if !ok {
          ghost var z :| 0 <= z < SPAWN_CHUNK_RADIUS && SpawnKey(x, z) in before
            && SpawnedSince(chunkMap, before, x, z, SPAWN_CHUNK_RADIUS * x + z);
          return;
        }
        x := x + 1;
      }
      ok := true;
    }
  }

  /** On a new terrain the first generateSpawnChunks succeeds with 64 chunks and a second one fails. */
  method SpawnTwice() returns (first: bool, second: bool, count: int)
    ensures first && !second && count == 64
  {
    var t := new Terrain();
    first := t.GenerateSpawnChunks(0, 0, 0);
    count := |t.chunkMap|;
    assert IsSpawnKey(SpawnKey(0, 0));
    second := t.GenerateSpawnChunks(0, 0, 0);
  }
}
