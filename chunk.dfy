/**
 * A chunk: a 32 x 32 x 32 cube of voxel ids stored in one byte array and
 * addressed by the packed index `x << 10 | z << 5 | y`, with an opacity map
 * kept up to date on every write and three flags (empty, needs a render
 * update, marked for removal).
 */
module Chunks {
  import opened Common
  import opened Bits

  const CHUNK_SIZE: int := 32
  const CHUNK_SIZE_MINUS_ONE: int := 31
  const CHUNK_SIZE_SQUARED: int := 1024
  const CHUNK_SIZE_CUBED: int := 32768
  const X_SHIFT: nat := 10
  const Z_SHIFT: nat := 5

  /** The shift constants agree with the size constants. */
  lemma ShiftConstantsAgree()
    ensures Pow2(X_SHIFT) == CHUNK_SIZE_SQUARED == CHUNK_SIZE * CHUNK_SIZE
    ensures Pow2(Z_SHIFT) == CHUNK_SIZE
    ensures CHUNK_SIZE * CHUNK_SIZE_SQUARED == CHUNK_SIZE_CUBED
  {
    Pow2Small();
  }

  predicate InChunk(x: int, y: int, z: int)
  {
    0 <= x < CHUNK_SIZE && 0 <= y < CHUNK_SIZE && 0 <= z < CHUNK_SIZE
  }

  /** `x << X_SHIFT | z << Z_SHIFT | y`, evaluated as C# does on `int`s. */
  function PackedIndex(x: Int32, y: Int32, z: Int32): Int32
  {
    Or32(Or32(ShiftLeft32(x, X_SHIFT), ShiftLeft32(z, Z_SHIFT)), y)
  }

  /** Decoding a packed index back into its coordinates (x outermost, y innermost). */
  function CellX(i: int): int { i / CHUNK_SIZE_SQUARED }
  function CellZ(i: int): int { i / CHUNK_SIZE % CHUNK_SIZE }
  function CellY(i: int): int { i % CHUNK_SIZE }

  /** For coordinates inside the chunk the packed index is x*1024 + z*32 + y, inside the array. */
  lemma {:induction false} PackedIndexInChunk(x: int, y: int, z: int)
    requires InChunk(x, y, z)
    ensures PackedIndex(x, y, z) == x * CHUNK_SIZE_SQUARED + z * CHUNK_SIZE + y
    ensures 0 <= PackedIndex(x, y, z) < CHUNK_SIZE_CUBED
  {
    PackXZ(x, z);
    Pow2Small();
    Or32Disjoint(x * 32 + z, y, 5, 32, x * 1024 + z * 32);
  }

  /** The x and z parts of the packed index occupy disjoint bits. */
  lemma PackXZ(x: int, z: int)
    requires 0 <= x < CHUNK_SIZE && 0 <= z < CHUNK_SIZE
    ensures Or32(ShiftLeft32(x, X_SHIFT), ShiftLeft32(z, Z_SHIFT)) == x * 1024 + z * 32
  {
    Pow2Small();
    ShiftLeftNoOverflow(x, X_SHIFT, 1024);
    ShiftLeftNoOverflow(z, Z_SHIFT, 32);
    Or32Disjoint(x, z * 32, 10, 1024, x * 1024);
  }

  /** Encoding then decoding gives the coordinates back. */
  lemma {:induction false} PackedIndexDecodes(x: int, y: int, z: int)
    requires InChunk(x, y, z)
    ensures var i := PackedIndex(x, y, z); CellX(i) == x && CellY(i) == y && CellZ(i) == z
  {
    PackedIndexInChunk(x, y, z);
    DecodeOffsets(x, y, z);
  }

  /** x * 1024 + z * 32 + y decodes to (x, y, z) when each coordinate is below 32. */
  lemma DecodeOffsets(x: int, y: int, z: int)
    requires InChunk(x, y, z)
    ensures var i := x * CHUNK_SIZE_SQUARED + z * CHUNK_SIZE + y; CellX(i) == x && CellY(i) == y && CellZ(i) == z
  {
    var i := x * 1024 + z * 32 + y;
    DivModUnique(i, 1024, x, z * 32 + y);
    DivModUnique(i, 32, x * 32 + z, y);
    DivModUnique(x * 32 + z, 32, x, z);
  }

  /** Decoding then encoding gives the index back: every array cell has exactly one coordinate triple. */
  lemma {:induction false} CellDecodesInChunk(i: int)
    requires 0 <= i < CHUNK_SIZE_CUBED
    ensures InChunk(CellX(i), CellY(i), CellZ(i))
    ensures PackedIndex(CellX(i), CellY(i), CellZ(i)) == i
  {
    var x, r := i / 1024, i % 1024;
    var z, y := r / 32, r % 32;
    assert i == 1024 * x + 32 * z + y;
    DivModUnique(i, 32, 32 * x + z, y);
    DivModUnique(32 * x + z, 32, x, z);
    PackedIndexInChunk(x, y, z);
  }

  /** Distinct in-chunk coordinates never share an array cell. */
  lemma PackedIndexInjective(x1: int, y1: int, z1: int, x2: int, y2: int, z2: int)
    requires InChunk(x1, y1, z1) && InChunk(x2, y2, z2)
    requires PackedIndex(x1, y1, z1) == PackedIndex(x2, y2, z2)
    ensures x1 == x2 && y1 == y2 && z1 == z2
  {
    PackedIndexDecodes(x1, y1, z1);
    PackedIndexDecodes(x2, y2, z2);
  }

  /** A y of 32 is not rejected: (0, 32, 0) packs to the index of (0, 0, 1). */
  lemma HighYAliasesNextZ()
    ensures PackedIndex(0, 32, 0) == PackedIndex(0, 0, 1) == 32
  {
    Pow2Small();
    ShiftLeftNoOverflow(0, X_SHIFT, 1024);
    ShiftLeftNoOverflow(0, Z_SHIFT, 32);
    ShiftLeftNoOverflow(1, Z_SHIFT, 32);
    assert BitOr(0, 0) == 0 && BitOr(0, 32) == 32 && BitOr(32, 0) == 32;
    assert Or32(0, 0) == 0 && Or32(0, 32) == 32 && Or32(32, 0) == 32;
  }

  /** An x of 2^22 shifts entirely out of the 32-bit int: it packs to the index of (0, 0, 0). */
  lemma ShiftWrapAliasesOrigin()
    ensures PackedIndex(0x40_0000, 0, 0) == PackedIndex(0, 0, 0) == 0
  {
    Pow2Small();
    assert Pow2(8) == 256;
    ShiftLeftNoOverflow(0x40_0000, 8, 256);
    assert ShiftLeft32(0x40_0000, 9) == Double32(0x4000_0000) == -TWO_31;
    assert ShiftLeft32(0x40_0000, X_SHIFT) == Double32(-TWO_31) == 0;
    ShiftLeftNoOverflow(0, X_SHIFT, 1024);
    ShiftLeftNoOverflow(0, Z_SHIFT, 32);
    assert BitOr(0, 0) == 0;
    assert Or32(0, 0) == 0;
  }

  /** The upper-bound test the source applies before touching the array (`index < CHUNK_SIZE_CUBED`). */
  predicate GuardAsWritten(index: int)
  {
    index < CHUNK_SIZE_CUBED
  }

  /** The test that keeps an access inside the array. */
  predicate IndexInArray(index: int)
  {
    0 <= index < CHUNK_SIZE_CUBED
  }

  /**
   * As written, x = 2^21 makes `x << 10` set the sign bit, so the packed index
   * is negative, passes the source's guard and indexes the array out of bounds.
   */
  lemma NegativeIndexPassesGuard()
    ensures PackedIndex(0x20_0000, 0, 0) == -TWO_31
    ensures GuardAsWritten(PackedIndex(0x20_0000, 0, 0)) && !IndexInArray(PackedIndex(0x20_0000, 0, 0))
  {
    Pow2Small();
    assert Pow2(9) == 512;
    ShiftLeftNoOverflow(0x20_0000, 9, 512);
    assert ShiftLeft32(0x20_0000, X_SHIFT) == Double32(0x4000_0000) == -TWO_31;
    ShiftLeftNoOverflow(0, Z_SHIFT, 32);
    assert BitOr(TWO_31, 0) == TWO_31;
    assert Or32(-TWO_31, 0) == -TWO_31;
  }

  /** The corrected guard agrees with the written one on every index it lets through. */
  lemma CorrectedGuardRefinesWritten(index: int)
    ensures IndexInArray(index) ==> GuardAsWritten(index)
    ensures index >= 0 ==> (IndexInArray(index) <==> GuardAsWritten(index))
  {
  }

  /** The voxel id getVoxelAt reports for a voxel array, with the corrected guard. */
  function ReadVoxel(cells: seq<Byte>, x: Int32, y: Int32, z: Int32): (r: Byte)
    requires |cells| == CHUNK_SIZE_CUBED
    ensures x < 0 || y < 0 || z < 0 ==> r == 0
  {
    if x < 0 || y < 0 || z < 0 then 0
    else
      var index := PackedIndex(x, y, z);
      if IndexInArray(index) then cells[index] else 0
  }

  /** The voxel array after setVoxelAt, with the corrected guard. */
  function WriteVoxel(cells: seq<Byte>, x: Int32, y: Int32, z: Int32, id: Byte): (r: seq<Byte>)
    requires |cells| == CHUNK_SIZE_CUBED
    ensures |r| == |cells|
    ensures x < 0 || y < 0 || z < 0 ==> r == cells
    ensures forall k | 0 <= k < |r| && (x < 0 || y < 0 || z < 0 || k != PackedIndex(x, y, z)) :: r[k] == cells[k]
  {
    if x < 0 || y < 0 || z < 0 then cells
    else
      var index := PackedIndex(x, y, z);
      if IndexInArray(index) then cells[index := id] else cells
  }

  /**
   * The corrected guard: a packed index outside [0, 32768), whether too large
   * (the source's own test) or negative after the shift wrapped, reads 0 and
   * is not written.
   */
  lemma OutOfArrayIgnored(cells: seq<Byte>, x: Int32, y: Int32, z: Int32, id: Byte)
    requires |cells| == CHUNK_SIZE_CUBED && !IndexInArray(PackedIndex(x, y, z))
    ensures ReadVoxel(cells, x, y, z) == 0 && WriteVoxel(cells, x, y, z, id) == cells
  {
  }

  /** The input that breaks the source's guard is harmless under the corrected one. */
  lemma WrappedIndexIgnored(cells: seq<Byte>, id: Byte)
    requires |cells| == CHUNK_SIZE_CUBED
    ensures GuardAsWritten(PackedIndex(0x20_0000, 0, 0))
    ensures ReadVoxel(cells, 0x20_0000, 0, 0) == 0 && WriteVoxel(cells, 0x20_0000, 0, 0, id) == cells
  {
    NegativeIndexPassesGuard();
    OutOfArrayIgnored(cells, 0x20_0000, 0, 0, id);
  }

  /** Inside the chunk, a read sees cell x*1024 + z*32 + y. */
  lemma ReadInChunk(cells: seq<Byte>, x: int, y: int, z: int)
    requires |cells| == CHUNK_SIZE_CUBED && InChunk(x, y, z)
    ensures ReadVoxel(cells, x, y, z) == cells[x * CHUNK_SIZE_SQUARED + z * CHUNK_SIZE + y]
  {
    PackedIndexInChunk(x, y, z);
  }

  /** setVoxelAt followed by getVoxelAt at the same in-chunk coordinates returns the id written. */
  lemma ReadAfterWrite(cells: seq<Byte>, x: int, y: int, z: int, id: Byte)
    requires |cells| == CHUNK_SIZE_CUBED && InChunk(x, y, z)
    ensures ReadVoxel(WriteVoxel(cells, x, y, z, id), x, y, z) == id
  {
    PackedIndexInChunk(x, y, z);
  }

  /** A write at one in-chunk coordinate leaves the voxel at every other in-chunk coordinate as it was. */
  lemma ReadOtherAfterWrite(cells: seq<Byte>, x: int, y: int, z: int, id: Byte, x2: int, y2: int, z2: int)
    requires |cells| == CHUNK_SIZE_CUBED && InChunk(x, y, z) && InChunk(x2, y2, z2)
    requires x != x2 || y != y2 || z != z2
    ensures ReadVoxel(WriteVoxel(cells, x, y, z, id), x2, y2, z2) == ReadVoxel(cells, x2, y2, z2)
  {
    PackedIndexInChunk(x, y, z);
    PackedIndexInChunk(x2, y2, z2);
    if PackedIndex(x, y, z) == PackedIndex(x2, y2, z2) {
      PackedIndexInjective(x, y, z, x2, y2, z2);
      assert false;
    }
  }

  /** The opacity map after a write: id 0 clears the cell, any other id takes the registry's opacity. */
  function WriteOpacity(opaqueSet: set<Vec3i>, x: Int32, y: Int32, z: Int32, id: Byte, isVoxelOpaque: Byte -> bool): (r: set<Vec3i>)
    ensures x < 0 || y < 0 || z < 0 ==> r == opaqueSet
    ensures x >= 0 && y >= 0 && z >= 0 ==> (Vec3i(x, y, z) in r <==> id != 0 && isVoxelOpaque(id))
    ensures forall p | p != Vec3i(x, y, z) :: p in r <==> p in opaqueSet
  {
    if x < 0 || y < 0 || z < 0 then opaqueSet
    else if id == 0 then opaqueSet - {Vec3i(x, y, z)}
    else if isVoxelOpaque(id) then opaqueSet + {Vec3i(x, y, z)}
    else opaqueSet - {Vec3i(x, y, z)}
  }

  class Chunk {
    const coord: Vec3i
    const worldCoord: Vec3i
    const voxels: array<Byte>
    /** The contents of the OpaqueVoxelMap: the coordinates marked opaque. */
    var opaqueCells: set<Vec3i>
    var removalFlag: bool
    var updateFlag: bool
    var isEmpty: bool

    ghost predicate Valid()
      reads this
    {
      voxels.Length == CHUNK_SIZE_CUBED
    }

    constructor (coord: Vec3i)
      ensures Valid() && fresh(voxels)
      ensures this.coord == coord && worldCoord == Scale(coord, CHUNK_SIZE)
      ensures forall k | 0 <= k < voxels.Length :: voxels[k] == 0
      ensures opaqueCells == {}
      ensures !removalFlag && updateFlag && isEmpty
    {
      this.coord := coord;
      worldCoord := Scale(coord, CHUNK_SIZE);
      voxels := new Byte[CHUNK_SIZE_CUBED](_ => 0);
      opaqueCells := {};
      removalFlag := false;
      updateFlag := true;
      isEmpty := true;
    }

    method SetVoxelAt(x: Int32, y: Int32, z: Int32, id: Byte, isVoxelOpaque: Byte -> bool)
      requires Valid()
      modifies voxels, this`opaqueCells, this`isEmpty
      ensures Valid()
      ensures voxels[..] == WriteVoxel(old(voxels[..]), x, y, z, id)
      ensures opaqueCells == WriteOpacity(old(opaqueCells), x, y, z, id, isVoxelOpaque)
      ensures isEmpty == (old(isEmpty) && (x < 0 || y < 0 || z < 0 || id == 0))
      ensures updateFlag == old(updateFlag) && removalFlag == old(removalFlag)
    {
      if x < 0 || y < 0 || z < 0 {
        return;
      }
      var index := PackedIndex(x, y, z);
      if IndexInArray(index) {
        voxels[index] := id;
      }
      if id == 0 {
        opaqueCells := opaqueCells - {Vec3i(x, y, z)};
        return;
      }
      if isVoxelOpaque(id) {
        opaqueCells := opaqueCells + {Vec3i(x, y, z)};
      } else {
        opaqueCells := opaqueCells - {Vec3i(x, y, z)};
      }
      isEmpty := false;
    }

    function GetVoxelAt(x: Int32, y: Int32, z: Int32): (r: Byte)
      requires Valid()
      reads this, voxels
      ensures r == ReadVoxel(voxels[..], x, y, z)
    {
      if x < 0 || y < 0 || z < 0 then 0
      else
        var index := PackedIndex(x, y, z);
        if !IndexInArray(index) then 0 else voxels[index]
    }

    predicate GetVoxelAtIsOpaque(x: Int32, y: Int32, z: Int32)
      reads this
    {
      Vec3i(x, y, z) in opaqueCells
    }

    method MarkForRenderUpdate()
      modifies this`updateFlag
      ensures updateFlag
    {
      updateFlag := true;
    }

    method UnMarkForRenderUpdate()
      modifies this`updateFlag
      ensures !updateFlag
    {
      updateFlag := false;
    }

    method MarkForRemoval()
      modifies this`removalFlag
      ensures removalFlag
    {
      removalFlag := true;
    }
  }
}
