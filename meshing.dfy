/**
 * The face-culling scan both chunk renderers perform, as a specification:
 * cells are visited in x-outer, z-middle, y-inner order, and for a drawn cell
 * the six directions in faceDirections order; a face is emitted when the
 * neighbour in that direction is not opaque, lit by the neighbour's light level.
 */
module Meshing {
  import opened Common
  import opened Chunks

  /** Capacity of a renderer's face array. */
  const MAX_CHUNK_FACE_COUNT: int := 98304
  /** Four vertex indices per face. */
  const CHUNK_VERTEX_INDICES_COUNT: int := MAX_CHUNK_FACE_COUNT * 4
  const FACE_COUNT: int := 6

  /** faceDirections: +x, +y, +z, -x, -y, -z. */
  const FACE_DIRECTIONS: seq<Vec3i> :=
    [Vec3i(1, 0, 0), Vec3i(0, 1, 0), Vec3i(0, 0, 1), Vec3i(-1, 0, 0), Vec3i(0, -1, 0), Vec3i(0, 0, -1)]

  /** One VoxelFace: the cell's coordinates inside the chunk, its light, direction index and voxel id. */
  datatype VoxelFace = VoxelFace(x: int, y: int, z: int, light: int, face: int, id: int)

  /**
   * What a renderer reads while meshing. `voxelAt` gives the voxel id at a
   * coordinate, `typeOf` the id of the voxel type drawn for it (None for air),
   * `isOpaque` is VoxelType.isVoxelOpaque, `lightAt` the light level at a coordinate.
   */
  datatype MeshSource = MeshSource(voxelAt: Vec3i -> int, typeOf: int -> Option<int>, isOpaque: int -> bool, lightAt: Vec3i -> int)

  /** Position of cell t of the scan order: x = t / 1024, z = t / 32 % 32, y = t % 32. */
  function ScanCell(t: int): Vec3i
  {
    Vec3i(CellX(t), CellY(t), CellZ(t))
  }

  /** Index of a chunk cell in the scan order. */
  function ScanIndex(x: int, y: int, z: int): int
  {
    x * CHUNK_SIZE_SQUARED + z * CHUNK_SIZE + y
  }

  lemma ScanOrderBijective(x: int, y: int, z: int)
    requires InChunk(x, y, z)
    ensures 0 <= ScanIndex(x, y, z) < CHUNK_SIZE_CUBED
    ensures ScanCell(ScanIndex(x, y, z)) == Vec3i(x, y, z)
  {
    DecodeOffsets(x, y, z);
  }

  lemma ScanCellInChunk(t: int)
    requires 0 <= t < CHUNK_SIZE_CUBED
    ensures InChunk(ScanCell(t).x, ScanCell(t).y, ScanCell(t).z)
    ensures ScanIndex(ScanCell(t).x, ScanCell(t).y, ScanCell(t).z) == t
  {
    CellDecodesInChunk(t);
    PackedIndexInChunk(CellX(t), CellY(t), CellZ(t));
  }

  /** The face in direction i of the cell at `origin + local`, when that face is visible. */
  function FaceAt(src: MeshSource, origin: Vec3i, local: Vec3i, id: int, i: int): Option<VoxelFace>
    requires 0 <= i < FACE_COUNT
  {
    var neighbour := Add(Add(origin, local), FACE_DIRECTIONS[i]);
    if src.isOpaque(src.voxelAt(neighbour)) then None
    else Some(VoxelFace(local.x, local.y, local.z, src.lightAt(neighbour), i, id))
  }

  function FaceList(o: Option<VoxelFace>): seq<VoxelFace>
  {
    match o
    case None => []
    case Some(f) => [f]
  }

  /** The visible faces of one drawn cell among directions 0 .. n - 1, in direction order. */
  function DirFaces(src: MeshSource, origin: Vec3i, local: Vec3i, id: int, n: int): seq<VoxelFace>
    requires 0 <= n <= FACE_COUNT
  {
    if n == 0 then [] else DirFaces(src, origin, local, id, n - 1) + FaceList(FaceAt(src, origin, local, id, n - 1))
  }

  /** The faces of scan cell t: none for air, the visible directions otherwise. */
  function CellFaces(src: MeshSource, origin: Vec3i, t: int): seq<VoxelFace>
  {
    var local := ScanCell(t);
    match src.typeOf(src.voxelAt(Add(origin, local)))
    case None => []
    case Some(id) => DirFaces(src, origin, local, id, FACE_COUNT)
  }

  /** The faces emitted by the first t cells of the scan. */
  function FacesUpTo(src: MeshSource, origin: Vec3i, t: nat): seq<VoxelFace>
  {
    if t == 0 then [] else FacesUpTo(src, origin, t - 1) + CellFaces(src, origin, t - 1)
  }

  /** The whole mesh of a chunk whose first cell is at `origin`. */
  function Faces(src: MeshSource, origin: Vec3i): seq<VoxelFace>
  {
    FacesUpTo(src, origin, CHUNK_SIZE_CUBED)
  }

  /** The cells the scan draws among the first t. */
  function SolidCountUpTo(src: MeshSource, origin: Vec3i, t: nat): (r: nat)
    ensures r <= t
  {
    if t == 0 then 0
    else SolidCountUpTo(src, origin, t - 1) + (if src.typeOf(src.voxelAt(Add(origin, ScanCell(t - 1)))).Some? then 1 else 0)
  }

  /** A face the mesh should contain: a drawn cell inside the chunk, and a direction whose neighbour is not opaque. */
  predicate IsVisibleFace(src: MeshSource, origin: Vec3i, f: VoxelFace)
  {
    && InChunk(f.x, f.y, f.z)
    && 0 <= f.face < FACE_COUNT
    && var pos := Add(origin, Vec3i(f.x, f.y, f.z));
       var neighbour := Add(pos, FACE_DIRECTIONS[f.face]);
       && src.typeOf(src.voxelAt(pos)) == Some(f.id)
       && !src.isOpaque(src.voxelAt(neighbour))
       && f.light == src.lightAt(neighbour)
  }

  lemma {:induction false} DirFacesMembers(src: MeshSource, origin: Vec3i, local: Vec3i, id: int, n: int, f: VoxelFace)
    requires 0 <= n <= FACE_COUNT
    ensures f in DirFaces(src, origin, local, id, n) <==>
      (0 <= f.face < n && Vec3i(f.x, f.y, f.z) == local && f.id == id && FaceAt(src, origin, local, id, f.face) == Some(f))
  {
    if n > 0 {
      DirFacesMembers(src, origin, local, id, n - 1, f);
    }
  }

  lemma CellFacesMembers(src: MeshSource, origin: Vec3i, t: int, f: VoxelFace)
    requires 0 <= t < CHUNK_SIZE_CUBED
    ensures f in CellFaces(src, origin, t) <==>
      (IsVisibleFace(src, origin, f) && ScanIndex(f.x, f.y, f.z) == t)
  {
    var local := ScanCell(t);
    ScanCellInChunk(t);
    if InChunk(f.x, f.y, f.z) {
      ScanOrderBijective(f.x, f.y, f.z);
    }
    match src.typeOf(src.voxelAt(Add(origin, local)))
    case None =>
    case Some(id) =>
      DirFacesMembers(src, origin, local, id, FACE_COUNT, f);
  }

  lemma {:induction false} FacesUpToMembers(src: MeshSource, origin: Vec3i, t: nat, f: VoxelFace)
    requires t <= CHUNK_SIZE_CUBED
    ensures f in FacesUpTo(src, origin, t) <==>
      (IsVisibleFace(src, origin, f) && ScanIndex(f.x, f.y, f.z) < t)
  {
    if t > 0 {
      var rest := FacesUpTo(src, origin, t - 1);
      var cell := CellFaces(src, origin, t - 1);
      assert FacesUpTo(src, origin, t) == rest + cell;
      assert f in rest + cell <==> f in rest || f in cell;
      FacesUpToMembers(src, origin, t - 1, f);
      CellFacesMembers(src, origin, t - 1, f);
      MembersStep(f in rest, f in cell, IsVisibleFace(src, origin, f), ScanIndex(f.x, f.y, f.z), t);
    }
  }

  /** The membership step of the induction, over plain booleans so the solver keeps the face facts folded. */
  lemma MembersStep(inRest: bool, inCell: bool, visible: bool, k: int, t: int)
    requires inRest <==> visible && k < t - 1
    requires inCell <==> visible && k == t - 1
    ensures inRest || inCell <==> visible && k < t
  {
  }

  /** A face is in the mesh exactly when it is visible: a drawn cell, a non-opaque neighbour, the neighbour's light. */
  lemma FaceEmittedIff(src: MeshSource, origin: Vec3i, f: VoxelFace)
    ensures f in Faces(src, origin) <==> IsVisibleFace(src, origin, f)
  {
    FacesUpToMembers(src, origin, CHUNK_SIZE_CUBED, f);
    if IsVisibleFace(src, origin, f) {
      ScanOrderBijective(f.x, f.y, f.z);
    }
  }

  lemma {:induction false} DirFacesLength(src: MeshSource, origin: Vec3i, local: Vec3i, id: int, n: int)
    requires 0 <= n <= FACE_COUNT
    ensures |DirFaces(src, origin, local, id, n)| <= n
  {
    if n > 0 {
      DirFacesLength(src, origin, local, id, n - 1);
    }
  }

  /** At most six faces per drawn cell: the face count is bounded by six times the non-air cells. */
  lemma {:induction false} FaceCountBound(src: MeshSource, origin: Vec3i, t: nat)
    ensures |FacesUpTo(src, origin, t)| <= FACE_COUNT * SolidCountUpTo(src, origin, t)
  {
    if t > 0 {
      FaceCountBound(src, origin, t - 1);
      var local := ScanCell(t - 1);
      match src.typeOf(src.voxelAt(Add(origin, local)))
      case None =>
      case Some(id) =>
        DirFacesLength(src, origin, local, id, FACE_COUNT);
    }
  }

  /** The scan emits at most 6 * 32768 = 196608 faces, twice the face array's capacity. */
  lemma NaiveBoundExceedsCapacity(src: MeshSource, origin: Vec3i)
    ensures |Faces(src, origin)| <= FACE_COUNT * CHUNK_SIZE_CUBED
    ensures FACE_COUNT * CHUNK_SIZE_CUBED == 2 * MAX_CHUNK_FACE_COUNT
  {
    FaceCountBound(src, origin, CHUNK_SIZE_CUBED);
  }

  /** A chunk with at most 16384 drawn cells always fits the face array. */
  lemma FitsWhenFewSolid(src: MeshSource, origin: Vec3i)
    requires SolidCountUpTo(src, origin, CHUNK_SIZE_CUBED) * FACE_COUNT <= MAX_CHUNK_FACE_COUNT
    ensures |Faces(src, origin)| <= MAX_CHUNK_FACE_COUNT
  {
    FaceCountBound(src, origin, CHUNK_SIZE_CUBED);
  }

  /** Every cell drawn and nothing opaque: the configuration that shows the capacity can be exceeded. */
  function AllDrawnNoneOpaque(): MeshSource
  {
    MeshSource(p => 1, id => Some(id), id => false, p => 0)
  }

  lemma {:induction false} AllDrawnDirFaces(origin: Vec3i, local: Vec3i, id: int, n: int)
    requires 0 <= n <= FACE_COUNT
    ensures |DirFaces(AllDrawnNoneOpaque(), origin, local, id, n)| == n
  {
    if n > 0 {
      AllDrawnDirFaces(origin, local, id, n - 1);
    }
  }

  lemma {:induction false} AllDrawnFacesUpTo(origin: Vec3i, t: nat)
    ensures |FacesUpTo(AllDrawnNoneOpaque(), origin, t)| == FACE_COUNT * t
  {
    if t > 0 {
      AllDrawnFacesUpTo(origin, t - 1);
      AllDrawnDirFaces(origin, ScanCell(t - 1), 1, FACE_COUNT);
    }
  }

  /**
   * The capacity is not a consequence of the scan: a chunk of drawn,
   * non-opaque voxels emits 196608 faces, more than the 98304 slots.
   */
  lemma TransparentChunkOverflows(origin: Vec3i)
    ensures |Faces(AllDrawnNoneOpaque(), origin)| == 196608 > MAX_CHUNK_FACE_COUNT
  {
    AllDrawnFacesUpTo(origin, CHUNK_SIZE_CUBED);
  }

  /** Position of a face in the emission order: its cell's scan index, then its direction. */
  function FaceKey(f: VoxelFace): int
  {
    ScanIndex(f.x, f.y, f.z) * FACE_COUNT + f.face
  }

  predicate StrictlyOrdered(s: seq<VoxelFace>)
  {
    forall i, j | 0 <= i < j < |s| :: FaceKey(s[i]) < FaceKey(s[j])
  }

  lemma OrderedConcat(a: seq<VoxelFace>, b: seq<VoxelFace>)
    requires StrictlyOrdered(a) && StrictlyOrdered(b)
    requires forall i, j | 0 <= i < |a| && 0 <= j < |b| :: FaceKey(a[i]) < FaceKey(b[j])
    ensures StrictlyOrdered(a + b)
  {
    forall i, j | 0 <= i < j < |a + b| ensures FaceKey((a + b)[i]) < FaceKey((a + b)[j]) {
      if j < |a| {
      } else if i >= |a| {
        assert (a + b)[i] == b[i - |a|] && (a + b)[j] == b[j - |a|];
      } else {
        assert (a + b)[j] == b[j - |a|];
      }
    }
  }

  lemma {:induction false} DirFacesOrdered(src: MeshSource, origin: Vec3i, local: Vec3i, id: int, n: int)
    requires 0 <= n <= FACE_COUNT
    ensures StrictlyOrdered(DirFaces(src, origin, local, id, n))
    ensures forall f | f in DirFaces(src, origin, local, id, n) ::
      Vec3i(f.x, f.y, f.z) == local && 0 <= f.face < n
  {
    if n > 0 {
      DirFacesOrdered(src, origin, local, id, n - 1);
      var rest := DirFaces(src, origin, local, id, n - 1);
      var last := FaceList(FaceAt(src, origin, local, id, n - 1));
      forall i, j | 0 <= i < |rest| && 0 <= j < |last| ensures FaceKey(rest[i]) < FaceKey(last[j]) {
        assert rest[i] in rest;
      }
      OrderedConcat(rest, last);
    }
  }

  lemma CellFacesOrdered(src: MeshSource, origin: Vec3i, t: nat)
    requires t < CHUNK_SIZE_CUBED
    ensures StrictlyOrdered(CellFaces(src, origin, t))
    ensures forall f | f in CellFaces(src, origin, t) :: FACE_COUNT * t <= FaceKey(f) < FACE_COUNT * (t + 1)
  {
    var local := ScanCell(t);
    ScanCellInChunk(t);
    match src.typeOf(src.voxelAt(Add(origin, local)))
    case None =>
    case Some(id) =>
      DirFacesOrdered(src, origin, local, id, FACE_COUNT);
  }

  lemma {:induction false} FacesUpToOrdered(src: MeshSource, origin: Vec3i, t: nat)
    requires t <= CHUNK_SIZE_CUBED
    ensures StrictlyOrdered(FacesUpTo(src, origin, t))
    ensures forall f | f in FacesUpTo(src, origin, t) :: FaceKey(f) < FACE_COUNT * t
  {
    if t > 0 {
      FacesUpToOrdered(src, origin, t - 1);
      CellFacesOrdered(src, origin, t - 1);
      OrderedAppend(FacesUpTo(src, origin, t - 1), CellFaces(src, origin, t - 1), FACE_COUNT * (t - 1), FACE_COUNT * t);
    }
  }

  /** Faces keyed below `mid` followed by faces keyed in [mid, top) stay ordered, all below `top`. */
  lemma OrderedAppend(rest: seq<VoxelFace>, cell: seq<VoxelFace>, mid: int, top: int)
    requires StrictlyOrdered(rest) && forall f | f in rest :: FaceKey(f) < mid
    requires StrictlyOrdered(cell) && forall f | f in cell :: mid <= FaceKey(f) < top
    requires mid <= top
    ensures StrictlyOrdered(rest + cell)
    ensures forall f | f in rest + cell :: FaceKey(f) < top
  {
    forall i, j | 0 <= i < |rest| && 0 <= j < |cell| ensures FaceKey(rest[i]) < FaceKey(cell[j]) {
      assert rest[i] in rest && cell[j] in cell;
    }
    OrderedConcat(rest, cell);
  }

  /** Faces come out in x, z, y, direction order: the emission order strictly increases the face key. */
  lemma FacesOrdered(src: MeshSource, origin: Vec3i)
    ensures StrictlyOrdered(Faces(src, origin))
  {
    FacesUpToOrdered(src, origin, CHUNK_SIZE_CUBED);
  }

  lemma {:induction false} DirFacesGrow(src: MeshSource, origin: Vec3i, local: Vec3i, id: int, n: int, m: int)
    requires 0 <= n <= m <= FACE_COUNT
    ensures |DirFaces(src, origin, local, id, n)| <= |DirFaces(src, origin, local, id, m)|
  {
    if n < m {
      DirFacesGrow(src, origin, local, id, n, m - 1);
    }
  }

  /**
   * static init: entry k of the shared index array is k / 4, so the four
   * vertices of face f all carry index f.
   */
  method InitIndices() returns (indices: array<int>)
    ensures fresh(indices) && indices.Length == CHUNK_VERTEX_INDICES_COUNT
    ensures forall k | 0 <= k < indices.Length :: indices[k] == k / 4
  {
    indices := new int[CHUNK_VERTEX_INDICES_COUNT];
    var i := 0;
    while i < CHUNK_VERTEX_INDICES_COUNT
      invariant 0 <= i <= CHUNK_VERTEX_INDICES_COUNT && i % 4 == 0
      invariant forall k | 0 <= k < i :: indices[k] == k / 4
    {
      var j := 0;
      while j < 4
        invariant 0 <= j <= 4
        invariant forall k | 0 <= k < i + j :: indices[k] == k / 4
      {
        indices[i + j] := i / 4;
        j := j + 1;
      }
      i := i + 4;
    }
  }

  /**
   * A table of scan prefixes: entry u holds the faces of the first u cells,
   * so each entry is the one before followed by that cell's faces.
   */
  ghost predicate IsPrefixTable(src: MeshSource, origin: Vec3i, prefix: int -> seq<VoxelFace>)
  {
    && prefix(0) == []
    && forall u {:trigger CellFaces(src, origin, u)} | 0 <= u < CHUNK_SIZE_CUBED ::
         prefix(u + 1) == prefix(u) + CellFaces(src, origin, u)
  }

  /** The prefixes of the scan itself, whose last entry is the whole mesh. */
  lemma PrefixTable(src: MeshSource, origin: Vec3i) returns (prefix: int -> seq<VoxelFace>)
    ensures IsPrefixTable(src, origin, prefix)
    ensures prefix(CHUNK_SIZE_CUBED) == Faces(src, origin)
  {
    prefix := u => if u < 0 then [] else FacesUpTo(src, origin, u);
  }

  /** The number of faces in a prefix never shrinks as the scan goes on. */
  lemma {:induction false} PrefixGrows(src: MeshSource, origin: Vec3i, prefix: int -> seq<VoxelFace>, t: int, u: int)
    requires IsPrefixTable(src, origin, prefix)
    requires 0 <= t <= u <= CHUNK_SIZE_CUBED
    ensures |prefix(t)| <= |prefix(u)|
  {
    if t < u {
      PrefixGrows(src, origin, prefix, t, u - 1);
      assert prefix(u) == prefix(u - 1) + CellFaces(src, origin, u - 1);
    }
  }

  /** An air cell contributes no faces. */
  lemma AirCell(src: MeshSource, origin: Vec3i, x: int, y: int, z: int, t: int)
    requires InChunk(x, y, z) && t == 1024 * x + 32 * z + y
    requires src.typeOf(src.voxelAt(Add(origin, Vec3i(x, y, z)))).None?
    ensures CellFaces(src, origin, t) == []
  {
    ScanOrderBijective(x, y, z);
  }

  /** A drawn cell contributes its visible directions in order. */
  lemma DrawnCell(src: MeshSource, origin: Vec3i, x: int, y: int, z: int, id: int, t: int)
    requires InChunk(x, y, z) && t == 1024 * x + 32 * z + y
    requires src.typeOf(src.voxelAt(Add(origin, Vec3i(x, y, z)))) == Some(id)
    ensures CellFaces(src, origin, t) == DirFaces(src, origin, Vec3i(x, y, z), id, FACE_COUNT)
  {
    ScanOrderBijective(x, y, z);
  }

  lemma AppendAssoc(a: seq<VoxelFace>, b: seq<VoxelFace>, c: seq<VoxelFace>)
    ensures (a + b) + c == a + (b + c)
  {
  }

  /**
   * The i loop for a drawn cell at `origin + local`: each direction whose
   * neighbour is not opaque appends its face at slot count.
   */
  method AppendDirFaces(src: MeshSource, origin: Vec3i, buf: array<VoxelFace>, count0: nat, local: Vec3i, id: int)
      returns (count: nat)
    requires count0 + |DirFaces(src, origin, local, id, FACE_COUNT)| <= buf.Length
    modifies buf
    ensures count == count0 + |DirFaces(src, origin, local, id, FACE_COUNT)|
    ensures buf[..count] == old(buf[..count0]) + DirFaces(src, origin, local, id, FACE_COUNT)
  {
    count := count0;
    ghost var before := buf[..count0];
    var i := 0;
    while i < FACE_COUNT
      invariant 0 <= i <= FACE_COUNT
      invariant count == count0 + |DirFaces(src, origin, local, id, i)| <= buf.Length
      invariant buf[..count] == before + DirFaces(src, origin, local, id, i)
    {
      DirFacesGrow(src, origin, local, id, i + 1, FACE_COUNT);
      count := AppendDirFace(src, origin, buf, count, local, id, i, before, count0);
      i := i + 1;
    }
  }

  /** One pass of the i loop: direction i appends its face when the neighbour is not opaque. */
  method AppendDirFace(src: MeshSource, origin: Vec3i, buf: array<VoxelFace>, count0: nat, local: Vec3i, id: int,
                       i: int, ghost before: seq<VoxelFace>, ghost start: nat)
      returns (count: nat)
    requires 0 <= i < FACE_COUNT
    requires count0 == start + |DirFaces(src, origin, local, id, i)|
    requires start + |DirFaces(src, origin, local, id, i + 1)| <= buf.Length
    requires count0 <= buf.Length && buf[..count0] == before + DirFaces(src, origin, local, id, i)
    modifies buf
    ensures count == start + |DirFaces(src, origin, local, id, i + 1)|
    ensures buf[..count] == before + DirFaces(src, origin, local, id, i + 1)
  {
    count := count0;
    var offset := Add(Add(origin, local), FACE_DIRECTIONS[i]);
    assert DirFaces(src, origin, local, id, i + 1) == DirFaces(src, origin, local, id, i) + FaceList(FaceAt(src, origin, local, id, i));
    if !src.isOpaque(src.voxelAt(offset)) {
      var f := VoxelFace(local.x, local.y, local.z, src.lightAt(offset), i, id);
      assert FaceList(FaceAt(src, origin, local, id, i)) == [f];
      buf[count] := f;
      assert buf[..count + 1] == buf[..count] + [f];
      AppendAssoc(before, DirFaces(src, origin, local, id, i), [f]);
      count := count + 1;
    } else {
      assert FaceList(FaceAt(src, origin, local, id, i)) == [];
    }
  }

  /**
   * The body of the y loop for one cell at `origin + local`, scan cell t:
   * nothing for air, otherwise the cell's visible faces in direction order.
   */
  method AppendCellFaces(src: MeshSource, origin: Vec3i, buf: array<VoxelFace>, count0: nat, local: Vec3i,
                         ghost prefix: int -> seq<VoxelFace>, ghost t: nat)
      returns (count: nat)
    requires InChunk(local.x, local.y, local.z)
    requires t == 1024 * local.x + 32 * local.z + local.y && IsPrefixTable(src, origin, prefix)
    requires |prefix(t + 1)| <= buf.Length
    requires count0 <= buf.Length && buf[..count0] == prefix(t)
    modifies buf
    ensures count <= buf.Length && buf[..count] == prefix(t + 1)
  {
    count := count0;
    var vt := src.typeOf(src.voxelAt(Add(origin, local)));
    if vt.None? {
      AirCell(src, origin, local.x, local.y, local.z, t);
      assert prefix(t + 1) == prefix(t) + CellFaces(src, origin, t);
      return;
    }
    DrawnCell(src, origin, local.x, local.y, local.z, vt.value, t);
    assert prefix(t + 1) == prefix(t) + CellFaces(src, origin, t);
    count := AppendDirFaces(src, origin, buf, count0, local, vt.value);
  }

  /** The y loop of updateVoxelMesh for one (x, z) column, at scan index t on entry. */
  method ScanColumn(src: MeshSource, origin: Vec3i, buf: array<VoxelFace>, count0: nat, x: int, z: int,
                    ghost prefix: int -> seq<VoxelFace>, ghost t: nat)
      returns (count: nat)
    requires origin.x <= x < origin.x + CHUNK_SIZE && origin.z <= z < origin.z + CHUNK_SIZE
    requires t == 1024 * (x - origin.x) + 32 * (z - origin.z) && IsPrefixTable(src, origin, prefix)
    requires |prefix(t + 32)| <= buf.Length
    requires count0 <= buf.Length && buf[..count0] == prefix(t)
    modifies buf
    ensures count <= buf.Length && buf[..count] == prefix(t + 32)
  {
    count := count0;
    ghost var ty: nat := t;
    var y := origin.y;
    while y < origin.y + CHUNK_SIZE
      invariant origin.y <= y <= origin.y + CHUNK_SIZE
      invariant ty == t + (y - origin.y)
      invariant count <= buf.Length && buf[..count] == prefix(ty)
    {
      PrefixGrows(src, origin, prefix, ty + 1, t + 32);
      count := AppendCellFaces(src, origin, buf, count, Vec3i(x - origin.x, y - origin.y, z - origin.z), prefix, ty);
      ty := ty + 1;
      y := y + 1;
    }
    assert ty == t + 32;
  }

  /** The z loop of updateVoxelMesh for one x slice, at scan index t on entry. */
  method ScanSlice(src: MeshSource, origin: Vec3i, buf: array<VoxelFace>, count0: nat, x: int,
                   ghost prefix: int -> seq<VoxelFace>, ghost t: nat)
      returns (count: nat)
    requires origin.x <= x < origin.x + CHUNK_SIZE
    requires t == 1024 * (x - origin.x) && IsPrefixTable(src, origin, prefix)
    requires |prefix(t + 1024)| <= buf.Length
    requires count0 <= buf.Length && buf[..count0] == prefix(t)
    modifies buf
    ensures count <= buf.Length && buf[..count] == prefix(t + 1024)
  {
    count := count0;
    ghost var tz: nat := t;
    var z := origin.z;
    while z < origin.z + CHUNK_SIZE
      invariant origin.z <= z <= origin.z + CHUNK_SIZE
      invariant tz == t + 32 * (z - origin.z)
      invariant count <= buf.Length && buf[..count] == prefix(tz)
    {
      PrefixGrows(src, origin, prefix, tz + 32, t + 1024);
      count := ScanColumn(src, origin, buf, count, x, z, prefix, tz);
      tz := tz + 32;
      z := z + 1;
    }
    assert tz == t + 1024;
  }

  /**
   * The loops of updateVoxelMesh: x, then z, then y over the 32 cells from
   * `origin` on each axis, appending into `buf` from slot 0. Returns addedVoxelFaceCount.
   */
  method ScanChunk(src: MeshSource, origin: Vec3i, buf: array<VoxelFace>) returns (count: nat)
    requires buf.Length == MAX_CHUNK_FACE_COUNT
    requires |Faces(src, origin)| <= MAX_CHUNK_FACE_COUNT
    modifies buf
    ensures count == |Faces(src, origin)|
    ensures buf[..count] == Faces(src, origin)
  {
    ghost var prefix := PrefixTable(src, origin);
    count := 0;
    ghost var tx: nat := 0;
    var x := origin.x;
    while x < origin.x + CHUNK_SIZE
      invariant origin.x <= x <= origin.x + CHUNK_SIZE
      invariant tx == 1024 * (x - origin.x)
      invariant count <= buf.Length && buf[..count] == prefix(tx)
    {
      PrefixGrows(src, origin, prefix, tx + 1024, CHUNK_SIZE_CUBED);
      count := ScanSlice(src, origin, buf, count, x, prefix, tx);
      tx := tx + 1024;
      x := x + 1;
    }
    assert tx == CHUNK_SIZE_CUBED;
  }
}
