/**
 * Bookkeeping of a vertex array object: the ordered list of vertex buffers,
 * the once-only index, indirect and instance buffers, and the attribute
 * pointers finishBuilding assigns. The GL objects themselves are not modelled;
 * what the model keeps is which buffer each slot describes and, for each
 * attribute, its index, source buffer and byte offset.
 */
module VertexArrays {
  import opened Common

  /**
   * One VertexBufferElement: `typeSize` is getSizeOfType of its GL type (that
   * table is not part of this model), `isInteger` picks the integer pointer call.
   */
  datatype Element = Element(count: nat, typeSize: nat, isInteger: bool, normalized: bool, divisor: int)

  /** A VertexBufferLayout: its elements in order, and whether it holds per-instance data. */
  datatype Layout = Layout(elements: seq<Element>, instancedData: bool)

  /** How a vertex buffer was created: initStatic with element count and size, or initDynamic with a byte size. */
  datatype BufferInit = StaticData(dataCount: nat, sizeOfType: nat) | DynamicSize(initialByteSize: int)

  datatype VertexBuffer = VertexBuffer(layout: Layout, init: BufferInit)

  /** The index buffer: initStatic with the indices, or initDynamic with a byte size. */
  datatype IndexBuffer = StaticIndices(indices: seq<int>) | DynamicIndices(byteSize: int)

  datatype IndirectBuffer = IndirectBuffer(byteSize: int)

  datatype InstanceBuffer = InstanceBuffer(layout: Layout, dataCount: nat, sizeOfType: nat)

  /** Which GL buffer of this array an attribute reads, or a bind or delete touches. */
  datatype BufferRef = Vbo(index: nat) | Indices | Indirect | Instance

  /** One attribute pointer set by finishBuilding; `divisor` is set only for instanced VBO layouts. */
  datatype AttribPointer = AttribPointer(attrib: nat, source: BufferRef, element: Element, offset: nat, divisor: Option<int>)

  /** One updateBuffer call: the vertex buffer index and the byte count uploaded. */
  datatype BufferUpdate = BufferUpdate(vboIndex: nat, sizeToUpdate: int)

  /** sizeof(uint) in C#. */
  const SIZE_OF_UINT: nat := 4

  /** Bytes one element occupies: count times the size of its type. */
  function ElementSize(e: Element): nat
  {
    e.count * e.typeSize
  }

  /** Sum of the element sizes, accumulated from the front as the offset loop does. */
  function SumSizes(elements: seq<Element>): nat
  {
    if |elements| == 0 then 0 else SumSizes(elements[..|elements| - 1]) + ElementSize(elements[|elements| - 1])
  }

  /** The pointers of one buffer's layout, numbered from `first`, offsets from 0. */
  function LayoutPointers(layout: Layout, source: BufferRef, first: nat, withDivisor: bool): (r: seq<AttribPointer>)
    ensures |r| == |layout.elements|
  {
    seq(|layout.elements|, j requires 0 <= j < |layout.elements| =>
      AttribPointer(first + j, source, layout.elements[j], SumSizes(layout.elements[..j]),
        if withDivisor && layout.instancedData then Some(layout.elements[j].divisor) else None))
  }

  function TotalElements(vbos: seq<VertexBuffer>): nat
  {
    if |vbos| == 0 then 0 else TotalElements(vbos[..|vbos| - 1]) + |vbos[|vbos| - 1].layout.elements|
  }

  /** The pointers of the first n vertex buffers, in list order. */
  function VboPointers(vbos: seq<VertexBuffer>, n: nat): seq<AttribPointer>
    requires n <= |vbos|
  {
    if n == 0 then []
    else VboPointers(vbos, n - 1) + LayoutPointers(vbos[n - 1].layout, Vbo(n - 1), TotalElements(vbos[..n - 1]), true)
  }

  /** Every attribute pointer finishBuilding sets: the vertex buffers', then the instance buffer's if it is used. */
  function AllAttribPointers(vbos: seq<VertexBuffer>, instance: Option<InstanceBuffer>): seq<AttribPointer>
  {
    VboPointers(vbos, |vbos|)
      + (if instance.Some? then LayoutPointers(instance.value.layout, Instance, TotalElements(vbos), false) else [])
  }

  lemma {:induction false} VboPointersLength(vbos: seq<VertexBuffer>, n: nat)
    requires n <= |vbos|
    ensures |VboPointers(vbos, n)| == TotalElements(vbos[..n])
  {
    if n > 0 {
      VboPointersLength(vbos, n - 1);
      assert vbos[..n][..n - 1] == vbos[..n - 1];
    }
  }

  /** Attribute k of the vertex buffers is pointer number k: indices are consecutive from 0, all from a listed buffer. */
  lemma {:induction false} VboPointersConsecutive(vbos: seq<VertexBuffer>, n: nat)
    requires n <= |vbos|
    ensures forall k | 0 <= k < |VboPointers(vbos, n)| ::
      VboPointers(vbos, n)[k].attrib == k && VboPointers(vbos, n)[k].source.Vbo? && VboPointers(vbos, n)[k].source.index < n
  {
    if n > 0 {
      VboPointersConsecutive(vbos, n - 1);
      VboPointersLength(vbos, n - 1);
    }
  }

  /**
   * finishBuilding numbers the attributes 0, 1, 2, ... with no gap: the vertex
   * buffers' elements first, in list order, then the instance layout's.
   */
  lemma AttribIndicesConsecutive(vbos: seq<VertexBuffer>, instance: Option<InstanceBuffer>)
    ensures forall k | 0 <= k < |AllAttribPointers(vbos, instance)| :: AllAttribPointers(vbos, instance)[k].attrib == k
    ensures |AllAttribPointers(vbos, instance)| ==
      TotalElements(vbos) + (if instance.Some? then |instance.value.layout.elements| else 0)
  {
    VboPointersConsecutive(vbos, |vbos|);
    VboPointersLength(vbos, |vbos|);
    assert vbos[..|vbos|] == vbos;
  }

  lemma {:induction false} SumSizesPrefix(elements: seq<Element>, j: nat)
    requires j <= |elements|
    ensures SumSizes(elements[..j]) <= SumSizes(elements)
  {
    if j < |elements| {
      var front := elements[..|elements| - 1];
      SumSizesPrefix(front, j);
      assert front[..j] == elements[..j];
      assert SumSizes(elements) == SumSizes(front) + ElementSize(elements[|elements| - 1]);
    } else {
      assert elements[..j] == elements;
    }
  }

  /**
   * Within one buffer the offsets restart at 0, each element starts where the
   * previous one ends, and every element lies inside the layout's total size.
   */
  lemma OffsetsPack(layout: Layout, source: BufferRef, first: nat, withDivisor: bool)
    ensures |layout.elements| > 0 ==> LayoutPointers(layout, source, first, withDivisor)[0].offset == 0
    ensures forall j | 0 < j < |layout.elements| ::
      LayoutPointers(layout, source, first, withDivisor)[j].offset ==
      LayoutPointers(layout, source, first, withDivisor)[j - 1].offset + ElementSize(layout.elements[j - 1])
    ensures forall j | 0 <= j < |layout.elements| ::
      LayoutPointers(layout, source, first, withDivisor)[j].offset + ElementSize(layout.elements[j]) <= SumSizes(layout.elements)
  {
    var es := layout.elements;
    var ps := LayoutPointers(layout, source, first, withDivisor);
    if |es| > 0 {
      PointerOffset(layout, source, first, withDivisor, 0);
    }
    forall j | 0 < j < |es|
      ensures ps[j].offset == ps[j - 1].offset + ElementSize(es[j - 1])
    {
      PointerOffset(layout, source, first, withDivisor, j);
      PointerOffset(layout, source, first, withDivisor, j - 1);
      SumSizesStep(es, j);
    }
    forall j | 0 <= j < |es|
      ensures ps[j].offset + ElementSize(es[j]) <= SumSizes(es)
    {
      PointerOffset(layout, source, first, withDivisor, j);
      SumSizesStep(es, j + 1);
      SumSizesPrefix(es, j + 1);
    }
  }

  lemma PointerOffset(layout: Layout, source: BufferRef, first: nat, withDivisor: bool, j: int)
    requires 0 <= j < |layout.elements|
    ensures LayoutPointers(layout, source, first, withDivisor)[j].offset == SumSizes(layout.elements[..j])
  {
  }

  /** The sum over the first j elements is the sum over the first j - 1 plus element j - 1. */
  lemma SumSizesStep(es: seq<Element>, j: int)
    requires 0 < j <= |es|
    ensures SumSizes(es[..j]) == SumSizes(es[..j - 1]) + ElementSize(es[j - 1])
  {
    assert es[..j][..j - 1] == es[..j - 1];
  }

  /**
   * The inner loop of finishBuilding for one buffer: enables attributes first,
   * first + 1, ... and advances the byte offset by count * size per element.
   */
  method BufferPointers(layout: Layout, source: BufferRef, first: nat, withDivisor: bool) returns (ptrs: seq<AttribPointer>)
    ensures ptrs == LayoutPointers(layout, source, first, withDivisor)
  {
    var attribItterator := first;
    var offset := 0;
    ptrs := [];
    var j := 0;
    while j < |layout.elements|
      invariant 0 <= j <= |layout.elements|
      invariant ptrs == LayoutPointers(layout, source, first, withDivisor)[..j]
      invariant offset == SumSizes(layout.elements[..j])
      invariant attribItterator == first + j
    {
      var element := layout.elements[j];
      var divisor := if withDivisor && layout.instancedData then Some(element.divisor) else None;
      ptrs := ptrs + [AttribPointer(attribItterator, source, element, offset, divisor)];
      assert layout.elements[..j + 1][..j] == layout.elements[..j];
      offset := offset + element.count * element.typeSize;
      attribItterator := attribItterator + 1;
      j := j + 1;
    }
  }

  /** The references to the first n vertex buffers, in order. */
  function VboRefs(n: nat): (r: seq<BufferRef>)
    ensures |r| == n && forall k | 0 <= k < n :: r[k] == Vbo(k)
  {
    if n == 0 then [] else VboRefs(n - 1) + [Vbo(n - 1)]
  }

  lemma RefsAppendAssoc(a: seq<BufferRef>, b: seq<BufferRef>, c: seq<BufferRef>)
    ensures (a + b) + c == a + (b + c)
  {
  }

  /** The optional buffers a pass touches, in the order index, indirect, instance; each one present iff its flag is set. */
  function OptionalRefs(indices: bool, indirect: bool, instance: bool): (r: seq<BufferRef>)
    ensures |r| == (if indices then 1 else 0) + (if indirect then 1 else 0) + (if instance then 1 else 0)
    ensures Indices in r <==> indices
    ensures Indirect in r <==> indirect
    ensures Instance in r <==> instance
    ensures forall b | b in r :: !b.Vbo?
  {
    (if indices then [Indices] else []) + (if indirect then [Indirect] else []) + (if instance then [Instance] else [])
  }

  class VertexArrayObject {
    /** The name GL.GenVertexArray returned; generating it is outside this model. */
    const vaoId: int

    var vbos: seq<VertexBuffer>
    var ibo: Option<IndexBuffer>
    var indbo: Option<IndirectBuffer>
    var instbo: Option<InstanceBuffer>

    var usesIndices: bool
    var hasSetUpIndices: bool
    var usesIndirect: bool
    var hasSetUpIndirect: bool
    var usesInstancing: bool
    var hasSetUpInstancing: bool

    var debugTotalAttributes: int
    /** The attribute pointers as the last finishBuilding left them. */
    var attribPointers: seq<AttribPointer>
    /** Every updateBuffer call so far, in order. */
    var updates: seq<BufferUpdate>

    /** Each optional buffer exists exactly when its two flags are set, and the flags always agree. */
    ghost predicate Valid()
      reads this
    {
      && usesIndices == hasSetUpIndices == ibo.Some?
      && usesIndirect == hasSetUpIndirect == indbo.Some?
      && usesInstancing == hasSetUpInstancing == instbo.Some?
    }

    constructor (id: int)
      ensures Valid() && vaoId == id
      ensures vbos == [] && ibo == None && indbo == None && instbo == None
      ensures debugTotalAttributes == 0 && attribPointers == [] && updates == []
    {
      vaoId := id;
      vbos := [];
      ibo, indbo, instbo := None, None, None;
      usesIndices, hasSetUpIndices := false, false;
      usesIndirect, hasSetUpIndirect := false, false;
      usesInstancing, hasSetUpInstancing := false, false;
      debugTotalAttributes := 0;
      attribPointers := [];
      updates := [];
    }

    /** addIndicesBuffer: takes effect only when no index buffer has been set up. */
    method AddIndicesBuffer(indices: seq<int>)
      requires Valid()
      modifies this`ibo, this`hasSetUpIndices, this`usesIndices
      ensures Valid()
      ensures old(hasSetUpIndices) ==> ibo == old(ibo)
      ensures !old(hasSetUpIndices) ==> ibo == Some(StaticIndices(indices))
    {
      if hasSetUpIndices {
        return;
      }
      ibo := Some(StaticIndices(indices));
      hasSetUpIndices := true;
      usesIndices := true;
    }

    /** addIndicesBufferDynamic: a dynamic index buffer of initialCount * sizeof(uint) bytes, once only. */
    method AddIndicesBufferDynamic(initialCount: int)
      requires Valid()
      modifies this`ibo, this`hasSetUpIndices, this`usesIndices
      ensures Valid()
      ensures old(hasSetUpIndices) ==> ibo == old(ibo)
      ensures !old(hasSetUpIndices) ==> ibo == Some(DynamicIndices(initialCount * SIZE_OF_UINT))
    {
      if hasSetUpIndices {
        return;
      }
      ibo := Some(DynamicIndices(initialCount * SIZE_OF_UINT));
      hasSetUpIndices := true;
      usesIndices := true;
    }

    /** addInstanceBuffer, once only. */
    method AddInstanceBuffer(dataCount: nat, sizeOfType: nat, layout: Layout)
      requires Valid()
      modifies this`instbo, this`hasSetUpInstancing, this`usesInstancing
      ensures Valid()
      ensures old(hasSetUpInstancing) ==> instbo == old(instbo)
      ensures !old(hasSetUpInstancing) ==> instbo == Some(InstanceBuffer(layout, dataCount, sizeOfType))
    {
      if hasSetUpInstancing {
        return;
      }
      instbo := Some(InstanceBuffer(layout, dataCount, sizeOfType));
      hasSetUpInstancing := true;
      usesInstancing := true;
    }

    /**
     * addIndirectBuffer, once only: initialCount * DrawCommand.SIZE_BYTES bytes.
     * That size is not part of this model and comes in as `drawCommandSizeBytes`.
     */
    method AddIndirectBuffer(initialCount: int, drawCommandSizeBytes: nat)
      requires Valid()
      modifies this`indbo, this`hasSetUpIndirect, this`usesIndirect
      ensures Valid()
      ensures old(hasSetUpIndirect) ==> indbo == old(indbo)
      ensures !old(hasSetUpIndirect) ==> indbo == Some(IndirectBuffer(initialCount * drawCommandSizeBytes))
    {
      if hasSetUpIndirect {
        return;
      }
      indbo := Some(IndirectBuffer(initialCount * drawCommandSizeBytes));
      hasSetUpIndirect := true;
      usesIndirect := true;
    }

    /** addBuffer: appends a static vertex buffer, which then has index |old(vbos)|. */
    method AddBuffer(dataCount: nat, sizeOfType: nat, layout: Layout)
      modifies this`vbos
      ensures vbos == old(vbos) + [VertexBuffer(layout, StaticData(dataCount, sizeOfType))]
    {
      vbos := vbos + [VertexBuffer(layout, StaticData(dataCount, sizeOfType))];
    }

    /** addBufferDynamic: appends a dynamic vertex buffer, which then has index |old(vbos)|. */
    method AddBufferDynamic(initialByteSize: int, layout: Layout)
      modifies this`vbos
      ensures vbos == old(vbos) + [VertexBuffer(layout, DynamicSize(initialByteSize))]
    {
      vbos := vbos + [VertexBuffer(layout, DynamicSize(initialByteSize))];
    }

    /** The instance buffer finishBuilding configures: only when it is both used and set up. */
    function InstanceInUse(): Option<InstanceBuffer>
      reads this
    {
      if usesInstancing && hasSetUpInstancing then instbo else None
    }

    /**
     * finishBuilding: one attribute pointer per layout element, numbered by a
     * running attribute counter, with a byte offset that restarts at 0 for each buffer.
     */
    method FinishBuilding()
      requires Valid()
      modifies this`attribPointers, this`debugTotalAttributes
      ensures attribPointers == AllAttribPointers(vbos, InstanceInUse())
      ensures debugTotalAttributes == |attribPointers|
    {
      var attribItterator := 0;
      attribPointers := [];
      var i := 0;
      while i < |vbos|
        invariant 0 <= i <= |vbos|
        invariant attribPointers == VboPointers(vbos, i)
        invariant attribItterator == TotalElements(vbos[..i]) == |attribPointers|
      {
        var ptrs := BufferPointers(vbos[i].layout, Vbo(i), attribItterator, true);
        attribPointers := attribPointers + ptrs;
        attribItterator := attribItterator + |ptrs|;
        assert vbos[..i + 1][..i] == vbos[..i];
        i := i + 1;
      }
      assert vbos[..i] == vbos;
      if usesInstancing && hasSetUpInstancing {
        var ptrs := BufferPointers(instbo.value.layout, Instance, attribItterator, false);
        attribPointers := attribPointers + ptrs;
        attribItterator := attribItterator + |ptrs|;
      }
      debugTotalAttributes := attribItterator;
    }

    /**
     * updateBuffer: uploads sizeToUpdate bytes into vertex buffer vboIndex.
     * `vbos.ElementAt` throws for an index outside the list: then ok is false and nothing is logged.
     */
    method UpdateBuffer(vboIndex: int, sizeToUpdate: int) returns (ok: bool)
      modifies this`updates
      ensures ok <==> 0 <= vboIndex < |vbos|
      ensures ok ==> updates == old(updates) + [BufferUpdate(vboIndex, sizeToUpdate)]
      ensures !ok ==> updates == old(updates)
    {
      if 0 <= vboIndex < |vbos| {
        updates := updates + [BufferUpdate(vboIndex, sizeToUpdate)];
        ok := true;
      } else {
        ok := false;
      }
    }

    /** bind: the index, indirect and instance buffers (each if used), then every vertex buffer in list order. */
    method Bind() returns (bound: seq<BufferRef>)
      ensures bound == OptionalRefs(usesIndices, usesIndirect, usesInstancing) + VboRefs(|vbos|)
    {
      bound := [];
      ghost var a: seq<BufferRef> := if usesIndices then [Indices] else [];
      ghost var b: seq<BufferRef> := if usesIndirect then [Indirect] else [];
      ghost var c: seq<BufferRef> := if usesInstancing then [Instance] else [];
      if usesIndices {
        bound := bound + [Indices];
      }
      assert bound == a;
      if usesIndirect {
        bound := bound + [Indirect];
      }
      assert bound == a + b;
      if usesInstancing {
        bound := bound + [Instance];
      }
      assert bound == a + b + c;
      ghost var prefix := bound;
      var i := 0;
      while i < |vbos|
        invariant 0 <= i <= |vbos|
        invariant bound == prefix + VboRefs(i)
      {
        RefsAppendAssoc(prefix, VboRefs(i), [Vbo(i)]);
        bound := bound + [Vbo(i)];
        i := i + 1;
      }
    }

    /**
     * delete: every vertex buffer in list order, then the index, indirect and
     * instance buffers, each only if it is both used and set up.
     */
    method Delete() returns (released: seq<BufferRef>)
      ensures released == VboRefs(|vbos|)
        + OptionalRefs(usesIndices && hasSetUpIndices, usesIndirect && hasSetUpIndirect, usesInstancing && hasSetUpInstancing)
    {
      released := [];
      var i := 0;
      while i < |vbos|
        invariant 0 <= i <= |vbos|
        invariant released == VboRefs(i)
      {
        released := released + [Vbo(i)];
        i := i + 1;
      }
      if usesIndices && hasSetUpIndices {
        released := released + [Indices];
      }
      if usesIndirect && hasSetUpIndirect {
        released := released + [Indirect];
      }
      if usesInstancing && hasSetUpInstancing {
        released := released + [Instance];
      }
    }
  }
}
