/**
 * The renderer's bookkeeping: the registry of named static render objects,
 * the per-frame draw-call counter and the frame counter kept modulo 4096.
 * GL state, matrices, shaders and the batch manager are outside this model;
 * a static render object is a handle plus the request that created it, and
 * deleting one is recorded in a log.
 */
module Rendering {
  import opened Bits

  /** An opaque reference to model or point data handed to the renderer. */
  type DataRef = int

  /** The request a static render object was created from, one per createSRO* factory. */
  datatype DrawSpec =
    | Triangles(textureName: string, shaderName: string, model: DataRef)
    | Lines(textureName: string, shaderName: string, model: DataRef)
    | Points(points: DataRef, transparency: bool)

  /** A static render object: a handle, distinct for every object created, and its request. */
  datatype StaticRenderObject = StaticRenderObject(handle: nat, spec: DrawSpec)

  const RENDER_FRAME_PERIOD: int := 4096

  /** The frame counter step of postRender. */
  function NextFrame(frame: int): (r: int)
    requires 0 <= frame < RENDER_FRAME_PERIOD
    ensures 0 <= r < RENDER_FRAME_PERIOD
    ensures frame < RENDER_FRAME_PERIOD - 1 ==> r == frame + 1
    ensures frame == RENDER_FRAME_PERIOD - 1 ==> r == 0
  {
    (frame + 1) % RENDER_FRAME_PERIOD
  }

  /** After n frames from frame 0 the counter is n mod 4096: it wraps every 4096 frames. */
  lemma {:induction false} FramesWrap(n: nat)
    ensures FrameAfter(n) == n % RENDER_FRAME_PERIOD
  {
    if n > 0 {
      FramesWrap(n - 1);
      var q, r := (n - 1) / RENDER_FRAME_PERIOD, (n - 1) % RENDER_FRAME_PERIOD;
      if r + 1 < RENDER_FRAME_PERIOD {
        DivModUnique(n, RENDER_FRAME_PERIOD, q, r + 1);
      } else {
        DivModUnique(n, RENDER_FRAME_PERIOD, q + 1, 0);
      }
    }
  }

  function FrameAfter(n: nat): (r: int)
    ensures 0 <= r < RENDER_FRAME_PERIOD
  {
    if n == 0 then 0 else NextFrame(FrameAfter(n - 1))
  }

  lemma RemoveThenSet<K, V>(m: map<K, V>, k: K, v: V)
    ensures (m - {k})[k := v] == m[k := v]
  {
  }

  /**
   * Registering an object whose handle is above every issued one keeps the
   * handles distinct and below the next handle, and the object is not in the log.
   */
  lemma InsertFresh(m: map<string, StaticRenderObject>, log: seq<StaticRenderObject>, name: string, o: StaticRenderObject,
                    m': map<string, StaticRenderObject>)
    requires m' == m[name := o]
    requires forall n | n in m :: m[n].handle < o.handle
    requires forall n, k | n in m && k in m && n != k :: m[n].handle != m[k].handle
    requires forall i | 0 <= i < |log| :: log[i].handle < o.handle
    requires forall n | n in m :: m[n] !in log
    ensures forall n | n in m' :: m'[n].handle < o.handle + 1
    ensures forall n, k | n in m' && k in m' && n != k :: m'[n].handle != m'[k].handle
    ensures forall n | n in m' :: m'[n] !in log
  {
  }

  predicate Distinct<T(==)>(s: seq<T>)
  {
    forall i, j | 0 <= i < j < |s| :: s[i] != s[j]
  }

  class Renderer {
    /** ShaderUtil.trianglesName and ShaderUtil.linesName, whose values are not part of this model. */
    const trianglesShaderName: string
    const linesShaderName: string

    var staticDraws: map<string, StaticRenderObject>
    var totalDrawCallCount: int
    var renderFrame: int
    /** The handle the next created object gets. */
    var nextHandle: nat
    /** Every delete() called on a static render object, in order. */
    var deleted: seq<StaticRenderObject>

    /**
     * The frame counter is in range; every handle in use was issued; no
     * registered object has been deleted, and no object is deleted twice.
     */
    ghost predicate Valid()
      reads this
    {
      && 0 <= renderFrame < RENDER_FRAME_PERIOD
      && (forall n | n in staticDraws :: staticDraws[n].handle < nextHandle)
      && (forall n, m | n in staticDraws && m in staticDraws && n != m :: staticDraws[n].handle != staticDraws[m].handle)
      && (forall i | 0 <= i < |deleted| :: deleted[i].handle < nextHandle)
      && (forall n | n in staticDraws :: staticDraws[n] !in deleted)
      && Distinct(deleted)
    }

    /** init: an empty registry. */
    constructor (trianglesShaderName: string, linesShaderName: string)
      ensures Valid()
      ensures this.trianglesShaderName == trianglesShaderName && this.linesShaderName == linesShaderName
      ensures staticDraws == map[] && deleted == []
      ensures totalDrawCallCount == 0 && renderFrame == 0
    {
      this.trianglesShaderName := trianglesShaderName;
      this.linesShaderName := linesShaderName;
      staticDraws := map[];
      totalDrawCallCount := 0;
      renderFrame := 0;
      nextHandle := 0;
      deleted := [];
    }

    /**
     * The body every addStaticDraw* overload shares: an object already under
     * `name` is deleted and removed, then a new object for `spec` is added.
     */
    method AddStaticDraw(name: string, spec: DrawSpec)
      requires Valid()
      modifies this`staticDraws, this`nextHandle, this`deleted
      ensures Valid()
      ensures staticDraws == old(staticDraws)[name := StaticRenderObject(old(nextHandle), spec)]
      ensures deleted == old(deleted) + (if name in old(staticDraws) then [old(staticDraws)[name]] else [])
    {
      ghost var m0 := staticDraws;
      RemoveStaticDraw(name);
      RemoveThenSet(m0, name, StaticRenderObject(nextHandle, spec));
      InsertFresh(staticDraws, deleted, name, StaticRenderObject(nextHandle, spec), staticDraws[name := StaticRenderObject(nextHandle, spec)]);
      staticDraws := staticDraws[name := StaticRenderObject(nextHandle, spec)];
      nextHandle := nextHandle + 1;
    }

    method AddStaticDrawTriangles(name: string, textureName: string, shaderName: string, data: DataRef)
      requires Valid()
      modifies this`staticDraws, this`nextHandle, this`deleted
      ensures Valid()
      ensures staticDraws == old(staticDraws)[name := StaticRenderObject(old(nextHandle), Triangles(textureName, shaderName, data))]
      ensures deleted == old(deleted) + (if name in old(staticDraws) then [old(staticDraws)[name]] else [])
    {
      AddStaticDraw(name, Triangles(textureName, shaderName, data));
    }

    /** The overload without a shader name uses the triangles shader. */
    method AddStaticDrawTrianglesDefaultShader(name: string, textureName: string, data: DataRef)
      requires Valid()
      modifies this`staticDraws, this`nextHandle, this`deleted
      ensures Valid()
      ensures staticDraws == old(staticDraws)[name := StaticRenderObject(old(nextHandle), Triangles(textureName, trianglesShaderName, data))]
      ensures deleted == old(deleted) + (if name in old(staticDraws) then [old(staticDraws)[name]] else [])
    {
      AddStaticDraw(name, Triangles(textureName, trianglesShaderName, data));
    }

    method AddStaticDrawLines(name: string, textureName: string, shaderName: string, data: DataRef)
      requires Valid()
      modifies this`staticDraws, this`nextHandle, this`deleted
      ensures Valid()
      ensures staticDraws == old(staticDraws)[name := StaticRenderObject(old(nextHandle), Lines(textureName, shaderName, data))]
      ensures deleted == old(deleted) + (if name in old(staticDraws) then [old(staticDraws)[name]] else [])
    {
      AddStaticDraw(name, Lines(textureName, shaderName, data));
    }

    /** The overload without a shader name uses the lines shader. */
    method AddStaticDrawLinesDefaultShader(name: string, textureName: string, data: DataRef)
      requires Valid()
      modifies this`staticDraws, this`nextHandle, this`deleted
      ensures Valid()
      ensures staticDraws == old(staticDraws)[name := StaticRenderObject(old(nextHandle), Lines(textureName, linesShaderName, data))]
      ensures deleted == old(deleted) + (if name in old(staticDraws) then [old(staticDraws)[name]] else [])
    {
      AddStaticDraw(name, Lines(textureName, linesShaderName, data));
    }

    method AddStaticDrawPoints(name: string, data: DataRef, transparency: bool)
      requires Valid()
      modifies this`staticDraws, this`nextHandle, this`deleted
      ensures Valid()
      ensures staticDraws == old(staticDraws)[name := StaticRenderObject(old(nextHandle), Points(data, transparency))]
      ensures deleted == old(deleted) + (if name in old(staticDraws) then [old(staticDraws)[name]] else [])
    {
      AddStaticDraw(name, Points(data, transparency));
    }

    /** removeStaticDraw: deletes and removes the object under `name`; nothing happens when there is none. */
    method RemoveStaticDraw(name: string)
      requires Valid()
      modifies this`staticDraws, this`deleted
      ensures Valid()
      ensures staticDraws == old(staticDraws) - {name}
      ensures deleted == old(deleted) + (if name in old(staticDraws) then [old(staticDraws)[name]] else [])
    {
      if name in staticDraws {
        var s := staticDraws[name];
        deleted := deleted + [s];
        staticDraws := staticDraws - {name};
      }
    }

    /** preRender: the draw-call count restarts at zero. */
    method PreRender()
      modifies this`totalDrawCallCount
      ensures totalDrawCallCount == 0
    {
      totalDrawCallCount := 0;
    }

    /** postRender: the frame counter advances by one, modulo 4096. */
    method PostRender()
      requires Valid()
      modifies this`renderFrame
      ensures Valid()
      ensures renderFrame == NextFrame(old(renderFrame))
    {
      renderFrame := renderFrame + 1;
      renderFrame := renderFrame % RENDER_FRAME_PERIOD;
    }

    /**
     * drawAllStaticRenderObjects: draws every registered object once and counts
     * one draw call for each. The dictionary's enumeration order is not
     * specified, so the returned order is any order of the names.
     */
    method DrawAllStaticRenderObjects() returns (order: seq<string>)
      modifies this`totalDrawCallCount
      ensures totalDrawCallCount == old(totalDrawCallCount) + |staticDraws|
      ensures |order| == |staticDraws| && Distinct(order)
      ensures forall n :: n in order <==> n in staticDraws
    {
      order := [];
      var remaining := staticDraws.Keys;
      while remaining != {}
        invariant remaining <= staticDraws.Keys
        invariant forall n :: n in order <==> n in staticDraws && n !in remaining
        invariant Distinct(order)
        invariant |order| + |remaining| == |staticDraws|
        invariant totalDrawCallCount == old(totalDrawCallCount) + |order|
        decreases |remaining|
      {
        var n :| n in remaining;
        order := order + [n];
        remaining := remaining - {n};
        totalDrawCallCount := totalDrawCallCount + 1;
      }
    }

    /** onClosing: every registered object is deleted once; the registry itself is left as it is. */
    method OnClosing()
      requires Valid()
      modifies this`deleted
      ensures |deleted| == |old(deleted)| + |staticDraws| && deleted[..|old(deleted)|] == old(deleted)
      ensures Distinct(deleted)
      ensures forall n | n in staticDraws :: staticDraws[n] in deleted[|old(deleted)|..]
      ensures forall i | |old(deleted)| <= i < |deleted| :: exists n | n in staticDraws :: deleted[i] == staticDraws[n]
    {
      ghost var before := deleted;
      ghost var done := DeleteEach();
      ImagesDistinct(staticDraws, done, before);
      ImagesCover(staticDraws, done);
    }

    /** The foreach of onClosing: delete() on each registered object, in some order of the names. */
    method DeleteEach() returns (ghost done: seq<string>)
      modifies this`deleted
      ensures forall n :: n in done <==> n in staticDraws
      ensures Distinct(done) && |done| == |staticDraws|
      ensures deleted == old(deleted) + Images(staticDraws, done)
    {
      done := [];
      ghost var m := staticDraws;
      var remaining := staticDraws.Keys;
      while remaining != {}
        invariant staticDraws == m && remaining <= m.Keys
        invariant forall n :: n in done <==> n in m && n !in remaining
        invariant Distinct(done) && |done| + |remaining| == |m|
        invariant deleted == old(deleted) + Images(m, done)
        decreases |remaining|
      {
        var n :| n in remaining;
        DeleteStep(m, done, remaining, n, old(deleted));
        deleted := deleted + [staticDraws[n]];
        done := done + [n];
        remaining := remaining - {n};
      }
    }
  }

  /** The objects registered under `names`, in that order. */
  ghost function Images(m: map<string, StaticRenderObject>, names: seq<string>): (r: seq<StaticRenderObject>)
    requires forall n | n in names :: n in m
    ensures |r| == |names|
  {
    if names == [] then [] else Images(m, names[..|names| - 1]) + [m[names[|names| - 1]]]
  }

  lemma {:induction false} ImagesAt(m: map<string, StaticRenderObject>, names: seq<string>, i: int)
    requires forall n | n in names :: n in m
    requires 0 <= i < |names|
    ensures Images(m, names)[i] == m[names[i]]
  {
    if i < |names| - 1 {
      ImagesAt(m, names[..|names| - 1], i);
    }
  }

  /** One step of onClosing's loop: taking a name out of `remaining` keeps the loop's bookkeeping. */
  lemma DeleteStep(m: map<string, StaticRenderObject>, done: seq<string>, remaining: set<string>, n: string,
                   log: seq<StaticRenderObject>)
    requires remaining <= m.Keys && n in remaining
    requires forall k :: k in done <==> k in m && k !in remaining
    requires Distinct(done) && |done| + |remaining| == |m|
    ensures forall k :: k in done + [n] <==> k in m && k !in remaining - {n}
    ensures Distinct(done + [n]) && |done + [n]| + |remaining - {n}| == |m|
    ensures log + Images(m, done) + [m[n]] == log + Images(m, done + [n])
  {
    assert n !in done;
    SnocDistinct(done, n);
    ImagesSnoc(m, done, n, log);
    assert |remaining - {n}| == |remaining| - 1;
  }

  /** Appending a new element keeps a sequence free of repeats. */
  lemma SnocDistinct<T>(s: seq<T>, x: T)
    requires Distinct(s) && x !in s
    ensures Distinct(s + [x])
  {
    forall i, j | 0 <= i < j < |s| + 1 ensures (s + [x])[i] != (s + [x])[j] {
      if j == |s| {
        assert (s + [x])[i] == s[i];
      } else {
        assert (s + [x])[i] == s[i] && (s + [x])[j] == s[j];
      }
    }
  }

  /** The images of `names + [n]` are those of `names` followed by the object under n. */
  lemma ImagesSnoc(m: map<string, StaticRenderObject>, names: seq<string>, n: string, log: seq<StaticRenderObject>)
    requires forall k | k in names :: k in m
    requires n in m
    ensures log + Images(m, names) + [m[n]] == log + Images(m, names + [n])
  {
    assert (names + [n])[..|names|] == names;
    assert Images(m, names + [n]) == Images(m, names) + [m[n]];
  }

  /** Distinct names of objects with distinct handles, none deleted yet, give a log without repeats. */
  lemma ImagesDistinct(m: map<string, StaticRenderObject>, names: seq<string>, before: seq<StaticRenderObject>)
    requires forall n | n in names :: n in m
    requires Distinct(names) && Distinct(before)
    requires forall n, k | n in m && k in m && n != k :: m[n].handle != m[k].handle
    requires forall n | n in m :: m[n] !in before
    ensures Distinct(before + Images(m, names))
  {
    var s := before + Images(m, names);
    forall i, j | 0 <= i < j < |s| ensures s[i] != s[j] {
      if j < |before| {
      } else if i < |before| {
        ImagesAt(m, names, j - |before|);
      } else {
        ImagesAt(m, names, i - |before|);
        ImagesAt(m, names, j - |before|);
        assert names[i - |before|] != names[j - |before|];
      }
    }
  }

  /** When `names` lists every key, the images are exactly the registered objects. */
  lemma ImagesCover(m: map<string, StaticRenderObject>, names: seq<string>)
    requires forall n :: n in names <==> n in m
    ensures forall n | n in m :: m[n] in Images(m, names)
    ensures forall i | 0 <= i < |names| :: exists n | n in m :: Images(m, names)[i] == m[n]
  {
    forall n | n in m ensures m[n] in Images(m, names) {
      var i :| 0 <= i < |names| && names[i] == n;
      ImagesAt(m, names, i);
    }
    forall i | 0 <= i < |names| ensures exists n | n in m :: Images(m, names)[i] == m[n] {
      ImagesAt(m, names, i);
    }
  }
}
