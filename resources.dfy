/**
 * The GPU-resource side of the three.js object graph, made explicit.
 *
 * three.js leaves resource ownership implicit: a mesh object has a `geometry` and a
 * `material` field (one material or an array of them), a material may reference a texture
 * through its `map` field, and every geometry, material and texture keeps its GPU memory
 * until its `dispose()` is called. Here every object has an `Id`, its position in the
 * sequence of objects allocated so far; a disposable object records whether it is live or
 * disposed. `World` holds the objects as fields that the source's operations update in
 * place; `Snapshot()` is the value of all of them at once, and every primitive operation is
 * specified by a pure function from the old heap to the new one.
 */
module Resources {
  import opened Wrappers
  import opened SceneGraph

  datatype Status = Live | Disposed

  /** A colour as the store holds it: the hex string handed to `new THREE.Color(hex)`. */
  type Color = string

  /** `instanceof THREE.MeshBasicMaterial`, the standard material of imported assets, anything else. */
  datatype MaterialKind = MeshBasic | MeshStandard | OtherKind

  /**
   * The material fields the core reads or writes. `color` is `None` when the material has
   * no `color` property; `textureMap` (the source's `map`) is `None` when it has no texture,
   * the property being absent or null.
   */
  datatype Material = Material(kind: MaterialKind, color: Option<Color>, textureMap: Option<Id>,
                               transparent: bool, alphaTest: real, doubleSided: bool)

  /** An image texture of an imported asset, or a canvas texture drawn from a label. */
  datatype Texture = ImageTexture | TextTexture(text: string, fontSize: real, color: Color)

  /** A geometry of a loaded asset, or a `THREE.PlaneGeometry(width, height)`. */
  datatype Shape = LoadedShape | PlaneShape(width: real, height: real)

  /** The value of `mesh.material`: one material, or an array of them. */
  datatype Slot = Single(handle: Id) | Multi(handles: seq<Id>)

  function Handles(s: Slot): (r: seq<Id>)
    ensures s.Single? ==> r == [s.handle]
    ensures s.Multi? ==> r == s.handles
  {
    match s
    case Single(x) => [x]
    case Multi(xs) => xs
  }

  /**
   * One three.js object. Geometries, materials and textures are disposable; a mesh object
   * holds its geometry and its material slot; a model root (`gltf.scene`) holds the tree below it.
   */
  datatype Obj =
    | GeometryObj(shape: Shape, status: Status)
    | MaterialObj(mat: Material, status: Status)
    | TextureObj(tex: Texture, status: Status)
    | MeshObj(geometry: Id, slot: Slot)
    | RootObj(tree: Node)

  /** What the log records, in program order: an allocation, a `mesh.material` assignment, a `dispose()`. */
  datatype Event = Allocated(id: Id) | Swapped(mesh: Id) | Released(id: Id)

  datatype Heap = Heap(
    objs: seq<Obj>,     // every object allocated so far; object x is objs[x]
    scene: seq<Id>,     // the roots that are children of the top-level `THREE.Scene`
    log: seq<Event>)

  const EmptyHeap := Heap([], [], [])

  predicate IsGeometry(h: Heap, x: Id) { x < |h.objs| && h.objs[x].GeometryObj? }
  predicate IsMaterial(h: Heap, x: Id) { x < |h.objs| && h.objs[x].MaterialObj? }
  predicate IsTexture(h: Heap, x: Id) { x < |h.objs| && h.objs[x].TextureObj? }
  predicate IsMesh(h: Heap, x: Id) { x < |h.objs| && h.objs[x].MeshObj? }
  predicate IsRoot(h: Heap, x: Id) { x < |h.objs| && h.objs[x].RootObj? }

  /** Every id of `ms` names a mesh object. */
  predicate AllMeshes(h: Heap, ms: seq<Id>)
  {
    forall i :: 0 <= i < |ms| ==> IsMesh(h, ms[i])
  }

  predicate Disposable(o: Obj) { o.GeometryObj? || o.MaterialObj? || o.TextureObj? }

  predicate IsResource(h: Heap, x: Id) { x < |h.objs| && Disposable(h.objs[x]) }

  predicate IsLive(h: Heap, x: Id) { IsResource(h, x) && h.objs[x].status == Live }

  /** What object `x` references must exist and be of the right kind. */
  ghost predicate ObjOk(h: Heap, x: Id)
    requires x < |h.objs|
  {
    match h.objs[x]
    case MaterialObj(m, _) => m.textureMap.Some? ==> IsTexture(h, m.textureMap.value)
    case MeshObj(g, s) => IsGeometry(h, g) && forall y :: y in Handles(s) ==> IsMaterial(h, y)
    case RootObj(t) => forall m :: m in MeshIds(t) ==> IsMesh(h, m)
    case _ => true
  }

  /** Well-formedness: every reference points at an existing object of the right kind. */
  ghost predicate Wf(h: Heap)
  {
    && (forall x :: 0 <= x < |h.objs| ==> ObjOk(h, x))
    && (forall i :: 0 <= i < |h.scene| ==> IsRoot(h, h.scene[i]))
  }

  /** `h'` has `h`'s objects, of the same kinds, and possibly more after them. */
  predicate Extends(h: Heap, h': Heap)
  {
    && |h.objs| <= |h'.objs|
    && forall x :: 0 <= x < |h.objs| ==> SameKind(h.objs[x], h'.objs[x])
  }

  predicate SameKind(a: Obj, b: Obj)
  {
    && (a.GeometryObj? <==> b.GeometryObj?)
    && (a.MaterialObj? <==> b.MaterialObj?)
    && (a.TextureObj? <==> b.TextureObj?)
    && (a.MeshObj? <==> b.MeshObj?)
    && (a.RootObj? <==> b.RootObj?)
  }

  /** Kind tests on old ids carry over to an extension. */
  lemma ExtendsKinds(h: Heap, h': Heap)
    requires Extends(h, h')
    ensures forall x :: IsGeometry(h, x) ==> IsGeometry(h', x)
    ensures forall x :: IsMaterial(h, x) ==> IsMaterial(h', x)
    ensures forall x :: IsTexture(h, x) ==> IsTexture(h', x)
    ensures forall x :: IsMesh(h, x) ==> IsMesh(h', x)
    ensures forall x :: IsRoot(h, x) ==> IsRoot(h', x)
    ensures forall x :: IsResource(h, x) ==> IsResource(h', x)
  {
  }

  // ---------------------------------------------------------------------------
  // Primitive operations as functions of the heap
  // ---------------------------------------------------------------------------

  /** A disposable object after `dispose()`. */
  function MarkDisposed(o: Obj): (r: Obj)
    ensures SameKind(o, r) && (Disposable(o) ==> r.status == Disposed)
  {
    if Disposable(o) then o.(status := Disposed) else o
  }

  /** `x.dispose()`: marks the resource disposed; nothing else changes. */
  function DisposeOn(h: Heap, x: Id): Heap
    requires IsResource(h, x)
  {
    h.(objs := h.objs[x := MarkDisposed(h.objs[x])], log := h.log + [Released(x)])
  }

  /** `xs.forEach(x => x.dispose())`: each of `xs` disposed, in order; nothing else changes. */
  function DisposeAllOn(h: Heap, xs: seq<Id>): (r: Heap)
    requires forall i :: 0 <= i < |xs| ==> IsResource(h, xs[i])
    ensures |r.objs| == |h.objs| && r.scene == h.scene && r.log == h.log + ReleaseEvents(xs)
    ensures forall x :: 0 <= x < |h.objs| ==> r.objs[x] == if x in xs then MarkDisposed(h.objs[x]) else h.objs[x]
    decreases |xs|
  {
    if xs == [] then h
    else
      var k := |xs| - 1;
      var a := DisposeAllOn(h, xs[..k]);
      assert xs == xs[..k] + [xs[k]];
      assert IsResource(h, xs[k]);
      assert SameKind(h.objs[xs[k]], a.objs[xs[k]]);
      DisposeOn(a, xs[k])
  }

  function ReleaseEvents(xs: seq<Id>): (r: seq<Event>)
    ensures |r| == |xs| && forall i :: 0 <= i < |xs| ==> r[i] == Released(xs[i])
  {
    if xs == [] then [] else ReleaseEvents(xs[..|xs| - 1]) + [Released(xs[|xs| - 1])]
  }

  /** `src.clone()`: a new live material whose fields are those of `src`. */
  function CloneOn(h: Heap, src: Id): Heap
    requires IsMaterial(h, src)
  {
    h.(objs := h.objs + [MaterialObj(h.objs[src].mat, Live)], log := h.log + [Allocated(|h.objs|)])
  }

  /** Field writes on an existing material object (`color.set(..)`, `map = ..`). */
  function WriteMaterialOn(h: Heap, x: Id, m: Material): Heap
    requires IsMaterial(h, x)
  {
    h.(objs := h.objs[x := h.objs[x].(mat := m)])
  }

  /** `mesh.material = slot`. */
  function AssignSlotOn(h: Heap, mesh: Id, slot: Slot): Heap
    requires IsMesh(h, mesh)
  {
    h.(objs := h.objs[mesh := h.objs[mesh].(slot := slot)], log := h.log + [Swapped(mesh)])
  }

  /** A new live geometry (`new THREE.PlaneGeometry(width, height)`). */
  function NewGeometryOn(h: Heap, shape: Shape): Heap
  {
    h.(objs := h.objs + [GeometryObj(shape, Live)], log := h.log + [Allocated(|h.objs|)])
  }

  /** A new live texture. */
  function NewTextureOn(h: Heap, t: Texture): Heap
  {
    h.(objs := h.objs + [TextureObj(t, Live)], log := h.log + [Allocated(|h.objs|)])
  }

  /** A new live material. */
  function NewMaterialOn(h: Heap, m: Material): Heap
  {
    h.(objs := h.objs + [MaterialObj(m, Live)], log := h.log + [Allocated(|h.objs|)])
  }

  /** `new THREE.Mesh(geometry, material)`. */
  function NewMeshOn(h: Heap, geometry: Id, material: Id): Heap
  {
    h.(objs := h.objs + [MeshObj(geometry, Single(material))])
  }

  /** Replaces the tree below root `r` (children added or removed, transform changed). */
  function SetRootOn(h: Heap, r: Id, n: Node): Heap
    requires IsRoot(h, r)
  {
    h.(objs := h.objs[r := RootObj(n)])
  }

  /**
   * `scene.add(root)`: the root becomes the scene's last child. `add` first detaches an object
   * from its old parent, so a root already in the scene moves to the end rather than appearing
   * twice.
   */
  function SceneAddOn(h: Heap, r: Id): (h': Heap)
    ensures h'.objs == h.objs && h'.log == h.log
    ensures |h'.scene| > 0 && h'.scene[|h'.scene| - 1] == r
    ensures forall q :: q in h'.scene <==> q in h.scene || q == r
    ensures r !in h.scene ==> h'.scene == h.scene + [r]
  {
    WithoutMissing(h.scene, r);
    h.(scene := Without(h.scene, r) + [r])
  }

  /** `scene.remove(root)`: drops it from the scene's children; removing a non-child does nothing. */
  function SceneRemoveOn(h: Heap, r: Id): (h': Heap)
    ensures forall q :: q in h'.scene <==> q in h.scene && q != r
  {
    h.(scene := Without(h.scene, r))
  }

  function Without(s: seq<Id>, r: Id): (t: seq<Id>)
    ensures forall q :: q in t <==> q in s && q != r
  {
    if s == [] then [] else if s[0] == r then Without(s[1..], r) else [s[0]] + Without(s[1..], r)
  }

  /** Removing a child the scene does not have leaves the scene as it was. */
  lemma {:induction false} WithoutMissing(s: seq<Id>, r: Id)
    ensures r !in s ==> Without(s, r) == s
  {
    if s != [] {
      WithoutMissing(s[1..], r);
      if r !in s {
        assert r !in s[1..] && [s[0]] + s[1..] == s;
      }
    }
  }

  // ---------------------------------------------------------------------------
  // Each primitive keeps the heap well formed
  // ---------------------------------------------------------------------------

  /** Extensions compose. */
  lemma ExtendsTrans(h1: Heap, h2: Heap, h3: Heap)
    requires Extends(h1, h2) && Extends(h2, h3)
    ensures Extends(h1, h3)
  {
    forall x | 0 <= x < |h1.objs|
      ensures SameKind(h1.objs[x], h3.objs[x])
    {
      assert SameKind(h1.objs[x], h2.objs[x]) && SameKind(h2.objs[x], h3.objs[x]);
    }
  }

  /** An extension that leaves every old object's references alone stays well formed. */
  lemma ExtendsWf(h: Heap, h': Heap)
    requires Wf(h) && Extends(h, h') && h'.scene == h.scene
    requires forall x :: 0 <= x < |h.objs| ==> RefsOf(h'.objs[x]) == RefsOf(h.objs[x])
    requires forall x :: |h.objs| <= x < |h'.objs| ==> ObjOk(h', x)
    ensures Wf(h')
  {
    ExtendsKinds(h, h');
    forall x | 0 <= x < |h.objs|
      ensures ObjOk(h', x)
    {
      assert ObjOk(h, x);
      assert SameKind(h.objs[x], h'.objs[x]);
    }
    assert forall i :: 0 <= i < |h.scene| ==> IsRoot(h, h.scene[i]);
  }

  /** What an object references; status and material fields other than `map` do not matter. */
  function RefsOf(o: Obj): (r: Refs)
  {
    match o
    case MaterialObj(m, _) => MaterialRefs(m.textureMap)
    case MeshObj(g, s) => MeshRefs(g, s)
    case RootObj(t) => RootRefs(t)
    case _ => NoRefs
  }

  datatype Refs = NoRefs | MaterialRefs(texture: Option<Id>) | MeshRefs(g: Id, s: Slot) | RootRefs(t: Node)

  lemma DisposeOnWf(h: Heap, x: Id)
    requires Wf(h) && IsResource(h, x)
    ensures Wf(DisposeOn(h, x))
  {
    ExtendsWf(h, DisposeOn(h, x));
  }

  lemma DisposeAllOnWf(h: Heap, xs: seq<Id>)
    requires Wf(h) && forall i :: 0 <= i < |xs| ==> IsResource(h, xs[i])
    ensures Wf(DisposeAllOn(h, xs))
  {
    var r := DisposeAllOn(h, xs);
    forall x | 0 <= x < |h.objs|
      ensures SameKind(h.objs[x], r.objs[x]) && RefsOf(r.objs[x]) == RefsOf(h.objs[x])
    {
    }
    ExtendsWf(h, r);
  }

  lemma CloneOnWf(h: Heap, src: Id)
    requires Wf(h) && IsMaterial(h, src)
    ensures Wf(CloneOn(h, src))
  {
    var r := CloneOn(h, src);
    assert ObjOk(h, src);
    ExtendsKinds(h, r);
    ExtendsWf(h, r);
  }

  lemma WriteMaterialOnWf(h: Heap, x: Id, m: Material)
    requires Wf(h) && IsMaterial(h, x) && (m.textureMap.Some? ==> IsTexture(h, m.textureMap.value))
    ensures Wf(WriteMaterialOn(h, x, m))
  {
    var r := WriteMaterialOn(h, x, m);
    assert Extends(h, r);
    ExtendsKinds(h, r);
    forall y | 0 <= y < |r.objs|
      ensures ObjOk(r, y)
    {
      assert ObjOk(h, y);
      assert SameKind(h.objs[y], r.objs[y]);
    }
    assert forall i :: 0 <= i < |h.scene| ==> IsRoot(h, h.scene[i]);
  }

  lemma AssignSlotOnWf(h: Heap, mesh: Id, slot: Slot)
    requires Wf(h) && IsMesh(h, mesh) && forall y :: y in Handles(slot) ==> IsMaterial(h, y)
    ensures Wf(AssignSlotOn(h, mesh, slot))
  {
    var r := AssignSlotOn(h, mesh, slot);
    assert Extends(h, r);
    ExtendsKinds(h, r);
    forall y | 0 <= y < |r.objs|
      ensures ObjOk(r, y)
    {
      assert ObjOk(h, y);
      assert SameKind(h.objs[y], r.objs[y]);
    }
    assert forall i :: 0 <= i < |h.scene| ==> IsRoot(h, h.scene[i]);
  }

  lemma NewGeometryOnWf(h: Heap, shape: Shape)
    requires Wf(h)
    ensures Wf(NewGeometryOn(h, shape))
  {
    ExtendsWf(h, NewGeometryOn(h, shape));
  }

  lemma NewTextureOnWf(h: Heap, t: Texture)
    requires Wf(h)
    ensures Wf(NewTextureOn(h, t))
  {
    ExtendsWf(h, NewTextureOn(h, t));
  }

  lemma NewMaterialOnWf(h: Heap, m: Material)
    requires Wf(h) && (m.textureMap.Some? ==> IsTexture(h, m.textureMap.value))
    ensures Wf(NewMaterialOn(h, m))
  {
    var r := NewMaterialOn(h, m);
    ExtendsKinds(h, r);
    ExtendsWf(h, r);
  }

  lemma NewMeshOnWf(h: Heap, geometry: Id, material: Id)
    requires Wf(h) && IsGeometry(h, geometry) && IsMaterial(h, material)
    ensures Wf(NewMeshOn(h, geometry, material))
  {
    var r := NewMeshOn(h, geometry, material);
    ExtendsKinds(h, r);
    ExtendsWf(h, r);
  }

  lemma SetRootOnWf(h: Heap, r: Id, n: Node)
    requires Wf(h) && IsRoot(h, r) && forall m :: m in MeshIds(n) ==> IsMesh(h, m)
    ensures Wf(SetRootOn(h, r, n))
  {
    var h' := SetRootOn(h, r, n);
    assert Extends(h, h');
    ExtendsKinds(h, h');
    forall y | 0 <= y < |h'.objs|
      ensures ObjOk(h', y)
    {
      assert ObjOk(h, y);
      assert SameKind(h.objs[y], h'.objs[y]);
    }
    assert forall i :: 0 <= i < |h.scene| ==> IsRoot(h, h.scene[i]);
  }

  lemma SceneAddOnWf(h: Heap, r: Id)
    requires Wf(h) && IsRoot(h, r)
    ensures Wf(SceneAddOn(h, r))
  {
    var h' := SceneAddOn(h, r);
    forall x | 0 <= x < |h'.objs|
      ensures ObjOk(h', x)
    {
      assert ObjOk(h, x);
    }
    forall i | 0 <= i < |h'.scene|
      ensures IsRoot(h', h'.scene[i])
    {
      assert h'.scene[i] in h'.scene;
      if h'.scene[i] != r {
        var j :| 0 <= j < |h.scene| && h.scene[j] == h'.scene[i];
        assert IsRoot(h, h.scene[j]);
      }
    }
  }

  lemma SceneRemoveOnWf(h: Heap, r: Id)
    requires Wf(h)
    ensures Wf(SceneRemoveOn(h, r))
  {
    var h' := SceneRemoveOn(h, r);
    forall x | 0 <= x < |h'.objs|
      ensures ObjOk(h', x)
    {
      assert ObjOk(h, x);
    }
    forall i | 0 <= i < |h'.scene|
      ensures IsRoot(h', h'.scene[i])
    {
      assert h'.scene[i] in h.scene;
      var j :| 0 <= j < |h.scene| && h.scene[j] == h'.scene[i];
    }
  }

  /** Disposing twice leaves every object as disposing once does. */
  lemma DisposeAllTwice(h: Heap, xs: seq<Id>)
    requires forall i :: 0 <= i < |xs| ==> IsResource(h, xs[i])
    ensures forall i :: 0 <= i < |xs| ==> IsResource(DisposeAllOn(h, xs), xs[i])
    ensures DisposeAllOn(DisposeAllOn(h, xs), xs).objs == DisposeAllOn(h, xs).objs
  {
    var a := DisposeAllOn(h, xs);
    assert forall i :: 0 <= i < |xs| ==> SameKind(h.objs[xs[i]], a.objs[xs[i]]);
    var b := DisposeAllOn(a, xs);
    forall x | 0 <= x < |a.objs|
      ensures b.objs[x] == a.objs[x]
    {
    }
  }

  // ---------------------------------------------------------------------------
  // The mutable world
  // ---------------------------------------------------------------------------

  class World {
    var objs: seq<Obj>
    var scene: seq<Id>
    var log: seq<Event>

    function Snapshot(): Heap
      reads this
    {
      Heap(objs, scene, log)
    }

    ghost predicate Valid()
      reads this
    {
      Wf(Snapshot())
    }

    /** An empty world: no objects yet. */
    constructor ()
      ensures Valid() && Snapshot() == EmptyHeap
    {
      objs, scene, log := [], [], [];
    }

    method Dispose(x: Id)
      requires Valid() && IsResource(Snapshot(), x)
      modifies this
      ensures Valid() && Snapshot() == DisposeOn(old(Snapshot()), x)
    {
      DisposeOnWf(Snapshot(), x);
      objs := objs[x := MarkDisposed(objs[x])];
      log := log + [Released(x)];
    }

    /** `xs.forEach(x => x.dispose())`. */
    method DisposeAll(xs: seq<Id>)
      requires Valid() && forall i :: 0 <= i < |xs| ==> IsResource(Snapshot(), xs[i])
      modifies this
      ensures Valid() && Snapshot() == DisposeAllOn(old(Snapshot()), xs)
    {
      ghost var h0 := Snapshot();
      for i := 0 to |xs|
        invariant Valid()
        invariant Snapshot() == DisposeAllOn(h0, xs[..i])
      {
        assert xs[..i + 1][..i] == xs[..i];
        assert SameKind(h0.objs[xs[i]], objs[xs[i]]);
        Dispose(xs[i]);
      }
      assert xs[..|xs|] == xs;
    }

    method Clone(src: Id) returns (x: Id)
      requires Valid() && IsMaterial(Snapshot(), src)
      modifies this
      ensures Valid() && x == |old(objs)| && Snapshot() == CloneOn(old(Snapshot()), src)
    {
      CloneOnWf(Snapshot(), src);
      x := |objs|;
      objs := objs + [MaterialObj(objs[src].mat, Live)];
      log := log + [Allocated(x)];
    }

    method WriteMaterial(x: Id, m: Material)
      requires Valid() && IsMaterial(Snapshot(), x)
      requires m.textureMap.Some? ==> IsTexture(Snapshot(), m.textureMap.value)
      modifies this
      ensures Valid() && Snapshot() == WriteMaterialOn(old(Snapshot()), x, m)
    {
      WriteMaterialOnWf(Snapshot(), x, m);
      objs := objs[x := objs[x].(mat := m)];
    }

    method AssignSlot(mesh: Id, slot: Slot)
      requires Valid() && IsMesh(Snapshot(), mesh)
      requires forall y :: y in Handles(slot) ==> IsMaterial(Snapshot(), y)
      modifies this
      ensures Valid() && Snapshot() == AssignSlotOn(old(Snapshot()), mesh, slot)
    {
      AssignSlotOnWf(Snapshot(), mesh, slot);
      objs := objs[mesh := objs[mesh].(slot := slot)];
      log := log + [Swapped(mesh)];
    }

    method NewGeometry(shape: Shape) returns (x: Id)
      requires Valid()
      modifies this
      ensures Valid() && x == |old(objs)| && Snapshot() == NewGeometryOn(old(Snapshot()), shape)
    {
      NewGeometryOnWf(Snapshot(), shape);
      x := |objs|;
      objs := objs + [GeometryObj(shape, Live)];
      log := log + [Allocated(x)];
    }

    method NewTexture(t: Texture) returns (x: Id)
      requires Valid()
      modifies this
      ensures Valid() && x == |old(objs)| && Snapshot() == NewTextureOn(old(Snapshot()), t)
    {
      NewTextureOnWf(Snapshot(), t);
      x := |objs|;
      objs := objs + [TextureObj(t, Live)];
      log := log + [Allocated(x)];
    }

    method NewMaterial(m: Material) returns (x: Id)
      requires Valid() && (m.textureMap.Some? ==> IsTexture(Snapshot(), m.textureMap.value))
      modifies this
      ensures Valid() && x == |old(objs)| && Snapshot() == NewMaterialOn(old(Snapshot()), m)
    {
      NewMaterialOnWf(Snapshot(), m);
      x := |objs|;
      objs := objs + [MaterialObj(m, Live)];
      log := log + [Allocated(x)];
    }

    method NewMesh(geometry: Id, material: Id) returns (x: Id)
      requires Valid() && IsGeometry(Snapshot(), geometry) && IsMaterial(Snapshot(), material)
      modifies this
      ensures Valid() && x == |old(objs)| && Snapshot() == NewMeshOn(old(Snapshot()), geometry, material)
    {
      NewMeshOnWf(Snapshot(), geometry, material);
      x := |objs|;
      objs := objs + [MeshObj(geometry, Single(material))];
    }

    method SetRoot(r: Id, n: Node)
      requires Valid() && IsRoot(Snapshot(), r) && forall m :: m in MeshIds(n) ==> IsMesh(Snapshot(), m)
      modifies this
      ensures Valid() && Snapshot() == SetRootOn(old(Snapshot()), r, n)
    {
      SetRootOnWf(Snapshot(), r, n);
      objs := objs[r := RootObj(n)];
    }

    method SceneAdd(r: Id)
      requires Valid() && IsRoot(Snapshot(), r)
      modifies this
      ensures Valid() && Snapshot() == SceneAddOn(old(Snapshot()), r)
    {
      SceneAddOnWf(Snapshot(), r);
      scene := Without(scene, r) + [r];
    }

    method SceneRemove(r: Id)
      requires Valid()
      modifies this
      ensures Valid() && Snapshot() == SceneRemoveOn(old(Snapshot()), r)
    {
      SceneRemoveOnWf(Snapshot(), r);
      scene := Without(scene, r);
    }
  }
}
