/**
 * The label effect of `useShirtModel` (src/components/ThreeCanvas/useShirtModel.ts, second
 * `useEffect`): one textured plane per text label, kept as a child of the model root and
 * tracked in the `textPlanesRef` map from label id to plane.
 */
module ShirtLabels {
  import opened Wrappers
  import opened SceneGraph
  import opened Resources
  import opened CustomizerTypes
  import opened ColorUtils
  import opened ShirtModel

  /** One entry of the `textPlanesRef` map: a label id and the plane mesh made for it. */
  datatype Plane = Plane(key: string, mesh: Id)

  /** The keys of the map, in insertion order. */
  function Ids(es: seq<Plane>): (r: seq<string>)
    ensures |r| == |es| && forall i :: 0 <= i < |es| ==> r[i] == es[i].key
  {
    seq(|es|, i requires 0 <= i < |es| => es[i].key)
  }

  /** `currentPlanes.get(id)`. */
  function Lookup(es: seq<Plane>, id: string): (r: Option<Id>)
    ensures r.None? <==> id !in Ids(es)
    ensures r.Some? ==> Plane(id, r.value) in es
  {
    if es == [] then None
    else if es[0].key == id then Some(es[0].mesh)
    else
      assert Ids(es) == [es[0].key] + Ids(es[1..]);
      Lookup(es[1..], id)
  }

  /** `textLabels.find(label => label.id === id)` finds something. */
  predicate HasLabel(labels: seq<TextLabel>, id: string)
  {
    exists i :: 0 <= i < |labels| && labels[i].id == id
  }

  ghost predicate NoDupIds(es: seq<Plane>)
  {
    forall i, j :: 0 <= i < j < |es| ==> es[i].key != es[j].key
  }

  /** Every tracked plane is a mesh of the heap. */
  predicate Tracked(h: Heap, es: seq<Plane>)
  {
    forall e :: e in es ==> IsMesh(h, e.mesh)
  }

  // ---------------------------------------------------------------------------
  // The fixed shape of a label plane
  // ---------------------------------------------------------------------------

  /** `new THREE.PlaneGeometry(1, 0.25)`. */
  const PlaneGeometry := PlaneShape(1.0, 0.25)

  /** `Math.PI`, the double closest to pi. */
  const Pi: real := 3.141592653589793

  /** The colour a `MeshBasicMaterial` gets when none is given. */
  const White: Color := "#ffffff"

  /** `new THREE.MeshBasicMaterial({ map, transparent: true, alphaTest: 0.5, side: DoubleSide })`. */
  function PlaneMaterial(texture: Id): Material
  {
    Material(MeshBasic, Some(White), Some(texture), true, 0.5, true)
  }

  /** `createTextTexture(label.text, { fontSize, color })`. */
  function LabelTexture(l: TextLabel): Texture
  {
    TextTexture(l.text, l.fontSize, l.color)
  }

  /** A front label sits at z = 0.3 facing forward, a back label at z = -0.3 turned half round. */
  function PlaneTransform(side: Side): (t: Transform)
    ensures t.scale == IdentityTransform.scale && t.position.x == 0.0 && t.position.y == 0.0
    ensures side == FrontSide ==> t.position.z == 0.3 && t.rotationY == 0.0
    ensures side == BackSide ==> t.position.z == -0.3 && t.rotationY == Pi
  {
    match side
    case FrontSide => IdentityTransform.(position := Vec3(0.0, 0.0, 0.3), rotationY := 0.0)
    case BackSide => IdentityTransform.(position := Vec3(0.0, 0.0, -0.3), rotationY := Pi)
  }

  /** The node `model.add(plane)` appends: an unnamed mesh node with no children. */
  function PlaneNode(mesh: Id, side: Side): Node
  {
    Node("", Mesh(mesh), PlaneTransform(side), [])
  }

  /** Plane `p` is a direct child of the model tree `t`. */
  ghost predicate ChildOf(t: Node, p: Id)
  {
    exists c :: c in t.children && c.kind == Mesh(p)
  }

  /** What the effect touches of a plane exists: its geometry, its materials and their maps. */
  ghost predicate PlaneParts(h: Heap, p: Id)
  {
    && IsMesh(h, p) && IsGeometry(h, h.objs[p].geometry)
    && forall x :: x in Handles(h.objs[p].slot) ==>
         IsMaterial(h, x) && (h.objs[x].mat.textureMap.Some? ==> IsTexture(h, h.objs[x].mat.textureMap.value))
  }

  lemma WfPlaneParts(h: Heap, p: Id)
    requires Wf(h) && IsMesh(h, p)
    ensures PlaneParts(h, p)
  {
    assert ObjOk(h, p);
    forall x | x in Handles(h.objs[p].slot)
      ensures IsMaterial(h, x) && (h.objs[x].mat.textureMap.Some? ==> IsTexture(h, h.objs[x].mat.textureMap.value))
    {
      assert ObjOk(h, x);
    }
  }

  // ---------------------------------------------------------------------------
  // One plane at a time
  // ---------------------------------------------------------------------------

  /**
   * `model.remove(plane)`, `plane.geometry.dispose()`, and `plane.material.dispose()` when the
   * material is a single material rather than an array.
   */
  function RemovePlaneOn(h: Heap, root: Id, p: Id): (r: Heap)
    requires IsRoot(h, root) && PlaneParts(h, p)
    ensures |r.objs| == |h.objs| && r.scene == h.scene
    ensures IsRoot(r, root) && r.objs[root].tree == RemoveMeshChild(h.objs[root].tree, p)
    ensures forall x: Id :: IsMesh(h, x) || IsTexture(h, x) ==> r.objs[x] == h.objs[x]
  {
    var h1 := SetRootOn(h, root, RemoveMeshChild(h.objs[root].tree, p));
    var h2 := DisposeOn(h1, h.objs[p].geometry);
    match h.objs[p].slot
    case Single(m) =>
      assert m in Handles(h.objs[p].slot);
      DisposeOn(h2, m)
    case Multi(_) => h2
  }

  /** The objects of a new plane for label `l`: geometry, text texture, material and mesh, in that order. */
  function NewPlaneOn(h: Heap, l: TextLabel): (r: Heap)
    ensures |r.objs| == |h.objs| + 4 && r.scene == h.scene
    ensures forall x :: 0 <= x < |h.objs| ==> r.objs[x] == h.objs[x]
    ensures r.objs[|h.objs|] == GeometryObj(PlaneGeometry, Live)
    ensures r.objs[|h.objs| + 1] == TextureObj(LabelTexture(l), Live)
    ensures r.objs[|h.objs| + 2] == MaterialObj(PlaneMaterial(|h.objs| + 1), Live)
    ensures r.objs[|h.objs| + 3] == MeshObj(|h.objs|, Single(|h.objs| + 2))
  {
    var n := |h.objs|;
    var h1 := NewGeometryOn(h, PlaneGeometry);
    var h2 := NewTextureOn(h1, LabelTexture(l));
    var h3 := NewMaterialOn(h2, PlaneMaterial(n + 1));
    NewMeshOn(h3, n, n + 2)
  }

  /** The create branch: a new plane, positioned by its side and appended to the model's children. */
  function CreatePlaneOn(h: Heap, root: Id, l: TextLabel): (r: Heap)
    requires IsRoot(h, root)
    ensures |r.objs| == |h.objs| + 4 && r.scene == h.scene
    ensures IsMesh(r, |h.objs| + 3) && r.objs[|h.objs| + 3].slot == Single(|h.objs| + 2)
    ensures IsRoot(r, root) && MeshIds(r.objs[root].tree) == MeshIds(h.objs[root].tree) + [|h.objs| + 3]
    ensures forall x: Id :: IsMesh(h, x) || IsResource(h, x) ==> r.objs[x] == h.objs[x]
  {
    var h4 := NewPlaneOn(h, l);
    var c := PlaneNode(|h.objs| + 3, l.position);
    HangPlane(h, h4, root, c);
    SetRootOn(h4, root, AddChild(h.objs[root].tree, c))
  }

  /** Hanging leaf `c` for the last of four new objects under the model, after allocating them. */
  lemma HangPlane(h: Heap, h4: Heap, root: Id, c: Node)
    requires IsRoot(h, root) && |h4.objs| == |h.objs| + 4 && h4.scene == h.scene
    requires forall x :: 0 <= x < |h.objs| ==> h4.objs[x] == h.objs[x]
    requires h4.objs[|h.objs| + 3] == MeshObj(|h.objs|, Single(|h.objs| + 2))
    requires c.kind == Mesh(|h.objs| + 3) && c.children == []
    ensures var r := SetRootOn(h4, root, AddChild(h.objs[root].tree, c));
            && |r.objs| == |h.objs| + 4 && r.scene == h.scene
            && IsMesh(r, |h.objs| + 3) && r.objs[|h.objs| + 3].slot == Single(|h.objs| + 2)
            && IsRoot(r, root) && MeshIds(r.objs[root].tree) == MeshIds(h.objs[root].tree) + [|h.objs| + 3]
            && forall x: Id :: IsMesh(h, x) || IsResource(h, x) ==> r.objs[x] == h.objs[x]
  {
    var t := AddChild(h.objs[root].tree, c);
    var r := SetRootOn(h4, root, t);
    assert r.objs == h4.objs[root := RootObj(t)];
    AddChildMeshes(h.objs[root].tree, c);
    LeafMeshIds(c);
    forall x: Id | IsMesh(h, x) || IsResource(h, x)
      ensures r.objs[x] == h.objs[x]
    {
      assert x != root && x < |h.objs|;
    }
  }

  /**
   * The update branch: a new text texture is always made; only when the plane's material is a
   * single `MeshBasicMaterial` is its old map (if any) disposed and the new texture put in its place.
   */
  function RetextureOn(h: Heap, p: Id, l: TextLabel): (r: Heap)
    requires PlaneParts(h, p)
    ensures |r.objs| == |h.objs| + 1 && r.scene == h.scene
    ensures r.objs[|h.objs|] == TextureObj(LabelTexture(l), Live)
    ensures forall x: Id :: IsMesh(h, x) || IsRoot(h, x) || IsGeometry(h, x) ==> r.objs[x] == h.objs[x]
  {
    var n := |h.objs|;
    var h1 := NewTextureOn(h, LabelTexture(l));
    var slot := h.objs[p].slot;
    assert slot.Single? ==> slot.handle in Handles(slot);
    if slot.Single? && h.objs[slot.handle].mat.kind == MeshBasic then
      var mat := h.objs[slot.handle].mat;
      var h2 := if mat.textureMap.Some? then DisposeOn(h1, mat.textureMap.value) else h1;
      WriteMaterialOn(h2, slot.handle, mat.(textureMap := Some(n)))
    else h1
  }

  // ---------------------------------------------------------------------------
  // The steps keep the heap well formed and every object's kind
  // ---------------------------------------------------------------------------

  lemma RemovePlaneOnWf(h: Heap, root: Id, p: Id)
    requires Wf(h) && IsRoot(h, root) && IsMesh(h, p)
    ensures PlaneParts(h, p)
    ensures Wf(RemovePlaneOn(h, root, p))
  {
    WfPlaneParts(h, p);
    var t := h.objs[root].tree;
    assert ObjOk(h, root);
    RemoveMeshChildMeshes(t, p);
    var h1 := SetRootOn(h, root, RemoveMeshChild(t, p));
    SetRootOnWf(h, root, RemoveMeshChild(t, p));
    var g := h.objs[p].geometry;
    assert h1.objs[g] == h.objs[g];
    var h2 := DisposeOn(h1, g);
    DisposeOnWf(h1, g);
    if h.objs[p].slot.Single? {
      var m := h.objs[p].slot.handle;
      assert m in Handles(h.objs[p].slot);
      assert h2.objs[m] == h.objs[m];
      DisposeOnWf(h2, m);
    }
  }

  lemma NewPlaneOnWf(h: Heap, l: TextLabel)
    requires Wf(h)
    ensures Wf(NewPlaneOn(h, l))
  {
    var n := |h.objs|;
    var h1 := NewGeometryOn(h, PlaneGeometry);
    NewGeometryOnWf(h, PlaneGeometry);
    var h2 := NewTextureOn(h1, LabelTexture(l));
    NewTextureOnWf(h1, LabelTexture(l));
    NewMaterialOnWf(h2, PlaneMaterial(n + 1));
    NewMeshOnWf(NewMaterialOn(h2, PlaneMaterial(n + 1)), n, n + 2);
  }

  lemma CreatePlaneOnWf(h: Heap, root: Id, l: TextLabel)
    requires Wf(h) && IsRoot(h, root)
    ensures Wf(CreatePlaneOn(h, root, l))
  {
    var h4 := NewPlaneOn(h, l);
    var c := PlaneNode(|h.objs| + 3, l.position);
    assert CreatePlaneOn(h, root, l) == SetRootOn(h4, root, AddChild(h.objs[root].tree, c));
    NewPlaneOnWf(h, l);
    HangPlaneWf(h, h4, root, c);
  }

  /** Hanging the new plane's leaf under the model keeps the heap well formed. */
  lemma HangPlaneWf(h: Heap, h4: Heap, root: Id, c: Node)
    requires Wf(h) && IsRoot(h, root) && Wf(h4) && |h4.objs| == |h.objs| + 4
    requires forall x :: 0 <= x < |h.objs| ==> h4.objs[x] == h.objs[x]
    requires c.children == [] && c.kind.Mesh? && IsMesh(h4, c.kind.id)
    ensures Wf(SetRootOn(h4, root, AddChild(h.objs[root].tree, c)))
  {
    assert h4.objs[root] == h.objs[root];
    PlaneTreeMeshes(h4, root, c);
    SetRootOnWf(h4, root, AddChild(h.objs[root].tree, c));
  }

  lemma RetextureOnWf(h: Heap, p: Id, l: TextLabel)
    requires Wf(h) && IsMesh(h, p)
    ensures PlaneParts(h, p)
    ensures Wf(RetextureOn(h, p, l))
  {
    WfPlaneParts(h, p);
    var n := |h.objs|;
    var h1 := NewTextureOn(h, LabelTexture(l));
    NewTextureOnWf(h, LabelTexture(l));
    var slot := h.objs[p].slot;
    assert slot.Single? ==> slot.handle in Handles(slot);
    if slot.Single? && h.objs[slot.handle].mat.kind == MeshBasic {
      var mat := h.objs[slot.handle].mat;
      var h2 := if mat.textureMap.Some? then DisposeOn(h1, mat.textureMap.value) else h1;
      if mat.textureMap.Some? {
        DisposeOnWf(h1, mat.textureMap.value);
      }
      assert IsTexture(h2, n);
      WriteMaterialOnWf(h2, slot.handle, mat.(textureMap := Some(n)));
    }
  }

  lemma RemovePlaneOnExtends(h: Heap, root: Id, p: Id)
    requires IsRoot(h, root) && PlaneParts(h, p)
    ensures Extends(h, RemovePlaneOn(h, root, p))
  {
    var h1 := SetRootOn(h, root, RemoveMeshChild(h.objs[root].tree, p));
    var h2 := DisposeOn(h1, h.objs[p].geometry);
    assert Extends(h, h2);
    if h.objs[p].slot.Single? {
      assert h.objs[p].slot.handle in Handles(h.objs[p].slot);
    }
  }

  lemma CreatePlaneOnExtends(h: Heap, root: Id, l: TextLabel)
    requires IsRoot(h, root)
    ensures Extends(h, CreatePlaneOn(h, root, l))
  {
  }

  lemma RetextureOnExtends(h: Heap, p: Id, l: TextLabel)
    requires PlaneParts(h, p)
    ensures Extends(h, RetextureOn(h, p, l))
  {
  }

  // ---------------------------------------------------------------------------
  // The passes of the effect
  // ---------------------------------------------------------------------------

  /** The heap and the contents of `textPlanesRef` after a pass. */
  datatype Pass = Pass(heap: Heap, planes: seq<Plane>)

  /** The entries the removal loop keeps: those whose id some label still has, in map order. */
  function Kept(es: seq<Plane>, labels: seq<TextLabel>): (r: seq<Plane>)
    ensures forall e :: e in r <==> e in es && HasLabel(labels, e.key)
    decreases |es|
  {
    if es == [] then []
    else
      var k := |es| - 1;
      assert es == es[..k] + [es[k]];
      if HasLabel(labels, es[k].key) then Kept(es[..k], labels) + [es[k]] else Kept(es[..k], labels)
  }

  /** The removal loop (`currentPlanes.forEach`) on the heap: each stale plane removed, in map order. */
  function PruneOn(h: Heap, root: Id, es: seq<Plane>, labels: seq<TextLabel>): (r: Heap)
    requires Wf(h) && IsRoot(h, root) && Tracked(h, es)
    ensures Wf(r) && Extends(h, r) && r.scene == h.scene
    decreases |es|
  {
    if es == [] then h
    else
      var k := |es| - 1;
      assert es[k] in es;
      var a := PruneOn(h, root, es[..k], labels);
      ExtendsKinds(h, a);
      if HasLabel(labels, es[k].key) then a
      else
        RemovePlaneOnWf(a, root, es[k].mesh);
        RemovePlaneOnExtends(a, root, es[k].mesh);
        RemovePlaneOn(a, root, es[k].mesh)
  }

  /** The body of the add-or-update loop for label `l`: a new plane for an untracked id, a new texture otherwise. */
  function PlaceOneOn(h: Heap, root: Id, es: seq<Plane>, l: TextLabel): (r: Pass)
    requires Wf(h) && IsRoot(h, root) && Tracked(h, es)
    ensures Wf(r.heap) && Extends(h, r.heap) && r.heap.scene == h.scene && Tracked(r.heap, r.planes)
  {
    match Lookup(es, l.id)
    case None =>
      CreatePlaneOnWf(h, root, l);
      CreatePlaneOnExtends(h, root, l);
      var r := CreatePlaneOn(h, root, l);
      TrackedExtends(h, r, es);
      Pass(r, es + [Plane(l.id, |h.objs| + 3)])
    case Some(p) =>
      RetextureOnWf(h, p, l);
      RetextureOnExtends(h, p, l);
      TrackedExtends(h, RetextureOn(h, p, l), es);
      Pass(RetextureOn(h, p, l), es)
  }

  lemma TrackedExtends(h: Heap, h': Heap, es: seq<Plane>)
    requires Tracked(h, es) && Extends(h, h')
    ensures Tracked(h', es)
  {
    ExtendsKinds(h, h');
  }

  /** The add-or-update loop (`textLabels.forEach`), label by label. */
  function PlaceOn(h: Heap, root: Id, es: seq<Plane>, labels: seq<TextLabel>): (r: Pass)
    requires Wf(h) && IsRoot(h, root) && Tracked(h, es)
    ensures Wf(r.heap) && Extends(h, r.heap) && r.heap.scene == h.scene && Tracked(r.heap, r.planes)
    decreases |labels|
  {
    if labels == [] then Pass(h, es)
    else
      var k := |labels| - 1;
      var a := PlaceOn(h, root, es, labels[..k]);
      ExtendsKinds(h, a.heap);
      PlaceOneOn(a.heap, root, a.planes, labels[k])
  }

  /** One run of the effect body: nothing without a model, else the removal loop, then the add-or-update loop. */
  function ReconcileOn(h: Heap, model: Option<Id>, es: seq<Plane>, labels: seq<TextLabel>): (r: Pass)
    requires Wf(h) && (model.Some? ==> IsRoot(h, model.value)) && Tracked(h, es)
    ensures Wf(r.heap) && Extends(h, r.heap) && r.heap.scene == h.scene && Tracked(r.heap, r.planes)
  {
    if model.None? then Pass(h, es)
    else
      var root := model.value;
      var h1 := PruneOn(h, root, es, labels);
      ExtendsKinds(h, h1);
      PlaceOn(h1, root, Kept(es, labels), labels)
  }

  /**
   * The effect's cleanup: every tracked plane removed and disposed as the removal loop does it,
   * then the map cleared; that is the removal loop run against no labels at all.
   */
  function CleanupOn(h: Heap, root: Id, es: seq<Plane>): (r: Pass)
    requires Wf(h) && IsRoot(h, root) && Tracked(h, es)
    ensures Wf(r.heap) && Extends(h, r.heap) && r.heap.scene == h.scene && r.planes == []
  {
    Pass(PruneOn(h, root, es, []), [])
  }

  /** Without a model (`if (!model) return`) the effect leaves the heap and the map as they were. */
  lemma NoModelNoChange(h: Heap, es: seq<Plane>, labels: seq<TextLabel>)
    requires Wf(h) && Tracked(h, es)
    ensures ReconcileOn(h, None, es, labels) == Pass(h, es)
  {
  }

  // ---------------------------------------------------------------------------
  // Which ids are tracked
  // ---------------------------------------------------------------------------

  lemma InIds(es: seq<Plane>, id: string)
    ensures id in Ids(es) <==> exists e :: e in es && e.key == id
  {
    if id in Ids(es) {
      var i :| 0 <= i < |es| && Ids(es)[i] == id;
      assert es[i] in es;
    }
  }

  /** The removal loop keeps exactly the tracked ids that some label still has. */
  lemma KeptIds(es: seq<Plane>, labels: seq<TextLabel>, id: string)
    ensures id in Ids(Kept(es, labels)) <==> id in Ids(es) && HasLabel(labels, id)
  {
    InIds(es, id);
    InIds(Kept(es, labels), id);
  }

  lemma HasLabelLast(labels: seq<TextLabel>, id: string)
    requires labels != []
    ensures HasLabel(labels, id) <==> HasLabel(labels[..|labels| - 1], id) || labels[|labels| - 1].id == id
  {
    var k := |labels| - 1;
    if HasLabel(labels, id) && labels[k].id != id {
      var i :| 0 <= i < |labels| && labels[i].id == id;
      assert labels[..k][i] == labels[i];
    }
  }

  /** The last step of PlaceOn, with what it needs. */
  lemma PlaceOnLast(h: Heap, root: Id, es: seq<Plane>, labels: seq<TextLabel>)
    requires Wf(h) && IsRoot(h, root) && Tracked(h, es) && labels != []
    ensures var a := PlaceOn(h, root, es, labels[..|labels| - 1]);
            && IsRoot(a.heap, root)
            && PlaceOn(h, root, es, labels) == PlaceOneOn(a.heap, root, a.planes, labels[|labels| - 1])
  {
    ExtendsKinds(h, PlaceOn(h, root, es, labels[..|labels| - 1]).heap);
  }

  /** One label: an untracked id is appended with the new plane's mesh, a tracked one changes nothing in the map. */
  lemma PlaceOnePlanes(h: Heap, root: Id, es: seq<Plane>, l: TextLabel)
    requires Wf(h) && IsRoot(h, root) && Tracked(h, es)
    ensures var r := PlaceOneOn(h, root, es, l);
            && (l.id in Ids(es) ==> r.planes == es)
            && (l.id !in Ids(es) ==> r.planes == es + [Plane(l.id, |h.objs| + 3)] && Ids(r.planes) == Ids(es) + [l.id])
  {
    match Lookup(es, l.id)
    case None =>
      assert PlaceOneOn(h, root, es, l).planes == es + [Plane(l.id, |h.objs| + 3)];
      IdsAppend(es, Plane(l.id, |h.objs| + 3));
    case Some(p) =>
      assert PlaceOneOn(h, root, es, l).planes == es;
  }

  lemma IdsAppend(es: seq<Plane>, e: Plane)
    ensures Ids(es + [e]) == Ids(es) + [e.key]
  {
  }

  /** The add-or-update loop tracks the ids tracked before and the id of every label. */
  lemma {:induction false} PlaceIds(h: Heap, root: Id, es: seq<Plane>, labels: seq<TextLabel>, id: string)
    requires Wf(h) && IsRoot(h, root) && Tracked(h, es)
    ensures id in Ids(PlaceOn(h, root, es, labels).planes) <==> id in Ids(es) || HasLabel(labels, id)
    decreases |labels|
  {
    if labels != [] {
      var k := |labels| - 1;
      var a := PlaceOn(h, root, es, labels[..k]);
      PlaceOnLast(h, root, es, labels);
      PlaceIds(h, root, es, labels[..k], id);
      HasLabelLast(labels, id);
      PlaceOnePlanes(a.heap, root, a.planes, labels[k]);
    }
  }

  /**
   * After a run of the effect on a model, the tracked ids are exactly the ids of the current
   * labels, whatever was tracked before.
   */
  lemma ReconcileTracksLabels(h: Heap, root: Id, es: seq<Plane>, labels: seq<TextLabel>, id: string)
    requires Wf(h) && IsRoot(h, root) && Tracked(h, es)
    ensures id in Ids(ReconcileOn(h, Some(root), es, labels).planes) <==> HasLabel(labels, id)
  {
    var h1 := PruneOn(h, root, es, labels);
    ExtendsKinds(h, h1);
    KeptIds(es, labels, id);
    PlaceIds(h1, root, Kept(es, labels), labels, id);
  }

  // ---------------------------------------------------------------------------
  // The map stays a map: one entry per id
  // ---------------------------------------------------------------------------

  lemma NoDupAppend(es: seq<Plane>, e: Plane)
    requires NoDupIds(es) && e.key !in Ids(es)
    ensures NoDupIds(es + [e])
  {
    var r := es + [e];
    forall i, j | 0 <= i < j < |r|
      ensures r[i].key != r[j].key
    {
      if j == |es| {
        assert Ids(es)[i] == r[i].key;
      }
    }
  }

  lemma {:induction false} KeptNoDup(es: seq<Plane>, labels: seq<TextLabel>)
    requires NoDupIds(es)
    ensures NoDupIds(Kept(es, labels))
    decreases |es|
  {
    if es != [] {
      var k := |es| - 1;
      KeptNoDup(es[..k], labels);
      if HasLabel(labels, es[k].key) {
        KeptIds(es[..k], labels, es[k].key);
        NoDupAppend(Kept(es[..k], labels), es[k]);
      }
    }
  }

  lemma {:induction false} PlaceNoDup(h: Heap, root: Id, es: seq<Plane>, labels: seq<TextLabel>)
    requires Wf(h) && IsRoot(h, root) && Tracked(h, es) && NoDupIds(es)
    ensures NoDupIds(PlaceOn(h, root, es, labels).planes)
    decreases |labels|
  {
    if labels != [] {
      var k := |labels| - 1;
      var a := PlaceOn(h, root, es, labels[..k]);
      PlaceOnLast(h, root, es, labels);
      PlaceNoDup(h, root, es, labels[..k]);
      PlaceOnePlanes(a.heap, root, a.planes, labels[k]);
      if labels[k].id !in Ids(a.planes) {
        NoDupAppend(a.planes, Plane(labels[k].id, |a.heap.objs| + 3));
      }
    }
  }

  /** A run of the effect never tracks an id twice. */
  lemma ReconcileNoDup(h: Heap, model: Option<Id>, es: seq<Plane>, labels: seq<TextLabel>)
    requires Wf(h) && (model.Some? ==> IsRoot(h, model.value)) && Tracked(h, es) && NoDupIds(es)
    ensures NoDupIds(ReconcileOn(h, model, es, labels).planes)
  {
    if model.Some? {
      var h1 := PruneOn(h, model.value, es, labels);
      ExtendsKinds(h, h1);
      KeptNoDup(es, labels);
      PlaceNoDup(h1, model.value, Kept(es, labels), labels);
    }
  }

  // ---------------------------------------------------------------------------
  // Which planes are new
  // ---------------------------------------------------------------------------

  /**
   * The add-or-update loop never replaces a tracked plane: the entries before are a prefix of
   * the entries after, and every entry it appends holds a plane allocated during the loop.
   */
  lemma {:induction false} PlaceGrows(h: Heap, root: Id, es: seq<Plane>, labels: seq<TextLabel>)
    requires Wf(h) && IsRoot(h, root) && Tracked(h, es)
    ensures var r := PlaceOn(h, root, es, labels);
            && es <= r.planes
            && forall i :: |es| <= i < |r.planes| ==> r.planes[i].mesh >= |h.objs|
    decreases |labels|
  {
    if labels != [] {
      var k := |labels| - 1;
      var a := PlaceOn(h, root, es, labels[..k]);
      PlaceOnLast(h, root, es, labels);
      PlaceGrows(h, root, es, labels[..k]);
      PlaceOnePlanes(a.heap, root, a.planes, labels[k]);
    }
  }

  ghost predicate DistinctLabels(labels: seq<TextLabel>)
  {
    forall i, j :: 0 <= i < j < |labels| ==> labels[i].id != labels[j].id
  }

  /** No label id is tracked yet. */
  ghost predicate Untracked(es: seq<Plane>, labels: seq<TextLabel>)
  {
    forall i :: 0 <= i < |labels| ==> labels[i].id !in Ids(es)
  }

  lemma DistinctLast(es: seq<Plane>, labels: seq<TextLabel>)
    requires DistinctLabels(labels) && Untracked(es, labels) && labels != []
    ensures DistinctLabels(labels[..|labels| - 1]) && Untracked(es, labels[..|labels| - 1])
    ensures !HasLabel(labels[..|labels| - 1], labels[|labels| - 1].id) && labels[|labels| - 1].id !in Ids(es)
  {
  }

  /** The ids of the labels, in order. */
  function LabelIds(labels: seq<TextLabel>): (r: seq<string>)
    ensures |r| == |labels| && forall i :: 0 <= i < |labels| ==> r[i] == labels[i].id
  {
    seq(|labels|, i requires 0 <= i < |labels| => labels[i].id)
  }

  lemma LabelIdsLast(labels: seq<TextLabel>)
    requires labels != []
    ensures LabelIds(labels) == LabelIds(labels[..|labels| - 1]) + [labels[|labels| - 1].id]
  {
  }

  /** Labels with distinct, untracked ids get one new entry each, in label order. */
  lemma {:induction false} PlaceAllNew(h: Heap, root: Id, es: seq<Plane>, labels: seq<TextLabel>)
    requires Wf(h) && IsRoot(h, root) && Tracked(h, es) && DistinctLabels(labels) && Untracked(es, labels)
    ensures Ids(PlaceOn(h, root, es, labels).planes) == Ids(es) + LabelIds(labels)
    decreases |labels|
  {
    if labels != [] {
      var k := |labels| - 1;
      var a := PlaceOn(h, root, es, labels[..k]);
      PlaceOnLast(h, root, es, labels);
      DistinctLast(es, labels);
      PlaceAllNew(h, root, es, labels[..k]);
      PlaceIds(h, root, es, labels[..k], labels[k].id);
      assert labels[k].id !in Ids(a.planes);
      PlaceOnePlanes(a.heap, root, a.planes, labels[k]);
      LabelIdsLast(labels);
      AppendAssoc(Ids(es), LabelIds(labels[..k]), [labels[k].id]);
    }
  }

  lemma AppendAssoc<T>(x: seq<T>, y: seq<T>, z: seq<T>)
    ensures (x + y) + z == x + (y + z)
  {
  }

  // ---------------------------------------------------------------------------
  // What each step does to the objects
  // ---------------------------------------------------------------------------

  /**
   * Removing a plane detaches it from the model and leaves every other child in place; its
   * geometry is disposed, and its material too when it is a single one; every other object,
   * the material's texture included, is left as it was.
   */
  lemma RemovePlaneEffects(h: Heap, root: Id, p: Id)
    requires IsRoot(h, root) && PlaneParts(h, p)
    ensures var r := RemovePlaneOn(h, root, p);
            var g, slot := h.objs[p].geometry, h.objs[p].slot;
            && |r.objs| == |h.objs| && r.scene == h.scene
            && IsRoot(r, root) && r.objs[root].tree == RemoveMeshChild(h.objs[root].tree, p)
            && !ChildOf(r.objs[root].tree, p)
            && (forall q :: q != p && ChildOf(h.objs[root].tree, q) ==> ChildOf(r.objs[root].tree, q))
            && (forall q :: ChildOf(r.objs[root].tree, q) ==> ChildOf(h.objs[root].tree, q))
            && r.objs[g].status == Disposed
            && (slot.Single? ==> slot.handle in Handles(slot) && r.objs[slot.handle].status == Disposed)
            && (forall x :: 0 <= x < |h.objs| && x != root && x != g && (slot.Single? ==> x != slot.handle)
                  ==> r.objs[x] == h.objs[x])
  {
    var t := h.objs[root].tree;
    var t' := RemoveMeshChild(t, p);
    forall q | q != p && ChildOf(t, q)
      ensures ChildOf(t', q)
    {
      var c :| c in t.children && c.kind == Mesh(q);
      assert c in t'.children;
    }
    forall q | ChildOf(t', q)
      ensures ChildOf(t, q)
    {
      var c :| c in t'.children && c.kind == Mesh(q);
      assert c in t.children;
    }
    if h.objs[p].slot.Single? {
      assert h.objs[p].slot.handle in Handles(h.objs[p].slot);
    }
  }

  /**
   * Creating a plane for `l` allocates, in order, a live `PlaneGeometry(1, 0.25)`, a live text
   * texture of the label, a live basic material showing that texture and the mesh holding the
   * two; the mesh is appended to the model's children; no older object but the root changes.
   */
  lemma CreatePlaneEffects(h: Heap, root: Id, l: TextLabel)
    requires IsRoot(h, root)
    ensures var r := CreatePlaneOn(h, root, l);
            var n := |h.objs|;
            && |r.objs| == n + 4 && r.scene == h.scene
            && r.objs[n] == GeometryObj(PlaneGeometry, Live)
            && r.objs[n + 1] == TextureObj(LabelTexture(l), Live)
            && r.objs[n + 2] == MaterialObj(PlaneMaterial(n + 1), Live)
            && r.objs[n + 3] == MeshObj(n, Single(n + 2))
            && IsRoot(r, root) && r.objs[root].tree == AddChild(h.objs[root].tree, PlaneNode(n + 3, l.position))
            && r.objs[root].tree.children == h.objs[root].tree.children + [PlaneNode(n + 3, l.position)]
            && ChildOf(r.objs[root].tree, n + 3)
            && (forall x :: 0 <= x < n && x != root ==> r.objs[x] == h.objs[x])
  {
    var n := |h.objs|;
    var r := CreatePlaneOn(h, root, l);
    assert PlaneNode(n + 3, l.position) in r.objs[root].tree.children;
  }

  /**
   * Retexturing always allocates a live text texture of the label and never a new plane. When
   * the plane holds a single basic material, that material's old map (if any) is disposed and
   * the new texture becomes its map; otherwise nothing but the allocation happens.
   */
  lemma RetextureEffects(h: Heap, p: Id, l: TextLabel)
    requires PlaneParts(h, p)
    ensures var r := RetextureOn(h, p, l);
            var n := |h.objs|;
            var slot := h.objs[p].slot;
            && |r.objs| == n + 1 && r.scene == h.scene
            && r.objs[n] == TextureObj(LabelTexture(l), Live)
            && r.objs[p] == h.objs[p]
            && (slot.Single? && h.objs[slot.handle].mat.kind == MeshBasic ==>
                  var m := slot.handle;
                  var old_map := h.objs[m].mat.textureMap;
                  && r.objs[m].mat == h.objs[m].mat.(textureMap := Some(n))
                  && (old_map.Some? ==> r.objs[old_map.value].status == Disposed)
                  && (forall x :: 0 <= x < n && x != m && (old_map.Some? ==> x != old_map.value)
                        ==> r.objs[x] == h.objs[x]))
            && (!(slot.Single? && h.objs[slot.handle].mat.kind == MeshBasic) ==>
                  forall x :: 0 <= x < n ==> r.objs[x] == h.objs[x])
  {
    var slot := h.objs[p].slot;
    assert slot.Single? ==> slot.handle in Handles(slot);
  }

  // ---------------------------------------------------------------------------
  // What the removal loop and the cleanup do
  // ---------------------------------------------------------------------------

  /** The last step of PruneOn, with what it needs. */
  lemma PruneOnLast(h: Heap, root: Id, es: seq<Plane>, labels: seq<TextLabel>)
    requires Wf(h) && IsRoot(h, root) && Tracked(h, es) && es != []
    ensures var k := |es| - 1;
            && Tracked(h, es[..k])
            && var a := PruneOn(h, root, es[..k], labels);
            && IsRoot(a, root) && PlaneParts(a, es[k].mesh)
            && PruneOn(h, root, es, labels) == if HasLabel(labels, es[k].key) then a else RemovePlaneOn(a, root, es[k].mesh)
  {
    var k := |es| - 1;
    assert es[k] in es;
    var a := PruneOn(h, root, es[..k], labels);
    ExtendsKinds(h, a);
    WfPlaneParts(a, es[k].mesh);
  }

  /** The removal loop changes no mesh object and no texture. */
  lemma {:induction false} PruneKeeps(h: Heap, root: Id, es: seq<Plane>, labels: seq<TextLabel>, x: Id)
    requires Wf(h) && IsRoot(h, root) && Tracked(h, es) && (IsMesh(h, x) || IsTexture(h, x))
    ensures PruneOn(h, root, es, labels).objs[x] == h.objs[x]
    decreases |es|
  {
    if es != [] {
      var k := |es| - 1;
      PruneOnLast(h, root, es, labels);
      PruneKeeps(h, root, es[..k], labels, x);
      var a := PruneOn(h, root, es[..k], labels);
      ExtendsKinds(h, a);
      RemovePlaneEffects(a, root, es[k].mesh);
      assert ObjOk(a, es[k].mesh);
    }
  }

  /** A stale entry's plane ends up detached from the model, its geometry and single material disposed. */
  lemma {:induction false} PruneRemovesStale(h: Heap, root: Id, es: seq<Plane>, labels: seq<TextLabel>, e: Plane)
    requires Wf(h) && IsRoot(h, root) && Tracked(h, es) && e in es && !HasLabel(labels, e.key)
    ensures var r := PruneOn(h, root, es, labels);
            var g, slot := h.objs[e.mesh].geometry, h.objs[e.mesh].slot;
            && !ChildOf(r.objs[root].tree, e.mesh)
            && IsGeometry(r, g) && r.objs[g].status == Disposed
            && (slot.Single? ==> IsMaterial(r, slot.handle) && r.objs[slot.handle].status == Disposed)
    decreases |es|
  {
    var k := |es| - 1;
    PruneOnLast(h, root, es, labels);
    var a := PruneOn(h, root, es[..k], labels);
    PruneKeeps(h, root, es[..k], labels, e.mesh);
    WfPlaneParts(h, e.mesh);
    var g, slot := h.objs[e.mesh].geometry, h.objs[e.mesh].slot;
    assert slot.Single? ==> slot.handle in Handles(slot);
    if e in es[..k] {
      PruneRemovesStale(h, root, es[..k], labels, e);
      if !HasLabel(labels, es[k].key) {
        RemovePlaneEffects(a, root, es[k].mesh);
      }
    } else {
      RemovePlaneEffects(a, root, e.mesh);
    }
  }

  ghost predicate DistinctPlanes(es: seq<Plane>)
  {
    forall i, j :: 0 <= i < j < |es| ==> es[i].mesh != es[j].mesh
  }

  /** With distinct planes, no earlier entry shares the last entry's plane. */
  lemma LastPlaneUnique(es: seq<Plane>)
    requires DistinctPlanes(es) && es != []
    ensures forall e :: e in es[..|es| - 1] ==> e.mesh != es[|es| - 1].mesh
  {
    forall e | e in es[..|es| - 1]
      ensures e.mesh != es[|es| - 1].mesh
    {
      var j :| 0 <= j < |es| - 1 && es[j] == e;
    }
  }

  /** Every tracked plane is a direct child of the model. */
  ghost predicate InModel(h: Heap, root: Id, es: seq<Plane>)
    requires IsRoot(h, root)
  {
    forall e :: e in es ==> ChildOf(h.objs[root].tree, e.mesh)
  }

  /** A child of the model that no stale entry names stays a child. */
  lemma {:induction false} PruneKeepsChild(h: Heap, root: Id, es: seq<Plane>, labels: seq<TextLabel>, q: Id)
    requires Wf(h) && IsRoot(h, root) && Tracked(h, es) && ChildOf(h.objs[root].tree, q)
    requires forall e :: e in es && !HasLabel(labels, e.key) ==> e.mesh != q
    ensures ChildOf(PruneOn(h, root, es, labels).objs[root].tree, q)
    decreases |es|
  {
    if es != [] {
      var k := |es| - 1;
      PruneOnLast(h, root, es, labels);
      assert forall e :: e in es[..k] ==> e in es;
      PruneKeepsChild(h, root, es[..k], labels, q);
      var a := PruneOn(h, root, es[..k], labels);
      if !HasLabel(labels, es[k].key) {
        assert es[k] in es;
        RemovePlaneEffects(a, root, es[k].mesh);
      }
    }
  }

  /** With distinct planes, every kept entry's plane stays a child of the model. */
  lemma PruneKeepsCurrent(h: Heap, root: Id, es: seq<Plane>, labels: seq<TextLabel>, i: nat)
    requires Wf(h) && IsRoot(h, root) && Tracked(h, es) && DistinctPlanes(es)
    requires i < |es| && HasLabel(labels, es[i].key) && ChildOf(h.objs[root].tree, es[i].mesh)
    ensures ChildOf(PruneOn(h, root, es, labels).objs[root].tree, es[i].mesh)
  {
    forall e | e in es && !HasLabel(labels, e.key)
      ensures e.mesh != es[i].mesh
    {
      var j :| 0 <= j < |es| && es[j] == e;
      assert j != i;
    }
    PruneKeepsChild(h, root, es, labels, es[i].mesh);
  }

  // ---------------------------------------------------------------------------
  // Every tracked plane hangs under the model, one plane per entry
  // ---------------------------------------------------------------------------

  lemma ChildAppend(t: Node, t': Node, c: Node)
    requires t'.children == t.children + [c]
    ensures forall q :: ChildOf(t, q) ==> ChildOf(t', q)
  {
    forall q | ChildOf(t, q)
      ensures ChildOf(t', q)
    {
      var d :| d in t.children && d.kind == Mesh(q);
      assert d in t'.children;
    }
  }

  lemma CreateKeepsModel(h: Heap, root: Id, es: seq<Plane>, l: TextLabel)
    requires IsRoot(h, root) && Tracked(h, es) && InModel(h, root, es) && DistinctPlanes(es)
    ensures var r := CreatePlaneOn(h, root, l);
            var es' := es + [Plane(l.id, |h.objs| + 3)];
            IsRoot(r, root) && InModel(r, root, es') && DistinctPlanes(es')
  {
    var r := CreatePlaneOn(h, root, l);
    CreatePlaneEffects(h, root, l);
    ChildAppend(h.objs[root].tree, r.objs[root].tree, PlaneNode(|h.objs| + 3, l.position));
    forall i | 0 <= i < |es|
      ensures es[i].mesh < |h.objs|
    {
      assert es[i] in es;
    }
  }

  lemma RetextureKeepsModel(h: Heap, root: Id, p: Id, es: seq<Plane>, l: TextLabel)
    requires IsRoot(h, root) && PlaneParts(h, p) && InModel(h, root, es)
    ensures IsRoot(RetextureOn(h, p, l), root) && InModel(RetextureOn(h, p, l), root, es)
  {
    RetextureEffects(h, p, l);
  }

  /** One label keeps every tracked plane under the model and the planes distinct. */
  lemma PlaceOneModel(h: Heap, root: Id, es: seq<Plane>, l: TextLabel)
    requires Wf(h) && IsRoot(h, root) && Tracked(h, es) && InModel(h, root, es) && DistinctPlanes(es)
    ensures var r := PlaceOneOn(h, root, es, l);
            IsRoot(r.heap, root) && InModel(r.heap, root, r.planes) && DistinctPlanes(r.planes)
  {
    match Lookup(es, l.id)
    case None =>
      assert PlaceOneOn(h, root, es, l) == Pass(CreatePlaneOn(h, root, l), es + [Plane(l.id, |h.objs| + 3)]);
      CreateKeepsModel(h, root, es, l);
    case Some(p) =>
      assert Plane(l.id, p) in es;
      WfPlaneParts(h, p);
      assert PlaceOneOn(h, root, es, l) == Pass(RetextureOn(h, p, l), es);
      RetextureKeepsModel(h, root, p, es, l);
  }

  /** The add-or-update loop keeps every tracked plane under the model and the planes distinct. */
  lemma {:induction false} PlaceKeepsModel(h: Heap, root: Id, es: seq<Plane>, labels: seq<TextLabel>)
    requires Wf(h) && IsRoot(h, root) && Tracked(h, es) && InModel(h, root, es) && DistinctPlanes(es)
    ensures var r := PlaceOn(h, root, es, labels);
            InModel(r.heap, root, r.planes) && DistinctPlanes(r.planes)
    decreases |labels|
  {
    if labels != [] {
      var k := |labels| - 1;
      var a := PlaceOn(h, root, es, labels[..k]);
      PlaceOnLast(h, root, es, labels);
      PlaceKeepsModel(h, root, es, labels[..k]);
      PlaceOneModel(a.heap, root, a.planes, labels[k]);
    }
  }

  /** The kept entries are some of the entries, so their planes stay distinct. */
  lemma {:induction false} KeptDistinct(es: seq<Plane>, labels: seq<TextLabel>)
    requires DistinctPlanes(es)
    ensures DistinctPlanes(Kept(es, labels))
    decreases |es|
  {
    if es != [] {
      var k := |es| - 1;
      assert DistinctPlanes(es[..k]);
      KeptDistinct(es[..k], labels);
      var r := Kept(es[..k], labels);
      if HasLabel(labels, es[k].key) {
        forall i | 0 <= i < |r|
          ensures r[i].mesh != es[k].mesh
        {
          assert r[i] in r;
          var j :| 0 <= j < k && es[..k][j] == r[i];
        }
      }
    }
  }

  /**
   * A run of the effect on a model keeps every tracked plane a direct child of the model and
   * never tracks one plane under two ids.
   */
  lemma ReconcileKeepsModel(h: Heap, root: Id, es: seq<Plane>, labels: seq<TextLabel>)
    requires Wf(h) && IsRoot(h, root) && Tracked(h, es) && InModel(h, root, es) && DistinctPlanes(es)
    ensures var r := ReconcileOn(h, Some(root), es, labels);
            InModel(r.heap, root, r.planes) && DistinctPlanes(r.planes)
  {
    var h1 := PruneOn(h, root, es, labels);
    ExtendsKinds(h, h1);
    var ks := Kept(es, labels);
    forall e | e in ks
      ensures ChildOf(h1.objs[root].tree, e.mesh)
    {
      var i :| 0 <= i < |es| && es[i] == e;
      PruneKeepsCurrent(h, root, es, labels, i);
    }
    KeptDistinct(es, labels);
    PlaceKeepsModel(h1, root, ks, labels);
  }

  // ---------------------------------------------------------------------------
  // The cleanup, and a re-run of the effect
  // ---------------------------------------------------------------------------

  /** The cleanup detaches every tracked plane and disposes its geometry and single material. */
  lemma CleanupRemovesAll(h: Heap, root: Id, es: seq<Plane>, e: Plane)
    requires Wf(h) && IsRoot(h, root) && Tracked(h, es) && e in es
    ensures var r := CleanupOn(h, root, es).heap;
            var g, slot := h.objs[e.mesh].geometry, h.objs[e.mesh].slot;
            && !ChildOf(r.objs[root].tree, e.mesh)
            && IsGeometry(r, g) && r.objs[g].status == Disposed
            && (slot.Single? ==> IsMaterial(r, slot.handle) && r.objs[slot.handle].status == Disposed)
  {
    PruneRemovesStale(h, root, es, [], e);
  }

  /** Neither the removal loop nor the cleanup disposes a texture: a removed plane's map stays live. */
  lemma CleanupLeavesTextures(h: Heap, root: Id, es: seq<Plane>, x: Id)
    requires Wf(h) && IsRoot(h, root) && Tracked(h, es) && IsTexture(h, x)
    ensures CleanupOn(h, root, es).heap.objs[x] == h.objs[x]
  {
    PruneKeeps(h, root, es, [], x);
  }

  /**
   * The effect re-run on a dependency change: React first runs the previous run's cleanup,
   * which exists only when that run had a model `prev`, then the body on the current `model`.
   */
  function RerunOn(h: Heap, prev: Option<Id>, model: Option<Id>, es: seq<Plane>, labels: seq<TextLabel>): (r: Pass)
    requires Wf(h) && Tracked(h, es)
    requires prev.Some? ==> IsRoot(h, prev.value)
    requires model.Some? ==> IsRoot(h, model.value)
    ensures Wf(r.heap) && Extends(h, r.heap) && r.heap.scene == h.scene && Tracked(r.heap, r.planes)
  {
    if prev.None? then ReconcileOn(h, model, es, labels)
    else
      var c := CleanupOn(h, prev.value, es);
      ExtendsKinds(h, c.heap);
      ReconcileOn(c.heap, model, [], labels)
  }

  /**
   * Because the cleanup empties the map before every re-run, a re-run never finds a tracked
   * plane: with distinct label ids on a model, every label gets a freshly created plane, in
   * label order, and the map holds exactly those.
   */
  lemma RerunRebuilds(h: Heap, prev: Id, root: Id, es: seq<Plane>, labels: seq<TextLabel>)
    requires Wf(h) && Tracked(h, es) && IsRoot(h, prev) && IsRoot(h, root) && DistinctLabels(labels)
    ensures var r := RerunOn(h, Some(prev), Some(root), es, labels);
            && Ids(r.planes) == LabelIds(labels)
            && forall e :: e in r.planes ==> e.mesh >= |h.objs|
  {
    var c := CleanupOn(h, prev, es).heap;
    RerunPlaces(h, prev, root, es, labels);
    assert Ids([]) == [] && Untracked([], labels);
    PlaceAllNew(c, root, [], labels);
    PlaceGrows(c, root, [], labels);
    FreshPlanes(PlaceOn(c, root, [], labels).planes, |c.objs|, |h.objs|);
  }

  lemma FreshPlanes(ps: seq<Plane>, n: nat, m: nat)
    requires m <= n && forall i :: 0 <= i < |ps| ==> ps[i].mesh >= n
    ensures forall e :: e in ps ==> e.mesh >= m
  {
    forall e | e in ps
      ensures e.mesh >= m
    {
      var i :| 0 <= i < |ps| && ps[i] == e;
    }
  }

  /** After the cleanup the map is empty, so the new run only places the labels. */
  lemma RerunPlaces(h: Heap, prev: Id, root: Id, es: seq<Plane>, labels: seq<TextLabel>)
    requires Wf(h) && Tracked(h, es) && IsRoot(h, prev) && IsRoot(h, root)
    ensures var c := CleanupOn(h, prev, es).heap;
            && IsRoot(c, root) && |c.objs| >= |h.objs|
            && RerunOn(h, Some(prev), Some(root), es, labels) == PlaceOn(c, root, [], labels)
  {
    var c := CleanupOn(h, prev, es);
    ExtendsKinds(h, c.heap);
    assert PruneOn(c.heap, root, [], labels) == c.heap;
    assert Kept([], labels) == [];
  }


  // ---------------------------------------------------------------------------
  // Ownership among the model's meshes
  // ---------------------------------------------------------------------------

  /**
   * Every tracked plane can be taken down cleanly: it is a mesh holding a single material, and
   * the model reaches it only as a direct child with no children of its own.
   */
  ghost predicate Removable(h: Heap, root: Id, es: seq<Plane>)
    requires IsRoot(h, root)
  {
    forall e :: e in es ==> IsMesh(h, e.mesh) && h.objs[e.mesh].slot.Single? && Detachable(h.objs[root].tree, e.mesh)
  }

  /**
   * The zone effect recolours the meshes but keeps the model's tree and every mesh's slot shape,
   * so planes that could be taken down before still can.
   */
  lemma ZonePassKeepsRemovable(h: Heap, root: Id, z: ZoneColors, es: seq<Plane>)
    requires Wf(h) && IsRoot(h, root) && Removable(h, root, es)
    ensures var r := ZonePassOn(h, root, z);
            IsRoot(r, root) && Removable(r, root, es)
  {
    var r := ZonePassOn(h, root, z);
    ExtendsKinds(h, r);
    assert r.objs[root] == h.objs[root];
  }

  /**
   * Removing a removable plane takes it out of the model's meshes and disposes its material, so
   * ownership among the meshes the model still reaches stays exclusive.
   */
  lemma RemovePlaneKeepsExclusive(h: Heap, root: Id, p: Id)
    requires Wf(h) && IsRoot(h, root) && IsMesh(h, p) && h.objs[p].slot.Single?
    requires ChildOf(h.objs[root].tree, p) && Detachable(h.objs[root].tree, p)
    requires Exclusive(h, ModelMeshes(h, root))
    ensures PlaneParts(h, p)
    ensures var r := RemovePlaneOn(h, root, p);
            && IsRoot(r, root) && p !in ModelMeshes(r, root)
            && (forall m :: m in ModelMeshes(r, root) <==> m in ModelMeshes(h, root) && m != p)
            && Exclusive(r, ModelMeshes(r, root))
  {
    WfPlaneParts(h, p);
    RemovePlaneEffects(h, root, p);
    RemovePlaneOnExtends(h, root, p);
    var r := RemovePlaneOn(h, root, p);
    ExtendsKinds(h, r);
    var t := h.objs[root].tree;
    RemoveDetachable(t, p);
    var ms, ms' := ModelMeshes(h, root), ModelMeshes(r, root);
    assert p in ms by {
      var c :| c in t.children && c.kind == Mesh(p);
      assert Preorder(c)[0] == c;
      ChildMeshesList(t.children, c);
      MeshIdsOfAppend([t], PreorderList(t.children));
    }
    var g, x0 := h.objs[p].geometry, h.objs[p].slot.handle;
    assert SlotOf(h, p) == [x0];
    forall m | m in ms'
      ensures IsMesh(r, m) && SlotOf(r, m) == SlotOf(h, m)
    {
      assert IsMesh(h, m) && m != root && m != g && m != x0;
    }
    forall x: Id
      ensures IsMaterial(r, x) && IsLive(r, x) <==> x != x0 && IsMaterial(h, x) && IsLive(h, x)
    {
      if x < |h.objs| && x != root && x != g && x != x0 {
        assert r.objs[x] == h.objs[x];
      }
    }
    ExclusiveDropMesh(h, r, ms, ms', p, x0);
  }

  /** A new plane brings its own live material, which only it holds: ownership stays exclusive. */
  lemma CreatePlaneKeepsExclusive(h: Heap, root: Id, l: TextLabel)
    requires Wf(h) && IsRoot(h, root) && Exclusive(h, ModelMeshes(h, root))
    ensures var r := CreatePlaneOn(h, root, l);
            && IsRoot(r, root) && ModelMeshes(r, root) == ModelMeshes(h, root) + [|h.objs| + 3]
            && Exclusive(r, ModelMeshes(r, root))
  {
    CreatePlaneEffects(h, root, l);
    AddPlaneExclusive(h, CreatePlaneOn(h, root, l), root, PlaneNode(|h.objs| + 3, l.position), PlaneMaterial(|h.objs| + 1));
  }

  /**
   * Hanging a new leaf plane under the model, made of four new objects of which only the
   * material is one that meshes hold, keeps ownership among the model's meshes exclusive.
   */
  lemma AddPlaneExclusive(h: Heap, r: Heap, root: Id, c: Node, mat: Material)
    requires Wf(h) && IsRoot(h, root) && Exclusive(h, ModelMeshes(h, root))
    requires c.kind == Mesh(|h.objs| + 3) && c.children == []
    requires |r.objs| == |h.objs| + 4
    requires r.objs[|h.objs|].GeometryObj? && r.objs[|h.objs| + 1].TextureObj?
    requires r.objs[|h.objs| + 2] == MaterialObj(mat, Live)
    requires r.objs[|h.objs| + 3] == MeshObj(|h.objs|, Single(|h.objs| + 2))
    requires IsRoot(r, root) && r.objs[root].tree == AddChild(h.objs[root].tree, c)
    requires forall x :: 0 <= x < |h.objs| && x != root ==> r.objs[x] == h.objs[x]
    ensures ModelMeshes(r, root) == ModelMeshes(h, root) + [|h.objs| + 3] && Exclusive(r, ModelMeshes(r, root))
  {
    var p, y := |h.objs| + 3, |h.objs| + 2;
    assert SlotOf(r, p) == [y];
    var n := |h.objs|;
    var t := h.objs[root].tree;
    AddChildMeshes(t, c);
    LeafMeshIds(c);
    var ms := ModelMeshes(h, root);
    assert ObjOk(h, root);
    forall m | m in ms
      ensures IsMesh(r, m) && SlotOf(r, m) == SlotOf(h, m)
    {
      assert IsMesh(h, m) && m != root;
    }
    forall x: Id
      ensures IsMaterial(r, x) && IsLive(r, x) <==> x == y || (IsMaterial(h, x) && IsLive(h, x))
    {
      if x < n && x != root {
        assert r.objs[x] == h.objs[x];
      }
    }
    ExclusiveAddMesh(h, r, ms, p, y);
  }

  /** Retexturing changes no mesh and no material's status: ownership stays exclusive. */
  lemma RetextureKeepsExclusive(h: Heap, root: Id, p: Id, l: TextLabel)
    requires Wf(h) && IsRoot(h, root) && PlaneParts(h, p) && Exclusive(h, ModelMeshes(h, root))
    ensures var r := RetextureOn(h, p, l);
            && IsRoot(r, root) && r.objs[root] == h.objs[root]
            && (forall m: Id :: IsMesh(h, m) ==> IsMesh(r, m) && r.objs[m] == h.objs[m])
            && Exclusive(r, ModelMeshes(r, root))
  {
    RetextureEffects(h, p, l);
    var r := RetextureOn(h, p, l);
    var n := |h.objs|;
    var slot := h.objs[p].slot;
    assert slot.Single? ==> slot.handle in Handles(slot);
    forall x: Id | x < n
      ensures SameKind(h.objs[x], r.objs[x])
      ensures IsMaterial(h, x) ==> r.objs[x].status == h.objs[x].status
      ensures IsMesh(h, x) || IsRoot(h, x) ==> r.objs[x] == h.objs[x]
    {
    }
    ExclusiveFrame(h, r, ModelMeshes(h, root));
  }

  /** The removal loop only drops children of the model: its kind and its other children stay. */
  lemma {:induction false} PruneShrinks(h: Heap, root: Id, es: seq<Plane>, labels: seq<TextLabel>)
    requires Wf(h) && IsRoot(h, root) && Tracked(h, es)
    ensures var r := PruneOn(h, root, es, labels);
            && IsRoot(r, root) && r.objs[root].tree.kind == h.objs[root].tree.kind
            && forall c :: c in r.objs[root].tree.children ==> c in h.objs[root].tree.children
    decreases |es|
  {
    if es != [] {
      var k := |es| - 1;
      PruneOnLast(h, root, es, labels);
      PruneShrinks(h, root, es[..k], labels);
      if !HasLabel(labels, es[k].key) {
        RemovePlaneEffects(PruneOn(h, root, es[..k], labels), root, es[k].mesh);
      }
    }
  }

  /** Planes that were removable before the removal loop and that it leaves in place are still removable. */
  lemma PruneKeepsRemovable(h: Heap, root: Id, es: seq<Plane>, labels: seq<TextLabel>, fs: seq<Plane>)
    requires Wf(h) && IsRoot(h, root) && Tracked(h, es) && Removable(h, root, fs)
    ensures var r := PruneOn(h, root, es, labels);
            IsRoot(r, root) && Removable(r, root, fs)
  {
    PruneShrinks(h, root, es, labels);
    var r := PruneOn(h, root, es, labels);
    forall e | e in fs
      ensures IsMesh(r, e.mesh) && r.objs[e.mesh].slot.Single? && Detachable(r.objs[root].tree, e.mesh)
    {
      PruneKeeps(h, root, es, labels, e.mesh);
      DetachableShrinks(h.objs[root].tree, r.objs[root].tree, e.mesh);
    }
  }

  /**
   * The removal loop takes every stale plane out of the model and disposes its material, so
   * ownership among the meshes the model still reaches stays exclusive.
   */
  lemma {:induction false} PruneKeepsExclusive(h: Heap, root: Id, es: seq<Plane>, labels: seq<TextLabel>)
    requires Wf(h) && IsRoot(h, root) && Tracked(h, es) && InModel(h, root, es) && DistinctPlanes(es)
    requires Removable(h, root, es) && Exclusive(h, ModelMeshes(h, root))
    ensures var r := PruneOn(h, root, es, labels);
            IsRoot(r, root) && Exclusive(r, ModelMeshes(r, root))
    decreases |es|
  {
    if es != [] {
      var k := |es| - 1;
      PrefixKeeps(h, root, es);
      PruneKeepsExclusive(h, root, es[..k], labels);
      if !HasLabel(labels, es[k].key) {
        PruneExclusiveLast(h, root, es, labels);
      } else {
        PruneOnLast(h, root, es, labels);
      }
    }
  }

  /** What holds of the tracked planes holds of all but the last of them. */
  lemma PrefixKeeps(h: Heap, root: Id, es: seq<Plane>)
    requires IsRoot(h, root) && es != []
    requires Tracked(h, es) && InModel(h, root, es) && DistinctPlanes(es) && Removable(h, root, es)
    ensures var fs := es[..|es| - 1];
            && (forall e :: e in fs ==> e in es)
            && Tracked(h, fs) && InModel(h, root, fs) && DistinctPlanes(fs) && Removable(h, root, fs)
  {
    var fs := es[..|es| - 1];
    assert forall e :: e in fs ==> e in es;
    assert DistinctPlanes(fs);
  }

  /** The last step of the removal loop, when it removes the last tracked plane. */
  lemma PruneExclusiveLast(h: Heap, root: Id, es: seq<Plane>, labels: seq<TextLabel>)
    requires Wf(h) && IsRoot(h, root) && Tracked(h, es) && InModel(h, root, es) && DistinctPlanes(es)
    requires Removable(h, root, es) && es != [] && !HasLabel(labels, es[|es| - 1].key)
    requires forall e :: e in es[..|es| - 1] ==> e in es
    requires var a := PruneOn(h, root, es[..|es| - 1], labels);
             IsRoot(a, root) && Exclusive(a, ModelMeshes(a, root))
    ensures var r := PruneOn(h, root, es, labels);
            IsRoot(r, root) && Exclusive(r, ModelMeshes(r, root))
  {
    var k := |es| - 1;
    var p := es[k].mesh;
    PruneOnLast(h, root, es, labels);
    var a := PruneOn(h, root, es[..k], labels);
    assert es[k] in es;
    LastPlaneUnique(es);
    PruneKeepsChild(h, root, es[..k], labels, p);
    PruneKeepsRemovable(h, root, es[..k], labels, [es[k]]);
    assert [es[k]][0] == es[k];
    RemovePlaneKeepsExclusive(a, root, p);
  }

  /** A new plane is a removable leaf of the model, and it leaves the tracked planes removable. */
  lemma CreateKeepsRemovable(h: Heap, root: Id, es: seq<Plane>, l: TextLabel)
    requires Wf(h) && IsRoot(h, root) && Removable(h, root, es)
    ensures var r := CreatePlaneOn(h, root, l);
            IsRoot(r, root) && Removable(r, root, es + [Plane(l.id, |h.objs| + 3)])
  {
    var n := |h.objs|;
    CreatePlaneEffects(h, root, l);
    var r := CreatePlaneOn(h, root, l);
    var c := PlaneNode(n + 3, l.position);
    assert r.objs[root].tree == AddChild(h.objs[root].tree, c);
    AddPlaneRemovable(h, r, root, es, c, Plane(l.id, n + 3));
  }

  /** Hanging a new leaf plane `e` under the model keeps the tracked planes removable, `e` included. */
  lemma AddPlaneRemovable(h: Heap, r: Heap, root: Id, es: seq<Plane>, c: Node, e: Plane)
    requires Wf(h) && IsRoot(h, root) && Removable(h, root, es)
    requires e.mesh >= |h.objs| && c.kind == Mesh(e.mesh) && c.children == []
    requires IsRoot(r, root) && r.objs[root].tree == AddChild(h.objs[root].tree, c)
    requires IsMesh(r, e.mesh) && r.objs[e.mesh].slot.Single?
    requires forall x :: 0 <= x < |h.objs| && x != root ==> r.objs[x] == h.objs[x]
    ensures Removable(r, root, es + [e])
  {
    var t := h.objs[root].tree;
    LeafMeshIds(c);
    assert ObjOk(h, root);
    forall f | f in es + [e]
      ensures IsMesh(r, f.mesh) && r.objs[f.mesh].slot.Single? && Detachable(r.objs[root].tree, f.mesh)
    {
      if f in es {
        assert IsMesh(h, f.mesh) && f.mesh != root && f.mesh != e.mesh;
        AddChildDetachable(t, c, f.mesh);
      } else {
        AddLeafDetachable(t, c, e.mesh);
      }
    }
  }

  /** One label keeps ownership exclusive and every tracked plane removable. */
  lemma PlaceOneKeepsExclusive(h: Heap, root: Id, es: seq<Plane>, l: TextLabel)
    requires Wf(h) && IsRoot(h, root) && Tracked(h, es) && Removable(h, root, es) && Exclusive(h, ModelMeshes(h, root))
    ensures var r := PlaceOneOn(h, root, es, l);
            IsRoot(r.heap, root) && Removable(r.heap, root, r.planes) && Exclusive(r.heap, ModelMeshes(r.heap, root))
  {
    match Lookup(es, l.id)
    case None =>
      assert PlaceOneOn(h, root, es, l) == Pass(CreatePlaneOn(h, root, l), es + [Plane(l.id, |h.objs| + 3)]);
      CreatePlaneKeepsExclusive(h, root, l);
      CreateKeepsRemovable(h, root, es, l);
    case Some(p) =>
      assert Plane(l.id, p) in es;
      WfPlaneParts(h, p);
      assert PlaceOneOn(h, root, es, l) == Pass(RetextureOn(h, p, l), es);
      RetextureKeepsExclusive(h, root, p, l);
      SameMeshesRemovable(h, RetextureOn(h, p, l), root, es);
  }

  /** A step that changes neither the model's tree nor any mesh keeps the tracked planes removable. */
  lemma SameMeshesRemovable(h: Heap, r: Heap, root: Id, es: seq<Plane>)
    requires IsRoot(h, root) && Removable(h, root, es)
    requires IsRoot(r, root) && r.objs[root] == h.objs[root]
    requires forall m: Id :: IsMesh(h, m) ==> IsMesh(r, m) && r.objs[m] == h.objs[m]
    ensures Removable(r, root, es)
  {
  }

  /** The add-or-update loop keeps ownership exclusive and every tracked plane removable. */
  lemma {:induction false} PlaceKeepsExclusive(h: Heap, root: Id, es: seq<Plane>, labels: seq<TextLabel>)
    requires Wf(h) && IsRoot(h, root) && Tracked(h, es) && Removable(h, root, es) && Exclusive(h, ModelMeshes(h, root))
    ensures var r := PlaceOn(h, root, es, labels);
            IsRoot(r.heap, root) && Removable(r.heap, root, r.planes) && Exclusive(r.heap, ModelMeshes(r.heap, root))
    decreases |labels|
  {
    if labels != [] {
      var k := |labels| - 1;
      var a := PlaceOn(h, root, es, labels[..k]);
      PlaceOnLast(h, root, es, labels);
      PlaceKeepsExclusive(h, root, es, labels[..k]);
      PlaceOneKeepsExclusive(a.heap, root, a.planes, labels[k]);
    }
  }

  /**
   * A run of the label effect on a model keeps ownership among the model's meshes exclusive:
   * the planes it removes take their materials with them, the planes it creates bring their own.
   */
  lemma ReconcileKeepsExclusive(h: Heap, root: Id, es: seq<Plane>, labels: seq<TextLabel>)
    requires Wf(h) && IsRoot(h, root) && Tracked(h, es) && InModel(h, root, es) && DistinctPlanes(es)
    requires Removable(h, root, es) && Exclusive(h, ModelMeshes(h, root))
    ensures var r := ReconcileOn(h, Some(root), es, labels);
            IsRoot(r.heap, root) && Removable(r.heap, root, r.planes) && Exclusive(r.heap, ModelMeshes(r.heap, root))
  {
    var ks := Kept(es, labels);
    PruneKeepsExclusive(h, root, es, labels);
    PruneKeepsRemovable(h, root, es, labels, ks);
    var h1 := PruneOn(h, root, es, labels);
    TrackedExtends(h, h1, es);
    PlaceKeepsExclusive(h1, root, ks, labels);
  }

  /** The cleanup keeps ownership among the meshes the model still reaches exclusive. */
  lemma CleanupKeepsExclusive(h: Heap, root: Id, es: seq<Plane>)
    requires Wf(h) && IsRoot(h, root) && Tracked(h, es) && InModel(h, root, es) && DistinctPlanes(es)
    requires Removable(h, root, es) && Exclusive(h, ModelMeshes(h, root))
    ensures var r := CleanupOn(h, root, es).heap;
            IsRoot(r, root) && Exclusive(r, ModelMeshes(r, root))
  {
    PruneKeepsExclusive(h, root, es, []);
  }

  /** A re-run on the same model (cleanup, then a fresh run) keeps ownership exclusive. */
  lemma RerunKeepsExclusive(h: Heap, root: Id, es: seq<Plane>, labels: seq<TextLabel>)
    requires Wf(h) && IsRoot(h, root) && Tracked(h, es) && InModel(h, root, es) && DistinctPlanes(es)
    requires Removable(h, root, es) && Exclusive(h, ModelMeshes(h, root))
    ensures var r := RerunOn(h, Some(root), Some(root), es, labels);
            IsRoot(r.heap, root) && Removable(r.heap, root, r.planes) && Exclusive(r.heap, ModelMeshes(r.heap, root))
  {
    CleanupKeepsExclusive(h, root, es);
    var c := CleanupOn(h, root, es);
    ExtendsKinds(h, c.heap);
    ReconcileKeepsExclusive(c.heap, root, [], labels);
  }

  /**
   * On a freshly loaded model the zone effect runs first and the label effect after it, with no
   * plane tracked yet: from then on every mesh the model reaches holds materials of its own.
   */
  lemma FreshModelExclusive(h: Heap, root: Id, z: ZoneColors, labels: seq<TextLabel>)
    requires Wf(h) && IsRoot(h, root) && ZonesCover(h, root) && HeldByModel(h, root)
    ensures var h1 := ZonePassOn(h, root, z);
            && IsRoot(h1, root)
            && var r := ReconcileOn(h1, Some(root), [], labels);
            && IsRoot(r.heap, root) && Removable(r.heap, root, r.planes)
            && Exclusive(r.heap, ModelMeshes(r.heap, root))
  {
    var h1 := ZonePassOn(h, root, z);
    ZonePassEstablishes(h, root, z);
    ExtendsKinds(h, h1);
    assert h1.objs[root] == h.objs[root];
    assert ModelMeshes(h1, root) == ModelMeshes(h, root);
    ReconcileKeepsExclusive(h1, root, [], labels);
  }

  // ---------------------------------------------------------------------------
  // The effect on the mutable world
  // ---------------------------------------------------------------------------

  method RemovePlane(w: World, root: Id, p: Id)
    requires w.Valid() && IsRoot(w.Snapshot(), root) && PlaneParts(w.Snapshot(), p)
    modifies w
    ensures w.Valid() && w.Snapshot() == RemovePlaneOn(old(w.Snapshot()), root, p)
  {
    ghost var h := w.Snapshot();
    RemovePlaneOnWf(h, root, p);
    assert ObjOk(h, root);
    RemoveMeshChildMeshes(w.objs[root].tree, p);
    var g, slot := w.objs[p].geometry, w.objs[p].slot;
    w.SetRoot(root, RemoveMeshChild(w.objs[root].tree, p));
    w.Dispose(g);
    match slot
    case Single(m) =>
      assert m in Handles(slot);
      w.Dispose(m);
    case Multi(_) =>
  }

  method CreatePlane(w: World, root: Id, l: TextLabel) returns (p: Id)
    requires w.Valid() && IsRoot(w.Snapshot(), root)
    modifies w
    ensures w.Valid() && p == |old(w.objs)| + 3
    ensures w.Snapshot() == CreatePlaneOn(old(w.Snapshot()), root, l)
  {
    ghost var h := w.Snapshot();
    CreatePlaneOnWf(h, root, l);
    p := NewPlane(w, l);
    ghost var h4 := w.Snapshot();
    assert h4.objs[root] == h.objs[root];
    var tree := AddChild(w.objs[root].tree, PlaneNode(p, l.position));
    PlaneTreeMeshes(h4, root, PlaneNode(p, l.position));
    assert CreatePlaneOn(h, root, l) == SetRootOn(h4, root, tree);
    w.SetRoot(root, tree);
  }

  /** The model's tree with a new leaf plane reaches meshes only. */
  lemma PlaneTreeMeshes(h: Heap, root: Id, c: Node)
    requires Wf(h) && IsRoot(h, root) && c.children == [] && c.kind.Mesh? && IsMesh(h, c.kind.id)
    ensures forall m :: m in MeshIds(AddChild(h.objs[root].tree, c)) ==> IsMesh(h, m)
  {
    assert ObjOk(h, root);
    AddChildMeshes(h.objs[root].tree, c);
    LeafMeshIds(c);
  }

  /** The four allocations of a new plane: geometry, text texture, material, mesh. */
  method NewPlane(w: World, l: TextLabel) returns (p: Id)
    requires w.Valid()
    modifies w
    ensures w.Valid() && p == |old(w.objs)| + 3
    ensures w.Snapshot() == NewPlaneOn(old(w.Snapshot()), l)
  {
    var g := w.NewGeometry(PlaneGeometry);
    var t := w.NewTexture(LabelTexture(l));
    var m := w.NewMaterial(PlaneMaterial(t));
    p := w.NewMesh(g, m);
  }

  method Retexture(w: World, p: Id, l: TextLabel)
    requires w.Valid() && PlaneParts(w.Snapshot(), p)
    modifies w
    ensures w.Valid() && w.Snapshot() == RetextureOn(old(w.Snapshot()), p, l)
  {
    ghost var h := w.Snapshot();
    RetextureOnWf(h, p, l);
    var t := w.NewTexture(LabelTexture(l));
    var slot := w.objs[p].slot;
    if slot.Single? && w.objs[slot.handle].mat.kind == MeshBasic {
      assert slot.handle in Handles(slot);
      var mat := w.objs[slot.handle].mat;
      if mat.textureMap.Some? {
        w.Dispose(mat.textureMap.value);
      }
      w.WriteMaterial(slot.handle, mat.(textureMap := Some(t)));
    }
  }

  /** `currentPlanes.delete(id)`: the entries without the one for `id`. */
  function Drop(es: seq<Plane>, id: string): (r: seq<Plane>)
    ensures forall e :: e in r <==> e in es && e.key != id
  {
    if es == [] then []
    else if es[0].key == id then Drop(es[1..], id)
    else [es[0]] + Drop(es[1..], id)
  }

  lemma {:induction false} DropAbsent(es: seq<Plane>, id: string)
    requires id !in Ids(es)
    ensures Drop(es, id) == es
  {
    if es != [] {
      assert Ids(es[1..]) == Ids(es)[1..];
      DropAbsent(es[1..], id);
    }
  }

  /** Deleting a key keeps the keys of the map distinct. */
  lemma {:induction false} DropNoDup(es: seq<Plane>, id: string)
    requires NoDupIds(es)
    ensures NoDupIds(Drop(es, id))
  {
    if es != [] {
      var t := es[1..];
      assert NoDupIds(t) by {
        forall i, j | 0 <= i < j < |t| ensures t[i].key != t[j].key {
          assert t[i] == es[i + 1] && t[j] == es[j + 1];
        }
      }
      DropNoDup(t, id);
      if es[0].key != id {
        var d := Drop(t, id);
        forall e | e in d ensures e.key != es[0].key {
          var j :| 0 <= j < |t| && t[j] == e;
          assert es[j + 1] == e;
        }
        var r := [es[0]] + d;
        forall i, j | 0 <= i < j < |r| ensures r[i].key != r[j].key {
          if i > 0 {
            assert r[i] == d[i - 1] && r[j] == d[j - 1];
          } else {
            assert r[j] == d[j - 1] && d[j - 1] in d;
          }
        }
      }
    }
  }

  lemma {:induction false} DropAppend(a: seq<Plane>, b: seq<Plane>, id: string)
    ensures Drop(a + b, id) == Drop(a, id) + Drop(b, id)
    decreases |a|
  {
    if a == [] {
      assert a + b == b;
    } else {
      assert (a + b)[0] == a[0] && (a + b)[1..] == a[1..] + b;
      DropAppend(a[1..], b, id);
      if a[0].key != id {
        assert [a[0]] + (Drop(a[1..], id) + Drop(b, id)) == [a[0]] + Drop(a[1..], id) + Drop(b, id);
      }
    }
  }

  /** Deleting the key of an entry that no other entry has drops exactly that entry. */
  lemma DropOnly(a: seq<Plane>, e: Plane, b: seq<Plane>)
    requires e.key !in Ids(a) && e.key !in Ids(b)
    ensures Drop(a + [e] + b, e.key) == a + b
  {
    DropAppend(a + [e], b, e.key);
    DropAppend(a, [e], e.key);
    assert Drop([e], e.key) == [] by {
      assert [e][1..] == [];
    }
    DropAbsent(a, e.key);
    DropAbsent(b, e.key);
    assert Drop(a + [e], e.key) == a;
  }

  /** An entry the removal loop deletes has a key no other entry left in the map has. */
  lemma KeptAbsent(es: seq<Plane>, i: nat, labels: seq<TextLabel>)
    requires NoDupIds(es) && i < |es| && !HasLabel(labels, es[i].key)
    ensures es[i].key !in Ids(Kept(es[..i], labels)) && es[i].key !in Ids(es[i + 1..])
  {
  }

  lemma KeptLast(es: seq<Plane>, i: nat, labels: seq<TextLabel>)
    requires i < |es|
    ensures Kept(es[..i + 1], labels) ==
            if HasLabel(labels, es[i].key) then Kept(es[..i], labels) + [es[i]] else Kept(es[..i], labels)
  {
    assert es[..i + 1][..i] == es[..i];
  }

  /** One step of the removal loop on the map: a kept entry stays, a stale one is deleted. */
  lemma KeptStep(es: seq<Plane>, i: nat, labels: seq<TextLabel>)
    requires NoDupIds(es) && i < |es|
    ensures Kept(es[..i + 1], labels) + es[i + 1..] ==
            if HasLabel(labels, es[i].key) then Kept(es[..i], labels) + es[i..]
            else Drop(Kept(es[..i], labels) + es[i..], es[i].key)
  {
    KeptLast(es, i, labels);
    var ks, e, rest := Kept(es[..i], labels), es[i], es[i + 1..];
    assert es[i..] == [e] + rest;
    SplitAt(ks, e, rest);
    if !HasLabel(labels, e.key) {
      KeptAbsent(es, i, labels);
      DropOnly(ks, e, rest);
    }
  }

  lemma SplitAt(ks: seq<Plane>, e: Plane, rest: seq<Plane>)
    ensures ks + [e] + rest == ks + ([e] + rest)
  {
  }

  /** One step of the removal loop on the heap. */
  lemma PruneStep(h0: Heap, root: Id, es: seq<Plane>, i: nat, labels: seq<TextLabel>)
    requires Wf(h0) && IsRoot(h0, root) && Tracked(h0, es) && i < |es|
    ensures var h := PruneOn(h0, root, es[..i], labels);
            && IsRoot(h, root) && PlaneParts(h, es[i].mesh)
            && PruneOn(h0, root, es[..i + 1], labels) ==
               if HasLabel(labels, es[i].key) then h else RemovePlaneOn(h, root, es[i].mesh)
  {
    assert es[..i + 1][..i] == es[..i];
    PruneOnLast(h0, root, es[..i + 1], labels);
  }

  /** The `textPlanesRef` map: label id to plane, in insertion order. */
  class LabelPlanes {
    var entries: seq<Plane>

    ghost predicate Valid()
      reads this
    {
      NoDupIds(entries)
    }

    constructor ()
      ensures Valid() && entries == []
    {
      entries := [];
    }

    /** `set(id, mesh)` for an id not in the map: a new entry at the end. */
    method Set(id: string, mesh: Id)
      requires Valid() && id !in Ids(entries)
      modifies this
      ensures Valid() && entries == old(entries) + [Plane(id, mesh)]
    {
      NoDupAppend(entries, Plane(id, mesh));
      entries := entries + [Plane(id, mesh)];
    }

    method Delete(id: string)
      requires Valid()
      modifies this
      ensures Valid() && entries == Drop(old(entries), id)
    {
      DropNoDup(entries, id);
      entries := Drop(entries, id);
    }

    method Clear()
      modifies this
      ensures Valid() && entries == []
    {
      entries := [];
    }
  }

  /** The removal loop: every plane whose id no label has is removed, disposed and deleted from the map. */
  method RemoveStale(w: World, planes: LabelPlanes, root: Id, labels: seq<TextLabel>)
    requires w.Valid() && IsRoot(w.Snapshot(), root) && planes.Valid() && Tracked(w.Snapshot(), planes.entries)
    modifies w, planes
    ensures w.Valid() && planes.Valid()
    ensures w.Snapshot() == PruneOn(old(w.Snapshot()), root, old(planes.entries), labels)
    ensures planes.entries == Kept(old(planes.entries), labels)
  {
    ghost var h0 := w.Snapshot();
    var es := planes.entries;
    for i := 0 to |es|
      invariant w.Valid() && IsRoot(w.Snapshot(), root)
      invariant w.Snapshot() == PruneOn(h0, root, es[..i], labels)
      invariant planes.entries == Kept(es[..i], labels) + es[i..] && planes.Valid()
    {
      PruneStep(h0, root, es, i, labels);
      KeptStep(es, i, labels);
      if !HasLabel(labels, es[i].key) {
        RemovePlane(w, root, es[i].mesh);
        planes.Delete(es[i].key);
      }
    }
    assert es[..|es|] == es;
    KeptNoDup(es, labels);
  }

  /** The add-or-update loop: a new plane for each untracked label id, a new texture for each tracked one. */
  method AddOrUpdate(w: World, planes: LabelPlanes, root: Id, labels: seq<TextLabel>)
    requires w.Valid() && IsRoot(w.Snapshot(), root) && planes.Valid() && Tracked(w.Snapshot(), planes.entries)
    modifies w, planes
    ensures w.Valid() && planes.Valid() && Tracked(w.Snapshot(), planes.entries)
    ensures Pass(w.Snapshot(), planes.entries) == PlaceOn(old(w.Snapshot()), root, old(planes.entries), labels)
  {
    ghost var h0 := w.Snapshot();
    ghost var es := planes.entries;
    for i := 0 to |labels|
      invariant w.Valid() && IsRoot(w.Snapshot(), root) && planes.Valid()
      invariant Pass(w.Snapshot(), planes.entries) == PlaceOn(h0, root, es, labels[..i])
      invariant Tracked(w.Snapshot(), planes.entries)
    {
      PlaceOnLast(h0, root, es, labels[..i + 1]);
      assert labels[..i + 1][..i] == labels[..i];
      PlaceOne(w, planes, root, labels[i]);
    }
    assert labels[..|labels|] == labels;
  }

  /** The body of the add-or-update loop for one label. */
  method PlaceOne(w: World, planes: LabelPlanes, root: Id, l: TextLabel)
    requires w.Valid() && IsRoot(w.Snapshot(), root) && planes.Valid() && Tracked(w.Snapshot(), planes.entries)
    modifies w, planes
    ensures w.Valid() && IsRoot(w.Snapshot(), root) && planes.Valid()
    ensures Pass(w.Snapshot(), planes.entries) == PlaceOneOn(old(w.Snapshot()), root, old(planes.entries), l)
  {
    ghost var h := w.Snapshot();
    ghost var es := planes.entries;
    match Lookup(planes.entries, l.id)
    case None =>
      var p := CreatePlane(w, root, l);
      planes.Set(l.id, p);
    case Some(p) =>
      assert Plane(l.id, p) in planes.entries;
      WfPlaneParts(w.Snapshot(), p);
      Retexture(w, p, l);
    assert Pass(w.Snapshot(), planes.entries) == PlaceOneOn(h, root, es, l);
    PlaceOneKeepsRoot(h, root, es, l);
  }

  lemma PlaceOneKeepsRoot(h: Heap, root: Id, es: seq<Plane>, l: TextLabel)
    requires Wf(h) && IsRoot(h, root) && Tracked(h, es)
    ensures IsRoot(PlaceOneOn(h, root, es, l).heap, root)
  {
    ExtendsKinds(h, PlaceOneOn(h, root, es, l).heap);
  }

  /** The effect body on model `root`: the removal loop, then the add-or-update loop. */
  method Reconcile(w: World, planes: LabelPlanes, root: Id, labels: seq<TextLabel>)
    requires w.Valid() && IsRoot(w.Snapshot(), root) && planes.Valid() && Tracked(w.Snapshot(), planes.entries)
    modifies w, planes
    ensures w.Valid() && planes.Valid() && Tracked(w.Snapshot(), planes.entries)
    ensures Pass(w.Snapshot(), planes.entries) == ReconcileOn(old(w.Snapshot()), Some(root), old(planes.entries), labels)
  {
    ghost var h0 := w.Snapshot();
    RemoveStale(w, planes, root, labels);
    ExtendsKinds(h0, w.Snapshot());
    AddOrUpdate(w, planes, root, labels);
  }

  /** The effect's cleanup: every tracked plane removed and disposed, then the map cleared. */
  method Cleanup(w: World, planes: LabelPlanes, root: Id)
    requires w.Valid() && IsRoot(w.Snapshot(), root) && Tracked(w.Snapshot(), planes.entries)
    modifies w, planes
    ensures w.Valid() && planes.Valid()
    ensures Pass(w.Snapshot(), planes.entries) == CleanupOn(old(w.Snapshot()), root, old(planes.entries))
  {
    ghost var h0 := w.Snapshot();
    var es := planes.entries;
    for i := 0 to |es|
      invariant w.Valid() && IsRoot(w.Snapshot(), root)
      invariant w.Snapshot() == PruneOn(h0, root, es[..i], [])
    {
      PruneStep(h0, root, es, i, []);
      RemovePlane(w, root, es[i].mesh);
    }
    assert es[..|es|] == es;
    planes.Clear();
  }

  /** One run of the effect: nothing without a model (`if (!model) return`), else the body. */
  method Run(w: World, planes: LabelPlanes, model: Option<Id>, labels: seq<TextLabel>)
    requires w.Valid() && (model.Some? ==> IsRoot(w.Snapshot(), model.value))
    requires planes.Valid() && Tracked(w.Snapshot(), planes.entries)
    modifies w, planes
    ensures w.Valid() && planes.Valid() && Tracked(w.Snapshot(), planes.entries)
    ensures Pass(w.Snapshot(), planes.entries) == ReconcileOn(old(w.Snapshot()), model, old(planes.entries), labels)
  {
    if model.Some? {
      Reconcile(w, planes, model.value, labels);
    }
  }

  /** A change of `model` or `textLabels`: the previous run's cleanup, if it registered one, then a new run. */
  method Rerun(w: World, planes: LabelPlanes, prev: Option<Id>, model: Option<Id>, labels: seq<TextLabel>)
    requires w.Valid() && (prev.Some? ==> IsRoot(w.Snapshot(), prev.value))
    requires model.Some? ==> IsRoot(w.Snapshot(), model.value)
    requires planes.Valid() && Tracked(w.Snapshot(), planes.entries)
    modifies w, planes
    ensures w.Valid() && planes.Valid() && Tracked(w.Snapshot(), planes.entries)
    ensures Pass(w.Snapshot(), planes.entries) == RerunOn(old(w.Snapshot()), prev, model, old(planes.entries), labels)
  {
    ghost var h0 := w.Snapshot();
    if prev.Some? {
      Cleanup(w, planes, prev.value);
      ExtendsKinds(h0, w.Snapshot());
    }
    Run(w, planes, model, labels);
  }
}
