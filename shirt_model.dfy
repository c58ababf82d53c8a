/**
 * `useShirtModel` (src/components/ThreeCanvas/useShirtModel.ts): the two effects that keep the
 * loaded shirt in step with the store. The zone effect recolours every mesh under the zone
 * roots `sleeves`, `front_torso` and `back_torso`; the label effect keeps one textured plane per
 * text label as a child of the model.
 */
module ShirtModel {
  import opened Wrappers
  import opened SceneGraph
  import opened Resources
  import opened ColorUtils

  // ---------------------------------------------------------------------------
  // The zone effect
  // ---------------------------------------------------------------------------

  /** The names the zone roots are looked up by. */
  const SleevesZone := "sleeves"
  const FrontZone := "front_torso"
  const BackZone := "back_torso"

  /** The three colours the zone effect reads from the store. */
  datatype ZoneColors = ZoneColors(sleeve: Color, front: Color, back: Color)

  /** `applyColorToMesh(m, c)` for each of `ms` in turn: the `traverse` callbacks of one zone. */
  function ColorMeshesOn(h: Heap, ms: seq<Id>, c: Color): (r: Heap)
    requires Wf(h) && AllMeshes(h, ms)
    ensures Wf(r) && Extends(h, r) && r.scene == h.scene
    ensures forall x: Id :: IsRoot(h, x) ==> r.objs[x] == h.objs[x]
    ensures forall m: Id :: IsMesh(h, m) ==> IsMesh(r, m) && r.objs[m].slot.Single? == h.objs[m].slot.Single?
    decreases |ms|
  {
    if ms == [] then h
    else
      var k := |ms| - 1;
      var a := ColorMeshesOn(h, ms[..k], c);
      ExtendsKinds(h, a);
      assert IsMesh(h, ms[k]);
      ApplyColorWf(a, ms[k], c);
      ApplyColorExtends(a, ms[k], c);
      ApplyColorKeepsRoots(a, ms[k], c);
      ApplyColorKeepsShape(a, ms[k], c);
      ApplyColorOn(a, ms[k], c)
  }

  /** The meshes `zone.traverse` reaches, or none when the zone root is missing. */
  function ZoneMeshes(z: Option<Node>): seq<Id>
  {
    if z.Some? then MeshIds(z.value) else []
  }

  /** The meshes of the zone named `name` under model root `root`. */
  function ZoneOf(h: Heap, root: Id, name: string): seq<Id>
    requires IsRoot(h, root)
  {
    ZoneMeshes(Find(h.objs[root].tree, name))
  }

  /** None of the three zone roots is found: the effect falls back to the whole model. */
  predicate NoZones(h: Heap, root: Id)
    requires IsRoot(h, root)
  {
    var t := h.objs[root].tree;
    Find(t, SleevesZone).None? && Find(t, FrontZone).None? && Find(t, BackZone).None?
  }

  /** One zone traversal: the meshes under the zone root named `name` take colour `c`. */
  function ZoneStepOn(h: Heap, root: Id, name: string, c: Color): (r: Heap)
    requires Wf(h) && IsRoot(h, root)
    ensures Wf(r) && Extends(h, r) && r.scene == h.scene
    ensures forall x: Id :: IsRoot(h, x) ==> r.objs[x] == h.objs[x]
    ensures forall m: Id :: IsMesh(h, m) ==> IsMesh(r, m) && r.objs[m].slot.Single? == h.objs[m].slot.Single?
  {
    ZoneMeshesOk(h, root, name);
    ColorMeshesOn(h, ZoneOf(h, root, name), c)
  }

  /**
   * The three zone traversals, sleeves first, then front, then back. The traversals leave
   * every scene graph as it was, so each finds the same zone root as a lookup done before any.
   */
  function ZonesOn(h: Heap, root: Id, z: ZoneColors): (r: Heap)
    requires Wf(h) && IsRoot(h, root)
    ensures Wf(r) && Extends(h, r) && r.scene == h.scene
    ensures forall x: Id :: IsRoot(h, x) ==> r.objs[x] == h.objs[x]
    ensures forall m: Id :: IsMesh(h, m) ==> IsMesh(r, m) && r.objs[m].slot.Single? == h.objs[m].slot.Single?
  {
    var h1 := ZoneStepOn(h, root, SleevesZone, z.sleeve);
    var h2 := ZoneStepOn(h1, root, FrontZone, z.front);
    var h3 := ZoneStepOn(h2, root, BackZone, z.back);
    ZoneStepsCompose(h, h1, h2, h3);
    h3
  }

  /** Three zone steps whose effects each keep roots and meshes compose to one such effect. */
  lemma ZoneStepsCompose(h: Heap, h1: Heap, h2: Heap, h3: Heap)
    requires Wf(h3) && Extends(h, h1) && Extends(h1, h2) && Extends(h2, h3)
    requires h1.scene == h.scene && h2.scene == h1.scene && h3.scene == h2.scene
    requires forall x: Id :: IsRoot(h, x) ==> h1.objs[x] == h.objs[x]
    requires forall x: Id :: IsRoot(h1, x) ==> h2.objs[x] == h1.objs[x]
    requires forall x: Id :: IsRoot(h2, x) ==> h3.objs[x] == h2.objs[x]
    requires forall m: Id :: IsMesh(h, m) ==> IsMesh(h1, m) && h1.objs[m].slot.Single? == h.objs[m].slot.Single?
    requires forall m: Id :: IsMesh(h1, m) ==> IsMesh(h2, m) && h2.objs[m].slot.Single? == h1.objs[m].slot.Single?
    requires forall m: Id :: IsMesh(h2, m) ==> IsMesh(h3, m) && h3.objs[m].slot.Single? == h2.objs[m].slot.Single?
    ensures Wf(h3) && Extends(h, h3) && h3.scene == h.scene
    ensures forall x: Id :: IsRoot(h, x) ==> h3.objs[x] == h.objs[x]
    ensures forall m: Id :: IsMesh(h, m) ==> IsMesh(h3, m) && h3.objs[m].slot.Single? == h.objs[m].slot.Single?
  {
    ExtendsTrans(h, h1, h2);
    ExtendsTrans(h, h2, h3);
  }

  /**
   * The zone effect on model root `root`: the zone traversals, or the fallback over the whole
   * model. Only materials and the meshes' slots change: the scene and every model root, and so
   * every scene graph, stay as they were.
   */
  function ZonePassOn(h: Heap, root: Id, z: ZoneColors): (r: Heap)
    requires Wf(h) && IsRoot(h, root)
    ensures Wf(r) && Extends(h, r) && r.scene == h.scene
    ensures forall x: Id :: IsRoot(h, x) ==> r.objs[x] == h.objs[x]
    ensures forall m: Id :: IsMesh(h, m) ==> IsMesh(r, m) && r.objs[m].slot.Single? == h.objs[m].slot.Single?
  {
    var h3 := ZonesOn(h, root, z);
    if NoZones(h, root) then
      assert ObjOk(h, root);
      ExtendsKinds(h, h3);
      ColorMeshesOn(h3, MeshIds(h.objs[root].tree), z.front)
    else h3
  }

  /** The meshes under a zone root are meshes of the heap. */
  lemma ZoneMeshesOk(h: Heap, root: Id, name: string)
    requires Wf(h) && IsRoot(h, root)
    ensures AllMeshes(h, ZoneOf(h, root, name))
    ensures forall m :: m in ZoneOf(h, root, name) ==> m in MeshIds(h.objs[root].tree)
  {
    var t := h.objs[root].tree;
    assert ObjOk(h, root);
    FindIsFirstInPreorder(t, name);
    var z := Find(t, name);
    if z.Some? {
      SubtreeMeshes(t, z.value);
    }
  }

  // ---------------------------------------------------------------------------
  // What the zone effect guarantees
  // ---------------------------------------------------------------------------

  /**
   * Mesh `m` shows colour `c`: every material it holds has no texture map and, when it has a
   * `color` property, that colour is `c`.
   */
  ghost predicate Painted(h: Heap, m: Id, c: Color)
  {
    && IsMesh(h, m)
    && forall x :: x in SlotOf(h, m) ==>
         && IsMaterial(h, x)
         && h.objs[x].mat.textureMap.None?
         && (h.objs[x].mat.color.Some? ==> h.objs[x].mat.color.value == c)
  }

  /** Mesh `m` holds the same materials in `r` as in `h`, and those materials read the same. */
  ghost predicate SameLook(h: Heap, r: Heap, m: Id)
  {
    && IsMesh(h, m) && IsMesh(r, m) && SlotOf(r, m) == SlotOf(h, m)
    && forall x :: x in SlotOf(h, m) ==> IsMaterial(h, x) && IsMaterial(r, x) && r.objs[x].mat == h.objs[x].mat
  }

  lemma SameLookPainted(h: Heap, r: Heap, m: Id, c: Color)
    requires SameLook(h, r, m) && Painted(h, m, c)
    ensures Painted(r, m, c)
  {
  }

  lemma SameLookTrans(h1: Heap, h2: Heap, h3: Heap, m: Id)
    requires SameLook(h1, h2, m) && SameLook(h2, h3, m)
    ensures SameLook(h1, h3, m)
  {
  }

  /** applyColorToMesh paints the mesh it is given. */
  lemma ApplyColorPaints(h: Heap, mesh: Id, c: Color)
    requires IsMesh(h, mesh) && AllMaterials(h, SlotOf(h, mesh))
    ensures Painted(ApplyColorOn(h, mesh, c), mesh, c)
  {
    ApplyColorClones(h, mesh, c);
    ClonesPainted(h, ApplyColorOn(h, mesh, c), mesh, SlotOf(h, mesh), c);
  }

  /** A mesh whose slot is a block of recoloured clones is painted in the colour. */
  lemma ClonesPainted(h: Heap, r: Heap, mesh: Id, olds: seq<Id>, c: Color)
    requires AllMaterials(h, olds) && |r.objs| == |h.objs| + |olds|
    requires IsMesh(r, mesh) && SlotOf(r, mesh) == Range(|h.objs|, |olds|)
    requires forall x :: |h.objs| <= x < |h.objs| + |olds| ==> r.objs[x] == MaterialObj(Recolor(h.objs[olds[x - |h.objs|]].mat, c), Live)
    ensures Painted(r, mesh, c)
  {
    var n := |h.objs|;
    forall x | n <= x < n + |olds|
      ensures && IsMaterial(r, x) && r.objs[x].mat.textureMap.None?
              && (r.objs[x].mat.color.Some? ==> r.objs[x].mat.color.value == c)
    {
      assert r.objs[x] == MaterialObj(Recolor(h.objs[olds[x - n]].mat, c), Live);
    }
    PaintedByClones(r, mesh, c, n, |olds|);
  }

  /** A mesh whose slot holds fresh materials with no map and colour `c` shows `c`. */
  lemma PaintedByClones(r: Heap, mesh: Id, c: Color, n: nat, k: nat)
    requires IsMesh(r, mesh) && SlotOf(r, mesh) == Range(n, k)
    requires forall x :: n <= x < n + k ==>
               && IsMaterial(r, x) && r.objs[x].mat.textureMap.None?
               && (r.objs[x].mat.color.Some? ==> r.objs[x].mat.color.value == c)
    ensures Painted(r, mesh, c)
  {
  }

  /** applyColorToMesh leaves the look of every other mesh of a well-formed heap alone. */
  lemma ApplyColorKeepsLook(h: Heap, mesh: Id, m: Id, c: Color)
    requires Wf(h) && IsMesh(h, mesh) && IsMesh(h, m) && m != mesh
    ensures AllMaterials(h, SlotOf(h, mesh)) && SameLook(h, ApplyColorOn(h, mesh, c), m)
  {
    SlotMaterials(h, mesh);
    SlotMaterials(h, m);
    ApplyColorExtends(h, mesh, c);
    var r := ApplyColorOn(h, mesh, c);
    var olds := SlotOf(h, mesh);
    assert m !in olds && r.objs[m] == h.objs[m];
    forall x | x in SlotOf(h, m)
      ensures IsMaterial(r, x) && r.objs[x].mat == h.objs[x].mat
    {
      assert IsMaterial(h, x);
      if x in olds {
        ApplyColorReplaces(h, mesh, c);
      }
    }
  }

  /** The last step of ColorMeshesOn, with what it needs. */
  lemma ColorMeshesLast(h: Heap, ms: seq<Id>, c: Color)
    requires Wf(h) && AllMeshes(h, ms) && ms != []
    ensures var k := |ms| - 1;
            && AllMeshes(h, ms[..k])
            && var a := ColorMeshesOn(h, ms[..k], c);
            && Wf(a) && IsMesh(a, ms[k]) && AllMaterials(a, SlotOf(a, ms[k]))
            && ColorMeshesOn(h, ms, c) == ApplyColorOn(a, ms[k], c)
  {
    var k := |ms| - 1;
    var a := ColorMeshesOn(h, ms[..k], c);
    ExtendsKinds(h, a);
    assert IsMesh(a, ms[k]);
    SlotMaterials(a, ms[k]);
  }

  /** Every mesh of `ms` ends up painted `c`. */
  lemma {:induction false} ColorMeshesPaints(h: Heap, ms: seq<Id>, c: Color, m: Id)
    requires Wf(h) && AllMeshes(h, ms) && m in ms
    ensures Painted(ColorMeshesOn(h, ms, c), m, c)
    decreases |ms|
  {
    var k := |ms| - 1;
    ColorMeshesLast(h, ms, c);
    if m != ms[k] {
      assert m in ms[..k];
      ColorMeshesPaints(h, ms[..k], c, m);
    }
    StaysPainted(ColorMeshesOn(h, ms[..k], c), ms[k], m, c);
  }

  /** After applyColorToMesh(mesh, c), a mesh painted `c` before, or `mesh` itself, is painted `c`. */
  lemma StaysPainted(h: Heap, mesh: Id, m: Id, c: Color)
    requires Wf(h) && IsMesh(h, mesh) && (m == mesh || Painted(h, m, c))
    ensures AllMaterials(h, SlotOf(h, mesh)) && Painted(ApplyColorOn(h, mesh, c), m, c)
  {
    SlotMaterials(h, mesh);
    if m == mesh {
      ApplyColorPaints(h, mesh, c);
    } else {
      ApplyColorKeepsLook(h, mesh, m, c);
      SameLookPainted(h, ApplyColorOn(h, mesh, c), m, c);
    }
  }

  /** Every mesh outside `ms` keeps its look. */
  lemma {:induction false} ColorMeshesKeepsLook(h: Heap, ms: seq<Id>, c: Color, m: Id)
    requires Wf(h) && AllMeshes(h, ms) && IsMesh(h, m) && m !in ms
    ensures SameLook(h, ColorMeshesOn(h, ms, c), m)
    decreases |ms|
  {
    SlotMaterials(h, m);
    if ms != [] {
      var k := |ms| - 1;
      var a := ColorMeshesOn(h, ms[..k], c);
      ExtendsKinds(h, a);
      assert m !in ms[..k];
      ColorMeshesKeepsLook(h, ms[..k], c, m);
      ApplyColorKeepsLook(a, ms[k], m, c);
      SameLookTrans(h, a, ColorMeshesOn(h, ms, c), m);
    }
  }

  /** Painting one list after another: the meshes of the second end up its colour. */
  lemma ColorMeshesLater(h: Heap, ms: seq<Id>, c: Color, m: Id, c0: Color)
    requires Wf(h) && AllMeshes(h, ms) && Painted(h, m, c0) && m !in ms
    ensures Painted(ColorMeshesOn(h, ms, c), m, c0)
  {
    ColorMeshesKeepsLook(h, ms, c, m);
    SameLookPainted(h, ColorMeshesOn(h, ms, c), m, c0);
  }

  /** The heaps between the zone traversals, and what each traversal needs. */
  lemma ZonesSteps(h: Heap, root: Id, z: ZoneColors)
    requires Wf(h) && IsRoot(h, root)
    ensures var s, f, b := ZoneOf(h, root, SleevesZone), ZoneOf(h, root, FrontZone), ZoneOf(h, root, BackZone);
            && AllMeshes(h, s)
            && var h1 := ColorMeshesOn(h, s, z.sleeve);
            && AllMeshes(h1, f) && AllMeshes(h, f)
            && var h2 := ColorMeshesOn(h1, f, z.front);
            && AllMeshes(h2, b) && AllMeshes(h, b)
            && ZonesOn(h, root, z) == ColorMeshesOn(h2, b, z.back)
            && (forall m :: IsMesh(h, m) ==> IsMesh(h1, m) && IsMesh(h2, m))
  {
    ZoneMeshesOk(h, root, SleevesZone);
    ZoneMeshesOk(h, root, FrontZone);
    ZoneMeshesOk(h, root, BackZone);
    var h1 := ColorMeshesOn(h, ZoneOf(h, root, SleevesZone), z.sleeve);
    ExtendsKinds(h, h1);
    var h2 := ColorMeshesOn(h1, ZoneOf(h, root, FrontZone), z.front);
    ExtendsKinds(h1, h2);
  }

  /**
   * The zones' colours, with the later traversal winning where zones overlap: a mesh under
   * `back_torso` shows the back colour, one under `front_torso` but not `back_torso` the front
   * colour, one under `sleeves` only the sleeve colour.
   */
  lemma ZonePassBack(h: Heap, root: Id, z: ZoneColors, m: Id)
    requires Wf(h) && IsRoot(h, root) && m in ZoneOf(h, root, BackZone)
    ensures Painted(ZonePassOn(h, root, z), m, z.back)
  {
    ZonesSteps(h, root, z);
    var h1 := ColorMeshesOn(h, ZoneOf(h, root, SleevesZone), z.sleeve);
    var h2 := ColorMeshesOn(h1, ZoneOf(h, root, FrontZone), z.front);
    ColorMeshesPaints(h2, ZoneOf(h, root, BackZone), z.back, m);
  }

  lemma ZonePassFront(h: Heap, root: Id, z: ZoneColors, m: Id)
    requires Wf(h) && IsRoot(h, root) && m in ZoneOf(h, root, FrontZone) && m !in ZoneOf(h, root, BackZone)
    ensures Painted(ZonePassOn(h, root, z), m, z.front)
  {
    ZonesSteps(h, root, z);
    var h1 := ColorMeshesOn(h, ZoneOf(h, root, SleevesZone), z.sleeve);
    var h2 := ColorMeshesOn(h1, ZoneOf(h, root, FrontZone), z.front);
    ColorMeshesPaints(h1, ZoneOf(h, root, FrontZone), z.front, m);
    ColorMeshesLater(h2, ZoneOf(h, root, BackZone), z.back, m, z.front);
  }

  lemma ZonePassSleeves(h: Heap, root: Id, z: ZoneColors, m: Id)
    requires Wf(h) && IsRoot(h, root) && m in ZoneOf(h, root, SleevesZone)
    requires m !in ZoneOf(h, root, FrontZone) && m !in ZoneOf(h, root, BackZone)
    ensures Painted(ZonePassOn(h, root, z), m, z.sleeve)
  {
    ZonesSteps(h, root, z);
    var h1 := ColorMeshesOn(h, ZoneOf(h, root, SleevesZone), z.sleeve);
    var h2 := ColorMeshesOn(h1, ZoneOf(h, root, FrontZone), z.front);
    ColorMeshesPaints(h, ZoneOf(h, root, SleevesZone), z.sleeve, m);
    ColorMeshesLater(h1, ZoneOf(h, root, FrontZone), z.front, m, z.sleeve);
    ColorMeshesLater(h2, ZoneOf(h, root, BackZone), z.back, m, z.sleeve);
  }

  /** A mesh under none of the zones keeps its look, unless the fallback repaints the whole model. */
  lemma ZonePassKeepsOthers(h: Heap, root: Id, z: ZoneColors, m: Id)
    requires Wf(h) && IsRoot(h, root) && IsMesh(h, m) && !NoZones(h, root)
    requires m !in ZoneOf(h, root, SleevesZone) && m !in ZoneOf(h, root, FrontZone) && m !in ZoneOf(h, root, BackZone)
    ensures SameLook(h, ZonePassOn(h, root, z), m)
  {
    var s, f, b := ZoneOf(h, root, SleevesZone), ZoneOf(h, root, FrontZone), ZoneOf(h, root, BackZone);
    ZonesSteps(h, root, z);
    var h1 := ColorMeshesOn(h, s, z.sleeve);
    var h2 := ColorMeshesOn(h1, f, z.front);
    ColorMeshesKeepsLook(h, s, z.sleeve, m);
    ColorMeshesKeepsLook(h1, f, z.front, m);
    ColorMeshesKeepsLook(h2, b, z.back, m);
    SameLookTrans(h, h1, h2, m);
    SameLookTrans(h, h2, ZonePassOn(h, root, z), m);
  }

  /**
   * With no zone root found, every mesh of the model shows the front colour and every mesh
   * outside the model keeps its look.
   */
  lemma ZonePassFallback(h: Heap, root: Id, z: ZoneColors, m: Id)
    requires Wf(h) && IsRoot(h, root) && IsMesh(h, m) && NoZones(h, root)
    ensures m in MeshIds(h.objs[root].tree) ==> Painted(ZonePassOn(h, root, z), m, z.front)
    ensures m !in MeshIds(h.objs[root].tree) ==> SameLook(h, ZonePassOn(h, root, z), m)
  {
    ZonesSteps(h, root, z);
    assert ZonesOn(h, root, z) == h;
    assert ObjOk(h, root);
    var ms := MeshIds(h.objs[root].tree);
    if m in ms {
      ColorMeshesPaints(h, ms, z.front, m);
    } else {
      ColorMeshesKeepsLook(h, ms, z.front, m);
    }
  }

  // ---------------------------------------------------------------------------
  // Ownership among the model's meshes
  // ---------------------------------------------------------------------------

  /** The meshes of the model the zone effect works on: everything `model.traverse` reaches. */
  function ModelMeshes(h: Heap, root: Id): seq<Id>
    requires IsRoot(h, root)
  {
    MeshIds(h.objs[root].tree)
  }

  /** Recolouring meshes of `all` keeps ownership among `all` exclusive. */
  lemma {:induction false} ColorMeshesKeepsExclusive(h: Heap, all: seq<Id>, ms: seq<Id>, c: Color)
    requires Wf(h) && AllMeshes(h, ms) && (forall m :: m in ms ==> m in all) && Exclusive(h, all)
    ensures Exclusive(ColorMeshesOn(h, ms, c), all)
    decreases |ms|
  {
    if ms != [] {
      var k := |ms| - 1;
      ColorMeshesLast(h, ms, c);
      assert forall m :: m in ms[..k] ==> m in ms;
      ColorMeshesKeepsExclusive(h, all, ms[..k], c);
      ApplyColorKeepsExclusive(ColorMeshesOn(h, ms[..k], c), all, ms[k], c);
    }
  }

  /**
   * The zone effect keeps ownership among the model's meshes exclusive: no material it disposes
   * is still shown, none is shared, none is left live without a mesh of the model holding it.
   * The model's scene graph is the same afterwards, so the meshes are the same ones.
   */
  lemma ZonePassKeepsExclusive(h: Heap, root: Id, z: ZoneColors)
    requires Wf(h) && IsRoot(h, root) && Exclusive(h, ModelMeshes(h, root))
    ensures var r := ZonePassOn(h, root, z);
            IsRoot(r, root) && ModelMeshes(r, root) == ModelMeshes(h, root) && Exclusive(r, ModelMeshes(h, root))
  {
    var all := ModelMeshes(h, root);
    ZonesSteps(h, root, z);
    ZoneMeshesOk(h, root, SleevesZone);
    ZoneMeshesOk(h, root, FrontZone);
    ZoneMeshesOk(h, root, BackZone);
    var h1 := ColorMeshesOn(h, ZoneOf(h, root, SleevesZone), z.sleeve);
    var h2 := ColorMeshesOn(h1, ZoneOf(h, root, FrontZone), z.front);
    ColorMeshesKeepsExclusive(h, all, ZoneOf(h, root, SleevesZone), z.sleeve);
    ColorMeshesKeepsExclusive(h1, all, ZoneOf(h, root, FrontZone), z.front);
    ColorMeshesKeepsExclusive(h2, all, ZoneOf(h, root, BackZone), z.back);
    if NoZones(h, root) {
      assert ObjOk(h, root);
      ExtendsKinds(h, ZonesOn(h, root, z));
      ColorMeshesKeepsExclusive(ZonesOn(h, root, z), all, all, z.front);
    }
  }

  /** A pass over `ms` moves an unsharing pass on by `ms`. */
  lemma {:induction false} ColorMeshesUnshares(h0: Heap, h: Heap, ps: seq<Id>, ms: seq<Id>, c: Color)
    requires Wf(h0) && Wf(h) && AllMeshes(h0, ms) && Unshared(h0, h, ps)
    ensures AllMeshes(h, ms) && Unshared(h0, ColorMeshesOn(h, ms, c), ps + ms)
    decreases |ms|
  {
    ExtendsKinds(h0, h);
    if ms == [] {
      assert ps + ms == ps;
    } else {
      var k := |ms| - 1;
      assert AllMeshes(h0, ms[..k]);
      ColorMeshesUnshares(h0, h, ps, ms[..k], c);
      ColorMeshesLast(h, ms, c);
      var a := ColorMeshesOn(h, ms[..k], c);
      assert IsMesh(h0, ms[k]);
      UnsharedAppend(h0, a, ps, ms, c);
    }
  }

  /** Recolouring one more mesh extends the recoloured list by that mesh. */
  lemma UnsharedAppend(h0: Heap, a: Heap, ps: seq<Id>, ms: seq<Id>, c: Color)
    requires Wf(h0) && Wf(a) && ms != [] && IsMesh(h0, ms[|ms| - 1])
    requires Unshared(h0, a, ps + ms[..|ms| - 1])
    ensures IsMesh(a, ms[|ms| - 1]) && AllMaterials(a, SlotOf(a, ms[|ms| - 1]))
    ensures Unshared(h0, ApplyColorOn(a, ms[|ms| - 1], c), ps + ms)
  {
    var k := |ms| - 1;
    var ps' := ps + ms[..k];
    assert ps' + [ms[k]] == ps + ms;
    ApplyColorUnshares(h0, a, ps', ms[k], c);
  }

  /** Every mesh of the model lies under a zone root, or no zone root is found and the fallback runs. */
  predicate ZonesCover(h: Heap, root: Id)
    requires IsRoot(h, root)
  {
    || NoZones(h, root)
    || forall m :: m in ModelMeshes(h, root) ==>
         m in ZoneOf(h, root, SleevesZone) || m in ZoneOf(h, root, FrontZone) || m in ZoneOf(h, root, BackZone)
  }

  /** Every live material is held by a mesh of the model, as right after the model is loaded. */
  ghost predicate HeldByModel(h: Heap, root: Id)
    requires IsRoot(h, root)
  {
    forall x: Id :: IsMaterial(h, x) && IsLive(h, x) ==> HeldBy(h, ModelMeshes(h, root), x)
  }

  /**
   * The first zone pass over a freshly loaded model establishes exclusive ownership, however
   * the loaded file shared materials between meshes or within one mesh: every mesh the pass
   * visits ends up holding clones of its own, and every material the load shared is disposed.
   */
  lemma ZonePassEstablishes(h: Heap, root: Id, z: ZoneColors)
    requires Wf(h) && IsRoot(h, root) && ZonesCover(h, root) && HeldByModel(h, root)
    ensures Exclusive(ZonePassOn(h, root, z), ModelMeshes(h, root))
  {
    var ps := ZonePassUnshared(h, root, z);
    UnsharedCovers(h, ZonePassOn(h, root, z), ps, ModelMeshes(h, root));
  }

  /**
   * The zone effect gives fresh unshared clones to exactly the model's meshes, when every
   * mesh lies under a zone root or the fallback runs.
   */
  lemma ZonePassUnshared(h: Heap, root: Id, z: ZoneColors) returns (ps: seq<Id>)
    requires Wf(h) && IsRoot(h, root) && ZonesCover(h, root)
    ensures Unshared(h, ZonePassOn(h, root, z), ps)
    ensures forall m :: m in ps <==> m in ModelMeshes(h, root)
  {
    var all := ModelMeshes(h, root);
    var s, f, b := ZoneOf(h, root, SleevesZone), ZoneOf(h, root, FrontZone), ZoneOf(h, root, BackZone);
    ZonesSteps(h, root, z);
    ZoneMeshesOk(h, root, SleevesZone);
    ZoneMeshesOk(h, root, FrontZone);
    ZoneMeshesOk(h, root, BackZone);
    UnsharedStart(h);
    var h1 := ColorMeshesOn(h, s, z.sleeve);
    ColorMeshesUnshares(h, h, [], s, z.sleeve);
    var h2 := ColorMeshesOn(h1, f, z.front);
    ColorMeshesUnshares(h, h1, [] + s, f, z.front);
    ColorMeshesUnshares(h, h2, [] + s + f, b, z.back);
    ps := [] + s + f + b;
    if NoZones(h, root) {
      assert ObjOk(h, root);
      ColorMeshesUnshares(h, ZonesOn(h, root, z), ps, all, z.front);
      ps := ps + all;
    }
  }

  /** Unshared clones for every mesh that held a live material leave ownership exclusive. */
  lemma UnsharedCovers(h: Heap, r: Heap, ps: seq<Id>, all: seq<Id>)
    requires Unshared(h, r, ps) && (forall m :: m in ps <==> m in all)
    requires forall x: Id :: IsMaterial(h, x) && IsLive(h, x) ==> HeldBy(h, all, x)
    ensures Exclusive(r, all)
  {
    forall x: Id | IsMaterial(h, x) && IsLive(h, x)
      ensures HeldBy(h, ps, x)
    {
      var m: Id :| m in all && IsMesh(h, m) && x in SlotOf(h, m);
      assert m in ps;
    }
    UnsharedExclusive(h, r, ps);
    ExclusiveSameMeshes(r, ps, all);
  }

  // ---------------------------------------------------------------------------
  // The zone effect, step by step
  // ---------------------------------------------------------------------------

  /** `zone.traverse(child => applyColorToMesh(child, color))` over the collected meshes. */
  method ColorMeshes(w: World, ms: seq<Id>, c: Color)
    requires w.Valid() && AllMeshes(w.Snapshot(), ms)
    modifies w
    ensures w.Valid() && w.Snapshot() == ColorMeshesOn(old(w.Snapshot()), ms, c)
  {
    ghost var h0 := w.Snapshot();
    for i := 0 to |ms|
      invariant w.Valid() && AllMeshes(h0, ms[..i])
      invariant w.Snapshot() == ColorMeshesOn(h0, ms[..i], c)
    {
      ColorMeshesLast(h0, ms[..i + 1], c);
      assert ms[..i + 1][..i] == ms[..i];
      ApplyColorToMesh(w, ms[i], c);
    }
    assert ms[..|ms|] == ms;
  }

  /** The zone effect: nothing without a model, else the three zones or the fallback. */
  method ZonePass(w: World, model: Option<Id>, z: ZoneColors)
    requires w.Valid() && (model.Some? ==> IsRoot(w.Snapshot(), model.value))
    modifies w
    ensures w.Valid()
    ensures model.None? ==> w.Snapshot() == old(w.Snapshot())
    ensures model.Some? ==> w.Snapshot() == ZonePassOn(old(w.Snapshot()), model.value, z)
  {
    if model.None? {
      return;
    }
    var root := model.value;
    ghost var h0 := w.Snapshot();
    ZonesSteps(h0, root, z);
    var t := w.objs[root].tree;
    var sleeves, front, back := Find(t, SleevesZone), Find(t, FrontZone), Find(t, BackZone);
    ColorMeshes(w, ZoneMeshes(sleeves), z.sleeve);
    ColorMeshes(w, ZoneMeshes(front), z.front);
    ColorMeshes(w, ZoneMeshes(back), z.back);
    if sleeves.None? && front.None? && back.None? {
      assert ObjOk(h0, root);
      ExtendsKinds(h0, w.Snapshot());
      ColorMeshes(w, MeshIds(t), z.front);
    }
  }
}
