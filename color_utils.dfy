/**
 * `applyColorToMesh` (src/utils/colorUtils.ts): copy-on-write recolouring of one mesh.
 * Every material of the mesh is cloned, the clone gets the colour and loses its texture,
 * the clones are assigned to `mesh.material` in one step, and only then are the
 * materials the mesh held before disposed.
 */
module ColorUtils {
  import opened Wrappers
  import opened SceneGraph
  import opened Resources

  /** The field changes `applyToMaterial` makes to a clone. */
  function Recolor(m: Material, c: Color): (r: Material)
    ensures r == m.(color := r.color, textureMap := None)
    ensures r.color.Some? <==> m.color.Some?
    ensures r.color.Some? ==> r.color.value == c
  {
    var coloured := if m.color.Some? then m.(color := Some(c)) else m;
    if coloured.textureMap.Some? then coloured.(textureMap := None) else coloured
  }

  /** Recolouring leaves nothing of an earlier recolouring behind: the last colour wins. */
  lemma RecolorLastWins(m: Material, c1: Color, c2: Color)
    ensures Recolor(Recolor(m, c1), c2) == Recolor(m, c2)
  {
  }

  /** The ids `n` consecutive allocations starting at `from` hand out. */
  function Range(from: nat, n: nat): (r: seq<Id>)
    ensures |r| == n && forall i :: 0 <= i < n ==> r[i] == from + i
    ensures forall x :: x in r <==> from <= x < from + n
  {
    var r := seq(n, i requires 0 <= i < n => from + i);
    RangeMembers(r, from, n);
    r
  }

  lemma RangeMembers(r: seq<Id>, from: nat, n: nat)
    requires |r| == n && forall i :: 0 <= i < n ==> r[i] == from + i
    ensures forall x :: x in r <==> from <= x < from + n
  {
    forall x | from <= x < from + n
      ensures x in r
    {
      assert r[x - from] == x;
    }
  }

  function AllocEvents(from: nat, n: nat): (r: seq<Event>)
    ensures |r| == n && forall i :: 0 <= i < n ==> r[i] == Allocated(from + i)
  {
    seq(n, i requires 0 <= i < n => Allocated(from + i))
  }

  /** Every id in `xs` is a material. */
  predicate AllMaterials(h: Heap, xs: seq<Id>)
  {
    forall i :: 0 <= i < |xs| ==> IsMaterial(h, xs[i])
  }

  /** `applyToMaterial(src)`: a live clone of `src`, recoloured, at the next id. */
  function ApplyToMaterialOn(h: Heap, src: Id, c: Color): Heap
    requires IsMaterial(h, src)
  {
    h.(objs := h.objs + [MaterialObj(Recolor(h.objs[src].mat, c), Live)], log := h.log + [Allocated(|h.objs|)])
  }

  /** The recoloured clones of `olds`, in order. */
  function Clones(h: Heap, olds: seq<Id>, c: Color): (s: seq<Obj>)
    requires AllMaterials(h, olds)
    ensures |s| == |olds|
    ensures forall j :: 0 <= j < |olds| ==> s[j] == MaterialObj(Recolor(h.objs[olds[j]].mat, c), Live)
  {
    seq(|olds|, j requires 0 <= j < |olds| => MaterialObj(Recolor(h.objs[olds[j]].mat, c), Live))
  }

  /** `olds.map(applyToMaterial)`: one recoloured clone per material, in order, at consecutive ids. */
  function CloneAllOn(h: Heap, olds: seq<Id>, c: Color): Heap
    requires AllMaterials(h, olds)
  {
    h.(objs := h.objs + Clones(h, olds, c), log := h.log + AllocEvents(|h.objs|, |olds|))
  }

  /** One more `applyToMaterial` extends the clones by the next material. */
  lemma CloneAllStep(h: Heap, olds: seq<Id>, i: nat, c: Color)
    requires AllMaterials(h, olds) && i < |olds|
    ensures AllMaterials(h, olds[..i]) && AllMaterials(h, olds[..i + 1])
    ensures IsMaterial(CloneAllOn(h, olds[..i], c), olds[i])
    ensures ApplyToMaterialOn(CloneAllOn(h, olds[..i], c), olds[i], c) == CloneAllOn(h, olds[..i + 1], c)
  {
    var a := CloneAllOn(h, olds[..i], c);
    assert IsMaterial(h, olds[i]);
    var b := CloneAllOn(h, olds[..i + 1], c);
    assert ApplyToMaterialOn(a, olds[i], c).objs == b.objs;
    assert AllocEvents(|h.objs|, i + 1) == AllocEvents(|h.objs|, i) + [Allocated(|h.objs| + i)];
  }

  /** The new value of `mesh.material`: same shape as `s`, holding `news`. */
  function Reslot(s: Slot, news: seq<Id>): (r: Slot)
    requires |news| == |Handles(s)|
    ensures Handles(r) == news && r.Single? == s.Single?
  {
    if s.Single? then Single(news[0]) else Multi(news)
  }

  /** The materials the mesh holds. */
  function SlotOf(h: Heap, mesh: Id): seq<Id>
    requires IsMesh(h, mesh)
  {
    Handles(h.objs[mesh].slot)
  }

  /**
   * The whole of `applyColorToMesh(mesh, c)` on the heap: clone all, assign, dispose the old
   * ones. The heap grows by one clone per old material, `mesh` holds exactly those clones, and
   * the scene and every object other than the mesh and its old materials are untouched.
   */
  function ApplyColorOn(h: Heap, mesh: Id, c: Color): (r: Heap)
    requires IsMesh(h, mesh) && AllMaterials(h, SlotOf(h, mesh))
    ensures |r.objs| == |h.objs| + |SlotOf(h, mesh)| && r.scene == h.scene
    ensures IsMesh(r, mesh) && SlotOf(r, mesh) == Range(|h.objs|, |SlotOf(h, mesh)|)
    ensures forall x :: 0 <= x < |h.objs| && x != mesh && x !in SlotOf(h, mesh) ==> r.objs[x] == h.objs[x]
  {
    var slot := h.objs[mesh].slot;
    var olds := Handles(slot);
    var h1 := CloneAllOn(h, olds, c);
    var h2 := AssignSlotOn(h1, mesh, Reslot(slot, Range(|h.objs|, |olds|)));
    assert mesh !in olds;
    DisposeAllOn(h2, olds)
  }

  /** The mesh's slot in a well-formed heap holds materials only. */
  lemma SlotMaterials(h: Heap, mesh: Id)
    requires Wf(h) && IsMesh(h, mesh)
    ensures AllMaterials(h, SlotOf(h, mesh))
  {
    assert ObjOk(h, mesh);
  }

  // ---------------------------------------------------------------------------
  // What applyColorToMesh guarantees
  // ---------------------------------------------------------------------------

  /**
   * After the call the mesh keeps its geometry and holds only fresh clones, one per old
   * material and in the same shape (single or array); clone j is old material j recoloured
   * and live; every material the mesh held before is disposed.
   */
  lemma ApplyColorReplaces(h: Heap, mesh: Id, c: Color)
    requires IsMesh(h, mesh) && AllMaterials(h, SlotOf(h, mesh))
    ensures var olds := SlotOf(h, mesh);
            var n := |h.objs|;
            var r := ApplyColorOn(h, mesh, c);
            && |r.objs| == n + |olds|
            && r.objs[mesh] == MeshObj(h.objs[mesh].geometry, Reslot(h.objs[mesh].slot, Range(n, |olds|)))
            && (forall x :: n <= x < n + |olds| ==> r.objs[x] == MaterialObj(Recolor(h.objs[olds[x - n]].mat, c), Live))
            && (forall x :: x in olds ==> r.objs[x] == MarkDisposed(h.objs[x]) && r.objs[x].status == Disposed)
  {
    ApplyColorReslots(h, mesh, c);
    ApplyColorClones(h, mesh, c);
    ApplyColorDisposesOld(h, mesh, c);
  }

  lemma ApplyColorReslots(h: Heap, mesh: Id, c: Color)
    requires IsMesh(h, mesh) && AllMaterials(h, SlotOf(h, mesh))
    ensures var olds := SlotOf(h, mesh);
            var n := |h.objs|;
            var r := ApplyColorOn(h, mesh, c);
            && |r.objs| == n + |olds|
            && r.objs[mesh] == MeshObj(h.objs[mesh].geometry, Reslot(h.objs[mesh].slot, Range(n, |olds|)))
  {
    assert mesh !in SlotOf(h, mesh);
  }

  lemma ApplyColorClones(h: Heap, mesh: Id, c: Color)
    requires IsMesh(h, mesh) && AllMaterials(h, SlotOf(h, mesh))
    ensures var olds := SlotOf(h, mesh);
            var n := |h.objs|;
            var r := ApplyColorOn(h, mesh, c);
            && |r.objs| == n + |olds|
            && forall x :: n <= x < n + |olds| ==> r.objs[x] == MaterialObj(Recolor(h.objs[olds[x - n]].mat, c), Live)
  {
    ApplyColorKeepsClones(h, mesh, c);
    ClonesAt(h, ApplyColorOn(h, mesh, c), SlotOf(h, mesh), c);
  }

  /** A heap whose objects from the old end on are the clones holds clone `x - n` at `x`. */
  lemma ClonesAt(h: Heap, r: Heap, olds: seq<Id>, c: Color)
    requires AllMaterials(h, olds) && |r.objs| == |h.objs| + |olds|
    requires r.objs[|h.objs|..] == Clones(h, olds, c)
    ensures forall x :: |h.objs| <= x < |h.objs| + |olds| ==> r.objs[x] == MaterialObj(Recolor(h.objs[olds[x - |h.objs|]].mat, c), Live)
  {
    var n := |h.objs|;
    forall x | n <= x < n + |olds|
      ensures r.objs[x] == MaterialObj(Recolor(h.objs[olds[x - n]].mat, c), Live)
    {
      assert r.objs[x] == r.objs[n..][x - n];
    }
  }

  /** The objects from the old end of the heap on are the clones, in order. */
  lemma ApplyColorKeepsClones(h: Heap, mesh: Id, c: Color)
    requires IsMesh(h, mesh) && AllMaterials(h, SlotOf(h, mesh))
    ensures var r := ApplyColorOn(h, mesh, c);
            && |r.objs| == |h.objs| + |SlotOf(h, mesh)|
            && r.objs[|h.objs|..] == Clones(h, SlotOf(h, mesh), c)
  {
    var slot := h.objs[mesh].slot;
    var olds := Handles(slot);
    var n := |h.objs|;
    var h1 := CloneAllOn(h, olds, c);
    var h2 := AssignSlotOn(h1, mesh, Reslot(slot, Range(n, |olds|)));
    assert forall i :: 0 <= i < |olds| ==> olds[i] < n && IsResource(h2, olds[i]);
    ClonesSurvive(h2, olds, n);
    assert h2.objs[n..] == h1.objs[n..] == Clones(h, olds, c);
  }

  /** Disposing the old materials leaves the objects from `n` on alone. */
  lemma ClonesSurvive(h2: Heap, olds: seq<Id>, n: nat)
    requires n <= |h2.objs|
    requires forall i :: 0 <= i < |olds| ==> olds[i] < n && IsResource(h2, olds[i])
    ensures var r := DisposeAllOn(h2, olds);
            && |r.objs| == |h2.objs|
            && r.objs[n..] == h2.objs[n..]
  {
  }

  lemma ApplyColorDisposesOld(h: Heap, mesh: Id, c: Color)
    requires IsMesh(h, mesh) && AllMaterials(h, SlotOf(h, mesh))
    ensures var olds := SlotOf(h, mesh);
            var r := ApplyColorOn(h, mesh, c);
            && |r.objs| == |h.objs| + |olds|
            && forall x :: x in olds ==> r.objs[x] == MarkDisposed(h.objs[x]) && r.objs[x].status == Disposed
  {
    assert forall x :: x in SlotOf(h, mesh) ==> x < |h.objs| && IsMaterial(h, x);
  }

  /** applyColorToMesh leaves every model root, and so every scene graph, as it was. */
  lemma ApplyColorKeepsRoots(h: Heap, mesh: Id, c: Color)
    requires IsMesh(h, mesh) && AllMaterials(h, SlotOf(h, mesh))
    ensures forall x: Id :: IsRoot(h, x) ==> IsRoot(ApplyColorOn(h, mesh, c), x) && ApplyColorOn(h, mesh, c).objs[x] == h.objs[x]
  {
    assert forall y :: y in SlotOf(h, mesh) ==> IsMaterial(h, y);
  }

  /** applyColorToMesh keeps every mesh a mesh, with a single material or an array as before. */
  lemma ApplyColorKeepsShape(h: Heap, mesh: Id, c: Color)
    requires IsMesh(h, mesh) && AllMaterials(h, SlotOf(h, mesh))
    ensures forall m: Id :: IsMesh(h, m) ==> IsMesh(ApplyColorOn(h, mesh, c), m) && ApplyColorOn(h, mesh, c).objs[m].slot.Single? == h.objs[m].slot.Single?
  {
    ApplyColorReslots(h, mesh, c);
    assert forall y :: y in SlotOf(h, mesh) ==> IsMaterial(h, y);
  }

  /**
   * The order of effects: the clones are allocated, `mesh.material` is assigned once, and
   * every disposal of an old material comes after that assignment.
   */
  lemma ApplyColorDisposesAfterAssigning(h: Heap, mesh: Id, c: Color)
    requires IsMesh(h, mesh) && AllMaterials(h, SlotOf(h, mesh))
    ensures var olds := SlotOf(h, mesh);
            var r := ApplyColorOn(h, mesh, c);
            var k := |olds|;
            && r.log == h.log + AllocEvents(|h.objs|, k) + [Swapped(mesh)] + ReleaseEvents(olds)
            && r.log[|h.log| + k] == Swapped(mesh)
            && (forall i :: 0 <= i < k ==> r.log[|h.log| + k + 1 + i] == Released(olds[i]))
  {
  }

  /** applyColorToMesh keeps the heap well formed. */
  lemma ApplyColorWf(h: Heap, mesh: Id, c: Color)
    requires Wf(h) && IsMesh(h, mesh)
    ensures AllMaterials(h, SlotOf(h, mesh)) && Wf(ApplyColorOn(h, mesh, c))
  {
    SlotMaterials(h, mesh);
    var slot := h.objs[mesh].slot;
    var olds := Handles(slot);
    var h1 := CloneAllOn(h, olds, c);
    ExtendsWf(h, h1);
    var h2 := AssignSlotOn(h1, mesh, Reslot(slot, Range(|h.objs|, |olds|)));
    AssignSlotOnWf(h1, mesh, Reslot(slot, Range(|h.objs|, |olds|)));
    DisposeAllOnWf(h2, olds);
  }

  // ---------------------------------------------------------------------------
  // Ownership: which materials are live, and which meshes hold them
  // ---------------------------------------------------------------------------

  ghost predicate NoDup(s: seq<Id>)
  {
    forall i, j :: 0 <= i < j < |s| ==> s[i] != s[j]
  }

  /** Is material `x` held by one of the meshes `ms`? */
  ghost predicate HeldBy(h: Heap, ms: seq<Id>, x: Id)
  {
    exists m: Id :: m in ms && IsMesh(h, m) && x in SlotOf(h, m)
  }

  /**
   * Exclusive ownership among the meshes `ms` the program can still reach (the meshes under
   * the model root): each of them is a mesh, every material one of them holds is live, no
   * material sits twice in one slot or in two of their slots, and every live material of the
   * whole heap is held by one of them, so that no material is left live behind their backs.
   */
  ghost predicate Exclusive(h: Heap, ms: seq<Id>)
  {
    && (forall m: Id :: m in ms ==> IsMesh(h, m))
    && (forall m: Id, x: Id :: m in ms && IsMesh(h, m) && x in SlotOf(h, m) ==> IsLive(h, x))
    && (forall m: Id :: m in ms && IsMesh(h, m) ==> NoDup(SlotOf(h, m)))
    && (forall m1: Id, m2: Id, x: Id ::
          m1 in ms && m2 in ms && IsMesh(h, m1) && IsMesh(h, m2) && m1 != m2 && x in SlotOf(h, m1) ==> x !in SlotOf(h, m2))
    && (forall x: Id :: IsMaterial(h, x) && IsLive(h, x) ==> HeldBy(h, ms, x))
  }

  /** Exclusive ownership depends only on which meshes are listed, not on their order or repetition. */
  lemma ExclusiveSameMeshes(h: Heap, a: seq<Id>, b: seq<Id>)
    requires Exclusive(h, a) && forall m :: m in a <==> m in b
    ensures Exclusive(h, b)
  {
    forall x: Id | IsMaterial(h, x) && IsLive(h, x)
      ensures HeldBy(h, b, x)
    {
      var m: Id :| m in a && IsMesh(h, m) && x in SlotOf(h, m);
      assert m in b;
    }
  }

  /**
   * Ownership among `ms` depends only on their slots and on which materials are live: a step
   * that keeps both, whatever else it changes, keeps ownership exclusive.
   */
  lemma ExclusiveFrame(h: Heap, r: Heap, ms: seq<Id>)
    requires Wf(h) && Exclusive(h, ms)
    requires forall m :: m in ms ==> IsMesh(r, m) && SlotOf(r, m) == SlotOf(h, m)
    requires forall x :: IsMaterial(r, x) && IsLive(r, x) <==> IsMaterial(h, x) && IsLive(h, x)
    ensures Exclusive(r, ms)
  {
    forall m: Id, x: Id | m in ms && IsMesh(r, m) && x in SlotOf(r, m)
      ensures IsLive(r, x)
    {
      assert ObjOk(h, m);
      assert IsMaterial(h, x) && IsLive(h, x);
    }
    forall x: Id | IsMaterial(r, x) && IsLive(r, x)
      ensures HeldBy(r, ms, x)
    {
      var m: Id :| m in ms && IsMesh(h, m) && x in SlotOf(h, m);
      assert IsMesh(r, m) && x in SlotOf(r, m);
    }
  }

  /**
   * A new mesh `q` that holds exactly one new live material `y`, and nothing else new that is
   * live, joins `ms` without breaking exclusive ownership.
   */
  lemma ExclusiveAddMesh(h: Heap, r: Heap, ms: seq<Id>, q: Id, y: Id)
    requires Wf(h) && Exclusive(h, ms)
    requires forall m :: m in ms ==> IsMesh(r, m) && SlotOf(r, m) == SlotOf(h, m)
    requires IsMesh(r, q) && SlotOf(r, q) == [y] && q !in ms && y >= |h.objs|
    requires forall x :: IsMaterial(r, x) && IsLive(r, x) <==> x == y || (IsMaterial(h, x) && IsLive(h, x))
    ensures Exclusive(r, ms + [q])
  {
    var ms' := ms + [q];
    forall m | m in ms
      ensures forall x :: x in SlotOf(h, m) ==> IsMaterial(h, x)
    {
      assert ObjOk(h, m);
    }
    forall m: Id, x: Id | m in ms' && IsMesh(r, m) && x in SlotOf(r, m)
      ensures IsLive(r, x)
    {
      if m != q {
        assert m in ms && IsMaterial(h, x) && IsLive(h, x);
      }
    }
    forall m1: Id, m2: Id, x: Id | m1 in ms' && m2 in ms' && IsMesh(r, m1) && IsMesh(r, m2) && m1 != m2 && x in SlotOf(r, m1)
      ensures x !in SlotOf(r, m2)
    {
      if m1 == q {
        assert m2 in ms && forall z :: z in SlotOf(r, m2) ==> IsMaterial(h, z);
      } else if m2 == q {
        assert m1 in ms && IsMaterial(h, x);
      } else {
        assert m1 in ms && m2 in ms;
      }
    }
    forall x: Id | IsMaterial(r, x) && IsLive(r, x)
      ensures HeldBy(r, ms', x)
    {
      if x == y {
        assert q in ms' && x in SlotOf(r, q);
      } else {
        var m: Id :| m in ms && IsMesh(h, m) && x in SlotOf(h, m);
        assert m in ms' && IsMesh(r, m) && x in SlotOf(r, m);
      }
    }
  }

  /**
   * Taking mesh `p`, which holds the single material `x0`, out of `ms` and disposing `x0`, with
   * every other slot and every other material's status left alone, keeps ownership exclusive.
   */
  lemma ExclusiveDropMesh(h: Heap, r: Heap, ms: seq<Id>, ms': seq<Id>, p: Id, x0: Id)
    requires Wf(h) && Exclusive(h, ms) && p in ms && IsMesh(h, p) && SlotOf(h, p) == [x0]
    requires forall m :: m in ms' <==> m in ms && m != p
    requires forall m :: m in ms' ==> IsMesh(r, m) && SlotOf(r, m) == SlotOf(h, m)
    requires forall x :: IsMaterial(r, x) && IsLive(r, x) <==> x != x0 && IsMaterial(h, x) && IsLive(h, x)
    ensures Exclusive(r, ms')
  {
    forall m: Id, x: Id | m in ms' && IsMesh(r, m) && x in SlotOf(r, m)
      ensures IsLive(r, x)
    {
      assert ObjOk(h, m);
      assert IsMaterial(h, x) && IsLive(h, x) && x != x0;
    }
    forall x: Id | IsMaterial(r, x) && IsLive(r, x)
      ensures HeldBy(r, ms', x)
    {
      var m: Id :| m in ms && IsMesh(h, m) && x in SlotOf(h, m);
      assert m != p && m in ms';
    }
  }

  /** applyColorToMesh only appends materials: every object keeps its kind. */
  lemma ApplyColorExtends(h: Heap, mesh: Id, c: Color)
    requires IsMesh(h, mesh) && AllMaterials(h, SlotOf(h, mesh))
    ensures var r := ApplyColorOn(h, mesh, c);
            && Extends(h, r)
            && forall x :: |h.objs| <= x < |r.objs| ==> r.objs[x].MaterialObj?
  {
    ApplyColorReplaces(h, mesh, c);
    var r := ApplyColorOn(h, mesh, c);
    var olds := SlotOf(h, mesh);
    forall x | 0 <= x < |h.objs|
      ensures SameKind(h.objs[x], r.objs[x])
    {
      if x in olds {
        assert r.objs[x] == MarkDisposed(h.objs[x]);
      }
    }
  }

  /**
   * The meshes after applyColorToMesh are the meshes before; `mesh` holds the fresh ids and
   * every other mesh keeps its slot. In a well-formed heap every slot holds older ids only.
   */
  lemma ApplyColorMeshes(h: Heap, mesh: Id, c: Color)
    requires Wf(h) && IsMesh(h, mesh)
    ensures AllMaterials(h, SlotOf(h, mesh))
    ensures var r := ApplyColorOn(h, mesh, c);
            && (forall m: Id :: IsMesh(r, m) <==> IsMesh(h, m))
            && SlotOf(r, mesh) == Range(|h.objs|, |SlotOf(h, mesh)|)
            && (forall m: Id :: IsMesh(h, m) && m != mesh ==> SlotOf(r, m) == SlotOf(h, m))
            && (forall m: Id, x: Id :: IsMesh(h, m) && x in SlotOf(h, m) ==> IsMaterial(h, x))
  {
    SlotMaterials(h, mesh);
    var r := ApplyColorOn(h, mesh, c);
    var olds := SlotOf(h, mesh);
    var n := |h.objs|;
    ApplyColorReplaces(h, mesh, c);
    ApplyColorExtends(h, mesh, c);
    assert forall x :: x in olds ==> x < n && IsMaterial(h, x);
    forall m: Id | IsMesh(r, m)
      ensures IsMesh(h, m)
    {
      assert m < n;
      assert SameKind(h.objs[m], r.objs[m]);
    }
    forall m: Id | IsMesh(h, m) && m != mesh
      ensures IsMesh(r, m) && SlotOf(r, m) == SlotOf(h, m)
    {
      assert m !in olds;
      assert r.objs[m] == h.objs[m];
    }
    forall m: Id, x: Id | IsMesh(h, m) && x in SlotOf(h, m)
      ensures IsMaterial(h, x)
    {
      assert ObjOk(h, m);
    }
  }

  /**
   * No leak, whatever the heap: the live materials after applyColorToMesh are exactly the
   * clones the mesh now holds and the materials that were live before and that the mesh did
   * not hold. Each material the mesh gives up is disposed, and nothing else is created.
   */
  lemma ApplyColorLeaksNothing(h: Heap, mesh: Id, c: Color)
    requires Wf(h) && IsMesh(h, mesh)
    ensures AllMaterials(h, SlotOf(h, mesh))
    ensures var r := ApplyColorOn(h, mesh, c);
            forall x: Id :: IsMaterial(r, x) && IsLive(r, x) <==>
                              x in SlotOf(r, mesh) || (IsMaterial(h, x) && IsLive(h, x) && x !in SlotOf(h, mesh))
  {
    ApplyColorMeshes(h, mesh, c);
    ApplyColorReplaces(h, mesh, c);
    var r := ApplyColorOn(h, mesh, c);
    var olds := SlotOf(h, mesh);
    var n := |h.objs|;
    forall x: Id
      ensures IsMaterial(r, x) && IsLive(r, x) <==> x in SlotOf(r, mesh) || (IsMaterial(h, x) && IsLive(h, x) && x !in olds)
    {
      if x < n && x in olds {
        assert r.objs[x] == MarkDisposed(h.objs[x]);
      } else if x < n && x != mesh {
        assert r.objs[x] == h.objs[x];
      }
    }
  }

  /** Every material a mesh of `ms` holds afterwards is live, when `mesh` is one of them. */
  lemma ApplyColorHoldsLive(h: Heap, ms: seq<Id>, mesh: Id, c: Color)
    requires Wf(h) && IsMesh(h, mesh) && mesh in ms && Exclusive(h, ms)
    ensures AllMaterials(h, SlotOf(h, mesh))
    ensures var r := ApplyColorOn(h, mesh, c);
            forall m: Id, x: Id :: m in ms && IsMesh(r, m) && x in SlotOf(r, m) ==> IsLive(r, x)
  {
    ApplyColorMeshes(h, mesh, c);
    ApplyColorLeaksNothing(h, mesh, c);
    var r := ApplyColorOn(h, mesh, c);
    forall m: Id, x: Id | m in ms && IsMesh(r, m) && x in SlotOf(r, m)
      ensures IsLive(r, x)
    {
      if m != mesh {
        assert IsLive(h, x) && IsMaterial(h, x);
        assert x !in SlotOf(h, mesh);
      }
    }
  }

  /** No material sits twice in one slot, nor in two slots of `ms`, afterwards. */
  lemma ApplyColorNoSharing(h: Heap, ms: seq<Id>, mesh: Id, c: Color)
    requires Wf(h) && IsMesh(h, mesh) && mesh in ms && Exclusive(h, ms)
    ensures AllMaterials(h, SlotOf(h, mesh))
    ensures var r := ApplyColorOn(h, mesh, c);
            && (forall m: Id :: m in ms && IsMesh(r, m) ==> NoDup(SlotOf(r, m)))
            && (forall m1: Id, m2: Id, x: Id ::
                  m1 in ms && m2 in ms && IsMesh(r, m1) && IsMesh(r, m2) && m1 != m2 && x in SlotOf(r, m1) ==> x !in SlotOf(r, m2))
  {
    ApplyColorMeshes(h, mesh, c);
    var r := ApplyColorOn(h, mesh, c);
    var n := |h.objs|;
    forall m: Id | m in ms && IsMesh(r, m)
      ensures NoDup(SlotOf(r, m))
    {
      if m != mesh {
        assert NoDup(SlotOf(h, m));
      }
    }
    forall m1: Id, m2: Id, x: Id | m1 in ms && m2 in ms && IsMesh(r, m1) && IsMesh(r, m2) && m1 != m2 && x in SlotOf(r, m1)
      ensures x !in SlotOf(r, m2)
    {
      if m1 == mesh {
        assert x >= n;
        assert SlotOf(r, m2) == SlotOf(h, m2);
        assert forall y :: y in SlotOf(h, m2) ==> IsMaterial(h, y);
      } else if m2 == mesh {
        assert SlotOf(r, m1) == SlotOf(h, m1);
        assert IsMaterial(h, x);
      } else {
        assert x !in SlotOf(h, m2);
      }
    }
  }

  /** Every live material is held by a mesh of `ms` afterwards: the clones by `mesh`, the rest as before. */
  lemma ApplyColorOrphansNothing(h: Heap, ms: seq<Id>, mesh: Id, c: Color)
    requires Wf(h) && IsMesh(h, mesh) && mesh in ms && Exclusive(h, ms)
    ensures AllMaterials(h, SlotOf(h, mesh))
    ensures var r := ApplyColorOn(h, mesh, c);
            forall x: Id :: IsMaterial(r, x) && IsLive(r, x) ==> HeldBy(r, ms, x)
  {
    ApplyColorMeshes(h, mesh, c);
    ApplyColorLeaksNothing(h, mesh, c);
    var r := ApplyColorOn(h, mesh, c);
    forall x: Id | IsMaterial(r, x) && IsLive(r, x)
      ensures HeldBy(r, ms, x)
    {
      if x !in SlotOf(r, mesh) {
        var m: Id :| m in ms && IsMesh(h, m) && x in SlotOf(h, m);
        assert m != mesh;
        assert IsMesh(r, m) && x in SlotOf(r, m);
      }
    }
  }

  /**
   * applyColorToMesh on a mesh of `ms` keeps ownership among `ms` exclusive: nothing disposed
   * is still held, nothing is shared, nothing live is orphaned.
   */
  lemma ApplyColorKeepsExclusive(h: Heap, ms: seq<Id>, mesh: Id, c: Color)
    requires Wf(h) && IsMesh(h, mesh) && mesh in ms && Exclusive(h, ms)
    ensures AllMaterials(h, SlotOf(h, mesh)) && Exclusive(ApplyColorOn(h, mesh, c), ms)
  {
    ApplyColorMeshes(h, mesh, c);
    ApplyColorHoldsLive(h, ms, mesh, c);
    ApplyColorNoSharing(h, ms, mesh, c);
    ApplyColorOrphansNothing(h, ms, mesh, c);
  }

  // ---------------------------------------------------------------------------
  // A pass over the meshes undoes any sharing it starts from
  // ---------------------------------------------------------------------------

  /** `x` was allocated after `h0`. */
  predicate Newer(h0: Heap, x: Id)
  {
    x >= |h0.objs|
  }

  /**
   * Where a pass that started in `h0` stands once it has recoloured the meshes `ps` (each at
   * least once) and reached `h`: each mesh of `ps` holds only live clones made during the
   * pass, none twice and none shared with another mesh of `ps`; every other mesh of `h0`
   * holds what it held in `h0`; a live clone is held by a mesh of `ps`; and an older material
   * is live only if it was live in `h0` and no mesh of `ps` held it there.
   */
  ghost predicate Unshared(h0: Heap, h: Heap, ps: seq<Id>)
  {
    && Extends(h0, h)
    && (forall m: Id :: m in ps ==> IsMesh(h0, m))
    && (forall m: Id, x: Id :: m in ps && IsMesh(h, m) && x in SlotOf(h, m) ==> Newer(h0, x) && IsLive(h, x))
    && (forall m: Id :: m in ps && IsMesh(h, m) ==> NoDup(SlotOf(h, m)))
    && (forall m1: Id, m2: Id, x: Id ::
          m1 in ps && m2 in ps && IsMesh(h, m1) && IsMesh(h, m2) && m1 != m2 && x in SlotOf(h, m1) ==> x !in SlotOf(h, m2))
    && (forall m: Id :: IsMesh(h0, m) && m !in ps ==> IsMesh(h, m) && SlotOf(h, m) == SlotOf(h0, m))
    && (forall x: Id :: IsMaterial(h, x) && IsLive(h, x) && x >= |h0.objs| ==> HeldBy(h, ps, x))
    && (forall x: Id :: IsMaterial(h, x) && IsLive(h, x) && x < |h0.objs| ==>
          IsMaterial(h0, x) && IsLive(h0, x) && !HeldBy(h0, ps, x))
  }

  /** Before the pass nothing has been recoloured. */
  lemma UnsharedStart(h0: Heap)
    ensures Unshared(h0, h0, [])
  {
  }

  /**
   * What one applyColorToMesh on `mesh` does to ownership, with the recolouring itself out of
   * sight: the meshes stay the same, `mesh` now holds distinct ids newer than anything in `h`,
   * every other mesh keeps its slot, and the live materials are the new ones of `mesh` and
   * those that were live and that `mesh` did not hold.
   */
  ghost predicate Recoloured(h: Heap, r: Heap, mesh: Id)
  {
    && IsMesh(h, mesh) && IsMesh(r, mesh)
    && Extends(h, r)
    && (forall m: Id :: IsMesh(r, m) <==> IsMesh(h, m))
    && (forall x: Id :: x in SlotOf(r, mesh) ==> x >= |h.objs|)
    && NoDup(SlotOf(r, mesh))
    && (forall m: Id :: IsMesh(h, m) && m != mesh ==> IsMesh(r, m) && SlotOf(r, m) == SlotOf(h, m))
    && (forall m: Id, x: Id :: IsMesh(h, m) && x in SlotOf(h, m) ==> IsMaterial(h, x))
    && (forall x: Id :: IsMaterial(r, x) && IsLive(r, x) <==> x in SlotOf(r, mesh) || (IsMaterial(h, x) && IsLive(h, x) && x !in SlotOf(h, mesh)))
  }

  lemma ApplyColorRecolours(h: Heap, mesh: Id, c: Color)
    requires Wf(h) && IsMesh(h, mesh)
    ensures AllMaterials(h, SlotOf(h, mesh)) && Recoloured(h, ApplyColorOn(h, mesh, c), mesh)
  {
    ApplyColorMeshes(h, mesh, c);
    ApplyColorLeaksNothing(h, mesh, c);
    ApplyColorExtends(h, mesh, c);
    var r := ApplyColorOn(h, mesh, c);
    var k := |SlotOf(h, mesh)|;
    assert SlotOf(r, mesh) == Range(|h.objs|, k);
    assert IsMesh(r, mesh);
  }

  /**
   * One more applyColorToMesh, on any mesh of `h0`, moves the pass on: whatever `mesh` held,
   * shared or not, it now holds fresh clones of its own.
   */
  lemma ApplyColorUnshares(h0: Heap, h: Heap, ps: seq<Id>, mesh: Id, c: Color)
    requires Wf(h0) && Wf(h) && IsMesh(h0, mesh) && Unshared(h0, h, ps)
    ensures IsMesh(h, mesh) && AllMaterials(h, SlotOf(h, mesh))
    ensures Unshared(h0, ApplyColorOn(h, mesh, c), ps + [mesh])
  {
    ExtendsKinds(h0, h);
    ApplyColorRecolours(h, mesh, c);
    UnsharedStep(h0, h, ApplyColorOn(h, mesh, c), ps, mesh);
  }

  /** Any recolouring step of `mesh` extends the pass by `mesh`. */
  lemma UnsharedStep(h0: Heap, h: Heap, r: Heap, ps: seq<Id>, mesh: Id)
    requires Wf(h0) && Wf(h) && IsMesh(h0, mesh) && Unshared(h0, h, ps) && Recoloured(h, r, mesh)
    ensures Unshared(h0, r, ps + [mesh])
  {
    UnsharedHolds(h0, h, r, ps, mesh);
    UnsharedDistinct(h0, h, r, ps, mesh);
    UnsharedOthers(h0, h, r, ps, mesh);
    UnsharedLiveNew(h0, h, r, ps, mesh);
    UnsharedLiveOld(h0, h, r, ps, mesh);
  }

  /** The meshes of the pass hold only live clones of the pass after the step. */
  lemma UnsharedHolds(h0: Heap, h: Heap, r: Heap, ps: seq<Id>, mesh: Id)
    requires Wf(h0) && IsMesh(h0, mesh) && Unshared(h0, h, ps) && Recoloured(h, r, mesh)
    ensures forall m: Id, x: Id :: m in ps + [mesh] && IsMesh(r, m) && x in SlotOf(r, m) ==> Newer(h0, x) && IsLive(r, x)
  {
    var ps' := ps + [mesh];
    assert forall x :: x in SlotOf(h0, mesh) ==> x < |h0.objs| by {
      assert ObjOk(h0, mesh);
    }
    forall m: Id, x: Id | m in ps' && IsMesh(r, m) && x in SlotOf(r, m)
      ensures Newer(h0, x) && IsLive(r, x)
    {
      if m == mesh {
        assert x >= |h.objs| >= |h0.objs|;
        assert IsMaterial(r, x) && IsLive(r, x);
      } else {
        assert m in ps && IsMesh(h, m) && x in SlotOf(h, m);
        assert Newer(h0, x) && IsLive(h, x) && IsMaterial(h, x);
        if mesh in ps {
          assert x !in SlotOf(h, mesh);
        } else {
          assert SlotOf(h, mesh) == SlotOf(h0, mesh);
        }
      }
    }
  }

  /** After the step no mesh of the pass holds a material twice or shares one. */
  lemma UnsharedDistinct(h0: Heap, h: Heap, r: Heap, ps: seq<Id>, mesh: Id)
    requires IsMesh(h0, mesh) && Unshared(h0, h, ps) && Recoloured(h, r, mesh)
    ensures var ps' := ps + [mesh];
            && (forall m: Id :: m in ps' && IsMesh(r, m) ==> NoDup(SlotOf(r, m)))
            && (forall m1: Id, m2: Id, x: Id ::
                  m1 in ps' && m2 in ps' && IsMesh(r, m1) && IsMesh(r, m2) && m1 != m2 && x in SlotOf(r, m1) ==> x !in SlotOf(r, m2))
  {
    var ps' := ps + [mesh];
    forall m: Id | m in ps' && IsMesh(r, m)
      ensures NoDup(SlotOf(r, m))
    {
      if m != mesh {
        assert IsMesh(h, m) && NoDup(SlotOf(h, m));
      }
    }
    forall m1: Id, m2: Id, x: Id | m1 in ps' && m2 in ps' && IsMesh(r, m1) && IsMesh(r, m2) && m1 != m2 && x in SlotOf(r, m1)
      ensures x !in SlotOf(r, m2)
    {
      if m1 == mesh {
        assert x >= |h.objs|;
        assert IsMesh(h, m2) && SlotOf(r, m2) == SlotOf(h, m2);
        assert forall y :: y in SlotOf(h, m2) ==> IsMaterial(h, y);
      } else if m2 == mesh {
        assert IsMesh(h, m1) && SlotOf(r, m1) == SlotOf(h, m1);
        assert IsMaterial(h, x);
      } else {
        assert IsMesh(h, m1) && IsMesh(h, m2);
        assert x !in SlotOf(h, m2);
      }
    }
  }

  /** After the step the meshes outside the pass still hold what they held in `h0`. */
  lemma UnsharedOthers(h0: Heap, h: Heap, r: Heap, ps: seq<Id>, mesh: Id)
    requires IsMesh(h0, mesh) && Unshared(h0, h, ps) && Recoloured(h, r, mesh)
    ensures && Extends(h0, r)
            && (forall m: Id :: m in ps + [mesh] ==> IsMesh(h0, m))
            && (forall m: Id :: IsMesh(h0, m) && m !in ps + [mesh] ==> IsMesh(r, m) && SlotOf(r, m) == SlotOf(h0, m))
  {
    forall x | 0 <= x < |h0.objs|
      ensures SameKind(h0.objs[x], r.objs[x])
    {
      assert SameKind(h0.objs[x], h.objs[x]) && SameKind(h.objs[x], r.objs[x]);
    }
  }

  /** After the step every live clone of the pass is held by a mesh of the pass. */
  lemma UnsharedLiveNew(h0: Heap, h: Heap, r: Heap, ps: seq<Id>, mesh: Id)
    requires IsMesh(h0, mesh) && Unshared(h0, h, ps) && Recoloured(h, r, mesh)
    ensures forall x: Id :: IsMaterial(r, x) && IsLive(r, x) && x >= |h0.objs| ==> HeldBy(r, ps + [mesh], x)
  {
    var ps' := ps + [mesh];
    forall x: Id | IsMaterial(r, x) && IsLive(r, x) && x >= |h0.objs|
      ensures HeldBy(r, ps', x)
    {
      if x in SlotOf(r, mesh) {
        assert mesh in ps';
      } else {
        assert IsMaterial(h, x) && IsLive(h, x) && x !in SlotOf(h, mesh);
        assert HeldBy(h, ps, x);
        var m: Id :| m in ps && IsMesh(h, m) && x in SlotOf(h, m);
        assert m != mesh;
        assert m in ps' && IsMesh(r, m) && x in SlotOf(r, m);
      }
    }
  }

  /** After the step an older material is live only if it was live in `h0` and no mesh of the pass held it. */
  lemma UnsharedLiveOld(h0: Heap, h: Heap, r: Heap, ps: seq<Id>, mesh: Id)
    requires IsMesh(h0, mesh) && Unshared(h0, h, ps) && Recoloured(h, r, mesh)
    ensures forall x: Id :: IsMaterial(r, x) && IsLive(r, x) && x < |h0.objs| ==> IsMaterial(h0, x) && IsLive(h0, x) && !HeldBy(h0, ps + [mesh], x)
  {
    var ps' := ps + [mesh];
    forall x: Id | IsMaterial(r, x) && IsLive(r, x) && x < |h0.objs|
      ensures IsMaterial(h0, x) && IsLive(h0, x) && !HeldBy(h0, ps', x)
    {
      assert x !in SlotOf(r, mesh);
      assert IsMaterial(h, x) && IsLive(h, x) && x !in SlotOf(h, mesh);
      assert IsMaterial(h0, x) && IsLive(h0, x) && !HeldBy(h0, ps, x);
      forall m: Id | m in ps' && IsMesh(h0, m)
        ensures x !in SlotOf(h0, m)
      {
        if m !in ps {
          assert m == mesh;
          assert SlotOf(h, mesh) == SlotOf(h0, mesh);
        }
      }
    }
  }

  /**
   * A pass that has recoloured every mesh holding a live material of `h0` leaves ownership
   * among those meshes exclusive, however `h0` shared its materials.
   */
  lemma UnsharedExclusive(h0: Heap, h: Heap, ps: seq<Id>)
    requires Unshared(h0, h, ps)
    requires forall x: Id :: IsMaterial(h0, x) && IsLive(h0, x) ==> HeldBy(h0, ps, x)
    ensures Exclusive(h, ps)
  {
    forall m: Id | m in ps
      ensures IsMesh(h, m)
    {
      assert IsMesh(h0, m) && SameKind(h0.objs[m], h.objs[m]);
    }
  }

  // ---------------------------------------------------------------------------
  // The implementation, step by step as the source does it
  // ---------------------------------------------------------------------------

  /** `applyToMaterial`: clone, set the colour if there is a `color` property, drop a non-null `map`. */
  method ApplyToMaterial(w: World, src: Id, c: Color) returns (x: Id)
    requires w.Valid() && IsMaterial(w.Snapshot(), src)
    modifies w
    ensures w.Valid() && x == |old(w.objs)|
    ensures w.Snapshot() == ApplyToMaterialOn(old(w.Snapshot()), src, c)
  {
    x := w.Clone(src);
    assert ObjOk(w.Snapshot(), x);
    var m := w.objs[x].mat;
    if m.color.Some? {
      w.WriteMaterial(x, m.(color := Some(c)));
    }
    m := w.objs[x].mat;
    if m.textureMap.Some? {
      w.WriteMaterial(x, m.(textureMap := None));
    }
  }

  /** `olds.map(applyToMaterial)`: the clones' ids, in order. */
  method CloneAll(w: World, olds: seq<Id>, c: Color) returns (news: seq<Id>)
    requires w.Valid() && AllMaterials(w.Snapshot(), olds)
    modifies w
    ensures w.Valid() && news == Range(|old(w.objs)|, |olds|)
    ensures w.Snapshot() == CloneAllOn(old(w.Snapshot()), olds, c)
  {
    ghost var h0 := w.Snapshot();
    news := [];
    for i := 0 to |olds|
      invariant w.Valid() && AllMaterials(h0, olds[..i])
      invariant w.Snapshot() == CloneAllOn(h0, olds[..i], c)
      invariant news == Range(|h0.objs|, i)
    {
      CloneAllStep(h0, olds, i, c);
      var x := ApplyToMaterial(w, olds[i], c);
      news := news + [x];
    }
    assert olds[..|olds|] == olds;
  }

  /** `applyColorToMesh(mesh, c)`: a single material is the one-element case of the array branch. */
  method ApplyColorToMesh(w: World, mesh: Id, c: Color)
    requires w.Valid() && IsMesh(w.Snapshot(), mesh)
    modifies w
    ensures AllMaterials(old(w.Snapshot()), SlotOf(old(w.Snapshot()), mesh))
    ensures w.Valid() && w.Snapshot() == ApplyColorOn(old(w.Snapshot()), mesh, c)
  {
    ghost var h0 := w.Snapshot();
    SlotMaterials(h0, mesh);
    var slot := w.objs[mesh].slot;
    var olds := Handles(slot);
    var news := CloneAll(w, olds, c);
    w.AssignSlot(mesh, Reslot(slot, news));
    assert forall i :: 0 <= i < |olds| ==> IsMaterial(w.Snapshot(), olds[i]);
    w.DisposeAll(olds);
  }
}
