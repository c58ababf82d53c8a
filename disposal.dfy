/**
 * The teardown traversal both `ThreeCanvas` and `useThreeScene` use: for every mesh reached,
 * `geometry.dispose()`, then `dispose()` on its material, or on each material of an array.
 */
module Disposal {
  import opened SceneGraph
  import opened Resources

  /** What is disposed for one mesh, in order: its geometry, then its materials. */
  function MeshParts(h: Heap, m: Id): seq<Id>
    requires IsMesh(h, m)
  {
    [h.objs[m].geometry] + Handles(h.objs[m].slot)
  }

  /**
   * What disposal may do to one object: keep its kind, keep it disposed once disposed, and
   * leave it exactly as it was unless it is a geometry or a material.
   */
  predicate MayBecome(o: Obj, o': Obj)
  {
    && SameKind(o, o')
    && (Disposable(o) && o.status == Disposed ==> o'.status == Disposed)
    && (!o.GeometryObj? && !o.MaterialObj? ==> o' == o)
  }

  /** `r` differs from `h` only by disposals. */
  predicate OnlyDisposes(h: Heap, r: Heap)
  {
    && |r.objs| == |h.objs| && r.scene == h.scene
    && forall x :: 0 <= x < |h.objs| ==> MayBecome(h.objs[x], r.objs[x])
  }

  lemma OnlyDisposesTrans(h1: Heap, h2: Heap, h3: Heap)
    requires OnlyDisposes(h1, h2) && OnlyDisposes(h2, h3)
    ensures OnlyDisposes(h1, h3)
  {
    forall x | 0 <= x < |h1.objs|
      ensures MayBecome(h1.objs[x], h3.objs[x])
    {
      assert MayBecome(h1.objs[x], h2.objs[x]) && MayBecome(h2.objs[x], h3.objs[x]);
    }
  }

  /**
   * One mesh of the traversal: `geometry.dispose()`, then `material.dispose()` or
   * `material.forEach(m => m.dispose())`. Every part of the mesh ends up disposed, and no
   * other object changes.
   */
  function DisposeMeshOn(h: Heap, m: Id): (r: Heap)
    requires Wf(h) && IsMesh(h, m)
    ensures Wf(r) && OnlyDisposes(h, r)
    ensures forall x :: x in MeshParts(h, m) ==> IsResource(r, x) && r.objs[x].status == Disposed
    ensures forall x :: 0 <= x < |h.objs| && x !in MeshParts(h, m) ==> r.objs[x] == h.objs[x]
  {
    assert ObjOk(h, m);
    var g := h.objs[m].geometry;
    var b := DisposeOn(h, g);
    DisposeOnWf(h, g);
    DisposeOneStep(h, g);
    match h.objs[m].slot
    case Single(x) =>
      assert x in Handles(h.objs[m].slot);
      DisposeOnWf(b, x);
      DisposeOneStep(b, x);
      var r := DisposeOn(b, x);
      OnlyDisposesTrans(h, b, r);
      StaysDisposed(b, r, g);
      r
    case Multi(xs) =>
      assert forall i :: 0 <= i < |xs| ==> xs[i] in Handles(h.objs[m].slot);
      DisposeAllOnWf(b, xs);
      DisposeAllStep(b, xs);
      var r := DisposeAllOn(b, xs);
      OnlyDisposesTrans(h, b, r);
      StaysDisposed(b, r, g);
      r
  }

  /** `x.dispose()` disposes `x` and nothing else. */
  lemma DisposeOneStep(h: Heap, x: Id)
    requires IsGeometry(h, x) || IsMaterial(h, x)
    ensures var r := DisposeOn(h, x);
            && OnlyDisposes(h, r) && IsResource(r, x) && r.objs[x].status == Disposed
            && forall y :: 0 <= y < |h.objs| && y != x ==> r.objs[y] == h.objs[y]
  {
  }

  /** `xs.forEach(x => x.dispose())` disposes every one of `xs` and nothing else. */
  lemma DisposeAllStep(h: Heap, xs: seq<Id>)
    requires forall i :: 0 <= i < |xs| ==> IsMaterial(h, xs[i]) && IsResource(h, xs[i])
    ensures var r := DisposeAllOn(h, xs);
            && OnlyDisposes(h, r)
            && (forall x :: x in xs ==> IsResource(r, x) && r.objs[x].status == Disposed)
            && forall y :: 0 <= y < |h.objs| && y !in xs ==> r.objs[y] == h.objs[y]
  {
    var r := DisposeAllOn(h, xs);
    forall x | 0 <= x < |h.objs|
      ensures MayBecome(h.objs[x], r.objs[x])
    {
      if x in xs {
        var i :| 0 <= i < |xs| && xs[i] == x;
        assert IsMaterial(h, xs[i]);
        MarkMayBecome(h.objs[x]);
      }
    }
    forall x | x in xs
      ensures IsResource(r, x) && r.objs[x].status == Disposed
    {
      var i :| 0 <= i < |xs| && xs[i] == x;
      assert IsMaterial(h, xs[i]);
      assert r.objs[x] == MarkDisposed(h.objs[x]);
    }
  }

  /** Disposing a geometry or a material is what disposal may do to it. */
  lemma MarkMayBecome(o: Obj)
    requires o.GeometryObj? || o.MaterialObj?
    ensures MayBecome(o, MarkDisposed(o))
  {
  }

  /** The traversal's disposals for the meshes `ms`, mesh by mesh. */
  function DisposeMeshesOn(h: Heap, ms: seq<Id>): (r: Heap)
    requires Wf(h) && AllMeshes(h, ms)
    ensures Wf(r) && OnlyDisposes(h, r)
    decreases |ms|
  {
    if ms == [] then h
    else
      var k := |ms| - 1;
      var a := DisposeMeshesOn(h, ms[..k]);
      assert MayBecome(h.objs[ms[k]], a.objs[ms[k]]);
      var r := DisposeMeshOn(a, ms[k]);
      OnlyDisposesTrans(h, a, r);
      r
  }

  lemma DisposeMeshesLast(h: Heap, ms: seq<Id>, i: nat)
    requires Wf(h) && AllMeshes(h, ms) && i < |ms|
    ensures AllMeshes(h, ms[..i])
    ensures var a := DisposeMeshesOn(h, ms[..i]);
            && a.objs[ms[i]] == h.objs[ms[i]]
            && DisposeMeshesOn(h, ms[..i + 1]) == DisposeMeshOn(a, ms[i])
  {
    assert ms[..i + 1][..i] == ms[..i];
  }

  /** Every geometry and every material of every mesh reached ends up disposed. */
  lemma {:induction false} DisposesParts(h: Heap, ms: seq<Id>, i: nat, x: Id)
    requires Wf(h) && AllMeshes(h, ms) && i < |ms| && x in MeshParts(h, ms[i])
    ensures var r := DisposeMeshesOn(h, ms);
            IsResource(r, x) && r.objs[x].status == Disposed
    decreases |ms|
  {
    var k := |ms| - 1;
    DisposeMeshesLast(h, ms, k);
    assert ms[..k + 1] == ms;
    var a := DisposeMeshesOn(h, ms[..k]);
    var r := DisposeMeshOn(a, ms[k]);
    assert r == DisposeMeshesOn(h, ms);
    if i < k {
      assert ms[..k][i] == ms[i];
      DisposesParts(h, ms[..k], i, x);
      StaysDisposed(a, r, x);
    } else {
      assert i == k;
      assert IsMesh(h, ms[k]);
      assert x in MeshParts(h, ms[k]);
      assert Wf(a);
      assert ms[k] < |a.objs|;
      assert a.objs[ms[k]] == h.objs[ms[k]];
      PartDisposed(h, a, ms[k], x);
    }
    assert IsResource(r, x) && r.objs[x].status == Disposed;
  }

  /** A part of a mesh that no earlier disposal touched is disposed by the mesh's own step. */
  lemma PartDisposed(h: Heap, a: Heap, m: Id, x: Id)
    requires IsMesh(h, m) && x in MeshParts(h, m)
    requires Wf(a) && m < |a.objs| && a.objs[m] == h.objs[m]
    ensures IsMesh(a, m)
    ensures var r := DisposeMeshOn(a, m);
            IsResource(r, x) && r.objs[x].status == Disposed
  {
    assert MeshParts(a, m) == MeshParts(h, m);
  }

  lemma StaysDisposed(h: Heap, r: Heap, x: Id)
    requires OnlyDisposes(h, r) && IsResource(h, x) && h.objs[x].status == Disposed
    ensures IsResource(r, x) && r.objs[x].status == Disposed
  {
    assert MayBecome(h.objs[x], r.objs[x]);
  }

  /**
   * Every object that is not a part of a mesh reached stays exactly as it was: the traversal
   * disposes the geometries and materials of the meshes it visits and no other.
   */
  lemma {:induction false} DisposesOnlyParts(h: Heap, ms: seq<Id>, x: Id)
    requires Wf(h) && AllMeshes(h, ms) && x < |h.objs|
    requires forall i :: 0 <= i < |ms| ==> x !in MeshParts(h, ms[i])
    ensures DisposeMeshesOn(h, ms).objs[x] == h.objs[x]
    decreases |ms|
  {
    if ms != [] {
      var k := |ms| - 1;
      DisposeMeshesLast(h, ms, k);
      assert ms[..k + 1] == ms;
      assert forall i :: 0 <= i < k ==> ms[..k][i] == ms[i];
      DisposesOnlyParts(h, ms[..k], x);
      var a := DisposeMeshesOn(h, ms[..k]);
      assert MeshParts(a, ms[k]) == MeshParts(h, ms[k]);
    }
  }

  /**
   * No mesh, no model tree, no scene entry and no texture changes, so a material's map
   * outlives the material.
   */
  lemma DisposesNothingElse(h: Heap, ms: seq<Id>, x: Id)
    requires Wf(h) && AllMeshes(h, ms) && x < |h.objs| && !h.objs[x].GeometryObj? && !h.objs[x].MaterialObj?
    ensures var r := DisposeMeshesOn(h, ms);
            |r.objs| == |h.objs| && r.scene == h.scene && r.objs[x] == h.objs[x]
  {
  }

  /** The traversal's loop over the meshes it reaches. */
  method DisposeMeshes(w: World, ms: seq<Id>)
    requires w.Valid() && AllMeshes(w.Snapshot(), ms)
    modifies w
    ensures w.Valid() && w.Snapshot() == DisposeMeshesOn(old(w.Snapshot()), ms)
  {
    ghost var h0 := w.Snapshot();
    for i := 0 to |ms|
      invariant AllMeshes(h0, ms[..i])
      invariant w.Valid() && w.Snapshot() == DisposeMeshesOn(h0, ms[..i])
    {
      DisposeMeshesLast(h0, ms, i);
      DisposeMesh(w, ms[i]);
    }
    assert ms[..|ms|] == ms;
  }

  /** The body of the traversal callback for one mesh. */
  method DisposeMesh(w: World, m: Id)
    requires w.Valid() && IsMesh(w.Snapshot(), m)
    modifies w
    ensures w.Valid() && w.Snapshot() == DisposeMeshOn(old(w.Snapshot()), m)
  {
    ghost var h0 := w.Snapshot();
    assert ObjOk(h0, m);
    var g, slot := w.objs[m].geometry, w.objs[m].slot;
    w.Dispose(g);
    match slot
    case Single(x) =>
      assert x in Handles(slot);
      w.Dispose(x);
    case Multi(xs) =>
      assert forall i :: 0 <= i < |xs| ==> xs[i] in Handles(slot);
      w.DisposeAll(xs);
  }
}
