/**
 * The model loader of `ThreeCanvas` (src/components/ThreeCanvas/ThreeCanvas.tsx): the loading
 * and error flags, the centring and scaling of the loaded glTF scene, its attachment to the
 * scene, and the effect cleanup that detaches it and disposes what its meshes own.
 */
module ThreeCanvas {
  import opened Wrappers
  import opened SceneGraph
  import opened Resources
  import opened Disposal

  // ---------------------------------------------------------------------------
  // Bounding box arithmetic (`Box3`), over the reals
  // ---------------------------------------------------------------------------

  /** `Box3.setFromObject`: empty when the object has no geometry, otherwise its corners. */
  datatype Box = EmptyBox | Bounds(min: Vec3, max: Vec3)

  /** A box whose corners are in order on every axis, as `setFromObject` produces. */
  predicate Ordered(b: Box)
  {
    b.Bounds? ==> b.min.x <= b.max.x && b.min.y <= b.max.y && b.min.z <= b.max.z
  }

  /** `getCenter`: the midpoint of the corners; the origin for an empty box. */
  function Center(b: Box): Vec3
  {
    if b.EmptyBox? then Origin else Times(Plus(b.min, b.max), 0.5)
  }

  /** `getSize`: the extent on each axis; zero for an empty box. */
  function Size(b: Box): Vec3
  {
    if b.EmptyBox? then Origin else Minus(b.max, b.min)
  }

  /** `Math.max` of three numbers. */
  function Max3(a: real, b: real, c: real): (r: real)
    ensures r >= a && r >= b && r >= c
    ensures r == a || r == b || r == c
  {
    if a >= b && a >= c then a else if b >= c then b else c
  }

  function MaxDim(b: Box): real
  {
    var s := Size(b);
    Max3(s.x, s.y, s.z)
  }

  /** `4 / maxDim`, or `None` where JavaScript's division gives a non-finite number. */
  function ScaleFor(maxDim: real): (r: Option<real>)
    ensures r.Some? <==> maxDim != 0.0
    ensures r.Some? ==> r.value * maxDim == 4.0
  {
    if maxDim == 0.0 then None else Some(4.0 / maxDim)
  }

  /** `position.sub(center.multiplyScalar(scale))` and `scale.multiplyScalar(scale)`. */
  function Normalise(t: Transform, c: Vec3, s: real): (r: Transform)
    ensures r.rotationY == t.rotationY
  {
    t.(position := Minus(t.position, Times(c, s)), scale := Times(t.scale, s))
  }

  /** Where a point of the object's own frame lands, for an object not rotated about y. */
  function Apply(t: Transform, p: Vec3): Vec3
  {
    Plus(t.position, Mul(t.scale, p))
  }

  /** The point map the normalisation aims at: move the centre to the origin, then scale. */
  function Recentre(q: Vec3, c: Vec3, s: real): Vec3
  {
    Times(Minus(q, c), s)
  }

  /**
   * What the normalisation does to every point of the model: the intended recentring, off by
   * `(1 - s)` times the position the loaded scene already had.
   */
  lemma NormaliseMovesPoints(t: Transform, c: Vec3, s: real, p: Vec3)
    ensures Apply(Normalise(t, c, s), p) == Plus(Recentre(Apply(t, p), c, s), Times(t.position, 1.0 - s))
  {
    NormaliseAxis(t.position.x, t.scale.x, p.x, c.x, s);
    NormaliseAxis(t.position.y, t.scale.y, p.y, c.y, s);
    NormaliseAxis(t.position.z, t.scale.z, p.z, c.z, s);
  }

  lemma NormaliseAxis(pos: real, scale: real, p: real, c: real, s: real)
    ensures (pos - c * s) + (scale * s) * p == ((pos + scale * p) - c) * s + pos * (1.0 - s)
  {
    assert (scale * s) * p == (scale * p) * s;
    assert ((pos + scale * p) - c) * s == pos * s + (scale * p) * s - c * s;
  }

  /** A scene loaded at the origin is recentred exactly. */
  lemma NormaliseAtOrigin(t: Transform, c: Vec3, s: real, p: Vec3)
    requires t.position == Origin
    ensures Apply(Normalise(t, c, s), p) == Recentre(Apply(t, p), c, s)
  {
    NormaliseMovesPoints(t, c, s, p);
  }

  /** The box the model's points occupy after the recentring. */
  function RecentreBox(b: Box, c: Vec3, s: real): Box
  {
    if b.EmptyBox? then EmptyBox else Bounds(Recentre(b.min, c, s), Recentre(b.max, c, s))
  }

  lemma Max3Scale(a: real, b: real, c: real, s: real)
    requires s > 0.0
    ensures Max3(a * s, b * s, c * s) == Max3(a, b, c) * s
  {
    if a >= b { assert a * s >= b * s; } else { assert a * s < b * s; }
    if a >= c { assert a * s >= c * s; } else { assert a * s < c * s; }
    if b >= c { assert b * s >= c * s; } else { assert b * s < c * s; }
  }

  /**
   * After the normalisation a non-degenerate model is centred on the origin and its longest
   * side is exactly 4 units.
   */
  lemma NormalisedBox(b: Box)
    requires Ordered(b) && MaxDim(b) != 0.0
    ensures ScaleFor(MaxDim(b)).Some?
    ensures var b' := RecentreBox(b, Center(b), ScaleFor(MaxDim(b)).value);
            Center(b') == Origin && MaxDim(b') == 4.0
  {
    var d := MaxDim(b);
    PositiveMaxDim(b);
    ScalePositive(d);
    var s := ScaleFor(d).value;
    MaxDimScaled(b, Center(b), s);
    CentredAtOrigin(b, s);
  }

  lemma PositiveMaxDim(b: Box)
    requires Ordered(b) && MaxDim(b) != 0.0
    ensures b.Bounds? && MaxDim(b) > 0.0
  {
  }

  lemma ScalePositive(d: real)
    requires d > 0.0
    ensures ScaleFor(d).Some? && ScaleFor(d).value > 0.0
  {
  }

  lemma MaxDimScaled(b: Box, c: Vec3, s: real)
    requires b.Bounds? && s > 0.0
    ensures MaxDim(RecentreBox(b, c, s)) == MaxDim(b) * s
  {
    ScaledSize(b, c, s);
    SizeScaled(RecentreBox(b, c, s), Size(b), s);
  }

  lemma SizeScaled(b: Box, v: Vec3, s: real)
    requires Size(b) == Times(v, s) && s > 0.0
    ensures MaxDim(b) == Max3(v.x, v.y, v.z) * s
  {
    var w := Size(b);
    assert w.x == v.x * s && w.y == v.y * s && w.z == v.z * s;
    Max3Times(v.x, v.y, v.z, w.x, w.y, w.z, s);
  }

  lemma Max3Times(a: real, b: real, c: real, a': real, b': real, c': real, s: real)
    requires s > 0.0 && a' == a * s && b' == b * s && c' == c * s
    ensures Max3(a', b', c') == Max3(a, b, c) * s
  {
    Max3Scale(a, b, c, s);
  }

  lemma ScaledSize(b: Box, c: Vec3, s: real)
    requires b.Bounds?
    ensures Size(RecentreBox(b, c, s)) == Times(Size(b), s)
  {
    var b' := RecentreBox(b, c, s);
    assert (b.max.x - c.x) * s - (b.min.x - c.x) * s == (b.max.x - b.min.x) * s;
    assert (b.max.y - c.y) * s - (b.min.y - c.y) * s == (b.max.y - b.min.y) * s;
    assert (b.max.z - c.z) * s - (b.min.z - c.z) * s == (b.max.z - b.min.z) * s;
  }

  lemma CentredAtOrigin(b: Box, s: real)
    requires b.Bounds?
    ensures Center(RecentreBox(b, Center(b), s)) == Origin
  {
    var c := Center(b);
    assert ((b.min.x - c.x) * s + (b.max.x - c.x) * s) * 0.5 == (b.min.x + b.max.x - 2.0 * c.x) * s * 0.5;
    assert ((b.min.y - c.y) * s + (b.max.y - c.y) * s) * 0.5 == (b.min.y + b.max.y - 2.0 * c.y) * s * 0.5;
    assert ((b.min.z - c.z) * s + (b.max.z - c.z) * s) * 0.5 == (b.min.z + b.max.z - 2.0 * c.z) * s * 0.5;
  }

  // ---------------------------------------------------------------------------
  // The load callbacks and the cleanup, on the heap
  // ---------------------------------------------------------------------------

  /** The loaded root with its transform normalised for the box `b` (left as loaded where the scale is not finite). */
  function NormalisedRoot(n: Node, b: Box): (r: Node)
    ensures r.name == n.name && r.kind == n.kind && r.children == n.children
    ensures MeshIds(r) == MeshIds(n)
  {
    var s := ScaleFor(MaxDim(b));
    var t := if s.Some? then Normalise(n.transform, Center(b), s.value) else n.transform;
    MeshIdsOfAppend([n], PreorderList(n.children));
    MeshIdsOfAppend([n.(transform := t)], PreorderList(n.children));
    if s.Some? then n.(transform := Normalise(n.transform, Center(b), s.value)) else n
  }

  /** The success callback: normalise the loaded root, then `scene.add` it. */
  function LoadSuccessOn(h: Heap, root: Id, b: Box): (r: Heap)
    requires Wf(h) && IsRoot(h, root)
    ensures Wf(r) && IsRoot(r, root)
    ensures forall q :: q in r.scene <==> q in h.scene || q == root
    ensures root !in h.scene ==> r.scene == h.scene + [root]
    ensures |r.objs| == |h.objs| && r.log == h.log
    ensures forall x :: 0 <= x < |h.objs| && x != root ==> r.objs[x] == h.objs[x]
    ensures var n := h.objs[root].tree;
            var n' := r.objs[root].tree;
            && n'.name == n.name && n'.kind == n.kind && n'.children == n.children
            && MeshIds(n') == MeshIds(n)
            && (MaxDim(b) != 0.0 ==> n'.transform == Normalise(n.transform, Center(b), 4.0 / MaxDim(b)))
            && (MaxDim(b) == 0.0 ==> n' == n)
  {
    var n := NormalisedRoot(h.objs[root].tree, b);
    assert ObjOk(h, root);
    SetRootOnWf(h, root, n);
    var a := SetRootOn(h, root, n);
    SceneAddOnWf(a, root);
    SceneAddOn(a, root)
  }

  /** The cleanup: nothing if the load has not succeeded; otherwise `scene.remove`, then the disposal traversal. */
  function TeardownOn(h: Heap, loaded: Option<Id>): (r: Heap)
    requires Wf(h) && (loaded.Some? ==> IsRoot(h, loaded.value))
    ensures Wf(r) && |r.objs| == |h.objs|
    ensures loaded.None? ==> r == h
    ensures loaded.Some? ==> forall q :: q in r.scene <==> q in h.scene && q != loaded.value
  {
    if loaded.None? then h
    else
      var root := loaded.value;
      assert ObjOk(h, root);
      var a := SceneRemoveOn(h, root);
      SceneRemoveOnWf(h, root);
      DisposeMeshesOn(a, MeshIds(a.objs[root].tree))
  }

  /**
   * The cleanup changes no object but the geometries and materials of the loaded model's
   * meshes: a resource another model or a detached mesh holds stays as it was.
   */
  lemma TeardownKeepsOthers(h: Heap, root: Id, x: Id)
    requires Wf(h) && IsRoot(h, root) && x < |h.objs|
    requires forall m :: m in MeshIds(h.objs[root].tree) && IsMesh(h, m) ==> x !in MeshParts(h, m)
    ensures TeardownOn(h, Some(root)).objs[x] == h.objs[x]
  {
    assert ObjOk(h, root);
    var a := SceneRemoveOn(h, root);
    SceneRemoveOnWf(h, root);
    var ms := MeshIds(a.objs[root].tree);
    forall i | 0 <= i < |ms|
      ensures x !in MeshParts(a, ms[i])
    {
      assert ms[i] in MeshIds(h.objs[root].tree);
    }
    DisposesOnlyParts(a, ms, x);
  }

  /** Detaching a root added after the scene's other roots gives the scene back as it was. */
  lemma {:induction false} WithoutAppended(s: seq<Id>, r: Id)
    requires r !in s
    ensures Without(s + [r], r) == s
  {
    if s == [] {
      assert [r][1..] == [];
    } else {
      assert (s + [r])[0] == s[0] && (s + [r])[1..] == s[1..] + [r];
      WithoutAppended(s[1..], r);
      assert [s[0]] + s[1..] == s;
    }
  }

  /** Load then cleanup: the scene is back to what it was, and every geometry and material of every mesh of the model is disposed. */
  lemma LoadThenTeardown(h: Heap, root: Id, b: Box, i: nat, x: Id)
    requires Wf(h) && IsRoot(h, root) && root !in h.scene
    requires ObjOk(h, root) && AllMeshes(h, MeshIds(h.objs[root].tree))
    requires i < |MeshIds(h.objs[root].tree)| && x in MeshParts(h, MeshIds(h.objs[root].tree)[i])
    ensures var l := LoadSuccessOn(h, root, b);
            var r := TeardownOn(l, Some(root));
            && r.scene == h.scene
            && IsResource(r, x) && r.objs[x].status == Disposed
  {
    var l := LoadSuccessOn(h, root, b);
    var a := SceneRemoveOn(l, root);
    WithoutAppended(h.scene, root);
    assert a.scene == h.scene;
    var ms := MeshIds(h.objs[root].tree);
    assert MeshIds(a.objs[root].tree) == ms;
    var m := ms[i];
    assert a.objs[m] == h.objs[m];
    assert MeshParts(a, m) == MeshParts(h, m);
    SceneRemoveOnWf(l, root);
    DisposesParts(a, ms, i, x);
  }

  /**
   * The success callback has no "still mounted" check: a load that completes after its own
   * run's cleanup, which found nothing loaded, still attaches the model. The cleanup of a later
   * run sees only that later run's `loadedModel`; when that run's load failed, it leaves the
   * late model in the scene with every resource of the heap as it was, so nothing ever
   * disposes it.
   */
  lemma LateLoadAttaches(h: Heap, root: Id, b: Box)
    requires Wf(h) && IsRoot(h, root)
    ensures var l := LoadSuccessOn(TeardownOn(h, None), root, b);
            && root in l.scene && l.objs[root].tree.children == h.objs[root].tree.children
            && var r := TeardownOn(l, None);
            && root in r.scene
            && forall x: Id :: IsResource(h, x) ==> IsResource(r, x) && r.objs[x] == h.objs[x]
  {
    var l := LoadSuccessOn(h, root, b);
    forall x: Id | IsResource(h, x)
      ensures IsResource(l, x) && l.objs[x] == h.objs[x]
    {
      assert x != root;
    }
  }

  // ---------------------------------------------------------------------------
  // The error message
  // ---------------------------------------------------------------------------

  /** What the loader passes to the error callback: an `Error` with its message, or something else. */
  datatype LoadFailure = ErrorValue(message: string) | OtherValue

  const ErrorPrefix: string := "Failed to load model: "

  /** `` `Failed to load model: ${error instanceof Error ? error.message : 'Unknown error'}` ``. */
  function ErrorMessage(e: LoadFailure): (r: string)
    ensures |r| >= |ErrorPrefix| && r[..|ErrorPrefix|] == ErrorPrefix
    ensures e.ErrorValue? ==> r[|ErrorPrefix|..] == e.message
    ensures e.OtherValue? ==> r[|ErrorPrefix|..] == "Unknown error"
  {
    ErrorPrefix + (if e.ErrorValue? then e.message else "Unknown error")
  }

  /** Distinct `Error` messages give distinct texts: the message can be read back from the text. */
  lemma ErrorMessageInjective(a: string, b: string)
    requires ErrorMessage(ErrorValue(a)) == ErrorMessage(ErrorValue(b))
    ensures a == b
  {
    assert a == ErrorMessage(ErrorValue(a))[|ErrorPrefix|..];
  }

  // ---------------------------------------------------------------------------
  // The component's state
  // ---------------------------------------------------------------------------

  /**
   * The component's `isLoading`, `error` and `model` state, and the `loadedModel` variable of
   * every run of the load effect. Each run declares its own `let loadedModel`, which only that
   * run's success callback writes and only that run's cleanup reads; `runs[i]` is the one of
   * run `i`.
   */
  class Canvas {
    var isLoading: bool
    var error: Option<string>
    var model: Option<Id>
    var runs: seq<Option<Id>>

    /** `useState(true)` and `useState(null)`; the effect has not run yet. */
    constructor ()
      ensures isLoading && error == None && model == None && runs == []
    {
      isLoading, error, model, runs := true, None, None, [];
    }

    /**
     * The effect body up to `loader.load`: nothing without a scene; otherwise loading starts
     * afresh and a new run begins, with its own `loadedModel` still null.
     */
    method StartLoad(hasScene: bool) returns (run: Option<nat>)
      modifies this
      ensures model == old(model)
      ensures hasScene ==> && run == Some(|old(runs)|) && runs == old(runs) + [None]
                           && isLoading && error == None
      ensures !hasScene ==> && run == None && runs == old(runs)
                            && isLoading == old(isLoading) && error == old(error)
    {
      run := None;
      if hasScene {
        isLoading := true;
        error := None;
        run := Some(|runs|);
        runs := runs + [None];
      }
    }

    /**
     * The success callback of run `run`, for the loaded root `root` whose box is `b`. It sets
     * that run's `loadedModel`, whether or not the run has been cleaned up since.
     */
    method OnLoadSuccess(w: World, run: nat, root: Id, b: Box)
      requires w.Valid() && IsRoot(w.Snapshot(), root) && run < |runs|
      modifies this, w
      ensures w.Valid() && w.Snapshot() == LoadSuccessOn(old(w.Snapshot()), root, b)
      ensures runs == old(runs)[run := Some(root)]
      ensures model == Some(root) && !isLoading && error == old(error)
    {
      ghost var h0 := w.Snapshot();
      runs := runs[run := Some(root)];
      var n := w.objs[root].tree;
      var s := ScaleFor(MaxDim(b));
      var n' := n;
      if s.Some? {
        n' := n.(transform := Normalise(n.transform, Center(b), s.value));
      }
      assert n' == NormalisedRoot(n, b);
      assert ObjOk(h0, root);
      w.SetRoot(root, n');
      w.SceneAdd(root);
      model := Some(root);
      isLoading := false;
    }

    /** The error callback: the message is recorded and loading stops; the scene is not touched. */
    method OnLoadError(e: LoadFailure)
      modifies this
      ensures error == Some(ErrorMessage(e)) && !isLoading
      ensures model == old(model) && runs == old(runs)
    {
      error := Some(ErrorPrefix + (if e.ErrorValue? then e.message else "Unknown error"));
      isLoading := false;
    }

    /** The cleanup of run `run`, which sees only that run's `loadedModel`. */
    method Teardown(w: World, run: nat)
      requires run < |runs| && w.Valid() && (runs[run].Some? ==> IsRoot(w.Snapshot(), runs[run].value))
      modifies w
      ensures w.Valid() && w.Snapshot() == TeardownOn(old(w.Snapshot()), runs[run])
    {
      var loaded := runs[run];
      if loaded.Some? {
        var root := loaded.value;
        assert ObjOk(w.Snapshot(), root);
        w.SceneRemove(root);
        var ms := MeshIds(w.objs[root].tree);
        DisposeMeshes(w, ms);
      }
    }
  }
}
