/**
 * The scene hook (src/components/ThreeCanvas/useThreeScene.ts): the eased camera transition a
 * store change starts, and the cleanup that disposes everything the scene holds. Time enters
 * only as the clock readings the callbacks see.
 */
module ThreeScene {
  import opened Wrappers
  import opened SceneGraph
  import opened Resources
  import opened Disposal
  import opened CustomizerTypes
  import opened CustomizerStore

  // ---------------------------------------------------------------------------
  // Easing and interpolation, over the reals
  // ---------------------------------------------------------------------------

  function Cube(x: real): real { x * x * x }

  /** `easeOutCubic(t) = 1 - (1 - t)^3`. */
  function EaseOutCubic(t: real): real
  {
    1.0 - Cube(1.0 - t)
  }

  lemma EaseEnds()
    ensures EaseOutCubic(0.0) == 0.0 && EaseOutCubic(1.0) == 1.0
  {
  }

  lemma CubeMonotone(x: real, y: real)
    requires x >= y >= 0.0
    ensures Cube(x) >= Cube(y) >= 0.0
  {
    assert x * x >= x * y >= y * y >= 0.0;
    assert x * x * x >= y * y * x >= y * y * y;
  }

  /** The easing never goes back: a later moment is at least as far along. */
  lemma EaseMonotone(a: real, b: real)
    requires 0.0 <= a <= b <= 1.0
    ensures EaseOutCubic(a) <= EaseOutCubic(b)
  {
    CubeMonotone(1.0 - a, 1.0 - b);
  }

  /** On [0, 1] the easing stays within [0, 1]. */
  lemma EaseRange(t: real)
    requires 0.0 <= t <= 1.0
    ensures 0.0 <= EaseOutCubic(t) <= 1.0
  {
    CubeMonotone(1.0 - t, 0.0);
    CubeMonotone(1.0, 1.0 - t);
  }

  const Duration: real := 500.0

  /** `Math.min(elapsed / duration, 1)`. */
  function Progress(elapsed: real): (t: real)
    ensures t <= 1.0
    ensures t == 1.0 <==> elapsed >= Duration
    ensures elapsed >= 0.0 ==> t >= 0.0
  {
    if elapsed / Duration < 1.0 then elapsed / Duration else 1.0
  }

  lemma ProgressMonotone(e1: real, e2: real)
    requires e1 <= e2
    ensures Progress(e1) <= Progress(e2)
  {
  }

  /** `Vector3.lerpVectors(a, b, e)`: `a + (b - a) * e` on each axis. */
  function Lerp(a: Vec3, b: Vec3, e: real): Vec3
  {
    Plus(a, Times(Minus(b, a), e))
  }

  /** The interpolation starts at its first point and ends exactly at its second. */
  lemma LerpEnds(a: Vec3, b: Vec3)
    ensures Lerp(a, b, 0.0) == a && Lerp(a, b, 1.0) == b
  {
  }

  // ---------------------------------------------------------------------------
  // The preset table and one transition
  // ---------------------------------------------------------------------------

  /** `CAMERA_PRESETS[preset].position`; `'free'` has no entry. */
  function PresetPosition(p: CameraPreset): (r: Option<Vec3>)
    ensures r.Some? <==> p != Free
    ensures r.Some? ==> var v := r.value;
              v.y == 0.0 && (v.x == 0.0 || v.z == 0.0) && v.x * v.x + v.z * v.z == 9.0
  {
    match p
    case Front => Some(Vec3(0.0, 0.0, 3.0))
    case Back => Some(Vec3(0.0, 0.0, -3.0))
    case Left => Some(Vec3(-3.0, 0.0, 0.0))
    case Right => Some(Vec3(3.0, 0.0, 0.0))
    case Free => None
  }

  /** The target of a transition: the preset position scaled by the zoom level. */
  function TargetFor(p: CameraPreset, zoom: real): (r: Option<Vec3>)
    ensures r.Some? <==> p != Free
  {
    var v := PresetPosition(p);
    if v.Some? then Some(Times(v.value, zoom)) else None
  }

  /** The zoom level scales the distance from the origin: the target sits `3 * zoom` along one axis. */
  lemma TargetDistance(p: CameraPreset, zoom: real)
    requires p != Free
    ensures var v := TargetFor(p, zoom).value;
            v.y == 0.0 && v.x * v.x + v.z * v.z == 9.0 * zoom * zoom
  {
  }

  /** One transition: where it started, where it goes, when it started, and whether a frame is still requested. */
  datatype Transition = Transition(start: Vec3, target: Vec3, startTime: real, pending: bool)

  /** The frame at clock reading `now` is the last one: `!(t < 1)`. */
  predicate Finished(a: Transition, now: real)
  {
    Progress(now - a.startTime) >= 1.0
  }

  /** Where a frame at `now` puts the camera. */
  function PositionAt(a: Transition, now: real): Vec3
  {
    Lerp(a.start, a.target, EaseOutCubic(Progress(now - a.startTime)))
  }

  /** The last frame puts the camera exactly on the target. */
  lemma ArrivesAtTarget(a: Transition, now: real)
    requires Finished(a, now)
    ensures PositionAt(a, now) == a.target
  {
    assert Progress(now - a.startTime) == 1.0;
    EaseEnds();
    LerpEnds(a.start, a.target);
  }

  /** A frame at the start time leaves the camera where it was. */
  lemma StartsAtStart(a: Transition)
    ensures PositionAt(a, a.startTime) == a.start
  {
    assert Progress(a.startTime - a.startTime) == 0.0;
    EaseEnds();
    LerpEnds(a.start, a.target);
  }

  /** The fraction of the way covered never decreases from one frame to a later one. */
  lemma ApproachMonotone(a: Transition, now1: real, now2: real)
    requires a.startTime <= now1 <= now2
    ensures 0.0 <= EaseOutCubic(Progress(now1 - a.startTime)) <= EaseOutCubic(Progress(now2 - a.startTime)) <= 1.0
  {
    ProgressMonotone(now1 - a.startTime, now2 - a.startTime);
    EaseMonotone(Progress(now1 - a.startTime), Progress(now2 - a.startTime));
    EaseRange(Progress(now1 - a.startTime));
    EaseRange(Progress(now2 - a.startTime));
  }

  /**
   * How many times frames at the clock readings `nows` write `'free'` back to the store: a frame
   * that is not the last requests the next one, the last requests none.
   */
  function Writebacks(a: Transition, nows: seq<real>): (r: nat)
    ensures r <= 1
    ensures r == 1 <==> exists i :: 0 <= i < |nows| && Finished(a, nows[i])
  {
    if nows == [] then 0
    else if Finished(a, nows[0]) then 1
    else
      var r := Writebacks(a, nows[1..]);
      assert forall i :: 1 <= i < |nows| ==> nows[i] == nows[1..][i - 1];
      r
  }

  /** Frames that run past the duration always end the transition, with exactly one write-back. */
  lemma WritesBackOnce(a: Transition, nows: seq<real>)
    requires nows != [] && nows[|nows| - 1] - a.startTime >= Duration
    ensures Writebacks(a, nows) == 1
  {
    assert Finished(a, nows[|nows| - 1]);
  }

  // ---------------------------------------------------------------------------
  // Teardown
  // ---------------------------------------------------------------------------

  /** The meshes `scene.traverse` reaches: those of each root in the scene, in order. */
  function MeshesUnder(h: Heap, roots: seq<Id>): (r: seq<Id>)
    requires Wf(h) && forall q :: q in roots ==> IsRoot(h, q)
    ensures AllMeshes(h, r)
    ensures forall q, m :: q in roots && IsRoot(h, q) && m in MeshIds(h.objs[q].tree) ==> m in r
    ensures forall m :: m in r ==> exists q :: q in roots && IsRoot(h, q) && m in MeshIds(h.objs[q].tree)
  {
    if roots == [] then []
    else
      assert roots[0] in roots;
      assert IsRoot(h, roots[0]);
      assert roots[0] < |h.objs|;
      assert ObjOk(h, roots[0]);
      var rest := MeshesUnder(h, roots[1..]);
      assert forall q :: q in roots ==> q == roots[0] || q in roots[1..];
      MeshIds(h.objs[roots[0]].tree) + rest
  }

  function SceneMeshes(h: Heap): (r: seq<Id>)
    requires Wf(h)
    ensures AllMeshes(h, r)
  {
    assert forall q :: q in h.scene ==> IsRoot(h, q);
    MeshesUnder(h, h.scene)
  }

  /** The cleanup's traversal of the whole scene. */
  function SceneTeardownOn(h: Heap): (r: Heap)
    requires Wf(h)
    ensures Wf(r) && OnlyDisposes(h, r)
  {
    DisposeMeshesOn(h, SceneMeshes(h))
  }

  /**
   * Every object that is not a geometry or material of a mesh under a root in the scene stays
   * as it was: the teardown does not reach meshes outside the scene, such as a detached plane.
   */
  lemma SceneTeardownKeepsOthers(h: Heap, x: Id)
    requires Wf(h) && x < |h.objs|
    requires forall q, m :: q in h.scene && IsRoot(h, q) && m in MeshIds(h.objs[q].tree) && IsMesh(h, m) ==>
               x !in MeshParts(h, m)
    ensures SceneTeardownOn(h).objs[x] == h.objs[x]
  {
    var ms := SceneMeshes(h);
    forall i | 0 <= i < |ms|
      ensures x !in MeshParts(h, ms[i])
    {
      assert ms[i] in ms;
    }
    DisposesOnlyParts(h, ms, x);
  }

  /** Every geometry and material of every mesh under every root in the scene ends up disposed. */
  lemma SceneTeardownDisposes(h: Heap, j: nat, m: Id, x: Id)
    requires Wf(h) && j < |h.scene|
    requires m in MeshIds(h.objs[h.scene[j]].tree) && IsMesh(h, m) && x in MeshParts(h, m)
    ensures var r := SceneTeardownOn(h);
            IsResource(r, x) && r.objs[x].status == Disposed
  {
    var ms := SceneMeshes(h);
    assert h.scene[j] in h.scene;
    assert m in ms;
    var i :| 0 <= i < |ms| && ms[i] == m;
    DisposesParts(h, ms, i, x);
  }

  // ---------------------------------------------------------------------------
  // The hook's state
  // ---------------------------------------------------------------------------

  /**
   * The camera position, `controls.enabled`, the transitions started so far, and whether the
   * render loop has a frame requested (`animationFrameRef.current !== null`).
   */
  class CameraRig {
    var camera: Vec3
    var controlsEnabled: bool
    var transitions: seq<Transition>
    var frameRequested: bool

    /** `camera.position.set(5, 5, 5)`; orbit controls start enabled. */
    constructor ()
      ensures camera == Vec3(5.0, 5.0, 5.0) && controlsEnabled && transitions == [] && !frameRequested
    {
      camera, controlsEnabled, transitions, frameRequested := Vec3(5.0, 5.0, 5.0), true, [], false;
    }

    /** One turn of the render loop, which requests the next frame. */
    method RenderFrame()
      modifies this
      ensures frameRequested
      ensures camera == old(camera) && controlsEnabled == old(controlsEnabled) && transitions == old(transitions)
    {
      frameRequested := true;
    }

    /**
     * One frame of transition `k` at clock reading `now`, for store state `s`: set the camera,
     * then either request the next frame or re-enable the controls and hand back the store
     * with `cameraPreset: 'free'`.
     */
    method Frame(k: nat, now: real, s: State) returns (s': State)
      requires k < |transitions| && transitions[k].pending
      modifies this
      ensures var a := old(transitions[k]);
              && camera == PositionAt(a, now)
              && transitions == old(transitions)[k := a.(pending := !Finished(a, now))]
              && (Finished(a, now) ==> controlsEnabled && s' == SetCameraPreset(s, Free))
              && (!Finished(a, now) ==> controlsEnabled == old(controlsEnabled) && s' == s)
      ensures frameRequested == old(frameRequested)
    {
      var a := transitions[k];
      var t := Progress(now - a.startTime);
      camera := Lerp(a.start, a.target, EaseOutCubic(t));
      if t < 1.0 {
        s' := s;
      } else {
        controlsEnabled := true;
        transitions := transitions[k := a.(pending := false)];
        s' := s.(cameraPreset := Free);
      }
    }

    /**
     * The chain of frames of transition `k`, at the clock readings `nows` the browser calls
     * them with: each frame requests the next until one finds the transition finished. The
     * number of frames that write `'free'` back is `Writebacks`, and the last of them is final.
     */
    method Frames(k: nat, nows: seq<real>, s: State) returns (s': State, writes: nat)
      requires k < |transitions| && transitions[k].pending
      modifies this
      ensures writes == Writebacks(old(transitions[k]), nows)
      ensures transitions == old(transitions)[k := old(transitions[k]).(pending := writes == 0)]
      ensures writes == 1 ==> controlsEnabled && s' == SetCameraPreset(s, Free)
      ensures writes == 0 ==> controlsEnabled == old(controlsEnabled) && s' == s
      ensures writes == 1 ==> camera == old(transitions[k]).target
      ensures writes == 0 && nows == [] ==> camera == old(camera)
      ensures writes == 0 && nows != [] ==> camera == PositionAt(old(transitions[k]), nows[|nows| - 1])
      ensures frameRequested == old(frameRequested)
    {
      ghost var a := transitions[k];
      s', writes := s, 0;
      var i := 0;
      while i < |nows| && transitions[k].pending
        invariant 0 <= i <= |nows| && k < |transitions|
        invariant frameRequested == old(frameRequested)
        invariant transitions == old(transitions)[k := a.(pending := writes == 0)]
        invariant writes <= 1
        invariant writes == 0 ==> Writebacks(a, nows) == Writebacks(a, nows[i..])
        invariant writes == 0 ==> controlsEnabled == old(controlsEnabled) && s' == s
        invariant writes == 0 && i == 0 ==> camera == old(camera)
        invariant writes == 0 && i > 0 ==> camera == PositionAt(a, nows[i - 1])
        invariant writes == 1 ==> Writebacks(a, nows) == 1 && controlsEnabled && s' == SetCameraPreset(s, Free)
        invariant writes == 1 ==> camera == a.target
        decreases |nows| - i
      {
        assert nows[i..][0] == nows[i] && nows[i..][1..] == nows[i + 1..];
        s' := Frame(k, nows[i], s');
        if !transitions[k].pending {
          ArrivesAtTarget(a, nows[i]);
          writes := 1;
        }
        i := i + 1;
      }
      if writes == 0 {
        assert nows[i..] == [];
      }
    }

    /**
     * The store subscriber, called with the new state `s` at clock reading `now`; `first` is the
     * clock reading of the first frame, which runs at once. `'free'` starts nothing; any other
     * directive disables the controls and starts a transition from wherever the camera is, even
     * while an earlier one is still running.
     */
    method OnStoreChange(s: State, now: real, first: real) returns (s': State)
      modifies this
      ensures s.cameraPreset == Free ==>
                && s' == s && camera == old(camera) && controlsEnabled == old(controlsEnabled)
                && transitions == old(transitions)
      ensures s.cameraPreset != Free ==>
                var a := Transition(old(camera), TargetFor(s.cameraPreset, s.zoomLevel).value, now, true);
                && transitions == old(transitions) + [a.(pending := !Finished(a, first))]
                && camera == PositionAt(a, first)
                && (Finished(a, first) ==> controlsEnabled && s' == SetCameraPreset(s, Free))
                && (!Finished(a, first) ==> !controlsEnabled && s' == s)
      ensures frameRequested == old(frameRequested)
    {
      s' := s;
      if s.cameraPreset != Free {
        var target := TargetFor(s.cameraPreset, s.zoomLevel);
        if target.Some? {
          controlsEnabled := false;
          transitions := transitions + [Transition(camera, target.value, now, true)];
          s' := Frame(|transitions| - 1, first, s);
        }
      }
    }

    /** The cleanup: cancel the render loop's frame if one was requested, then dispose what the scene reaches. */
    method Teardown(w: World) returns (cancelled: bool)
      requires w.Valid()
      modifies w
      ensures cancelled == frameRequested
      ensures w.Valid() && w.Snapshot() == SceneTeardownOn(old(w.Snapshot()))
    {
      cancelled := frameRequested;
      DisposeMeshes(w, SceneMeshes(w.Snapshot()));
    }
  }
}
