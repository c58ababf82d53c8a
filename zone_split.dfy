/**
 * The face split of the Blender preparation script (scripts/separate_shirt_zones.py): the
 * shirt mesh is copied three times, and each copy keeps the faces of one zone, decided from the
 * centre of each face against the bounds of the original mesh.
 */
module ZoneSplit {
  import opened SceneGraph
  import ShirtModel

  // ---------------------------------------------------------------------------
  // Bounds of the mesh
  // ---------------------------------------------------------------------------

  /** `min(...)` of a non-empty sequence (Python raises on an empty one). */
  function Min(s: seq<real>): (r: real)
    requires |s| > 0
    ensures forall i :: 0 <= i < |s| ==> r <= s[i]
    ensures exists i :: 0 <= i < |s| && r == s[i]
  {
    if |s| == 1 then s[0]
    else
      var m := Min(s[1..]);
      assert forall i :: 1 <= i < |s| ==> s[i] == s[1..][i - 1];
      if s[0] <= m then s[0] else m
  }

  /** `max(...)` of a non-empty sequence. */
  function Max(s: seq<real>): (r: real)
    requires |s| > 0
    ensures forall i :: 0 <= i < |s| ==> r >= s[i]
    ensures exists i :: 0 <= i < |s| && r == s[i]
  {
    if |s| == 1 then s[0]
    else
      var m := Max(s[1..]);
      assert forall i :: 1 <= i < |s| ==> s[i] == s[1..][i - 1];
      if s[0] >= m then s[0] else m
  }

  function Xs(vs: seq<Vec3>): (r: seq<real>)
    ensures |r| == |vs| && forall i :: 0 <= i < |vs| ==> r[i] == vs[i].x
  {
    seq(|vs|, i requires 0 <= i < |vs| => vs[i].x)
  }

  function Ys(vs: seq<Vec3>): (r: seq<real>)
    ensures |r| == |vs| && forall i :: 0 <= i < |vs| ==> r[i] == vs[i].y
  {
    seq(|vs|, i requires 0 <= i < |vs| => vs[i].y)
  }

  datatype Bounds = Bounds(minX: real, maxX: real, minY: real, maxY: real)

  /** `min_x`, `max_x`, `min_y`, `max_y` over all vertices of the original mesh. */
  function BoundsOf(vs: seq<Vec3>): (b: Bounds)
    requires |vs| > 0
    ensures b.minX <= b.maxX && b.minY <= b.maxY
    ensures forall i :: 0 <= i < |vs| ==> b.minX <= vs[i].x <= b.maxX && b.minY <= vs[i].y <= b.maxY
  {
    var xs, ys := Xs(vs), Ys(vs);
    Bounds(Min(xs), Max(xs), Min(ys), Max(ys))
  }

  /** The split the zones are decided by: the centre of the bounds and the sleeve threshold. */
  datatype Split = Split(centerX: real, centerY: real, threshold: real)

  /** The centre is the midpoint of the bounds; the threshold is 30% of the x range. */
  function SplitOf(b: Bounds): (s: Split)
    ensures s.centerX - b.minX == b.maxX - s.centerX
    ensures s.centerY - b.minY == b.maxY - s.centerY
    ensures s.threshold == (b.maxX - b.minX) * 0.3
  {
    Split((b.maxX + b.minX) / 2.0, (b.maxY + b.minY) / 2.0, (b.maxX - b.minX) * 0.3)
  }

  // ---------------------------------------------------------------------------
  // The centre of one face
  // ---------------------------------------------------------------------------

  /** A face: the indices of its vertices (Blender faces have at least three). */
  type Face = seq<nat>

  predicate FaceOk(vs: seq<Vec3>, f: Face)
  {
    |f| > 0 && forall k :: 0 <= k < |f| ==> f[k] < |vs|
  }

  function SumX(vs: seq<Vec3>, f: Face): real
    requires forall k :: 0 <= k < |f| ==> f[k] < |vs|
  {
    if f == [] then 0.0 else vs[f[0]].x + SumX(vs, f[1..])
  }

  function SumY(vs: seq<Vec3>, f: Face): real
    requires forall k :: 0 <= k < |f| ==> f[k] < |vs|
  {
    if f == [] then 0.0 else vs[f[0]].y + SumY(vs, f[1..])
  }

  /** `poly_center_x`, `poly_center_y`: the mean of the face's vertex coordinates. */
  function FaceCenter(vs: seq<Vec3>, f: Face): (c: (real, real))
    requires FaceOk(vs, f)
  {
    (SumX(vs, f) / (|f| as real), SumY(vs, f) / (|f| as real))
  }

  /** A sum of `n` values, each within `[lo, hi]`, lies within `[n * lo, n * hi]`. */
  lemma {:induction false} SumXBounds(vs: seq<Vec3>, f: Face, lo: real, hi: real)
    requires forall k :: 0 <= k < |f| ==> f[k] < |vs|
    requires forall i :: 0 <= i < |vs| ==> lo <= vs[i].x <= hi
    ensures (|f| as real) * lo <= SumX(vs, f) <= (|f| as real) * hi
  {
    if f != [] {
      SumXBounds(vs, f[1..], lo, hi);
    }
  }

  /** A mean of values within `[lo, hi]` is within `[lo, hi]`. */
  lemma MeanBetween(sum: real, n: real, lo: real, hi: real)
    requires n > 0.0 && n * lo <= sum <= n * hi
    ensures lo <= sum / n <= hi
  {
    var c := sum / n;
    assert c * n == sum;
  }

  /** The centre of a face lies within any x range that holds all the vertices. */
  lemma CenterWithin(vs: seq<Vec3>, f: Face, lo: real, hi: real)
    requires FaceOk(vs, f) && forall i :: 0 <= i < |vs| ==> lo <= vs[i].x <= hi
    ensures lo <= FaceCenter(vs, f).0 <= hi
  {
    var n := |f| as real;
    SumXBounds(vs, f, lo, hi);
    MeanBetween(SumX(vs, f), n, lo, hi);
  }

  /** The centre of a face lies within the bounds of the mesh on the x axis. */
  lemma FaceCenterInBounds(vs: seq<Vec3>, f: Face)
    requires |vs| > 0 && FaceOk(vs, f)
    ensures var b := BoundsOf(vs);
            b.minX <= FaceCenter(vs, f).0 <= b.maxX
  {
    var b := BoundsOf(vs);
    CenterWithin(vs, f, b.minX, b.maxX);
  }

  /** So a face is a sleeve face only if it lies in the outer 20% of the x range on one side. */
  lemma SleeveNearEdge(vs: seq<Vec3>, f: Face)
    requires |vs| > 0 && FaceOk(vs, f)
    ensures var b := BoundsOf(vs);
            var s := SplitOf(b);
            var c := FaceCenter(vs, f);
            Keep("sleeves", s, c.0, c.1) ==> c.0 < b.minX + (b.maxX - b.minX) * 0.2 || c.0 > b.maxX - (b.maxX - b.minX) * 0.2
  {
    FaceCenterInBounds(vs, f);
  }

  // ---------------------------------------------------------------------------
  // The keep rule
  // ---------------------------------------------------------------------------

  function Abs(r: real): real { if r < 0.0 then -r else r }

  /** `keep` for a face centred at `(cx, cy)` in the copy that is separated as `zone`. */
  predicate Keep(zone: string, s: Split, cx: real, cy: real)
  {
    var dist := Abs(cx - s.centerX);
    if zone == "sleeves" then dist > s.threshold
    else if zone == "front" then cy > s.centerY && dist <= s.threshold
    else if zone == "back" then cy <= s.centerY && dist <= s.threshold
    else false
  }

  /** The three zones partition the faces: each face is kept by exactly one of them. */
  lemma Partition(s: Split, cx: real, cy: real)
    ensures Keep("sleeves", s, cx, cy) || Keep("front", s, cx, cy) || Keep("back", s, cx, cy)
    ensures !(Keep("sleeves", s, cx, cy) && Keep("front", s, cx, cy))
    ensures !(Keep("sleeves", s, cx, cy) && Keep("back", s, cx, cy))
    ensures !(Keep("front", s, cx, cy) && Keep("back", s, cx, cy))
  {
  }

  /** A face on the dividing line `center_y` that is not a sleeve face goes to the back. */
  lemma TieGoesToBack(s: Split, cx: real)
    requires Abs(cx - s.centerX) <= s.threshold
    ensures Keep("back", s, cx, s.centerY) && !Keep("front", s, cx, s.centerY)
  {
  }

  /** Any other zone name keeps no face at all. */
  lemma OtherZoneKeepsNothing(zone: string, s: Split, cx: real, cy: real)
    requires zone != "sleeves" && zone != "front" && zone != "back"
    ensures !Keep(zone, s, cx, cy)
  {
  }

  // ---------------------------------------------------------------------------
  // The selection loop and the three copies
  // ---------------------------------------------------------------------------

  /** Whether face `f` is selected for deletion in the copy separated as `zone`: exactly when it is not kept. */
  predicate Deleted(vs: seq<Vec3>, f: Face, zone: string, s: Split)
    requires FaceOk(vs, f)
  {
    var c := FaceCenter(vs, f);
    !Keep(zone, s, c.0, c.1)
  }

  /**
   * The loop of `separate_by_zone`: `poly.select = not keep` for every face, with the split of
   * the original mesh's bounds.
   */
  method SelectForDeletion(vs: seq<Vec3>, faces: seq<Face>, zone: string, b: Bounds, select: array<bool>)
    requires select.Length == |faces| && forall i :: 0 <= i < |faces| ==> FaceOk(vs, faces[i])
    modifies select
    ensures forall i :: 0 <= i < |faces| ==> select[i] == Deleted(vs, faces[i], zone, SplitOf(b))
  {
    var s := SplitOf(b);
    for i := 0 to |faces|
      invariant forall j :: 0 <= j < i ==> select[j] == Deleted(vs, faces[j], zone, s)
    {
      var f := faces[i];
      var cx := SumX(vs, f) / (|f| as real);
      var cy := SumY(vs, f) / (|f| as real);
      var dist := Abs(cx - s.centerX);
      var keep := false;
      if zone == "sleeves" {
        keep := dist > s.threshold;
      } else if zone == "front" {
        keep := cy > s.centerY && dist <= s.threshold;
      } else if zone == "back" {
        keep := cy <= s.centerY && dist <= s.threshold;
      }
      select[i] := !keep;
    }
  }

  /** The three copies: the object name each gets, and the zone it is separated as. */
  datatype Part = Part(name: string, zone: string)

  const Parts: seq<Part> := [Part("sleeves", "sleeves"), Part("front_torso", "front"), Part("back_torso", "back")]

  /** The names the script gives the copies are the names the label and colour code looks up. */
  lemma PartNamesMatchLookups()
    ensures Parts[0].name == ShirtModel.SleevesZone
    ensures Parts[1].name == ShirtModel.FrontZone
    ensures Parts[2].name == ShirtModel.BackZone
  {
  }

  /** After the three copies are separated, every face of the mesh survives in exactly one of them. */
  lemma EachFaceInOneCopy(vs: seq<Vec3>, f: Face, b: Bounds)
    requires FaceOk(vs, f)
    ensures var s := SplitOf(b);
            |set p | p in Parts && !Deleted(vs, f, p.zone, s)| == 1
  {
    var s := SplitOf(b);
    var c := FaceCenter(vs, f);
    Partition(s, c.0, c.1);
    var kept := set p | p in Parts && !Deleted(vs, f, p.zone, s);
    if Keep("sleeves", s, c.0, c.1) {
      assert kept == {Parts[0]};
    } else if Keep("front", s, c.0, c.1) {
      assert kept == {Parts[1]};
    } else {
      assert kept == {Parts[2]};
    }
  }
}
