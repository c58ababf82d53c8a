/**
 * The zustand configuration store (src/store/customizerStore.ts): every action is a pure
 * transition from one state to the next.
 */
module CustomizerStore {
  import opened Wrappers
  import opened CustomizerTypes

  datatype State = State(sleeveColor: string, frontColor: string, backColor: string,
                         textLabels: seq<TextLabel>, cameraPreset: CameraPreset, zoomLevel: real)

  /** `DEFAULT_COLORS` (src/constants/presets.ts). */
  const DefaultSleeve: string := "#FF0000"
  const DefaultFront: string := "#00FF00"
  const DefaultBack: string := "#FFFF00"

  /** The state the store is created with. */
  const Initial: State := State(DefaultSleeve, DefaultFront, DefaultBack, [], Free, 1.0)

  // ---------------------------------------------------------------------------
  // The setters
  // ---------------------------------------------------------------------------

  function SetSleeveColor(s: State, c: string): (r: State)
    ensures r.sleeveColor == c
    ensures r.(sleeveColor := s.sleeveColor) == s
  {
    s.(sleeveColor := c)
  }

  function SetFrontColor(s: State, c: string): (r: State)
    ensures r.frontColor == c
    ensures r.(frontColor := s.frontColor) == s
  {
    s.(frontColor := c)
  }

  function SetBackColor(s: State, c: string): (r: State)
    ensures r.backColor == c
    ensures r.(backColor := s.backColor) == s
  {
    s.(backColor := c)
  }

  function SetCameraPreset(s: State, p: CameraPreset): (r: State)
    ensures r.cameraPreset == p
    ensures r.(cameraPreset := s.cameraPreset) == s
  {
    s.(cameraPreset := p)
  }

  function SetZoomLevel(s: State, z: real): (r: State)
    ensures r.zoomLevel == z
    ensures r.(zoomLevel := s.zoomLevel) == s
  {
    s.(zoomLevel := z)
  }

  /** Setters of different fields commute, and a second write to a field wins over the first. */
  lemma SettersCommute(s: State, a: string, b: string, z: real, p: CameraPreset)
    ensures SetSleeveColor(SetFrontColor(s, a), b) == SetFrontColor(SetSleeveColor(s, b), a)
    ensures SetFrontColor(SetBackColor(s, a), b) == SetBackColor(SetFrontColor(s, b), a)
    ensures SetZoomLevel(SetCameraPreset(s, p), z) == SetCameraPreset(SetZoomLevel(s, z), p)
    ensures SetSleeveColor(SetSleeveColor(s, a), b) == SetSleeveColor(s, b)
    ensures SetZoomLevel(SetZoomLevel(s, z), 1.0) == SetZoomLevel(s, 1.0)
  {
  }

  // ---------------------------------------------------------------------------
  // Labels
  // ---------------------------------------------------------------------------

  /** The argument of `addTextLabel`: a label without its id (`Omit<TextLabel, 'id'>`). */
  datatype LabelDraft = LabelDraft(text: string, position: Side, fontSize: real, color: string, x: real, y: real)

  /** `{ ...label, id }`. */
  function WithId(d: LabelDraft, id: string): (l: TextLabel)
    ensures l.id == id && l.text == d.text && l.position == d.position
    ensures l.fontSize == d.fontSize && l.color == d.color && l.x == d.x && l.y == d.y
  {
    TextLabel(id, d.text, d.position, d.fontSize, d.color, d.x, d.y)
  }

  predicate HasId(ls: seq<TextLabel>, id: string)
  {
    exists i :: 0 <= i < |ls| && ls[i].id == id
  }

  /**
   * `addTextLabel(label)`: the label, stamped with an id, appended at the end. The id is built
   * from the clock and a random number at the call; here it is a parameter.
   */
  function AddTextLabel(s: State, d: LabelDraft, id: string): (r: State)
    ensures |r.textLabels| == |s.textLabels| + 1
    ensures r.textLabels[..|s.textLabels|] == s.textLabels
    ensures r.textLabels[|s.textLabels|] == WithId(d, id)
    ensures r.(textLabels := s.textLabels) == s
  {
    s.(textLabels := s.textLabels + [WithId(d, id)])
  }

  /** The argument of `updateTextLabel`: a `Partial<TextLabel>`, one optional value per field. */
  datatype LabelPatch = LabelPatch(id: Option<string>, text: Option<string>, position: Option<Side>,
                                   fontSize: Option<real>, color: Option<string>, x: Option<real>, y: Option<real>)

  const NoChange: LabelPatch := LabelPatch(None, None, None, None, None, None, None)

  function Pick<T>(o: Option<T>, otherwise: T): T
  {
    if o.Some? then o.value else otherwise
  }

  /** `{ ...label, ...updates }`: each field the patch has replaces the label's. */
  function Merge(l: TextLabel, p: LabelPatch): (r: TextLabel)
    ensures p.id.Some? ==> r.id == p.id.value
    ensures p.id.None? ==> r.id == l.id
    ensures p.text.Some? ==> r.text == p.text.value
    ensures p.text.None? ==> r.text == l.text
    ensures p.position.Some? ==> r.position == p.position.value
    ensures p.position.None? ==> r.position == l.position
    ensures p.fontSize.Some? ==> r.fontSize == p.fontSize.value
    ensures p.fontSize.None? ==> r.fontSize == l.fontSize
    ensures p.color.Some? ==> r.color == p.color.value
    ensures p.color.None? ==> r.color == l.color
    ensures p.x.Some? ==> r.x == p.x.value
    ensures p.x.None? ==> r.x == l.x
    ensures p.y.Some? ==> r.y == p.y.value
    ensures p.y.None? ==> r.y == l.y
  {
    TextLabel(Pick(p.id, l.id), Pick(p.text, l.text), Pick(p.position, l.position),
              Pick(p.fontSize, l.fontSize), Pick(p.color, l.color), Pick(p.x, l.x), Pick(p.y, l.y))
  }

  /** A patch with nothing in it changes nothing; merging twice is merging once. */
  lemma MergeLaws(l: TextLabel, p: LabelPatch)
    ensures Merge(l, NoChange) == l
    ensures Merge(Merge(l, p), p) == Merge(l, p)
  {
  }

  /** `textLabels.map(label => label.id === id ? { ...label, ...updates } : label)`. */
  function UpdateAll(ls: seq<TextLabel>, id: string, p: LabelPatch): (r: seq<TextLabel>)
    ensures |r| == |ls|
    ensures forall i :: 0 <= i < |ls| && ls[i].id == id ==> r[i] == Merge(ls[i], p)
    ensures forall i :: 0 <= i < |ls| && ls[i].id != id ==> r[i] == ls[i]
  {
    seq(|ls|, i requires 0 <= i < |ls| => if ls[i].id == id then Merge(ls[i], p) else ls[i])
  }

  function UpdateTextLabel(s: State, id: string, p: LabelPatch): (r: State)
    ensures |r.textLabels| == |s.textLabels|
    ensures forall i :: 0 <= i < |s.textLabels| && s.textLabels[i].id == id ==> r.textLabels[i] == Merge(s.textLabels[i], p)
    ensures forall i :: 0 <= i < |s.textLabels| && s.textLabels[i].id != id ==> r.textLabels[i] == s.textLabels[i]
    ensures r.(textLabels := s.textLabels) == s
  {
    s.(textLabels := UpdateAll(s.textLabels, id, p))
  }

  /** Updating an id no label has, or with an empty patch, changes nothing. */
  lemma UpdateNoOp(s: State, id: string, p: LabelPatch)
    requires !HasId(s.textLabels, id) || p == NoChange
    ensures UpdateTextLabel(s, id, p) == s
  {
    var r := UpdateTextLabel(s, id, p).textLabels;
    forall i | 0 <= i < |r|
      ensures r[i] == s.textLabels[i]
    {
      MergeLaws(s.textLabels[i], p);
    }
  }

  /** A patch without an id leaves every label's id, and so the set of ids, as it was. */
  lemma UpdateKeepsIds(s: State, id: string, p: LabelPatch, i: nat)
    requires p.id.None? && i < |s.textLabels|
    ensures UpdateTextLabel(s, id, p).textLabels[i].id == s.textLabels[i].id
  {
  }

  /** `textLabels.filter(label => label.id !== id)`. */
  function Without(ls: seq<TextLabel>, id: string): (r: seq<TextLabel>)
    ensures forall l :: l in r <==> l in ls && l.id != id
    ensures |r| <= |ls|
  {
    if ls == [] then []
    else if ls[0].id == id then Without(ls[1..], id)
    else [ls[0]] + Without(ls[1..], id)
  }

  function RemoveTextLabel(s: State, id: string): (r: State)
    ensures !HasId(r.textLabels, id)
    ensures forall l :: l in r.textLabels <==> l in s.textLabels && l.id != id
    ensures r.(textLabels := s.textLabels) == s
  {
    var r := s.(textLabels := Without(s.textLabels, id));
    assert forall i :: 0 <= i < |r.textLabels| ==> r.textLabels[i] in r.textLabels;
    r
  }

  /** The filter works piece by piece, so the labels that stay keep their relative order. */
  lemma {:induction false} WithoutAppend(a: seq<TextLabel>, b: seq<TextLabel>, id: string)
    ensures Without(a + b, id) == Without(a, id) + Without(b, id)
    decreases |a|
  {
    if a == [] {
      assert a + b == b;
    } else {
      assert (a + b)[0] == a[0] && (a + b)[1..] == a[1..] + b;
      WithoutAppend(a[1..], b, id);
      if a[0].id != id {
        assert [a[0]] + (Without(a[1..], id) + Without(b, id)) == [a[0]] + Without(a[1..], id) + Without(b, id);
      }
    }
  }

  /** Removing an id no label has changes nothing. */
  lemma {:induction false} WithoutAbsent(ls: seq<TextLabel>, id: string)
    requires !HasId(ls, id)
    ensures Without(ls, id) == ls
  {
    if ls != [] {
      assert ls[0].id != id;
      WithoutAbsent(ls[1..], id);
    }
  }

  lemma RemoveAbsent(s: State, id: string)
    requires !HasId(s.textLabels, id)
    ensures RemoveTextLabel(s, id) == s
  {
    WithoutAbsent(s.textLabels, id);
  }

  /** Removing twice is removing once. */
  lemma RemoveIdempotent(s: State, id: string)
    ensures RemoveTextLabel(RemoveTextLabel(s, id), id) == RemoveTextLabel(s, id)
  {
    RemoveAbsent(RemoveTextLabel(s, id), id);
  }

  /** Removing a label just added under a fresh id gives back the state before the add. */
  lemma RemoveUndoesAdd(s: State, d: LabelDraft, id: string)
    requires !HasId(s.textLabels, id)
    ensures RemoveTextLabel(AddTextLabel(s, d, id), id) == s
  {
    WithoutAppend(s.textLabels, [WithId(d, id)], id);
    WithoutAbsent(s.textLabels, id);
    assert Without([WithId(d, id)], id) == [];
  }

  /** Adding under a fresh id keeps the ids distinct. */
  lemma AddKeepsIdsDistinct(s: State, d: LabelDraft, id: string)
    requires !HasId(s.textLabels, id)
    requires forall i, j :: 0 <= i < j < |s.textLabels| ==> s.textLabels[i].id != s.textLabels[j].id
    ensures var ls := AddTextLabel(s, d, id).textLabels;
            forall i, j :: 0 <= i < j < |ls| ==> ls[i].id != ls[j].id
  {
  }

  // ---------------------------------------------------------------------------
  // Reset
  // ---------------------------------------------------------------------------

  /** `reset()`: the fields written out again, as in the store's creation. */
  function Reset(s: State): (r: State)
    ensures r.textLabels == [] && r.cameraPreset == Free
  {
    State("#FF0000", "#00FF00", "#FFFF00", [], Free, 1.0)
  }

  /** `reset` restores exactly the initial state, whatever the state was, and so is idempotent. */
  lemma ResetIsInitial(s: State)
    ensures Reset(s) == Initial
    ensures Reset(Reset(s)) == Reset(s)
  {
  }
}
