/**
 * The label editor panel (src/components/CustomizerPanel/TextLabelEditor.tsx): the guard and
 * the defaults of its Add button, and the input it clears after a successful add.
 */
module TextLabelEditor {
  import opened CustomizerTypes
  import opened CustomizerStore

  // ---------------------------------------------------------------------------
  // String.prototype.trim
  // ---------------------------------------------------------------------------

  /** The characters `trim` strips: ECMAScript WhiteSpace and LineTerminator. */
  predicate IsSpace(c: char)
  {
    || c == '\t' || c == '\n' || c == '\U{000B}' || c == '\U{000C}' || c == '\r' || c == ' '
    || c == '\U{00A0}' || c == '\U{1680}' || ('\U{2000}' <= c <= '\U{200A}')
    || c == '\U{2028}' || c == '\U{2029}' || c == '\U{202F}' || c == '\U{205F}'
    || c == '\U{3000}' || c == '\U{FEFF}'
  }

  /** The string without its leading white space. */
  function TrimStart(s: string): (r: string)
    ensures |r| <= |s| && r == s[|s| - |r|..]
    ensures forall k :: 0 <= k < |s| - |r| ==> IsSpace(s[k])
    ensures r != [] ==> !IsSpace(r[0])
  {
    if s != [] && IsSpace(s[0]) then TrimStart(s[1..]) else s
  }

  /** The string without its trailing white space. */
  function TrimEnd(s: string): (r: string)
    ensures |r| <= |s| && r == s[..|r|]
    ensures forall k :: |r| <= k < |s| ==> IsSpace(s[k])
    ensures r != [] ==> !IsSpace(r[|r| - 1])
  {
    if s != [] && IsSpace(s[|s| - 1]) then TrimEnd(s[..|s| - 1]) else s
  }

  /** `text.trim()`: a contiguous part of the text, with white space only around it and none at its ends. */
  function Trim(s: string): (r: string)
    ensures exists i, j :: 0 <= i <= j <= |s| && r == s[i..j]
                         && (forall k :: 0 <= k < i ==> IsSpace(s[k]))
                         && (forall k :: j <= k < |s| ==> IsSpace(s[k]))
    ensures r != [] ==> !IsSpace(r[0]) && !IsSpace(r[|r| - 1])
  {
    var a := TrimStart(s);
    var r := TrimEnd(a);
    var i := |s| - |a|;
    assert r == s[i..i + |r|];
    r
  }

  /** The trimmed text is empty exactly when the text is all white space. */
  lemma TrimEmpty(s: string)
    ensures Trim(s) == [] <==> forall k :: 0 <= k < |s| ==> IsSpace(s[k])
  {
    if Trim(s) != [] {
      var i, j :| 0 <= i <= j <= |s| && Trim(s) == s[i..j];
      assert s[i] == Trim(s)[0];
    }
  }

  /** Trimming twice is trimming once. */
  lemma TrimIdempotent(s: string)
    ensures Trim(Trim(s)) == Trim(s)
  {
    var t := Trim(s);
    if t != [] {
      assert TrimStart(t) == t;
      assert TrimEnd(t) == t;
    }
  }

  // ---------------------------------------------------------------------------
  // The Add button
  // ---------------------------------------------------------------------------

  const MaxLabels: nat := 5
  const LabelFontSize: real := 48.0
  const LabelColor: string := "#000000"
  const LabelX: real := 0.5
  const LabelY: real := 0.5

  /** `text.trim() && textLabels.length < 5`: the condition `handleAdd` checks. */
  predicate CanAdd(text: string, count: nat)
  {
    Trim(text) != [] && count < MaxLabels
  }

  /** `!text.trim() || textLabels.length >= 5`: the button's `disabled` attribute. */
  predicate AddDisabled(text: string, count: nat)
  {
    Trim(text) == [] || count >= MaxLabels
  }

  /** The button is disabled exactly when `handleAdd` would add nothing. */
  lemma DisabledIffCannotAdd(text: string, count: nat)
    ensures AddDisabled(text, count) <==> !CanAdd(text, count)
  {
  }

  /** The label `handleAdd` passes to the store: the trimmed text, the chosen side and fixed defaults. */
  function Draft(text: string, position: Side): (d: LabelDraft)
    ensures d.text == Trim(text) && d.position == position
    ensures d.fontSize == 48.0 && d.color == "#000000" && d.x == 0.5 && d.y == 0.5
  {
    LabelDraft(Trim(text), position, LabelFontSize, LabelColor, LabelX, LabelY)
  }

  /** What one press of Add does to the store and to the input (the id is the store's fresh id). */
  datatype Outcome = Outcome(store: State, input: string)

  function AddOn(s: State, text: string, position: Side, id: string): (r: Outcome)
    ensures CanAdd(text, |s.textLabels|) ==> r.input == "" && r.store == AddTextLabel(s, Draft(text, position), id)
    ensures !CanAdd(text, |s.textLabels|) ==> r == Outcome(s, text)
  {
    if CanAdd(text, |s.textLabels|) then Outcome(AddTextLabel(s, Draft(text, position), id), "")
    else Outcome(s, text)
  }

  /** A label the editor adds has non-empty text with no white space at either end. */
  lemma AddedTextTrimmed(s: State, text: string, position: Side, id: string)
    requires CanAdd(text, |s.textLabels|)
    ensures var l := AddOn(s, text, position, id).store.textLabels[|s.textLabels|];
            l.text != [] && !IsSpace(l.text[0]) && !IsSpace(l.text[|l.text| - 1]) && l.id == id
  {
  }

  /** One press of Add, as typed text, chosen side and the id the store makes. */
  datatype Press = Press(text: string, position: Side, id: string)

  /** A run of presses, one after another. */
  function AddAll(s: State, ps: seq<Press>): State
    decreases |ps|
  {
    if ps == [] then s
    else
      var p := ps[|ps| - 1];
      AddOn(AddAll(s, ps[..|ps| - 1]), p.text, p.position, p.id).store
  }

  /** However many times Add is pressed, the editor never takes the store past five labels. */
  lemma {:induction false} AtMostFive(s: State, ps: seq<Press>)
    requires |s.textLabels| <= MaxLabels
    ensures |AddAll(s, ps).textLabels| <= MaxLabels
    decreases |ps|
  {
    if ps != [] {
      AtMostFive(s, ps[..|ps| - 1]);
    }
  }

  /** The panel's own state: the text input and the front/back toggle. */
  class Editor {
    var text: string
    var position: Side

    constructor ()
      ensures text == "" && position == FrontSide
    {
      text, position := "", FrontSide;
    }

    /** The input's `onChange`. */
    method SetText(t: string)
      modifies this
      ensures text == t && position == old(position)
    {
      text := t;
    }

    /** The Front and Back buttons. */
    method SetPosition(p: Side)
      modifies this
      ensures position == p && text == old(text)
    {
      position := p;
    }

    /** `handleAdd`: add through the store when allowed, then clear the input; otherwise nothing. */
    method HandleAdd(s: State, id: string) returns (r: State)
      modifies this
      ensures Outcome(r, text) == AddOn(s, old(text), old(position), id)
      ensures position == old(position)
    {
      r := s;
      if Trim(text) != [] && |s.textLabels| < MaxLabels {
        r := AddTextLabel(s, Draft(text, position), id);
        text := "";
      }
    }
  }
}
