// model_data_structures/src/models/model_appearance/sprites.rs: a sprite is a
// rectangular shape with exactly one anchor character, a character that
// replaces the anchor when drawn, and an air (transparent) character. The
// anchor index counts positions in the shape with its newlines removed.
//
// `Sprite` is a plain value in the source (it is cloned into animation frames
// and appearances), so each `&mut self` setter is modelled as a function from
// the old sprite to `Ok(new sprite)` or to the error, in which case the caller
// keeps the old sprite unchanged.
module Sprites {
  import opened Wrappers
  import opened Text
  import opened ModelErrors
  import EngineRectangle
  import EngineCoordinates

  datatype Sprite = Sprite(
    shape: string,
    anchorCharacter: char,
    anchorReplacementCharacter: char,
    airCharacter: char,
    anchorCharacterIndex: nat)

  /// `Sprite::default()`.
  const DefaultSprite := Sprite("", 'a', ' ', '-', 0)

  /// The positions of `anchor` in `shape` once its newlines are removed.
  function AnchorPositions(shape: string, anchor: char): seq<nat>
  {
    IndicesOf(Remove(shape, '\n'), anchor)
  }

  /// `calculate_anchor_index`: the one anchor position, or `NoAnchor`, or
  /// `MultipleAnchorsFound` with every position.
  function CalculateAnchorIndex(shape: string, anchor: char): (r: Result<nat, ModelError>)
    ensures r.Ok? <==> |AnchorPositions(shape, anchor)| == 1
    ensures r.Ok? ==> r.value < |Remove(shape, '\n')| && Remove(shape, '\n')[r.value] == anchor
    ensures r.Ok? ==> forall j :: 0 <= j < |Remove(shape, '\n')| && j != r.value
                                  ==> Remove(shape, '\n')[j] != anchor
    ensures r == Err(NoAnchor) <==> anchor !in Remove(shape, '\n')
    ensures r.Err? && r.error != NoAnchor
            ==> r.error == MultipleAnchorsFound(AnchorPositions(shape, anchor))
                && |AnchorPositions(shape, anchor)| > 1
  {
    var positions := AnchorPositions(shape, anchor);
    if |positions| == 1 then
      Ok(positions[0])
    else if |positions| > 1 then
      Err(MultipleAnchorsFound(positions))
    else
      Err(NoAnchor)
  }

  /// The rules every sprite the engine builds keeps: a rectangular shape,
  /// a stored index that is the position of its single anchor, and an anchor
  /// distinct from air.
  predicate Consistent(s: Sprite)
  {
    EngineRectangle.StringIsValidRectangle(s.shape)
    && CalculateAnchorIndex(s.shape, s.anchorCharacter) == Ok(s.anchorCharacterIndex)
    && s.anchorCharacter != s.airCharacter
  }

  /// `change_shape`: the shape must be a rectangle, the anchor (the new one,
  /// or else the stored one) must differ from the stored air character, and
  /// the shape must hold exactly one anchor; on success shape, index, anchor
  /// and replacement change together.
  function ChangeShape(s: Sprite, newShape: string, newAnchor: Option<char>,
                       newReplacement: Option<char>): (r: Result<Sprite, ModelError>)
    ensures !EngineRectangle.StringIsValidRectangle(newShape) ==> r == Err(NonRectangularShape)
    ensures EngineRectangle.StringIsValidRectangle(newShape)
            && EffectiveAnchor(s, newAnchor) == s.airCharacter
            ==> r == Err(SpriteAnchorMatchesAirCharacter)
    ensures EngineRectangle.StringIsValidRectangle(newShape)
            && EffectiveAnchor(s, newAnchor) != s.airCharacter
            && CalculateAnchorIndex(newShape, EffectiveAnchor(s, newAnchor)).Err?
            ==> r == Err(CalculateAnchorIndex(newShape, EffectiveAnchor(s, newAnchor)).error)
    ensures EngineRectangle.StringIsValidRectangle(newShape)
            && EffectiveAnchor(s, newAnchor) != s.airCharacter
            && CalculateAnchorIndex(newShape, EffectiveAnchor(s, newAnchor)).Ok?
            ==> r.Ok? && r.value.anchorCharacterIndex
                         == CalculateAnchorIndex(newShape, EffectiveAnchor(s, newAnchor)).value
    ensures r.Ok? ==> (r.value.shape == newShape
                       && r.value.anchorCharacter == EffectiveAnchor(s, newAnchor)
                       && r.value.anchorReplacementCharacter
                          == (if newReplacement.Some? then newReplacement.value else s.anchorReplacementCharacter)
                       && r.value.airCharacter == s.airCharacter
                       && Consistent(r.value))
  {
    if !EngineRectangle.StringIsValidRectangle(newShape) then
      Err(NonRectangularShape)
    else
      var anchor := EffectiveAnchor(s, newAnchor);
      var replacement := if newReplacement.Some? then newReplacement.value else s.anchorReplacementCharacter;
      if anchor == s.airCharacter then
        Err(SpriteAnchorMatchesAirCharacter)
      else
        RemoveTwice(newShape, '\n');
        match CalculateAnchorIndex(Remove(newShape, '\n'), anchor)
        case Err(e) => Err(e)
        case Ok(index) => Ok(Sprite(newShape, anchor, replacement, s.airCharacter, index))
  }

  function EffectiveAnchor(s: Sprite, newAnchor: Option<char>): char
  {
    if newAnchor.Some? then newAnchor.value else s.anchorCharacter
  }

  lemma RemoveTwice(s: string, c: char)
    ensures Remove(Remove(s, c), c) == Remove(s, c)
  {
    if s != [] {
      RemoveTwice(s[1..], c);
    }
  }

  /// `change_anchor_character`: refused when the shape already holds the new
  /// character; otherwise every old anchor in the shape becomes the new one.
  /// The stored index is left as it was.
  function ChangeAnchorCharacter(s: Sprite, newAnchor: char): (r: Result<Sprite, ModelError>)
    ensures r.Err? <==> newAnchor in s.shape
    ensures r.Err? ==> r.error == ModelSpriteContainsNewAnchorCharacter
    ensures r.Ok? ==> r.value == s.(shape := r.value.shape, anchorCharacter := newAnchor)
    ensures r.Ok? ==> (|r.value.shape| == |s.shape|
                       && forall i :: 0 <= i < |s.shape| ==>
                            r.value.shape[i] == (if s.shape[i] == s.anchorCharacter then newAnchor else s.shape[i]))
  {
    if newAnchor in s.shape then Err(ModelSpriteContainsNewAnchorCharacter)
    else Ok(s.(shape := ReplaceChar(s.shape, s.anchorCharacter, newAnchor), anchorCharacter := newAnchor))
  }

  /// `change_air_character`: refused exactly when the new air character is
  /// the anchor.
  function ChangeAirCharacter(s: Sprite, newAir: char): (r: Result<Sprite, ModelError>)
    ensures r.Err? <==> newAir == s.anchorCharacter
    ensures r.Err? ==> r.error == SpriteAnchorMatchesAirCharacter
    ensures r.Ok? ==> r.value == s.(airCharacter := newAir)
  {
    if s.anchorCharacter == newAir then Err(SpriteAnchorMatchesAirCharacter)
    else Ok(s.(airCharacter := newAir))
  }

  /// `change_anchor_replacement_character`: always succeeds.
  function ChangeAnchorReplacementCharacter(s: Sprite, c: char): (r: Sprite)
    ensures r.anchorReplacementCharacter == c
    ensures r.(anchorReplacementCharacter := s.anchorReplacementCharacter) == s
  {
    s.(anchorReplacementCharacter := c)
  }

  /// `Sprite::new`: the default sprite's `change_shape` with the given anchor
  /// and replacement, then `change_air_character`. The checks run in that
  /// order, so the first rule broken decides the error: a non-rectangular
  /// shape, an anchor equal to the default air character, the anchor-index
  /// error, and finally an air character equal to the anchor.
  function New(shape: string, anchor: char, replacement: char, air: char): (r: Result<Sprite, ModelError>)
    ensures r.Ok? <==> (EngineRectangle.StringIsValidRectangle(shape)
                        && anchor != DefaultSprite.airCharacter
                        && CalculateAnchorIndex(shape, anchor).Ok?
                        && air != anchor)
    ensures !EngineRectangle.StringIsValidRectangle(shape) ==> r == Err(NonRectangularShape)
    ensures EngineRectangle.StringIsValidRectangle(shape) && anchor == DefaultSprite.airCharacter
            ==> r == Err(SpriteAnchorMatchesAirCharacter)
    ensures EngineRectangle.StringIsValidRectangle(shape) && anchor != DefaultSprite.airCharacter
            && CalculateAnchorIndex(shape, anchor).Err?
            ==> r == Err(CalculateAnchorIndex(shape, anchor).error)
    ensures EngineRectangle.StringIsValidRectangle(shape) && anchor != DefaultSprite.airCharacter
            && CalculateAnchorIndex(shape, anchor).Ok? && air == anchor
            ==> r == Err(SpriteAnchorMatchesAirCharacter)
    ensures r.Ok? ==> (r.value.shape == shape && r.value.anchorCharacter == anchor
                       && r.value.anchorReplacementCharacter == replacement
                       && r.value.airCharacter == air && Consistent(r.value))
  {
    match ChangeShape(DefaultSprite, shape, Some(anchor), Some(replacement))
    case Err(e) => Err(e)
    case Ok(s) => ChangeAirCharacter(s, air)
  }

  /// `get_appearance`: the shape with every anchor drawn as the replacement.
  function GetAppearance(s: Sprite): (r: string)
    ensures |r| == |s.shape|
    ensures forall i :: 0 <= i < |r| ==>
              r[i] == (if s.shape[i] == s.anchorCharacter then s.anchorReplacementCharacter else s.shape[i])
    ensures s.anchorCharacter != s.anchorReplacementCharacter ==> s.anchorCharacter !in r
  {
    ReplaceChar(s.shape, s.anchorCharacter, s.anchorReplacementCharacter)
  }

  /// `get_dimensions`; the source unwraps, so the shape must be rectangular.
  function GetDimensions(s: Sprite): (r: EngineRectangle.Rectangle)
    requires EngineRectangle.StringIsValidRectangle(s.shape)
    ensures r.x == |Split(s.shape, '\n')[0]| && r.y == |Split(s.shape, '\n')|
  {
    EngineRectangle.GetStringDimensions(s.shape).value
  }

  /// `get_anchor_as_coordinates`: column and row of the anchor inside the
  /// sprite (the width must be non-zero, or the source divides by zero).
  function GetAnchorAsCoordinates(s: Sprite): (c: (nat, nat))
    requires EngineRectangle.StringIsValidRectangle(s.shape)
    requires GetDimensions(s).x > 0
    ensures c.0 < GetDimensions(s).x
    ensures c.0 + GetDimensions(s).x * c.1 == s.anchorCharacterIndex
  {
    EngineCoordinates.IndexToCoordinates(s.anchorCharacterIndex, GetDimensions(s).x)
  }

  /// `validity_check`: every failed rule, in the order non-rectangular shape,
  /// anchor error, anchor equal to air.
  function ValidityCheck(s: Sprite): (r: Result<Unit, ModelError>)
    ensures r.Ok? <==> EngineRectangle.StringIsValidRectangle(s.shape)
                       && CalculateAnchorIndex(s.shape, s.anchorCharacter).Ok?
                       && s.anchorCharacter != s.airCharacter
    ensures r.Err? ==> r.error == SpriteValidityChecks(ValidityErrors(s)) && |ValidityErrors(s)| > 0
  {
    var errors := ValidityErrors(s);
    if errors == [] then Ok(Unit) else Err(SpriteValidityChecks(errors))
  }

  function ValidityErrors(s: Sprite): seq<ModelError>
  {
    (if !EngineRectangle.StringIsValidRectangle(s.shape) then [NonRectangularShape] else [])
    + (var anchor := CalculateAnchorIndex(s.shape, s.anchorCharacter);
       if anchor.Err? then [anchor.error] else [])
    + (if s.anchorCharacter == s.airCharacter then [SpriteAnchorMatchesAirCharacter] else [])
  }

  /// A consistent sprite passes the validity check.
  lemma ConsistentIsValid(s: Sprite)
    requires Consistent(s)
    ensures ValidityCheck(s) == Ok(Unit)
  {
  }

  /// Changing the anchor keeps a sprite consistent as long as the new anchor
  /// is neither the air character nor a newline; `change_anchor_character`
  /// itself checks neither.
  lemma ChangeAnchorKeepsConsistent(s: Sprite, newAnchor: char)
    requires Consistent(s)
    requires newAnchor != s.airCharacter && newAnchor != '\n'
    requires ChangeAnchorCharacter(s, newAnchor).Ok?
    ensures Consistent(ChangeAnchorCharacter(s, newAnchor).value)
  {
    var t := ChangeAnchorCharacter(s, newAnchor).value;
    RemoveReplace(s.shape, s.anchorCharacter, newAnchor);
    SplitReplace(s.shape, s.anchorCharacter, newAnchor);
    var old_ := Remove(s.shape, '\n');
    var new_ := Remove(t.shape, '\n');
    assert |new_| == |old_|;
    assert forall i :: 0 <= i < |old_| ==> (new_[i] == newAnchor <==> old_[i] == s.anchorCharacter);
    IndicesOfRename(old_, new_, s.anchorCharacter, newAnchor);
  }

  /// Changing the air character never breaks consistency once it succeeds.
  lemma ChangeAirKeepsConsistent(s: Sprite, newAir: char)
    requires Consistent(s)
    requires ChangeAirCharacter(s, newAir).Ok?
    ensures Consistent(ChangeAirCharacter(s, newAir).value)
  {
  }

  /// `change_anchor_character` accepts the air character as the new anchor,
  /// leaving a sprite that fails its own validity check.
  lemma ChangeAnchorToAirBreaksValidity()
    ensures New("a", 'a', ' ', '-').Ok?
    ensures ChangeAnchorCharacter(New("a", 'a', ' ', '-').value, '-').Ok?
    ensures ValidityCheck(ChangeAnchorCharacter(New("a", 'a', ' ', '-').value, '-').value).Err?
  {
    SplitWithoutSeparator("a", '\n');
    RemoveAbsent("a", '\n');
    IndicesOfUnique("a", 'a', [0]);
  }

  lemma RemoveReplace(s: string, a: char, b: char)
    requires a != '\n' && b != '\n'
    ensures Remove(ReplaceChar(s, a, b), '\n') == ReplaceChar(Remove(s, '\n'), a, b)
  {
    if s != [] {
      RemoveReplace(s[1..], a, b);
      assert ReplaceChar(s, a, b)[1..] == ReplaceChar(s[1..], a, b);
    }
  }

  lemma {:induction false} SplitReplace(s: string, a: char, b: char)
    requires a != '\n' && b != '\n'
    ensures |Split(ReplaceChar(s, a, b), '\n')| == |Split(s, '\n')|
    ensures forall i :: 0 <= i < |Split(s, '\n')| ==>
              |Split(ReplaceChar(s, a, b), '\n')[i]| == |Split(s, '\n')[i]|
  {
    if s != [] {
      var r := ReplaceChar(s, a, b);
      assert r[1..] == ReplaceChar(s[1..], a, b);
      SplitReplace(s[1..], a, b);
      assert (r[0] == '\n') == (s[0] == '\n');
    }
  }

  lemma {:induction false} IndicesOfRename(s: string, t: string, a: char, b: char)
    requires |s| == |t|
    requires forall i :: 0 <= i < |s| ==> (t[i] == b <==> s[i] == a)
    ensures IndicesOf(t, b) == IndicesOf(s, a)
  {
    if s != [] {
      IndicesOfRename(s[..|s| - 1], t[..|t| - 1], a, b);
    }
  }

  lemma CalculateAnchorIndexErrors()
    ensures CalculateAnchorIndex("---", 'x') == Err(NoAnchor)
    ensures CalculateAnchorIndex("x-x", 'x') == Err(MultipleAnchorsFound([0, 2]))
  {
    RemoveAbsent("---", '\n');
    RemoveAbsent("x-x", '\n');
    IndicesOfUnique("x-x", 'x', [0, 2]);
  }

  lemma CalculateAnchorIndexFound()
    ensures CalculateAnchorIndex("---\n-x-", 'x') == Ok(4)
  {
    assert "---\n-x-" == "---" + "\n" + "-x-";
    AnchorPositionsOf("---", "-x-", 'x', [4]);
  }

  /// The anchor positions of a two-row shape, from a list that has the
  /// properties of the positions in the joined rows.
  lemma AnchorPositionsOf(a: string, b: string, anchor: char, positions: seq<nat>)
    requires '\n' !in a && '\n' !in b
    requires IsIndexList(a + b, anchor, positions)
    ensures AnchorPositions(a + "\n" + b, anchor) == positions
  {
    ShapeRemove(a, b);
    IndicesOfUnique(a + b, anchor, positions);
  }

  lemma ChangeShapeNonRectangular()
    ensures ChangeShape(DefaultSprite, "a\n-sd", None, None) == Err(NonRectangularShape)
  {
    assert "a\n-sd" == "a" + "\n" + "-sd";
    TwoRowRectangle("a", "-sd");
  }

  lemma ChangeShapeAnchorIsAir()
    ensures ChangeShape(DefaultSprite, "-a-", Some('-'), None) == Err(SpriteAnchorMatchesAirCharacter)
  {
    SplitWithoutSeparator("-a-", '\n');
  }

  /// A two-row shape splits into its rows.
  lemma RowsOf(a: string, b: string)
    requires '\n' !in a && '\n' !in b
    ensures Split(a + "\n" + b, '\n') == [a, b]
  {
    SplitAtSeparator(a, '\n', b);
    SplitWithoutSeparator(b, '\n');
  }

  /// A two-row shape is a rectangle exactly when its rows have one length.
  lemma TwoRowRectangle(a: string, b: string)
    requires '\n' !in a && '\n' !in b
    ensures EngineRectangle.StringIsValidRectangle(a + "\n" + b) <==> |a| == |b|
    ensures EngineRectangle.StringIsValidRectangle(a + "\n" + b)
            ==> EngineRectangle.GetStringDimensions(a + "\n" + b).value == EngineRectangle.Rectangle(|a|, 2)
  {
    var shape := a + "\n" + b;
    RowsOf(a, b);
    var rows := Split(shape, '\n');
    assert rows[0] == a && rows[1] == b && |rows| == 2;
    EngineRectangle.ValidRectangleIff(shape);
    assert shape != [] by {
      assert |shape| > 0;
    }
    if |a| != |b| {
      assert !EngineRectangle.RowsHaveEqualLength(rows) by {
        assert |rows[1]| != |rows[0]|;
      }
    }
  }

  lemma ShapeRemove(a: string, b: string)
    requires '\n' !in a && '\n' !in b
    ensures Remove(a + "\n" + b, '\n') == a + b
  {
    RemoveSeparator(a, '\n', b);
  }

  /// A two-row rectangle whose joined rows hold the anchor once, at
  /// `index`, makes a sprite with that index.
  lemma NewTwoRowSprite(a: string, b: string, anchor: char, replacement: char, air: char, index: nat)
    requires '\n' !in a && '\n' !in b && |a| == |b|
    requires IsIndexList(a + b, anchor, [index])
    requires anchor != DefaultSprite.airCharacter && anchor != air
    ensures New(a + "\n" + b, anchor, replacement, air) == Ok(Sprite(a + "\n" + b, anchor, replacement, air, index))
  {
    TwoRowRectangle(a, b);
    AnchorPositionsOf(a, b, anchor, [index]);
  }

  /// The sprite of the source's tests, "-x-" above "-a-" with anchor 'a'.
  lemma TestSprite()
    ensures New("-x-\n-a-", 'a', '-', '-')
            == Ok(Sprite("-x-\n-a-", 'a', '-', '-', 4))
  {
    assert "-x-\n-a-" == "-x-" + "\n" + "-a-";
    NewTwoRowSprite("-x-", "-a-", 'a', '-', '-', 4);
  }

  /// The anchor of the test sprite sits in column 1 of row 1.
  lemma TestSpriteAnchor()
    ensures var s := Sprite("-x-\n-a-", 'a', '-', '-', 4);
      EngineRectangle.StringIsValidRectangle(s.shape) && GetDimensions(s).x == 3 &&
      GetAnchorAsCoordinates(s) == (1, 1)
  {
    assert "-x-\n-a-" == "-x-" + "\n" + "-a-";
    TwoRowRectangle("-x-", "-a-");
    EngineCoordinates.CoordinatesRoundTrip((1, 1), 3);
  }

  /// A two-row sprite is drawn row by row.
  lemma TwoRowAppearance(a: string, b: string, s: Sprite)
    requires s.shape == a + "\n" + b && s.anchorCharacter != '\n'
    ensures GetAppearance(s) == GetAppearance(s.(shape := a)) + "\n" + GetAppearance(s.(shape := b))
  {
    var r := GetAppearance(s.(shape := a)) + "\n" + GetAppearance(s.(shape := b));
    forall i | 0 <= i < |r|
      ensures r[i] == GetAppearance(s)[i]
    {
      if i > |a| {
        assert r[i] == GetAppearance(s.(shape := b))[i - |a| - 1];
      }
    }
  }

  /// The test sprite shows its anchor as the replacement character.
  lemma TestSpriteAppearance()
    ensures GetAppearance(Sprite("-x-\n-a-", 'a', '-', '-', 4)) == "-x-\n---"
  {
    var s := Sprite("-x-\n-a-", 'a', '-', '-', 4);
    assert s.shape == "-x-" + "\n" + "-a-";
    TwoRowAppearance("-x-", "-a-", s);
    assert GetAppearance(s.(shape := "-x-")) == "-x-";
    assert GetAppearance(s.(shape := "-a-")) == "---";
  }

  /// With 'x' as replacement, the anchor shows as 'x'.
  lemma TestSpriteAppearanceX()
    ensures GetAppearance(Sprite("-x-\n-a-", 'a', 'x', '-', 4)) == "-x-\n-x-"
  {
    var s := Sprite("-x-\n-a-", 'a', 'x', '-', 4);
    assert s.shape == "-x-" + "\n" + "-a-";
    TwoRowAppearance("-x-", "-a-", s);
    assert GetAppearance(s.(shape := "-x-")) == "-x-";
    assert GetAppearance(s.(shape := "-a-")) == "-x-";
  }

  /// A new anchor already in the shape, and an air character equal to the
  /// anchor, are refused.
  lemma TestSpriteRefusals()
    ensures ChangeAnchorCharacter(Sprite("-x-\n-a-", 'a', '-', '-', 4), 'x')
            == Err(ModelSpriteContainsNewAnchorCharacter)
    ensures ChangeAirCharacter(Sprite("-x-\n-a-", 'a', '-', '-', 4), 'a')
            == Err(SpriteAnchorMatchesAirCharacter)
  {
    assert "-x-\n-a-"[1] == 'x';
  }

  lemma ValidityCheckAllErrors()
    ensures ValidityCheck(Sprite("x-x\naa", 'a', 'a', 'a', 100))
            == Err(SpriteValidityChecks([NonRectangularShape, MultipleAnchorsFound([3, 4]),
                                         SpriteAnchorMatchesAirCharacter]))
  {
    assert "x-x\naa" == "x-x" + "\n" + "aa";
    TwoRowAllChecksFail("x-x", "aa", Sprite("x-x\naa", 'a', 'a', 'a', 100), [3, 4]);
  }

  /// A ragged two-row shape with several anchors, and an anchor equal to
  /// air, fails all three checks.
  lemma TwoRowAllChecksFail(a: string, b: string, s: Sprite, positions: seq<nat>)
    requires '\n' !in a && '\n' !in b && |a| != |b|
    requires s.shape == a + "\n" + b && s.anchorCharacter == s.airCharacter
    requires IsIndexList(a + b, s.anchorCharacter, positions) && |positions| > 1
    ensures ValidityCheck(s) == Err(SpriteValidityChecks([NonRectangularShape, MultipleAnchorsFound(positions),
                                                          SpriteAnchorMatchesAirCharacter]))
  {
    TwoRowRectangle(a, b);
    AnchorPositionsOf(a, b, s.anchorCharacter, positions);
    AllChecksFail(s);
  }

  lemma AllChecksFail(s: Sprite)
    requires !EngineRectangle.StringIsValidRectangle(s.shape)
    requires CalculateAnchorIndex(s.shape, s.anchorCharacter).Err?
    requires s.anchorCharacter == s.airCharacter
    ensures ValidityCheck(s) == Err(SpriteValidityChecks([NonRectangularShape,
              CalculateAnchorIndex(s.shape, s.anchorCharacter).error, SpriteAnchorMatchesAirCharacter]))
  {
    var e := CalculateAnchorIndex(s.shape, s.anchorCharacter).error;
    assert ValidityErrors(s) == [NonRectangularShape] + [e] + [SpriteAnchorMatchesAirCharacter]
                             == [NonRectangularShape, e, SpriteAnchorMatchesAirCharacter];
  }
}
