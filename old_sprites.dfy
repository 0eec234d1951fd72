// model_data_structures/src/models/sprites.rs: the earlier sprite of the
// model crate. It has the fields of `Sprites.Sprite` and the same default,
// and its `change_air_character` and `change_anchor_replacement_character`
// are those of `Sprites`; it differs in how the anchor index is computed and
// in what `change_shape` and `change_anchor_character` store.
module OldSprites {
  import opened Wrappers
  import opened Text
  import opened ModelErrors
  import EngineRectangle
  import Sprites

  type Sprite = Sprites.Sprite

  /// `Sprite::new`, which is `Sprite::default()`.
  function New(): (r: Sprite)
    ensures r.shape == [] && r.anchorCharacter == 'a' && r.anchorReplacementCharacter == ' '
    ensures r.airCharacter == '-' && r.anchorCharacterIndex == 0
  {
    Sprites.DefaultSprite
  }

  /// `calculate_anchor_index` as written: the positions are taken in the
  /// shape itself, newlines included.
  function CalculateAnchorIndex(shape: string, anchor: char): (r: Result<nat, ModelError>)
    ensures r.Ok? <==> |IndicesOf(shape, anchor)| == 1
    ensures r.Ok? ==> r.value < |shape| && shape[r.value] == anchor
    ensures r == Err(NoAnchor) <==> anchor !in shape
    ensures r.Err? && r.error != NoAnchor ==> r.error == MultipleAnchorsFound(IndicesOf(shape, anchor))
  {
    var positions := IndicesOf(shape, anchor);
    if |positions| == 1 then Ok(positions[0])
    else if |positions| > 1 then Err(MultipleAnchorsFound(positions))
    else Err(NoAnchor)
  }

  /// `change_shape` as written: the air check uses the effective anchor, but
  /// the index is computed for the anchor stored before the call.
  function ChangeShape(s: Sprite, newShape: string, newAnchor: Option<char>): (r: Result<Sprite, ModelError>)
    ensures !EngineRectangle.StringIsValidRectangle(newShape) ==> r == Err(NonRectangularShape)
    ensures EngineRectangle.StringIsValidRectangle(newShape)
            && Sprites.EffectiveAnchor(s, newAnchor) == s.airCharacter
            ==> r == Err(SpriteAnchorMatchesAirCharacter)
    ensures r.Ok? ==> (r.value.shape == newShape
                       && r.value.anchorCharacter == Sprites.EffectiveAnchor(s, newAnchor)
                       && CalculateAnchorIndex(newShape, s.anchorCharacter) == Ok(r.value.anchorCharacterIndex)
                       && r.value.anchorReplacementCharacter == s.anchorReplacementCharacter
                       && r.value.airCharacter == s.airCharacter)
    ensures EngineRectangle.StringIsValidRectangle(newShape)
            && Sprites.EffectiveAnchor(s, newAnchor) != s.airCharacter
            ==> (r.Ok? <==> CalculateAnchorIndex(newShape, s.anchorCharacter).Ok?)
    ensures EngineRectangle.StringIsValidRectangle(newShape)
            && Sprites.EffectiveAnchor(s, newAnchor) != s.airCharacter
            && CalculateAnchorIndex(newShape, s.anchorCharacter).Err?
            ==> r == Err(CalculateAnchorIndex(newShape, s.anchorCharacter).error)
  {
    if !EngineRectangle.StringIsValidRectangle(newShape) then Err(NonRectangularShape)
    else
      var anchor := Sprites.EffectiveAnchor(s, newAnchor);
      if anchor == s.airCharacter then Err(SpriteAnchorMatchesAirCharacter)
      else
        match CalculateAnchorIndex(newShape, s.anchorCharacter)
        case Err(e) => Err(e)
        case Ok(index) => Ok(s.(shape := newShape, anchorCharacterIndex := index, anchorCharacter := anchor))
  }

  /// `change_anchor_character` as written: the replaced shape is discarded,
  /// so only the anchor field changes.
  function ChangeAnchorCharacter(s: Sprite, newAnchor: char): (r: Result<Sprite, ModelError>)
    ensures r.Err? <==> newAnchor in s.shape
    ensures r.Err? ==> r.error == ModelSpriteContainsNewAnchorCharacter
    ensures r.Ok? ==> r.value.shape == s.shape && r.value.anchorCharacter == newAnchor
    ensures r.Ok? ==> r.value.(anchorCharacter := s.anchorCharacter) == s
  {
    if newAnchor in s.shape then Err(ModelSpriteContainsNewAnchorCharacter)
    else Ok(s.(anchorCharacter := newAnchor))
  }

  /// Finding: the index is computed for the old anchor. Giving the default
  /// sprite the shape "x" with the new anchor 'x' fails with `NoAnchor`,
  /// where the corrected `Sprites.ChangeShape` succeeds with index 0.
  lemma ChangeShapeUsesStoredAnchor()
    ensures ChangeShape(New(), "x", Some('x')) == Err(NoAnchor)
  {
    OneRow("x");
  }

  /// The corrected `Sprites.ChangeShape` on the same input.
  lemma ChangeShapeFindsNewAnchor()
    ensures Sprites.ChangeShape(New(), "x", Some('x'), None).Ok?
    ensures Sprites.ChangeShape(New(), "x", Some('x'), None).value.anchorCharacterIndex == 0
  {
    OneRow("x");
    IndicesOfUnique("x", 'x', [0]);
    RemoveAbsent("x", '\n');
    assert Sprites.CalculateAnchorIndex("x", 'x') == Ok(0);
  }

  /// Finding: newlines are counted, against the field's documentation. In
  /// "---\n-x-" the anchor sits at 5 here and at 4 in the corrected
  /// `Sprites.CalculateAnchorIndex`.
  lemma AnchorIndexCountsNewlines()
    ensures CalculateAnchorIndex("---\n-x-", 'x') == Ok(5)
    ensures Sprites.CalculateAnchorIndex("---\n-x-", 'x') == Ok(4)
  {
    IndicesOfUnique("---\n-x-", 'x', [5]);
    Sprites.CalculateAnchorIndexFound();
  }

  /// Finding: after `change_anchor_character` the shape no longer holds the
  /// anchor. The sprite with shape "a" and anchor 'a' becomes one with
  /// anchor 'x' and shape "a"; the corrected `Sprites.ChangeAnchorCharacter`
  /// keeps such a sprite consistent (`Sprites.ChangeAnchorKeepsConsistent`).
  lemma ChangeAnchorLosesAnchor()
    ensures var s := Sprites.Sprite("a", 'a', ' ', '-', 0);
            Sprites.Consistent(s)
            && ChangeAnchorCharacter(s, 'x').Ok?
            && !Sprites.Consistent(ChangeAnchorCharacter(s, 'x').value)
            && Sprites.Consistent(Sprites.ChangeAnchorCharacter(s, 'x').value)
  {
    var s := Sprites.Sprite("a", 'a', ' ', '-', 0);
    OneRow("a");
    RemoveAbsent("a", '\n');
    IndicesOfUnique("a", 'a', [0]);
    assert Sprites.Consistent(s);
    Sprites.ChangeAnchorKeepsConsistent(s, 'x');
  }

  /// A one-row shape is a rectangle.
  lemma OneRow(row: string)
    requires row != [] && '\n' !in row
    ensures EngineRectangle.StringIsValidRectangle(row)
  {
    SplitWithoutSeparator(row, '\n');
    EngineRectangle.ValidRectangleIff(row);
  }
}
