// model_data_structures/src/models/hitboxes.rs: the dimensions and anchor
// index of a hitbox, checked against each other with
// `Rectangle::index_is_valid`, and the finished `Hitbox` placed relative to
// the skin. Both are plain values in the source (`get_hitbox` consumes its
// creation data), so each `&mut self` setter is a function to `Ok(new value)`
// or to the error that leaves the old value in place.
module Hitboxes {
  import opened Wrappers
  import opened ModelErrors
  import opened EngineRectangle
  import EngineCoordinates
  import Config
  import Arith

  datatype HitboxCreationData = HitboxCreationData(dimensions: Rectangle, anchorIndex: nat)

  datatype Hitbox = Hitbox(
    skinTopLeftToHitboxTopLeft: (int, int),
    hitboxAnchorIndex: nat,
    dimensions: Rectangle,
    emptyHitbox: bool)

  /// `HitboxCreationData::new`: stores both unchecked.
  function NewCreationData(shape: Rectangle, anchorIndex: nat): (r: HitboxCreationData)
    ensures r.dimensions == shape && r.anchorIndex == anchorIndex
  {
    HitboxCreationData(shape, anchorIndex)
  }

  /// `HitboxCreationData::assign_anchor_index`, checked with
  /// `index_is_valid` and so with the area taken as x + y.
  function AssignAnchorIndex(d: HitboxCreationData, newIndex: nat): (r: Result<HitboxCreationData, ModelError>)
    ensures r.Err? <==> !IndexIsValid(d.dimensions, newIndex)
    ensures r.Err? ==> r.error == IndexLargerThanHitboxArea
    ensures r.Ok? ==> r.value.anchorIndex == newIndex && r.value.dimensions == d.dimensions
    ensures r.Ok? ==> IndexIsValid(r.value.dimensions, r.value.anchorIndex)
  {
    if !IndexIsValid(d.dimensions, newIndex) then Err(IndexLargerThanHitboxArea)
    else Ok(d.(anchorIndex := newIndex))
  }

  /// `HitboxCreationData::assign_dimensions`, with the same check.
  function AssignDimensions(d: HitboxCreationData, newDimensions: Rectangle): (r: Result<HitboxCreationData, ModelError>)
    ensures r.Err? <==> !IndexIsValid(newDimensions, d.anchorIndex)
    ensures r.Err? ==> r.error == IndexLargerThanHitboxArea
    ensures r.Ok? ==> r.value.dimensions == newDimensions && r.value.anchorIndex == d.anchorIndex
    ensures r.Ok? ==> IndexIsValid(r.value.dimensions, r.value.anchorIndex)
  {
    if !IndexIsValid(newDimensions, d.anchorIndex) then Err(IndexLargerThanHitboxArea)
    else Ok(d.(dimensions := newDimensions))
  }

  /// `isize::MAX`, the value a float infinity saturates to under `as isize`.
  const ISizeMax: int := Config.ISizeLimit as int - 1

  /// `calculate_skin_top_left_to_hitbox_top_left` in exact arithmetic: the
  /// column is `index % width` and the row is `index / width` ROUNDED to the
  /// nearest integer (halves away from zero), each minus the skin's anchor.
  /// With a zero width, `%` gives NaN (cast to 0) and `/` gives NaN for
  /// index 0 and infinity otherwise (cast to `isize::MAX`).
  function SkinTopLeftToHitboxTopLeft(skinAnchor: (int, int), index: nat, width: nat): (r: (int, int))
    ensures width > 0 ==> r.0 == index % width - skinAnchor.0
    ensures width > 0 ==> r.1 == (2 * index + width) / (2 * width) - skinAnchor.1
    ensures width == 0 ==> r == (-skinAnchor.0, (if index == 0 then 0 else ISizeMax) - skinAnchor.1)
  {
    if width == 0 then
      (0 - skinAnchor.0, (if index == 0 then 0 else ISizeMax) - skinAnchor.1)
    else
      (index % width - skinAnchor.0, (2 * index + width) / (2 * width) - skinAnchor.1)
  }

  /// The offset with the anchor's row taken by floor division, so that
  /// adding the skin anchor gives back the anchor's own column and row.
  function SkinTopLeftToHitboxTopLeftFloor(skinAnchor: (int, int), index: nat, width: nat): (r: (int, int))
    ensures width > 0 ==> 0 <= r.0 + skinAnchor.0 < width && r.1 + skinAnchor.1 >= 0
    ensures width > 0 ==> (r.0 + skinAnchor.0) + width * (r.1 + skinAnchor.1) == index
    ensures width == 0 ==> r == SkinTopLeftToHitboxTopLeft(skinAnchor, index, width)
  {
    if width == 0 then SkinTopLeftToHitboxTopLeft(skinAnchor, index, width)
    else
      var c := EngineCoordinates.IndexToCoordinates(index, width);
      (c.0 - skinAnchor.0, c.1 - skinAnchor.1)
  }

  /// Finding: rounding the row misplaces an anchor in the right half of its
  /// row. In a 3-wide hitbox the anchor at index 5 is at column 2, row 1, but
  /// 5 / 3 rounds to 2.
  lemma RoundedRowMisplacesAnchor()
    ensures SkinTopLeftToHitboxTopLeft((0, 0), 5, 3) == (2, 2)
    ensures SkinTopLeftToHitboxTopLeftFloor((0, 0), 5, 3) == (2, 1)
  {
  }

  /// The documented example: skin anchor (1, 1), hitbox anchor 4 in a
  /// 3-wide hitbox give (0, 0) under both definitions.
  lemma DocumentedOffset()
    ensures SkinTopLeftToHitboxTopLeft((1, 1), 4, 3) == (0, 0)
    ensures SkinTopLeftToHitboxTopLeftFloor((1, 1), 4, 3) == (0, 0)
  {
  }

  /// `Hitbox::create_empty`.
  function CreateEmpty(): (h: Hitbox)
    ensures h.emptyHitbox && h.skinTopLeftToHitboxTopLeft == (0, 0)
    ensures h.hitboxAnchorIndex == 0 && h.dimensions == DefaultRectangle
  {
    Hitbox((0, 0), 0, DefaultRectangle, true)
  }

  /// `get_hitbox` (and `Hitbox::from`, which calls it): an empty hitbox
  /// when `area()`, the sum of the sides, is zero; else the data's index and
  /// dimensions with the rounded offset of the anchor. It never fails.
  function GetHitbox(d: HitboxCreationData, skinAnchor: (int, int)): (r: Result<Hitbox, ModelError>)
    ensures r.Ok?
    ensures Area(d.dimensions) == 0 <==> r.value.emptyHitbox
    ensures Area(d.dimensions) == 0 ==> r.value == CreateEmpty()
    ensures Area(d.dimensions) != 0 ==> (r.value.hitboxAnchorIndex == d.anchorIndex
                                     && r.value.dimensions == d.dimensions
                                     && r.value.skinTopLeftToHitboxTopLeft
                                        == SkinTopLeftToHitboxTopLeft(skinAnchor, d.anchorIndex, d.dimensions.x))
  {
    if Area(d.dimensions) == 0 then Ok(CreateEmpty())
    else
      Ok(Hitbox(SkinTopLeftToHitboxTopLeft(skinAnchor, d.anchorIndex, d.dimensions.x),
                d.anchorIndex, d.dimensions, false))
  }

  /// A hitbox made from data whose anchor passes `index_is_valid` keeps an
  /// anchor that passes it.
  lemma GetHitboxKeepsAnchorFit(d: HitboxCreationData, skinAnchor: (int, int))
    requires IndexIsValid(d.dimensions, d.anchorIndex)
    ensures IndexIsValid(GetHitbox(d, skinAnchor).value.dimensions, GetHitbox(d, skinAnchor).value.hitboxAnchorIndex)
  {
  }

  /// The rounded row is the anchor's own row exactly when the anchor lies
  /// in the left half of its row, and the row below otherwise, so rounding
  /// and floor division agree only on the left half.
  lemma {:induction false} RoundedRowIff(skinAnchor: (int, int), index: nat, width: nat)
    requires width > 0
    ensures SkinTopLeftToHitboxTopLeft(skinAnchor, index, width).0
            == SkinTopLeftToHitboxTopLeftFloor(skinAnchor, index, width).0
    ensures 2 * (index % width) < width ==>
              SkinTopLeftToHitboxTopLeft(skinAnchor, index, width) == SkinTopLeftToHitboxTopLeftFloor(skinAnchor, index, width)
    ensures 2 * (index % width) >= width ==>
              SkinTopLeftToHitboxTopLeft(skinAnchor, index, width).1
              == SkinTopLeftToHitboxTopLeftFloor(skinAnchor, index, width).1 + 1
  {
    var q, m := index / width, index % width;
    assert index == m + width * q;
    assert 2 * (width * q) == (2 * width) * q;
    if 2 * m < width {
      Arith.DivModUnique(2 * index + width, 2 * width, q, 2 * m + width);
    } else {
      assert (2 * width) * q + 2 * width == (2 * width) * (q + 1);
      Arith.DivModUnique(2 * index + width, 2 * width, q + 1, 2 * m - width);
    }
  }

  /// With the area a sum, the setters follow `EngineRectangle.IndexIsValid`
  /// rather than the cells: a 5 by 1 hitbox takes anchor 5, one past its
  /// last cell, and a 3 by 3 hitbox refuses anchor 7, one of its cells, on
  /// the creation data and on the hitbox alike.
  lemma SettersUseSumArea()
    ensures AssignAnchorIndex(HitboxCreationData(Rectangle(5, 1), 0), 5).Ok?
    ensures AssignAnchorIndex(HitboxCreationData(Rectangle(3, 3), 0), 7) == Err(IndexLargerThanHitboxArea)
    ensures AssignDimensions(HitboxCreationData(Rectangle(1, 1), 5), Rectangle(5, 1)).Ok?
    ensures AssignHitboxAnchorIndex(Hitbox((0, 0), 0, Rectangle(3, 3), false), 7) == Err(IndexLargerThanHitboxArea)
    ensures AssignHitboxDimensions(Hitbox((0, 0), 7, Rectangle(1, 1), false), Rectangle(3, 3))
            == Err(IndexLargerThanHitboxArea)
  {
  }

  /// `get_hitbox` tests the sum of the sides, so a hitbox with no rows but a
  /// width of 3 is not empty, although it has no cells; the corrected
  /// `GetCorrectedHitbox` makes it empty.
  lemma ZeroHeightHitboxIsNotEmpty()
    ensures !GetHitbox(HitboxCreationData(Rectangle(3, 0), 0), (0, 0)).value.emptyHitbox
    ensures GetCorrectedHitbox(HitboxCreationData(Rectangle(3, 0), 0), (0, 0)) == Ok(CreateEmpty())
  {
  }

  /// `get_hitbox` with the area taken as the number of cells and the row by
  /// floor division: an empty hitbox exactly when there are no cells;
  /// otherwise the skin anchor plus the offset is the anchor's own cell.
  function GetCorrectedHitbox(d: HitboxCreationData, skinAnchor: (int, int)): (r: Result<Hitbox, ModelError>)
    ensures r.Ok?
    ensures CellCount(d.dimensions) == 0 <==> r.value.emptyHitbox
    ensures CellCount(d.dimensions) == 0 ==> r.value == CreateEmpty()
    ensures CellCount(d.dimensions) != 0 ==>
              var o := r.value.skinTopLeftToHitboxTopLeft;
              r.value.hitboxAnchorIndex == d.anchorIndex && r.value.dimensions == d.dimensions &&
              0 <= o.0 + skinAnchor.0 < d.dimensions.x && 0 <= o.1 + skinAnchor.1 &&
              (o.0 + skinAnchor.0) + d.dimensions.x * (o.1 + skinAnchor.1) == d.anchorIndex
  {
    if CellCount(d.dimensions) == 0 then Ok(CreateEmpty())
    else
      Ok(Hitbox(SkinTopLeftToHitboxTopLeftFloor(skinAnchor, d.anchorIndex, d.dimensions.x),
                d.anchorIndex, d.dimensions, false))
  }

  /// In the corrected hitbox an anchor that is inside the cells lies on one
  /// of the hitbox's rows.
  lemma CorrectedAnchorOnARow(d: HitboxCreationData, skinAnchor: (int, int))
    requires IndexIsInside(d.dimensions, d.anchorIndex) && CellCount(d.dimensions) != 0
    ensures GetCorrectedHitbox(d, skinAnchor).value.skinTopLeftToHitboxTopLeft.1 + skinAnchor.1 < d.dimensions.y
  {
    IndexIsInsideIff(d.dimensions, d.anchorIndex);
  }

  /// `Hitbox::assign_anchor_index`: the creation data's rule.
  function AssignHitboxAnchorIndex(h: Hitbox, newIndex: nat): (r: Result<Hitbox, ModelError>)
    ensures r.Err? <==> !IndexIsValid(h.dimensions, newIndex)
    ensures r.Err? ==> r.error == IndexLargerThanHitboxArea
    ensures r.Ok? ==> r.value == h.(hitboxAnchorIndex := newIndex)
  {
    if !IndexIsValid(h.dimensions, newIndex) then Err(IndexLargerThanHitboxArea)
    else Ok(h.(hitboxAnchorIndex := newIndex))
  }

  /// `Hitbox::assign_dimensions`: the creation data's rule.
  function AssignHitboxDimensions(h: Hitbox, newDimensions: Rectangle): (r: Result<Hitbox, ModelError>)
    ensures r.Err? <==> !IndexIsValid(newDimensions, h.hitboxAnchorIndex)
    ensures r.Err? ==> r.error == IndexLargerThanHitboxArea
    ensures r.Ok? ==> r.value == h.(dimensions := newDimensions)
  {
    if !IndexIsValid(newDimensions, h.hitboxAnchorIndex) then Err(IndexLargerThanHitboxArea)
    else Ok(h.(dimensions := newDimensions))
  }

  /// The hitbox setters and the creation-data setters accept exactly the
  /// same values.
  lemma SettersAgree(d: HitboxCreationData, skinAnchor: (int, int), index: nat, dimensions: Rectangle)
    requires Area(d.dimensions) != 0
    ensures AssignHitboxAnchorIndex(GetHitbox(d, skinAnchor).value, index).Ok?
            <==> AssignAnchorIndex(d, index).Ok?
    ensures AssignHitboxDimensions(GetHitbox(d, skinAnchor).value, dimensions).Ok?
            <==> AssignDimensions(d, dimensions).Ok?
  {
  }
}
