// src/objects/object_movements.rs: the four directions an object moves in.
module ObjectMovements {
  datatype ObjectMovements = Up | Down | Left | Right

  /// `is_horizontal`.
  function IsHorizontal(m: ObjectMovements): (r: bool)
    ensures r <==> m.Left? || m.Right?
  {
    m == Right || m == Left
  }

  /// `is_vertical`.
  function IsVertical(m: ObjectMovements): (r: bool)
    ensures r <==> !IsHorizontal(m)
  {
    m == Up || m == Down
  }

  /// `moves_in_negative_direction`: towards the top left.
  function MovesInNegativeDirection(m: ObjectMovements): (r: bool)
    ensures r <==> m.Up? || m.Left?
  {
    m == Up || m == Left
  }

  /// `moves_in_positive_direction`: towards the bottom right.
  function MovesInPositiveDirection(m: ObjectMovements): (r: bool)
    ensures r <==> !MovesInNegativeDirection(m)
  {
    m == Down || m == Right
  }

  /// Every direction is exactly one of horizontal and vertical, and exactly
  /// one of negative and positive; the two splits together tell the four
  /// directions apart.
  lemma DirectionsPartition(m: ObjectMovements, n: ObjectMovements)
    ensures IsHorizontal(m) != IsVertical(m)
    ensures MovesInNegativeDirection(m) != MovesInPositiveDirection(m)
    ensures IsHorizontal(m) == IsHorizontal(n) && MovesInNegativeDirection(m) == MovesInNegativeDirection(n) ==> m == n
  {
  }
}

// The grid facts the older object code relies on: a rectangle of rows, once
// its newlines are dropped, holds cell (row, column) at `row * width + column`.
module ObjectGrid {
  import opened Text
  import Arith

  /// The column of position `i` in rows `width` wide.
  function Column(i: nat, width: nat): (c: nat)
    requires width > 0
    ensures c < width
  {
    i % width
  }

  /// The row of position `i` in rows `width` wide.
  function Row(i: nat, width: nat): nat
    requires width > 0
  {
    i / width
  }

  predicate RowsOfWidth(rows: seq<string>, width: nat)
  {
    forall i :: 0 <= i < |rows| ==> |rows[i]| == width
  }

  lemma {:induction false} ConcatLength(rows: seq<string>, width: nat)
    requires RowsOfWidth(rows, width)
    ensures |Concat(rows)| == |rows| * width
  {
    if rows != [] {
      ConcatLength(rows[1..], width);
      Arith.MulSucc(width, |rows| - 1);
    }
  }

  /// Cell (row, column) of the rows is character `row * width + column` of
  /// their concatenation.
  lemma {:induction false} ConcatRowsAt(rows: seq<string>, width: nat, row: nat, column: nat)
    requires RowsOfWidth(rows, width)
    requires row < |rows| && column < width
    ensures row * width + column < |Concat(rows)|
    ensures Concat(rows)[row * width + column] == rows[row][column]
    decreases row
  {
    if row > 0 {
      var k := (row - 1) * width + column;
      ConcatRowsAt(rows[1..], width, row - 1, column);
      ConcatSkipsFirst(rows, width, k);
      Arith.MulPred(row, width);
    }
  }

  /// Past the first row, the concatenation is that of the other rows.
  lemma ConcatSkipsFirst(rows: seq<string>, width: nat, k: nat)
    requires RowsOfWidth(rows, width) && rows != []
    requires k < |Concat(rows[1..])|
    ensures width + k < |Concat(rows)|
    ensures Concat(rows)[width + k] == Concat(rows[1..])[k]
  {
  }

  /// Cell (row, column) sits at position `j == row * width + column` of the
  /// concatenation, whose row and column are that row and column again.
  lemma CellIndex(rows: seq<string>, width: nat, row: nat, column: nat) returns (j: nat)
    requires RowsOfWidth(rows, width)
    requires row < |rows| && column < width
    ensures j == row * width + column
    ensures j < |Concat(rows)| && Concat(rows)[j] == rows[row][column]
    ensures Row(j, width) == row && Column(j, width) == column
  {
    j := row * width + column;
    ConcatRowsAt(rows, width, row, column);
    Arith.DivModUnique(j, width, row, column);
  }

  /// Character `i` of the concatenation is cell (i / width, i % width).
  lemma IndexIsCell(rows: seq<string>, width: nat, i: nat)
    requires RowsOfWidth(rows, width) && width > 0
    requires i < |Concat(rows)|
    ensures Row(i, width) < |rows|
    ensures Concat(rows)[i] == rows[Row(i, width)][Column(i, width)]
  {
    ConcatLength(rows, width);
    Arith.DivBound(i, |rows|, width);
    ConcatRowsAt(rows, width, Row(i, width), Column(i, width));
  }

  /// Rows of equal length that are all empty hold no characters at all, so
  /// a character found in their concatenation means a positive width.
  lemma FoundMeansWidth(rows: seq<string>, width: nat, c: char)
    requires RowsOfWidth(rows, width)
    ensures c in Concat(rows) ==> width > 0
  {
    ConcatLength(rows, width);
  }
}

// src/objects/sprites.rs: the older object sprite, a skin (what the object
// shows) and a hitbox given as the offsets of its cells from its center.
module ObjectSprites {
  import opened Wrappers
  import opened Text
  import EngineRectangle
  import ObjectGrid
  import Arith

  datatype ObjectError = NoCenter | NonRectangularShape | EmptyHitboxString

  /// `valid_rectangle_check` of this file: (width, rows) when every row has
  /// the character count of the first. `split` always yields a row, so the
  /// source's `EmptyHitboxString` branch is never taken here.
  function ValidRectangleCheck(shape: string): (r: Result<(nat, nat), ObjectError>)
    ensures r.Ok? <==> EngineRectangle.RowsHaveEqualLength(Split(shape, '\n'))
    ensures r.Ok? ==> r.value == (|Split(shape, '\n')[0]|, |Split(shape, '\n')|)
    ensures r.Err? ==> r.error == NonRectangularShape
  {
    var rows := Split(shape, '\n');
    if forall i :: 0 <= i < |rows| ==> |rows[i]| == |rows[0]| then Ok((|rows[0]|, |rows|)) else Err(NonRectangularShape)
  }

  /// The empty string passes this file's check as one empty row.
  lemma EmptyStringIsOneEmptyRow()
    ensures ValidRectangleCheck("") == Ok((0, 1))
  {
  }

  /// What a hitbox is made from (`Hitbox` in the source).
  datatype Hitbox = Hitbox(shape: string, centerCharacter: char, airCharacter: char, centerIsHitbox: bool)

  /// A character that belongs to the hitbox: anything but air, and the
  /// center as well when the center is part of the hitbox.
  predicate IsHitboxCell(h: Hitbox, c: char)
  {
    c != h.airCharacter || (h.centerIsHitbox && c == h.centerCharacter)
  }

  /// The positions of the hitbox cells in `s`, in ascending order.
  function HitboxCells(s: string, h: Hitbox): (r: seq<nat>)
    ensures forall k :: 0 <= k < |r| ==> r[k] < |s| && IsHitboxCell(h, s[r[k]])
    ensures forall i :: 0 <= i < |s| && IsHitboxCell(h, s[i]) ==> i in r
    ensures forall k, l :: 0 <= k < l < |r| ==> r[k] < r[l]
    decreases |s|
  {
    if s == [] then []
    else
      var rest := HitboxCells(s[..|s| - 1], h);
      if IsHitboxCell(h, s[|s| - 1]) then rest + [|s| - 1] else rest
  }

  /// `subtract` of the cell at position `i` of a grid `width` wide and the
  /// center cell.
  function CellOffset(i: nat, width: nat, center: (nat, nat)): (int, int)
    requires width > 0
  {
    (ObjectGrid.Column(i, width) as int - center.0, ObjectGrid.Row(i, width) as int - center.1)
  }

  /// The fold of `get_hitbox_data` over the first `n` characters.
  function FoldOffsets(s: string, h: Hitbox, width: nat, center: (nat, nat), n: nat): (r: seq<(int, int)>)
    requires width > 0 && n <= |s|
    ensures |r| == |HitboxCells(s[..n], h)|
    ensures forall k :: 0 <= k < |r| ==> r[k] == CellOffset(HitboxCells(s[..n], h)[k], width, center)
  {
    if n == 0 then []
    else
      var rest := FoldOffsets(s, h, width, center, n - 1);
      HitboxCellsStep(s, h, n);
      if IsHitboxCell(h, s[n - 1]) then rest + [CellOffset(n - 1, width, center)] else rest
  }

  /// One more character adds its position when it is a hitbox cell.
  lemma HitboxCellsStep(s: string, h: Hitbox, n: nat)
    requires 0 < n <= |s|
    ensures HitboxCells(s[..n], h) ==
      if IsHitboxCell(h, s[n - 1]) then HitboxCells(s[..n - 1], h) + [n - 1] else HitboxCells(s[..n - 1], h)
  {
    assert s[..n][..n - 1] == s[..n - 1];
  }

  /// The shape with its newlines dropped, as `split('\n').collect()` gives it.
  function Stripped(shape: string): string
  {
    Concat(Split(shape, '\n'))
  }

  /// `Hitbox::get_hitbox_data`: a non-rectangular shape is an error, a shape
  /// without the center character is `NoCenter`, and otherwise the offset of
  /// every hitbox cell from the center, in row-major order.
  function GetHitboxData(h: Hitbox): (r: Result<seq<(int, int)>, ObjectError>)
    ensures !EngineRectangle.RowsHaveEqualLength(Split(h.shape, '\n')) ==> r == Err(NonRectangularShape)
    ensures EngineRectangle.RowsHaveEqualLength(Split(h.shape, '\n')) && h.centerCharacter !in Stripped(h.shape)
            ==> r == Err(NoCenter)
    ensures r.Ok? <==> EngineRectangle.RowsHaveEqualLength(Split(h.shape, '\n')) && h.centerCharacter in Stripped(h.shape)
    ensures r.Ok? ==> IsOffsetList(h, r.value)
  {
    var rows := Split(h.shape, '\n');
    match ValidRectangleCheck(h.shape)
    case Err(e) => Err(e)
    case Ok((width, _)) =>
      var stripped := Concat(rows);
      match FirstIndexOf(stripped, h.centerCharacter)
      case None => Err(NoCenter)
      case Some(i) =>
        ObjectGrid.FoundMeansWidth(rows, width, h.centerCharacter);
        assert stripped[..|stripped|] == stripped;
        Ok(FoldOffsets(stripped, h, width, (ObjectGrid.Column(i, width), ObjectGrid.Row(i, width)), |stripped|))
  }

  /// The offsets of a rectangular hitbox shape that holds its center: one
  /// per hitbox cell, in order, each measured from the first center cell.
  predicate IsOffsetList(h: Hitbox, offsets: seq<(int, int)>)
  {
    var rows := Split(h.shape, '\n');
    var stripped := Concat(rows);
    EngineRectangle.RowsHaveEqualLength(rows) && |rows[0]| > 0 &&
    FirstIndexOf(stripped, h.centerCharacter).Some? &&
    var i := FirstIndexOf(stripped, h.centerCharacter).value;
    var width := |rows[0]|;
    var cells := HitboxCells(stripped, h);
    |offsets| == |cells| &&
    forall k :: 0 <= k < |offsets| ==>
      offsets[k] == CellOffset(cells[k], width, (ObjectGrid.Column(i, width), ObjectGrid.Row(i, width)))
  }

  /// The first center cell, as (column, row).
  function CenterCell(h: Hitbox): (nat, nat)
    requires |Split(h.shape, '\n')[0]| > 0 && FirstIndexOf(Stripped(h.shape), h.centerCharacter).Some?
  {
    var width := |Split(h.shape, '\n')[0]|;
    var i := FirstIndexOf(Stripped(h.shape), h.centerCharacter).value;
    (ObjectGrid.Column(i, width), ObjectGrid.Row(i, width))
  }

  /// Going `offset` from `center` stays on the shape and lands on a hitbox
  /// cell.
  predicate LeadsToHitboxCell(h: Hitbox, center: (nat, nat), offset: (int, int))
  {
    var rows := Split(h.shape, '\n');
    0 <= center.1 + offset.1 < |rows| && 0 <= center.0 + offset.0 < |rows[center.1 + offset.1]| &&
    IsHitboxCell(h, rows[center.1 + offset.1][center.0 + offset.0])
  }

  /// The center cell holds the center character, and each offset leads from
  /// it to a hitbox cell of the shape.
  lemma {:induction false} OffsetsLeadToHitboxCells(h: Hitbox, offsets: seq<(int, int)>)
    requires IsOffsetList(h, offsets)
    ensures var rows := Split(h.shape, '\n');
      var center := CenterCell(h);
      center.1 < |rows| && center.0 < |rows[0]| && rows[center.1][center.0] == h.centerCharacter
    ensures forall k :: 0 <= k < |offsets| ==> LeadsToHitboxCell(h, CenterCell(h), offsets[k])
  {
    var rows := Split(h.shape, '\n');
    var width := |rows[0]|;
    var i := FirstIndexOf(Concat(rows), h.centerCharacter).value;
    assert ObjectGrid.RowsOfWidth(rows, width);
    ObjectGrid.IndexIsCell(rows, width, i);
    forall k | 0 <= k < |offsets|
      ensures LeadsToHitboxCell(h, CenterCell(h), offsets[k])
    {
      OffsetLeadsToCell(h, offsets, k);
    }
  }

  /// Offset `k` leads from the center cell to a hitbox cell.
  lemma OffsetLeadsToCell(h: Hitbox, offsets: seq<(int, int)>, k: nat)
    requires IsOffsetList(h, offsets) && k < |offsets|
    ensures LeadsToHitboxCell(h, CenterCell(h), offsets[k])
  {
    var rows := Split(h.shape, '\n');
    var width := |rows[0]|;
    var c := HitboxCells(Concat(rows), h)[k];
    assert ObjectGrid.RowsOfWidth(rows, width);
    ObjectGrid.IndexIsCell(rows, width, c);
    assert offsets[k] == CellOffset(c, width, CenterCell(h));
  }

  /// Every hitbox cell of the shape has its offset from the center cell in
  /// the list.
  lemma {:induction false} HitboxCellsHaveOffsets(h: Hitbox, offsets: seq<(int, int)>, row: nat, column: nat)
    requires IsOffsetList(h, offsets)
    requires row < |Split(h.shape, '\n')| && column < |Split(h.shape, '\n')[0]|
    requires IsHitboxCell(h, Split(h.shape, '\n')[row][column])
    ensures (column as int - CenterCell(h).0, row as int - CenterCell(h).1) in offsets
  {
    var rows := Split(h.shape, '\n');
    var width := |rows[0]|;
    assert ObjectGrid.RowsOfWidth(rows, width);
    var j := ObjectGrid.CellIndex(rows, width, row, column);
    CellHasOffset(h, offsets, j);
  }

  /// The offset of every hitbox cell of the newline-free shape is listed.
  lemma CellHasOffset(h: Hitbox, offsets: seq<(int, int)>, j: nat)
    requires IsOffsetList(h, offsets)
    requires j < |Stripped(h.shape)| && IsHitboxCell(h, Stripped(h.shape)[j])
    ensures CellOffset(j, |Split(h.shape, '\n')[0]|, CenterCell(h)) in offsets
  {
    var cells := HitboxCells(Stripped(h.shape), h);
    var k :| 0 <= k < |cells| && cells[k] == j;
    assert offsets[k] == CellOffset(j, |Split(h.shape, '\n')[0]|, CenterCell(h));
  }

  /// When the center counts as part of the hitbox (it is not the air
  /// character, or the flag says so), its own offset (0, 0) is in the list.
  lemma {:induction false} CenterInOffsets(h: Hitbox, offsets: seq<(int, int)>)
    requires IsOffsetList(h, offsets)
    requires h.centerCharacter != h.airCharacter || h.centerIsHitbox
    ensures (0, 0) in offsets
  {
    var rows := Split(h.shape, '\n');
    var width := |rows[0]|;
    var stripped := Concat(rows);
    var i := FirstIndexOf(stripped, h.centerCharacter).value;
    var cells := HitboxCells(stripped, h);
    assert IsHitboxCell(h, stripped[i]);
    var k :| 0 <= k < |cells| && cells[k] == i;
    assert offsets[k] == CellOffset(i, width, (ObjectGrid.Column(i, width), ObjectGrid.Row(i, width)));
  }

  /// What the object shows (`Skin`); the center index does not count
  /// newlines.
  datatype Skin = Skin(
    shape: string,
    centerCharacter: char,
    centerReplacementCharacter: char,
    airCharacter: char,
    centerCharacterIndex: nat)

  /// `Skin::new`: the first position of the center character in the shape
  /// without its newlines, or `NoCenter`.
  function NewSkin(shape: string, centerCharacter: char, centerReplacementCharacter: char, airCharacter: char)
    : (r: Result<Skin, ObjectError>)
    ensures r.Err? <==> centerCharacter !in Remove(shape, '\n')
    ensures r.Err? ==> r.error == NoCenter
    ensures r.Ok? ==> var s := r.value; var cleaned := Remove(shape, '\n');
      s.shape == shape && s.centerCharacter == centerCharacter &&
      s.centerReplacementCharacter == centerReplacementCharacter && s.airCharacter == airCharacter &&
      s.centerCharacterIndex < |cleaned| && cleaned[s.centerCharacterIndex] == centerCharacter &&
      centerCharacter !in cleaned[..s.centerCharacterIndex]
  {
    match FirstIndexOf(Remove(shape, '\n'), centerCharacter)
    case None => Err(NoCenter)
    case Some(i) => Ok(Skin(shape, centerCharacter, centerReplacementCharacter, airCharacter, i))
  }

  /// `fix_skin`: every center character in the shape becomes the
  /// replacement character; nothing else changes.
  function FixSkin(s: Skin): (r: Skin)
    ensures r.(shape := s.shape) == s && |r.shape| == |s.shape|
    ensures forall i :: 0 <= i < |s.shape| ==>
      r.shape[i] == if s.shape[i] == s.centerCharacter then s.centerReplacementCharacter else s.shape[i]
    ensures s.centerCharacter != s.centerReplacementCharacter ==> s.centerCharacter !in r.shape
  {
    s.(shape := ReplaceChar(s.shape, s.centerCharacter, s.centerReplacementCharacter))
  }

  class Sprite {
    var skin: Skin
    var hitbox: seq<(int, int)>

    constructor Of(skin: Skin, hitbox: seq<(int, int)>)
      ensures this.skin == skin && this.hitbox == hitbox
    {
      this.skin := skin;
      this.hitbox := hitbox;
    }

    /// `change_hitbox`: the new hitbox's offsets on success; on error the
    /// old hitbox stays.
    method ChangeHitbox(newHitbox: Hitbox) returns (r: Result<Unit, ObjectError>)
      modifies this
      ensures GetHitboxData(newHitbox).Err? ==> r == Err(GetHitboxData(newHitbox).error) && hitbox == old(hitbox)
      ensures GetHitboxData(newHitbox).Ok? ==> r.Ok? && hitbox == GetHitboxData(newHitbox).value
      ensures skin == old(skin)
    {
      match GetHitboxData(newHitbox) {
        case Ok(data) => hitbox := data;
        case Err(e) => return Err(e);
      }
      r := Ok(Unit);
    }
  }

  /// `Sprite::new`: the hitbox's offsets and the fixed skin, or the hitbox's
  /// error.
  method NewSprite(skin: Skin, hitbox: Hitbox) returns (r: Result<Sprite, ObjectError>)
    ensures GetHitboxData(hitbox).Err? ==> r == Err(GetHitboxData(hitbox).error)
    ensures GetHitboxData(hitbox).Ok? ==>
      r.Ok? && fresh(r.value) && r.value.skin == FixSkin(skin) && r.value.hitbox == GetHitboxData(hitbox).value
  {
    var data := GetHitboxData(hitbox);
    if data.Err? {
      return Err(data.error);
    }
    var sprite := new Sprite.Of(FixSkin(skin), data.value);
    r := Ok(sprite);
  }
}

// src/objects/hitboxes.rs: the older hitbox as a rectangle placed relative
// to the skin's center.
module ObjectHitboxes {
  import opened Wrappers
  import opened Text
  import EngineRectangle
  import ObjectGrid
  import Config
  import opened ObjectSprites

  datatype ObjectHitbox = ObjectHitbox(
    relativePositionToSkin: (int, int),
    width: int,
    height: int,
    emptyHitbox: bool)

  datatype HitboxCreationData = HitboxCreationData(shape: string, centerCharacter: char)

  /// `create_empty`: no size, no offset, marked empty.
  function CreateEmpty(): (h: ObjectHitbox)
    ensures h.emptyHitbox && h.width == 0 && h.height == 0 && h.relativePositionToSkin == (0, 0)
  {
    ObjectHitbox((0, 0), 0, 0, true)
  }

  /// `valid_rectangle_check` of this file: the empty string is
  /// `EmptyHitboxString`; otherwise (width, rows) when every row has the
  /// character count of the first, else `NonRectangularShape`.
  function ValidRectangleCheck(shape: string): (r: Result<(nat, nat), ObjectError>)
    ensures r == Err(EmptyHitboxString) <==> shape == []
    ensures shape != [] ==> ObjectSprites.ValidRectangleCheck(shape) == r
  {
    if |shape| == 0 then Err(EmptyHitboxString) else ObjectSprites.ValidRectangleCheck(shape)
  }

  /// This check accepts exactly the strings the rectangle rule of the newer
  /// engine accepts, with the same dimensions.
  lemma AgreesWithRectangularDimensions(shape: string)
    ensures ValidRectangleCheck(shape).Ok? <==> EngineRectangle.RectangularDimensions(shape).Some?
    ensures ValidRectangleCheck(shape).Ok? ==>
      ValidRectangleCheck(shape).value == EngineRectangle.RectangularDimensions(shape).value
  {
  }

  /// Three equal rows make a rectangle as wide as a row and three high.
  lemma {:induction false} ThreeEqualRows(row: string)
    requires '\n' !in row
    ensures ValidRectangleCheck(row + "\n" + row + "\n" + row) == Ok((|row| as nat, 3 as nat))
  {
    assert row + "\n" + row + "\n" + row == row + ['\n'] + (row + ['\n'] + row);
    SplitAtSeparator(row, '\n', row + ['\n'] + row);
    SplitAtSeparator(row, '\n', row);
    SplitWithoutSeparator(row, '\n');
  }

  /// A first row and a second row of different lengths make a shape that is
  /// not a rectangle, whatever follows.
  lemma {:induction false} FirstRowsDiffer(first: string, second: string, rest: string)
    requires '\n' !in first && '\n' !in second && |first| != |second|
    ensures ValidRectangleCheck(first + "\n" + second + "\n" + rest) == Err(NonRectangularShape)
  {
    assert first + "\n" + second + "\n" + rest == first + ['\n'] + (second + ['\n'] + rest);
    SplitAtSeparator(first, '\n', second + ['\n'] + rest);
    SplitAtSeparator(second, '\n', rest);
    var rows := Split(first + "\n" + second + "\n" + rest, '\n');
    assert rows[0] == first && rows[1] == second;
  }

  /// The source's test of a 3 by 3 square.
  lemma ValidRectangleCheckSquare()
    ensures ValidRectangleCheck("xxx\nxxx\nxxx") == Ok((3, 3))
  {
    assert "xxx\nxxx\nxxx" == "xxx" + "\n" + "xxx" + "\n" + "xxx";
    ThreeEqualRows("xxx");
  }

  /// The source's test of rows of different lengths.
  lemma ValidRectangleCheckRagged()
    ensures ValidRectangleCheck("xx\nxxx\nx\nxxxxxx") == Err(NonRectangularShape)
  {
    assert "xx\nxxx\nx\nxxxxxx" == "xx" + "\n" + "xxx" + "\n" + "x\nxxxxxx";
    FirstRowsDiffer("xx", "xxx", "x\nxxxxxx");
  }

  /// The source's test of the empty string.
  lemma ValidRectangleCheckEmpty()
    ensures ValidRectangleCheck("") == Err(EmptyHitboxString)
  {
  }

  /// `get_hitbox_data` (and `Hitbox::from`): a shape that trims to nothing
  /// is the empty hitbox; otherwise the rectangle check's error, or
  /// `NoCenter`, or a hitbox of the rectangle's size placed so that its first
  /// center cell lands on the skin's center.
  function GetHitboxData(d: HitboxCreationData, skinRelativeCenter: (int, int)): (r: Result<ObjectHitbox, ObjectError>)
    ensures Trim(d.shape) == [] ==> r == Ok(CreateEmpty())
    ensures Trim(d.shape) != [] && ValidRectangleCheck(d.shape).Err? ==> r == Err(ValidRectangleCheck(d.shape).error)
    ensures Trim(d.shape) != [] && ValidRectangleCheck(d.shape).Ok? && d.centerCharacter !in Stripped(d.shape)
            ==> r == Err(NoCenter)
    ensures r.Ok? <==> Trim(d.shape) == [] || (ValidRectangleCheck(d.shape).Ok? && d.centerCharacter in Stripped(d.shape))
    ensures r.Ok? && Trim(d.shape) != [] ==> PlacedOnCenter(d, skinRelativeCenter, r.value)
  {
    if Trim(d.shape) == [] then Ok(CreateEmpty())
    else
      match ValidRectangleCheck(d.shape)
      case Err(e) => Err(e)
      case Ok((width, height)) =>
        var rows := Split(d.shape, '\n');
        var stripped := Concat(rows);
        match FirstIndexOf(stripped, d.centerCharacter)
        case None => Err(NoCenter)
        case Some(i) =>
          ObjectGrid.FoundMeansWidth(rows, width, d.centerCharacter);
          var center := (ObjectGrid.Column(i, width) as int, ObjectGrid.Row(i, width) as int);
          Ok(ObjectHitbox((skinRelativeCenter.0 - center.0, skinRelativeCenter.1 - center.1), width, height, false))
  }

  /// A non-empty hitbox of the shape's size whose offset moves the shape's
  /// first center cell (row `i / width`, column `i % width`) onto the
  /// skin's center.
  predicate PlacedOnCenter(d: HitboxCreationData, skinRelativeCenter: (int, int), h: ObjectHitbox)
  {
    var rows := Split(d.shape, '\n');
    ObjectSprites.ValidRectangleCheck(d.shape).Ok? && |rows[0]| > 0 &&
    FirstIndexOf(Stripped(d.shape), d.centerCharacter).Some? &&
    var width := |rows[0]|;
    var i := FirstIndexOf(Stripped(d.shape), d.centerCharacter).value;
    !h.emptyHitbox && h.width == width && h.height == |rows| &&
    h.relativePositionToSkin.0 + ObjectGrid.Column(i, width) as int == skinRelativeCenter.0 &&
    h.relativePositionToSkin.1 + ObjectGrid.Row(i, width) as int == skinRelativeCenter.1
  }

  /// The cell the placement uses is a center cell of the shape, and no cell
  /// before it in row-major order is.
  lemma PlacedCellHoldsCenter(d: HitboxCreationData, skinRelativeCenter: (int, int), h: ObjectHitbox)
    requires PlacedOnCenter(d, skinRelativeCenter, h)
    ensures var rows := Split(d.shape, '\n');
      var width := |rows[0]|;
      var i := FirstIndexOf(Stripped(d.shape), d.centerCharacter).value;
      ObjectGrid.Row(i, width) < |rows| && rows[ObjectGrid.Row(i, width)][ObjectGrid.Column(i, width)] == d.centerCharacter &&
      d.centerCharacter !in Stripped(d.shape)[..i]
  {
    var rows := Split(d.shape, '\n');
    var i := FirstIndexOf(Stripped(d.shape), d.centerCharacter).value;
    assert ObjectGrid.RowsOfWidth(rows, |rows[0]|);
    ObjectGrid.IndexIsCell(rows, |rows[0]|, i);
  }

  /// A shape of white space only, newlines included, is the empty hitbox.
  lemma {:induction false} WhiteSpaceIsEmptyHitbox(d: HitboxCreationData, skinRelativeCenter: (int, int))
    requires forall i :: 0 <= i < |d.shape| ==> IsWhiteSpace(d.shape[i])
    ensures GetHitboxData(d, skinRelativeCenter) == Ok(CreateEmpty())
  {
  }

  /// `get_hitbox_position`: the object's position in the frame string (rows
  /// of `GRID_WIDTH` cells and a newline), as (column, row), moved by the
  /// hitbox's offset.
  function GetHitboxPosition(h: ObjectHitbox, objectPosition: nat): (r: (int, int))
    ensures 0 <= r.0 - h.relativePositionToSkin.0 < Config.RowStride
    ensures 0 <= r.1 - h.relativePositionToSkin.1
    ensures (r.1 - h.relativePositionToSkin.1) * Config.RowStride + (r.0 - h.relativePositionToSkin.0) == objectPosition
  {
    ((objectPosition % Config.RowStride) as int + h.relativePositionToSkin.0,
     (objectPosition / Config.RowStride) as int + h.relativePositionToSkin.1)
  }
}

// src/objects/object_data.rs: the older screen object and its size
// helpers. Placing an object on the old screen and testing a move against
// the screen's bounds are not part of this model.
module ObjectData {
  import opened Wrappers
  import opened Text

  type Coordinates = (nat, nat)

  /// `ObjectInformation`: what an object is made from.
  datatype ObjectInformation = ObjectInformation(
    name: string,
    objectShape: string,
    position: Coordinates,
    keepData: bool)

  /// `ObjectInformation::from`: a missing position is (0, 0) and a missing
  /// `keep_data` is false.
  function From(name: string, objectShape: string, position: Option<Coordinates>, keepData: Option<bool>)
    : (r: ObjectInformation)
    ensures r.name == name && r.objectShape == objectShape
    ensures position.Some? ==> r.position == position.value
    ensures position.None? ==> r.position == (0, 0)
    ensures keepData.Some? ==> r.keepData == keepData.value
    ensures keepData.None? ==> !r.keepData
  {
    ObjectInformation(
      name, objectShape,
      if position.Some? then position.value else (0, 0),
      if keepData.Some? then keepData.value else false)
  }

  /// `get_object_width`: the length in bytes of the first line; zero
  /// exactly when the shape starts with a newline or is empty.
  function GetObjectWidth(objectShape: string): (r: nat)
    ensures r >= |Split(objectShape, '\n')[0]|
    ensures r == 0 <==> objectShape == [] || objectShape[0] == '\n'
  {
    FirstLineEmpty(objectShape);
    ByteLen(Split(objectShape, '\n')[0])
  }

  lemma FirstLineEmpty(s: string)
    ensures Split(s, '\n')[0] == [] <==> s == [] || s[0] == '\n'
  {
  }

  /// `get_object_height`: the number of lines; one exactly when the shape
  /// has no newline.
  function GetObjectHeight(objectShape: string): (r: nat)
    ensures r >= 1
    ensures r == 1 <==> '\n' !in objectShape
  {
    SingleLine(objectShape);
    |Split(objectShape, '\n')|
  }

  lemma SingleLine(s: string)
    ensures |Split(s, '\n')| == 1 <==> '\n' !in s
  {
    match FirstIndexOf(s, '\n')
    case None => SplitWithoutSeparator(s, '\n');
    case Some(i) =>
      assert s == s[..i] + ['\n'] + s[i + 1..];
      SplitAtSeparator(s[..i], '\n', s[i + 1..]);
  }

  /// Lines after the first leave the width alone, and each adds one to the
  /// height.
  lemma {:induction false} LaterLines(first: string, rest: string)
    requires '\n' !in first
    ensures GetObjectWidth(first + "\n" + rest) == GetObjectWidth(first)
    ensures GetObjectHeight(first + "\n" + rest) == 1 + GetObjectHeight(rest)
  {
    assert first + "\n" + rest == first + ['\n'] + rest;
    SplitAtSeparator(first, '\n', rest);
    SplitWithoutSeparator(first, '\n');
  }

  /// The source's tests: "1234" and "1234\n1234" are equally wide, and one
  /// and two lines high.
  lemma ObjectSizes()
    ensures GetObjectWidth("1234\n1234") == GetObjectWidth("1234")
    ensures GetObjectHeight("1234") == 1 && GetObjectHeight("1234\n1234") == 2
  {
    assert "1234\n1234" == "1234" + "\n" + "1234";
    LaterLines("1234", "1234");
  }

  /// `Object`: a named shape at a position on the old screen.
  datatype Object = Object(
    name: string,
    number: nat,
    width: nat,
    height: nat,
    objectShape: string,
    position: Coordinates)

  /// `Object::create`: number zero, size from the shape, the rest from the
  /// information. The screen it is given is not used.
  function Create(info: ObjectInformation): (o: Object)
    ensures o.number == 0 && o.height >= 1
    ensures o.name == info.name && o.objectShape == info.objectShape && o.position == info.position
    ensures o.width == GetObjectWidth(info.objectShape) && o.height == GetObjectHeight(info.objectShape)
  {
    Object(info.name, 0, GetObjectWidth(info.objectShape), GetObjectHeight(info.objectShape),
           info.objectShape, info.position)
  }

  /// `get_bottom_right_of_object`. The sums are `usize`, so an object at
  /// column (row) zero with no width (height) underflows and panics; the
  /// source's callers must not ask. The rectangle from the position to the
  /// result, corners included, is the object's width by its height.
  function GetBottomRightOfObject(o: Object): (r: Coordinates)
    requires o.position.0 + o.width >= 1 && o.position.1 + o.height >= 1
    ensures o.width > 0 ==> r.0 >= o.position.0 && r.0 - o.position.0 + 1 == o.width
    ensures o.height > 0 ==> r.1 >= o.position.1 && r.1 - o.position.1 + 1 == o.height
    ensures o.width > 0 && o.height > 0 ==>
      (r.0 - o.position.0 + 1) * (r.1 - o.position.1 + 1) == o.width * o.height
  {
    (o.position.0 + o.width - 1, o.position.1 + o.height - 1)
  }
}
