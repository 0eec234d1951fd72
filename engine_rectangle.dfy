// engine_math/src/rectangle.rs: a width/height pair, the validity of an index
// inside it, and the rectangular-string test used by sprites and hitboxes.
module EngineRectangle {
  import opened Wrappers
  import opened Text
  import Arith

  /// `Rectangle { x, y }`: x is the width and y the height.
  datatype Rectangle = Rectangle(x: nat, y: nat)

  /// `Rectangle::default()`.
  const DefaultRectangle := Rectangle(0, 0)

  /// `Rectangle::new`.
  function New(x: nat, y: nat): (r: Rectangle)
    ensures r.x == x && r.y == y
  {
    Rectangle(x, y)
  }

  /// `From<(u16, u16)>`: both components are widened unchanged.
  function FromU16Pair(value: (nat, nat)): (r: Rectangle)
    requires value.0 < 0x1_0000 && value.1 < 0x1_0000
    ensures r.x == value.0 && r.y == value.1
  {
    Rectangle(value.0, value.1)
  }

  /// `area`: written as the SUM of the two sides.
  function Area(r: Rectangle): (a: nat)
    ensures a == r.x + r.y
  {
    r.x + r.y
  }

  /// `index_is_valid`.
  predicate IndexIsValid(r: Rectangle, index: nat)
  {
    Area(r) > index || (Area(r) == 0 && index == 0)
  }

  /// The rectangular-dimensions rule of the screen printer (its source is not
  /// part of this model); it is stood in for by the rule visible in the older
  /// hitbox check: the `'\n'`-separated rows of a non-empty string must all
  /// have the character count of the first row, and then the dimensions are
  /// (that count, the number of rows).
  function RectangularDimensions(shape: string): (r: Option<(nat, nat)>)
    ensures r.Some? <==> shape != [] && RowsHaveEqualLength(Split(shape, '\n'))
    ensures r.Some? ==> r.value == (|Split(shape, '\n')[0]|, |Split(shape, '\n')|)
  {
    var rows := Split(shape, '\n');
    if shape != [] && RowsHaveEqualLength(rows) then Some((|rows[0]|, |rows|)) else None
  }

  predicate RowsHaveEqualLength(rows: seq<string>)
    requires |rows| >= 1
  {
    forall i :: 0 <= i < |rows| ==> |rows[i]| == |rows[0]|
  }

  /// `get_string_dimensions`.
  function GetStringDimensions(shape: string): (r: Option<Rectangle>)
    ensures r.None? <==> RectangularDimensions(shape).None?
    ensures r.Some? ==> (r.value.x, r.value.y) == RectangularDimensions(shape).value
  {
    match RectangularDimensions(shape)
    case None => None
    case Some((w, h)) => Some(New(w, h))
  }

  /// `string_is_valid_rectangle`.
  predicate StringIsValidRectangle(shape: string)
  {
    GetStringDimensions(shape).Some?
  }

  /// A valid rectangle string is exactly a non-empty string whose rows all
  /// have the same length.
  lemma ValidRectangleIff(shape: string)
    ensures StringIsValidRectangle(shape)
        <==> shape != [] && RowsHaveEqualLength(Split(shape, '\n'))
  {
  }

  /// The dimensions multiply out to the number of non-newline characters.
  lemma {:induction false} DimensionsCoverShape(shape: string)
    requires StringIsValidRectangle(shape)
    ensures GetStringDimensions(shape).value.x * GetStringDimensions(shape).value.y
            == |Remove(shape, '\n')|
  {
    var rows := Split(shape, '\n');
    RowsLengths(shape, '\n', |rows[0]|);
  }

  /// If every piece of `split(sep)` has length w, removing `sep` leaves
  /// w characters per piece.
  lemma {:induction false} RowsLengths(s: string, sep: char, w: nat)
    requires forall i :: 0 <= i < |Split(s, sep)| ==> |Split(s, sep)[i]| == w
    ensures |Remove(s, sep)| == w * |Split(s, sep)|
  {
    RemoveSplitLength(s, sep);
    PieceLengthsSum(Split(s, sep), w);
  }

  function SumLengths(pieces: seq<string>): nat
  {
    if pieces == [] then 0 else |pieces[0]| + SumLengths(pieces[1..])
  }

  lemma {:induction false} PieceLengthsSum(pieces: seq<string>, w: nat)
    requires forall i :: 0 <= i < |pieces| ==> |pieces[i]| == w
    ensures SumLengths(pieces) == w * |pieces|
  {
    if pieces != [] {
      PieceLengthsSum(pieces[1..], w);
      assert w * |pieces| == w * |pieces[1..]| + w;
    }
  }

  lemma {:induction false} RemoveSplitLength(s: string, sep: char)
    ensures |Remove(s, sep)| == SumLengths(Split(s, sep))
  {
    if s != [] {
      RemoveSplitLength(s[1..], sep);
      var rest := Split(s[1..], sep);
      if s[0] != sep {
        assert SumLengths([[s[0]] + rest[0]] + rest[1..]) == 1 + |rest[0]| + SumLengths(rest[1..]);
        assert SumLengths(rest) == |rest[0]| + SumLengths(rest[1..]);
      } else {
        assert SumLengths([[]] + rest) == SumLengths(rest);
      }
    }
  }

  /// The unit tests: a 2x2 rectangle accepts 3 and 0 and rejects 4; the
  /// default rectangle accepts 0.
  lemma TestValues()
    ensures IndexIsValid(FromU16Pair((2, 2)), 3)
    ensures !IndexIsValid(FromU16Pair((2, 2)), 4)
    ensures IndexIsValid(FromU16Pair((2, 2)), 0)
    ensures IndexIsValid(DefaultRectangle, 0)
  {
  }

  /// Because the area is a sum, valid indices stop at x + y - 1: on a 3x3
  /// rectangle the last cell, index 8, is rejected although index 5 is not.
  lemma SumAreaOnThreeByThree()
    ensures IndexIsValid(Rectangle(3, 3), 5)
    ensures !IndexIsValid(Rectangle(3, 3), 6) && !IndexIsValid(Rectangle(3, 3), 8)
  {
  }

  /// The valid indices are exactly 0 .. x + y - 1, with 0 also valid on a
  /// zero-sized rectangle.
  lemma IndexIsValidIff(r: Rectangle, index: nat)
    ensures IndexIsValid(r, index) <==> index < r.x + r.y || index == 0
  {
  }

  /// The area the index check is meant to use: the number of cells.
  function CellCount(r: Rectangle): nat
  {
    r.x * r.y
  }

  /// `index_is_valid` with the area taken as the number of cells, as its
  /// documentation ("within the range of the rectangle") intends.
  predicate IndexIsInside(r: Rectangle, index: nat)
  {
    CellCount(r) > index || (CellCount(r) == 0 && index == 0)
  }

  /// An index is inside exactly when it is 0 or its row, `index / x`, is
  /// one of the rectangle's rows.
  lemma {:induction false} IndexIsInsideIff(r: Rectangle, index: nat)
    ensures IndexIsInside(r, index) <==> index == 0 || (r.x > 0 && index / r.x < r.y)
  {
    if r.x > 0 {
      if index < r.y * r.x {
        Arith.DivBound(index, r.y, r.x);
      }
      if index / r.x < r.y {
        var q := index / r.x;
        Arith.MulPred(q + 1, r.x);
        Arith.MulLe(q + 1, r.y, r.x);
        assert index < r.y * r.x;
      }
    }
  }

  /// Every cell of the rectangle, column `column` of row `row`, has an
  /// index that is inside.
  lemma CellIsInside(r: Rectangle, column: nat, row: nat)
    requires column < r.x && row < r.y
    ensures IndexIsInside(r, row * r.x + column)
  {
    Arith.MulPred(row + 1, r.x);
    Arith.MulLe(row + 1, r.y, r.x);
  }

  /// The corrected check agrees with the unit tests and accepts the last
  /// cell of a 3x3 rectangle, index 8, but not index 9.
  lemma CellCountOnThreeByThree()
    ensures IndexIsInside(FromU16Pair((2, 2)), 3) && !IndexIsInside(FromU16Pair((2, 2)), 4)
    ensures IndexIsInside(FromU16Pair((2, 2)), 0) && IndexIsInside(DefaultRectangle, 0)
    ensures IndexIsInside(Rectangle(3, 3), 8) && !IndexIsInside(Rectangle(3, 3), 9)
  {
  }
}
