// src/screen/screen_data.rs: the grid size and empty-cell text of the old
// screen.
module OldScreenConstants {
  const GridWidth: nat := 175
  const GridHeight: nat := 40

  /// What a cell with nothing in it shows.
  const EmptyPixel: string := "O"

  /// Each displayed row is followed by a newline.
  const TextStride: nat := GridWidth + 1
}

// src/screen/screen_data.rs: the old screen, a grid of pixels each holding
// the text it shows and the names of the objects inside it. The update
// channel and the object table are not part of this model.
module ScreenData {
  import opened OldScreenConstants
  import FixedWidthCoordinates
  import Arith
  import opened Text

  class Pixel {
    var displayAs: string
    var objectsWithin: seq<string>

    /// `Pixel::new`: shows the empty cell and holds no objects.
    constructor New()
      ensures displayAs == EmptyPixel && objectsWithin == []
    {
      displayAs := EmptyPixel;
      objectsWithin := [];
    }

    /// `change_display_to`: only the shown text changes.
    method ChangeDisplayTo(changeTo: string)
      modifies this
      ensures displayAs == changeTo && objectsWithin == old(objectsWithin)
    {
      displayAs := changeTo;
    }

    /// `insert_object`: the name is appended; the shown text is kept.
    method InsertObject(name: string)
      modifies this
      ensures objectsWithin == old(objectsWithin) + [name] && displayAs == old(displayAs)
    {
      objectsWithin := objectsWithin + [name];
    }
  }

  /// Chunks of `width` texts, each joined and followed by a newline; the
  /// last chunk may be shorter.
  function Rows(ds: seq<string>, width: nat): string
    requires width > 0
    decreases |ds|
  {
    if |ds| == 0 then ""
    else
      var n := if |ds| < width then |ds| else width;
      Concat(ds[..n]) + "\n" + Rows(ds[n..], width)
  }

  /// One-character texts concatenate to the string of those characters.
  lemma {:induction false} ConcatOfSingles(ds: seq<string>)
    requires forall i :: 0 <= i < |ds| ==> |ds[i]| == 1
    ensures |Concat(ds)| == |ds|
    ensures forall i :: 0 <= i < |ds| ==> Concat(ds)[i] == ds[i][0]
  {
    if |ds| > 0 {
      ConcatOfSingles(ds[1..]);
    }
  }

  /// The rows of a full grid of one-character texts are `width + 1`
  /// characters each.
  lemma {:induction false} RowsLength(ds: seq<string>, width: nat, height: nat)
    requires width > 0 && |ds| == width * height
    requires forall i :: 0 <= i < |ds| ==> |ds[i]| == 1
    ensures |Rows(ds, width)| == height * (width + 1)
    decreases height
  {
    if height > 0 {
      Arith.MulSucc(width, height - 1);
      Arith.MulSucc(width + 1, height - 1);
      Arith.MulMono(width, 0, height);
      RowsLength(ds[width..], width, height - 1);
      ConcatOfSingles(ds[..width]);
    }
  }

  /// Where column `column` of row `row` sits in text whose rows are
  /// `stride` characters apart: `row * stride + column`.
  function Offset(row: nat, column: nat, stride: nat): nat
  {
    if row == 0 then column else stride + Offset(row - 1, column, stride)
  }

  /// The offset is `row * stride + column`.
  lemma {:induction false} OffsetIsProduct(row: nat, column: nat, stride: nat)
    ensures Offset(row, column, stride) == row * stride + column
  {
    if row > 0 {
      Arith.MulSucc(stride, row - 1);
      OffsetIsProduct(row - 1, column, stride);
    }
  }

  lemma RowsUnfold(ds: seq<string>, width: nat)
    requires width > 0 && |ds| >= width
    ensures Rows(ds, width) == Concat(ds[..width]) + "\n" + Rows(ds[width..], width)
  {
  }

  /// The first text row: the first `width` cell texts, then the newline.
  lemma RowsAtFirst(ds: seq<string>, width: nat, column: nat)
    requires width > 0 && |ds| >= width
    requires forall i :: 0 <= i < width ==> |ds[i]| == 1
    requires column <= width
    ensures column < |Rows(ds, width)|
    ensures Rows(ds, width)[column] == if column == width then '\n' else ds[column][0]
  {
    RowsUnfold(ds, width);
    ConcatOfSingles(ds[..width]);
  }

  /// A later text row is a row of the text after the first row.
  lemma RowsAtLater(ds: seq<string>, width: nat, k: nat)
    requires width > 0 && |ds| >= width
    requires forall i :: 0 <= i < width ==> |ds[i]| == 1
    requires k < |Rows(ds[width..], width)|
    ensures width + 1 + k < |Rows(ds, width)|
    ensures Rows(ds, width)[width + 1 + k] == Rows(ds[width..], width)[k]
  {
    RowsUnfold(ds, width);
    ConcatOfSingles(ds[..width]);
  }

  /// Column `column` of row `row` in the rows of a full grid of
  /// one-character texts: the newline that ends the row, or the text of
  /// the grid cell in that row and column.
  lemma RowsAt(ds: seq<string>, width: nat, height: nat, row: nat, column: nat)
    requires width > 0 && |ds| == width * height
    requires forall i :: 0 <= i < |ds| ==> |ds[i]| == 1
    requires row < height && column <= width
    ensures Offset(row, column, width + 1) < |Rows(ds, width)|
    ensures column < width ==> Offset(row, column, width) < |ds|
    ensures Rows(ds, width)[Offset(row, column, width + 1)] ==
      if column == width then '\n' else ds[Offset(row, column, width)][0]
  {
    OffsetIsProduct(height, 0, width);
    RowsAtRow(ds, width, height, row, column);
  }

  /// `RowsAt`, by induction on the row, with the grid's size written as an
  /// offset so that no step multiplies.
  lemma {:induction false} RowsAtRow(ds: seq<string>, width: nat, height: nat, row: nat, column: nat)
    requires width > 0 && |ds| == Offset(height, 0, width)
    requires forall i :: 0 <= i < |ds| ==> |ds[i]| == 1
    requires row < height && column <= width
    ensures Offset(row, column, width + 1) < |Rows(ds, width)|
    ensures column < width ==> Offset(row, column, width) < |ds|
    ensures Rows(ds, width)[Offset(row, column, width + 1)] ==
      if column == width then '\n' else ds[Offset(row, column, width)][0]
    decreases row
  {
    if row == 0 {
      RowsAtFirst(ds, width, column);
    } else {
      var rest := ds[width..];
      RowsAtRow(rest, width, height - 1, row - 1, column);
      RowsAtLater(ds, width, Offset(row - 1, column, width + 1));
      if column < width {
        assert ds[Offset(row, column, width)] == rest[Offset(row - 1, column, width)];
      }
    }
  }

  class ScreenData {
    var screen: seq<Pixel>

    /// The grid has one distinct pixel per cell.
    predicate Valid()
      reads this
    {
      |screen| == GridWidth * GridHeight &&
      forall i, j :: 0 <= i < j < |screen| ==> screen[i] != screen[j]
    }

    /// `ScreenData::new`: a grid of fresh, empty pixels.
    constructor New()
      ensures Valid()
      ensures forall i :: 0 <= i < |screen| ==> fresh(screen[i])
      ensures forall i :: 0 <= i < |screen| ==> screen[i].displayAs == EmptyPixel && screen[i].objectsWithin == []
    {
      var grid := GeneratePixelGrid();
      screen := grid;
    }

    /// The text each pixel shows, in grid order.
    function Displays(): (ds: seq<string>)
      reads this, screen
      ensures |ds| == |screen|
      ensures forall i :: 0 <= i < |ds| ==> ds[i] == screen[i].displayAs
    {
      seq(|screen|, i reads this, screen requires 0 <= i < |screen| => screen[i].displayAs)
    }

    /// `display`: rows of `GRID_WIDTH` pixel texts, each row followed by a
    /// newline, the last one included. When every pixel shows one
    /// character, column `column` of text row `row` is the newline that
    /// ends the row or the text of pixel `row * GRID_WIDTH + column`.
    function Display(): (r: string)
      reads this, screen
      ensures Valid() && (forall i :: 0 <= i < |screen| ==> |screen[i].displayAs| == 1) ==>
        |r| == GridHeight * (GridWidth + 1) &&
        forall row: nat, column: nat :: row < GridHeight && column <= GridWidth ==>
          Offset(row, column, TextStride) < |r| &&
          (column < GridWidth ==> Offset(row, column, GridWidth) < |screen|) &&
          r[Offset(row, column, TextStride)] ==
            if column == GridWidth then '\n' else screen[Offset(row, column, GridWidth)].displayAs[0]
    {
      var ds := Displays();
      if Valid() && (forall i :: 0 <= i < |screen| ==> |screen[i].displayAs| == 1) then
        RowsLength(ds, GridWidth, GridHeight);
          forall row: nat, column: nat | row < GridHeight && column <= GridWidth
            ensures Offset(row, column, TextStride) < |Rows(ds, GridWidth)|
            ensures column < GridWidth ==> Offset(row, column, GridWidth) < |ds|
            ensures Rows(ds, GridWidth)[Offset(row, column, TextStride)] ==
              if column == GridWidth then '\n' else ds[Offset(row, column, GridWidth)][0]
          {
            RowsAt(ds, GridWidth, GridHeight, row, column);
          }
        Rows(ds, GridWidth)
      else
        Rows(ds, GridWidth)
    }

    /// `change_pixel_display_at`: only the pixel at the cell's index
    /// changes. An index past the grid panics in the source.
    method ChangePixelDisplayAt(c: FixedWidthCoordinates.Coordinates, changeTo: string)
      requires Valid() && FixedWidthCoordinates.CoordinatesToIndex(c) < |screen|
      modifies screen[FixedWidthCoordinates.CoordinatesToIndex(c)]
      ensures Valid() && screen == old(screen)
      ensures screen[FixedWidthCoordinates.CoordinatesToIndex(c)].displayAs == changeTo
      ensures forall i :: 0 <= i < |screen| ==> screen[i].objectsWithin == old(screen[i].objectsWithin)
      ensures forall i :: 0 <= i < |screen| && i != FixedWidthCoordinates.CoordinatesToIndex(c) ==>
        screen[i].displayAs == old(screen[i].displayAs)
    {
      screen[FixedWidthCoordinates.CoordinatesToIndex(c)].ChangeDisplayTo(changeTo);
    }

    /// `insert_object_at`: only the pixel at the cell's index gains the name.
    method InsertObjectAt(c: FixedWidthCoordinates.Coordinates, name: string)
      requires Valid() && FixedWidthCoordinates.CoordinatesToIndex(c) < |screen|
      modifies screen[FixedWidthCoordinates.CoordinatesToIndex(c)]
      ensures Valid() && screen == old(screen)
      ensures screen[FixedWidthCoordinates.CoordinatesToIndex(c)].objectsWithin ==
        old(screen[FixedWidthCoordinates.CoordinatesToIndex(c)].objectsWithin) + [name]
      ensures forall i :: 0 <= i < |screen| ==> screen[i].displayAs == old(screen[i].displayAs)
      ensures forall i :: 0 <= i < |screen| && i != FixedWidthCoordinates.CoordinatesToIndex(c) ==>
        screen[i].objectsWithin == old(screen[i].objectsWithin)
    {
      screen[FixedWidthCoordinates.CoordinatesToIndex(c)].InsertObject(name);
    }
  }

  /// `generate_pixel_grid`: `GRID_HEIGHT * GRID_WIDTH` separate empty pixels.
  method GeneratePixelGrid() returns (grid: seq<Pixel>)
    ensures |grid| == GridWidth * GridHeight
    ensures forall i :: 0 <= i < |grid| ==> fresh(grid[i])
    ensures forall i, j :: 0 <= i < j < |grid| ==> grid[i] != grid[j]
    ensures forall i :: 0 <= i < |grid| ==> grid[i].displayAs == EmptyPixel && grid[i].objectsWithin == []
  {
    grid := [];
    while |grid| < GridWidth * GridHeight
      invariant |grid| <= GridWidth * GridHeight
      invariant forall i :: 0 <= i < |grid| ==> fresh(grid[i])
      invariant forall i, j :: 0 <= i < j < |grid| ==> grid[i] != grid[j]
      invariant forall i :: 0 <= i < |grid| ==> grid[i].displayAs == EmptyPixel && grid[i].objectsWithin == []
    {
      var p := new Pixel.New();
      grid := grid + [p];
    }
  }

  /// A fresh screen shows `GRID_HEIGHT` rows of `GRID_WIDTH` empty cells,
  /// each row ended by a newline.
  method FreshScreenDisplay() returns (r: string)
    ensures |r| == GridHeight * (GridWidth + 1)
    ensures forall row: nat, column: nat :: row < GridHeight && column <= GridWidth ==>
      Offset(row, column, TextStride) < |r| &&
      r[Offset(row, column, TextStride)] == if column == GridWidth then '\n' else 'O'
  {
    var s := new ScreenData.New();
    assert |EmptyPixel| == 1;
    r := s.Display();
    forall row: nat, column: nat | row < GridHeight && column < GridWidth
      ensures r[Offset(row, column, TextStride)] == 'O'
    {
      assert s.screen[Offset(row, column, GridWidth)].displayAs == EmptyPixel;
    }
  }
}
