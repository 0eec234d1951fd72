// src/general_data/coordinates.rs: the older engine's coordinate helpers.
// Its `index_to_coordinates`, `coordinates_to_index`, `add` and `subtract`
// are the formulas of engine_coordinates.dfy; what it adds is the walk over
// every cell of a rectangle.
module GeneralCoordinates {
  import Arith

  /// (x, y)
  type Coordinates = (nat, nat)

  /// The cell visited in step `k` of a row-major walk over a rectangle
  /// `width` columns wide whose top left corner is `topLeft`.
  function WalkPosition(topLeft: Coordinates, width: nat, k: nat): Coordinates
    requires width > 0
  {
    (topLeft.0 + k % width, topLeft.1 + k / width)
  }

  /// One step of the walk: the column grows by one, or wraps to the next row.
  lemma StepAcrossRow(k: nat, width: nat)
    requires width > 0
    ensures k % width == width - 1 ==> (k + 1) % width == 0 && (k + 1) / width == k / width + 1
    ensures k % width < width - 1 ==> (k + 1) % width == k % width + 1 && (k + 1) / width == k / width
  {
    if k % width == width - 1 {
      Arith.DivModUnique(k + 1, width, k / width + 1, 0);
    } else {
      Arith.DivModUnique(k + 1, width, k / width, k % width + 1);
    }
  }

  /// The last step of a walk over `width * height` cells is the bottom
  /// right corner, and no earlier step is.
  lemma {:induction false} LastStep(k: nat, width: nat, height: nat)
    requires width > 0 && height > 0 && k < width * height
    ensures (k % width == width - 1 && k / width == height - 1) <==> k == width * height - 1
  {
    Arith.MulSucc(width, height - 1);
    if k == width * height - 1 {
      Arith.DivModUnique(k, width, height - 1, width - 1);
    }
  }

  /// Every step of the walk stays inside the rectangle, and every cell of the
  /// rectangle is visited by exactly the step `(y - top) * width + (x - left)`.
  lemma {:induction false} WalkCovers(topLeft: Coordinates, width: nat, height: nat, c: Coordinates)
    requires width > 0
    ensures forall k :: 0 <= k < width * height ==>
      topLeft.0 <= WalkPosition(topLeft, width, k).0 < topLeft.0 + width &&
      topLeft.1 <= WalkPosition(topLeft, width, k).1 < topLeft.1 + height
    ensures topLeft.0 <= c.0 < topLeft.0 + width && topLeft.1 <= c.1 < topLeft.1 + height ==>
      var k := (c.1 - topLeft.1) * width + (c.0 - topLeft.0);
      k < width * height && WalkPosition(topLeft, width, k) == c
  {
    forall k | 0 <= k < width * height
      ensures topLeft.0 <= WalkPosition(topLeft, width, k).0 < topLeft.0 + width
      ensures topLeft.1 <= WalkPosition(topLeft, width, k).1 < topLeft.1 + height
    {
      WalkStepInside(topLeft, width, height, k);
    }
    if topLeft.0 <= c.0 < topLeft.0 + width && topLeft.1 <= c.1 < topLeft.1 + height {
      var k := WalkStepOf(topLeft, width, height, c);
    }
  }

  /// Step `k` of the walk lies inside the rectangle.
  lemma WalkStepInside(topLeft: Coordinates, width: nat, height: nat, k: nat)
    requires width > 0 && k < width * height
    ensures topLeft.0 <= WalkPosition(topLeft, width, k).0 < topLeft.0 + width
    ensures topLeft.1 <= WalkPosition(topLeft, width, k).1 < topLeft.1 + height
  {
    Arith.DivBound(k, height, width);
  }

  /// The step `k` that visits cell `c` of the rectangle.
  lemma WalkStepOf(topLeft: Coordinates, width: nat, height: nat, c: Coordinates) returns (k: nat)
    requires width > 0
    requires topLeft.0 <= c.0 < topLeft.0 + width && topLeft.1 <= c.1 < topLeft.1 + height
    ensures k == (c.1 - topLeft.1) * width + (c.0 - topLeft.0)
    ensures k < width * height && WalkPosition(topLeft, width, k) == c
  {
    var row, column := c.1 - topLeft.1, c.0 - topLeft.0;
    k := row * width + column;
    Arith.DivModUnique(k, width, row, column);
    Arith.MulLe(row + 1, height, width);
    Arith.MulPred(row + 1, width);
  }

  /// `get_coordinates_in_between`: every cell from `topLeft` to `bottomRight`
  /// row by row, both corners included. The walk only ends on
  /// `bottomRight`, so the source loops forever unless that corner lies
  /// right of and below `topLeft`.
  method GetCoordinatesInBetween(topLeft: Coordinates, bottomRight: Coordinates) returns (r: seq<Coordinates>)
    requires topLeft.0 <= bottomRight.0 && topLeft.1 <= bottomRight.1
    ensures |r| == (bottomRight.0 - topLeft.0 + 1) * (bottomRight.1 - topLeft.1 + 1)
    ensures forall k :: 0 <= k < |r| ==> r[k] == WalkPosition(topLeft, bottomRight.0 - topLeft.0 + 1, k)
    ensures r[0] == topLeft && r[|r| - 1] == bottomRight
  {
    var width, height := bottomRight.0 - topLeft.0 + 1, bottomRight.1 - topLeft.1 + 1;
    Arith.MulMono(width, 0, height);
    var current := topLeft;
    r := [current];
    ghost var k := 0;
    while current != bottomRight
      invariant k < width * height
      invariant current == WalkPosition(topLeft, width, k)
      invariant |r| == k + 1
      invariant forall j :: 0 <= j < |r| ==> r[j] == WalkPosition(topLeft, width, j)
      decreases width * height - k
    {
      LastStep(k, width, height);
      StepAcrossRow(k, width);
      if current.0 == bottomRight.0 {
        current := (topLeft.0, current.1 + 1);
      } else {
        current := (current.0 + 1, current.1);
      }
      k := k + 1;
      r := r + [current];
    }
    LastStep(k, width, height);
  }

  /// The walk lists exactly the cells of the rectangle.
  lemma InBetweenIsTheRectangle(topLeft: Coordinates, bottomRight: Coordinates, r: seq<Coordinates>, c: Coordinates)
    requires topLeft.0 <= bottomRight.0 && topLeft.1 <= bottomRight.1
    requires |r| == (bottomRight.0 - topLeft.0 + 1) * (bottomRight.1 - topLeft.1 + 1)
    requires forall k :: 0 <= k < |r| ==> r[k] == WalkPosition(topLeft, bottomRight.0 - topLeft.0 + 1, k)
    ensures c in r <==> topLeft.0 <= c.0 <= bottomRight.0 && topLeft.1 <= c.1 <= bottomRight.1
  {
    var width, height := bottomRight.0 - topLeft.0 + 1, bottomRight.1 - topLeft.1 + 1;
    WalkCovers(topLeft, width, height, c);
    if topLeft.0 <= c.0 <= bottomRight.0 && topLeft.1 <= c.1 <= bottomRight.1 {
      assert r[(c.1 - topLeft.1) * width + (c.0 - topLeft.0)] == c;
    }
  }

  /// A 2 by 2 square from (1, 1) is walked row by row.
  method SquareWalk() returns (r: seq<Coordinates>)
    ensures r == [(1, 1), (2, 1), (1, 2), (2, 2)]
  {
    r := GetCoordinatesInBetween((1, 1), (2, 2));
    assert r[1] == WalkPosition((1, 1), 2, 1);
    assert r[2] == WalkPosition((1, 1), 2, 2);
    assert r[3] == WalkPosition((1, 1), 2, 3);
  }
}

// src/general_data/Coordinates.rs: index conversions for the fixed grid
// width of the old screen.
module FixedWidthCoordinates {
  import opened OldScreenConstants
  import Arith

  type Coordinates = (nat, nat)

  /// `coordinates_to_index`: column plus `GRID_WIDTH` times row.
  function CoordinatesToIndex(c: Coordinates): (i: nat)
    ensures c.0 < GridWidth ==> i % GridWidth == c.0 && i / GridWidth == c.1
  {
    if c.0 < GridWidth then Arith.DivModUnique(c.0 + GridWidth * c.1, GridWidth, c.1, c.0); c.0 + GridWidth * c.1
    else c.0 + GridWidth * c.1
  }

  /// `index_to_coordinates` as written: it returns the row first and the
  /// column second, the reverse of what `coordinates_to_index` reads.
  function IndexToCoordinatesAsWritten(index: nat): (c: Coordinates)
    ensures c.1 < GridWidth && c.1 + GridWidth * c.0 == index
  {
    (index / GridWidth, index % GridWidth)
  }

  /// Index 1 is cell (1, 0), but the as-written conversion gives (0, 1),
  /// which `coordinates_to_index` maps to 175.
  lemma AsWrittenDoesNotRoundTrip()
    ensures IndexToCoordinatesAsWritten(1) == (0, 1)
    ensures CoordinatesToIndex(IndexToCoordinatesAsWritten(1)) == 175
  {
  }

  /// In general the as-written pair maps index `i` to `i / GRID_WIDTH +
  /// GRID_WIDTH * (i % GRID_WIDTH)`, which is `i` only when the row and the
  /// column of `i` are equal.
  lemma AsWrittenComposition(i: nat)
    ensures CoordinatesToIndex(IndexToCoordinatesAsWritten(i)) == i / GridWidth + GridWidth * (i % GridWidth)
    ensures CoordinatesToIndex(IndexToCoordinatesAsWritten(i)) == i <==> i / GridWidth == i % GridWidth
  {
    var q, r := i / GridWidth, i % GridWidth;
    assert i == r + GridWidth * q;
  }

  /// `index_to_coordinates` with the components in the order that
  /// `coordinates_to_index` and the rest of the engine use: (x, y).
  function IndexToCoordinates(index: nat): (c: Coordinates)
    ensures c.0 < GridWidth
    ensures CoordinatesToIndex(c) == index
  {
    (index % GridWidth, index / GridWidth)
  }

  /// The corrected conversion is the inverse of `coordinates_to_index` on
  /// every cell of the grid's width.
  lemma CoordinatesRoundTrip(c: Coordinates)
    requires c.0 < GridWidth
    ensures IndexToCoordinates(CoordinatesToIndex(c)) == c
  {
  }
}
