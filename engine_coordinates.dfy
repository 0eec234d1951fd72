// engine_math/src/coordinates.rs: conversions between a flat index and (x, y)
// coordinates on a grid of a given width, and componentwise arithmetic.
// `usize` values are naturals below 2^64 and `isize` values integers in
// [-2^63, 2^63); the `as` casts between them wrap as Rust's do.
module EngineCoordinates {
  import opened Config
  import Arith

  /// (x, y)
  type Coordinates = (nat, nat)

  predicate IsUsize(n: int)
  {
    0 <= n < U64Limit
  }

  predicate IsIsize(n: int)
  {
    -(ISizeLimit as int) <= n < ISizeLimit
  }

  /// `index_to_coordinates`: the column and row of index `i` on a grid of
  /// `width` columns (a zero width divides by zero in the source).
  function IndexToCoordinates(i: nat, width: nat): (c: Coordinates)
    requires width > 0
    ensures c.0 < width
    ensures c.0 + width * c.1 == i
  {
    (i % width, i / width)
  }

  /// `coordinates_to_index`.
  function CoordinatesToIndex(c: Coordinates, width: nat): (i: nat)
    ensures i >= c.0
    ensures c.1 == 0 ==> i == c.0
  {
    c.0 + width * c.1
  }

  /// `add`: the componentwise sum.
  function Add(a: Coordinates, b: Coordinates): (r: Coordinates)
    ensures r.0 >= a.0 && r.1 >= a.1
  {
    (a.0 + b.0, a.1 + b.1)
  }

  /// A `usize as isize` cast: values of 2^63 and above wrap to negatives.
  function UsizeToIsize(n: nat): (r: int)
    requires IsUsize(n)
    ensures IsIsize(r)
    ensures r == n || r == n - U64Limit as int
  {
    if n < ISizeLimit then n else n - U64Limit as int
  }

  /// An `isize as usize` cast: negatives wrap to 2^64 + n.
  function IsizeToUsize(n: int): (r: nat)
    requires IsIsize(n)
    ensures IsUsize(r)
    ensures r == n || r == n + U64Limit as int
  {
    if n >= 0 then n else n + U64Limit as int
  }

  predicate IsUsizeCoordinates(c: Coordinates)
  {
    IsUsize(c.0) && IsUsize(c.1)
  }

  /// `to_isize`.
  function ToIsize(c: Coordinates): (r: (int, int))
    requires IsUsizeCoordinates(c)
    ensures IsIsize(r.0) && IsIsize(r.1)
  {
    (UsizeToIsize(c.0), UsizeToIsize(c.1))
  }

  /// `from_isize`.
  function FromIsize(p: (int, int)): (c: Coordinates)
    requires IsIsize(p.0) && IsIsize(p.1)
    ensures IsUsizeCoordinates(c)
  {
    (IsizeToUsize(p.0), IsizeToUsize(p.1))
  }

  /// `subtract`: `self - other` componentwise, after casting both to `isize`.
  function Subtract(a: Coordinates, b: Coordinates): (r: (int, int))
    requires IsUsizeCoordinates(a) && IsUsizeCoordinates(b)
    ensures a.0 < ISizeLimit && b.0 < ISizeLimit ==> r.0 == a.0 - b.0
    ensures a.1 < ISizeLimit && b.1 < ISizeLimit ==> r.1 == a.1 - b.1
  {
    (UsizeToIsize(a.0) - UsizeToIsize(b.0), UsizeToIsize(a.1) - UsizeToIsize(b.1))
  }

  /// Index -> coordinates -> index is the identity.
  lemma IndexRoundTrip(i: nat, width: nat)
    requires width > 0
    ensures CoordinatesToIndex(IndexToCoordinates(i, width), width) == i
  {
  }

  /// Coordinates -> index -> coordinates is the identity when the column
  /// lies inside the grid.
  lemma {:induction false} CoordinatesRoundTrip(c: Coordinates, width: nat)
    requires c.0 < width
    ensures IndexToCoordinates(CoordinatesToIndex(c, width), width) == c
  {
    Arith.DivModUnique(CoordinatesToIndex(c, width), width, c.1, c.0);
  }

  /// A column outside the grid does not come back: the round trip needs
  /// `x < width`.
  lemma ColumnOutsideGridDoesNotRoundTrip()
    ensures IndexToCoordinates(CoordinatesToIndex((3, 0), 2), 2) == (1, 1)
  {
  }

  /// `from_isize` undoes `to_isize` for every `usize` pair, wrap-around
  /// included.
  lemma IsizeRoundTrip(c: Coordinates)
    requires IsUsizeCoordinates(c)
    ensures FromIsize(ToIsize(c)) == c
  {
  }

  /// Adding and then subtracting the same offset gives back the start.
  lemma AddThenSubtract(a: Coordinates, b: Coordinates)
    requires IsUsizeCoordinates(a) && IsUsizeCoordinates(b)
    requires a.0 + b.0 < ISizeLimit && a.1 + b.1 < ISizeLimit
    ensures Subtract(Add(a, b), b) == (a.0 as int, a.1 as int)
  {
  }

  /// The unit tests' values: (1, 1) + (1, 1) = (2, 2) and (1, 1) - (1, 1) = (0, 0).
  lemma TestValues()
    ensures Add((1, 1), (1, 1)) == (2, 2)
    ensures Subtract((1, 1), (1, 1)) == (0, 0)
  {
  }
}
