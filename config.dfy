// The engine-wide configuration values that the modelled code reads, fixed at
// their defaults (model_data_structures/src/config_builder.rs).
module Config {
  /// Number of cells in one row of the frame.
  const GridWidth: nat := 175
  /// Number of rows in the frame.
  const GridHeight: nat := 40
  /// The character a frame cell shows when nothing is painted over it.
  const EmptyPixel: char := ' '
  /// Distance between two vertically adjacent cells of a frame string: each
  /// row is followed by a `'\n'`.
  const RowStride: nat := GridWidth + 1
  /// The highest strata a model or object may sit on (strata run 0..=100).
  const MaxStrata: nat := 100

  /// Strata::correct_range: the documented range 0 to 100.
  function CorrectStrataRange(strata: int): (r: bool)
    ensures r <==> 0 <= strata <= 100
  {
    0 <= strata <= MaxStrata
  }

  const U32Limit: nat := 0x1_0000_0000
  const U64Limit: nat := 0x1_0000_0000_0000_0000
  /// isize::MAX + 1 on a 64-bit target.
  const ISizeLimit: nat := 0x8000_0000_0000_0000
}
