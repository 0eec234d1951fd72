// Small facts about multiplication, division and remainder that the grid
// arithmetic needs, built up from distributivity so that the solver's
// non-linear reasoning is never asked for more than one step.
module Arith {
  lemma MulSucc(w: nat, a: nat)
    ensures w * (a + 1) == w * a + w
  {
  }

  lemma MulPred(a: nat, w: nat)
    requires a > 0
    ensures a * w == (a - 1) * w + w
  {
  }

  lemma {:induction false} MulLe(a: nat, b: nat, w: nat)
    requires a <= b
    ensures a * w <= b * w
    decreases b - a
  {
    if a < b {
      MulLe(a, b - 1, w);
      MulPred(b, w);
    }
  }

  /// A position below `n` rows of `w` lies in one of those rows.
  lemma DivBound(i: nat, n: nat, w: nat)
    requires w > 0 && i < n * w
    ensures i / w < n
    ensures i == (i / w) * w + i % w
  {
    if i / w >= n {
      MulLe(n, i / w, w);
      assert false;
    }
  }

  lemma {:induction false} MulMono(w: nat, a: nat, b: nat)
    requires a < b
    ensures w * b >= w * a + w
    decreases b - a
  {
    MulSucc(w, a);
    if a + 1 < b {
      MulMono(w, a + 1, b);
    }
  }

  /// Division and remainder by a positive divisor are determined by the
  /// quotient/remainder decomposition.
  lemma DivModUnique(i: nat, width: nat, q: nat, r: nat)
    requires 0 <= r < width
    requires i == r + width * q
    ensures i / width == q && i % width == r
  {
    var q', r' := i / width, i % width;
    assert i == r' + width * q';
    if q' < q {
      MulMono(width, q', q);
      assert false;
    } else if q < q' {
      MulMono(width, q, q');
      assert false;
    }
  }
}
