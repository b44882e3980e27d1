/** Row-major numbering: cell (i, j) of a grid `width` cells wide is number
    RowStart(width, i) + j. RowStart is defined by repeated addition so that
    the loops and lemmas using it stay within linear arithmetic; the one
    multiplication fact is RowStartIsProduct. */
module Arith {

  /** The number of the first cell of row i. */
  function RowStart(width: nat, i: nat): nat
  {
    if i == 0 then 0 else RowStart(width, i - 1) + width
  }

  /** The number of cell (i, j). */
  function Cell(width: nat, i: nat, j: nat): nat
  {
    RowStart(width, i) + j
  }

  lemma {:induction false} RowStartIsProduct(width: nat, i: nat)
    ensures RowStart(width, i) == i * width
  {
    if i > 0 {
      RowStartIsProduct(width, i - 1);
      assert (i - 1) * width + width == i * width;
    }
  }

  /** A grid has cells exactly when it has both rows and columns. */
  lemma {:induction false} RowStartPositive(width: nat, i: nat)
    ensures RowStart(width, i) > 0 <==> width > 0 && i > 0
  {
    if i > 0 {
      RowStartPositive(width, i - 1);
    }
  }

  /** Rows start in increasing order. */
  lemma {:induction false} RowStartMono(width: nat, i: nat, k: nat)
    requires i <= k
    ensures RowStart(width, i) <= RowStart(width, k)
    decreases k - i
  {
    if i < k {
      RowStartMono(width, i, k - 1);
    }
  }

  /** Cell (i, j) comes before the first cell of any later row. */
  lemma {:induction false} RowMajorBound(width: nat, i: nat, j: nat, k: nat)
    requires i < k && j < width
    ensures Cell(width, i, j) < RowStart(width, k)
  {
    RowStartMono(width, i + 1, k);
  }

  /** A geographic length d in model millimetres. */
  function Stretch(scale: real, d: real): real
  {
    scale * d
  }

  /** Scaling by a / d stretches a length d to a. */
  lemma ScaleSpan(a: real, d: real)
    requires d != 0.0
    ensures Stretch(a / d, d) == a
  {
  }

  /** A positive width over a positive span gives a positive scale. */
  lemma PositiveScale(a: real, d: real)
    requires d > 0.0
    ensures a > 0.0 ==> a / d > 0.0
  {
  }

  /** A longer length stays longer once scaled by a non-negative factor. */
  lemma StretchMono(scale: real, a: real, b: real)
    requires scale >= 0.0 && a <= b
    ensures Stretch(scale, a) <= Stretch(scale, b)
  {
    assert Stretch(scale, b) - Stretch(scale, a) == scale * (b - a);
  }

  lemma StretchZero(scale: real)
    ensures Stretch(scale, 0.0) == 0.0
  {
  }

  lemma NonNegativeProduct(a: real, b: real)
    requires a >= 0.0 && b >= 0.0
    ensures a * b >= 0.0
  {
  }
}
