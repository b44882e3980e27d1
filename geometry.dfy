/** The spacing helper of the geometry utilities: evenly spaced reals. */
module Geometry {

  /** The gap between neighbouring values of Linspace(start, stop, num). */
  function Step(start: real, stop: real, num: int): real
    requires num > 1
  {
    (stop - start) / (num - 1) as real
  }

  /** `num` evenly spaced values from `start` to `stop`, both included; for
      `num` at most 1 (zero and negative counts too) the single midpoint. */
  function Linspace(start: real, stop: real, num: int): (r: seq<real>)
    // one value for degenerate counts, exactly num values otherwise
    ensures |r| == if num <= 1 then 1 else num
    // a degenerate count yields the point halfway between the two ends
    ensures num <= 1 ==> r[0] - start == stop - r[0]
    // both ends are included
    ensures num > 1 ==> r[0] == start && r[|r| - 1] == stop
    // neighbouring values are one step apart
    ensures num > 1 ==> forall i :: 0 <= i < |r| - 1 ==> r[i + 1] - r[i] == Step(start, stop, num)
  {
    if num <= 1 then [(start + stop) / 2.0]
    else
      var step := Step(start, stop, num);
      LastIsStop(start, stop, num);
      SpacedNeighbours(start, step, num);
      Spaced(start, step, num)
  }

  /** n values starting at `start`, value i being start + i * step. */
  function Spaced(start: real, step: real, n: nat): (r: seq<real>)
    ensures |r| == n
    ensures forall i :: 0 <= i < n ==> r[i] == start + i as real * step
  {
    seq(n, i requires 0 <= i < n => start + i as real * step)
  }

  lemma SpacedNeighbours(start: real, step: real, n: nat)
    ensures forall i :: 0 <= i < n - 1 ==> Spaced(start, step, n)[i + 1] - Spaced(start, step, n)[i] == step
  {
    var r := Spaced(start, step, n);
    forall i | 0 <= i < n - 1
      ensures r[i + 1] - r[i] == step
    {
      assert (i + 1) as real * step == i as real * step + step;
    }
  }

  lemma LastIsStop(start: real, stop: real, num: int)
    requires num > 1
    ensures start + (num - 1) as real * Step(start, stop, num) == stop
  {
    var d := (num - 1) as real;
    assert d * ((stop - start) / d) == stop - start;
  }

  /** Equal ends give a constant sequence. */
  lemma LinspaceConstant(start: real, num: int)
    ensures forall i :: 0 <= i < |Linspace(start, start, num)| ==> Linspace(start, start, num)[i] == start
  {
    if num > 1 {
      assert Step(start, start, num) == 0.0;
    }
  }
}
