/** The equal-power mixer with independent positions and lengths for the two sides. */
module Mixer {
  import opened Audio

  // Row i of a buffer that may be missing; a missing buffer is silence.
  ghost function Row(a: array2?<Sample>, i: nat, c: nat): Sample
    reads a
  {
    if a != null && i < a.Length0 && c < a.Length1 then a[i, c] else 0
  }

  // Sample c of output row i of a mix.
  ghost function MixedAt(g: Gains, a: array2?<Sample>, b: array2?<Sample>, i: nat, c: nat,
                         kA0: nat, nA: nat, kB0: nat, nB: nat): Sample
    reads a, b
  {
    Mixed(Row(a, i, c), g.down(Hold(kA0 + i, nA), RampLength(nA)),
          Row(b, i, c), g.up(Hold(kB0 + i, nB), RampLength(nB)))
  }

  // Mixes 'frames' rows into rows [off, off + frames) of out. Each side has its own position and its own
  // length, and a position past the end of its ramp holds the end gain.
  method MixEqualPowerSplit(g: Gains, a: array2?<Sample>, b: array2?<Sample>, out: array2<Sample>, off: nat,
                            frames: nat, kA0: nat, nA0: nat, kB0: nat, nB0: nat)
    requires out != a && out != b && off + frames <= out.Length0
    requires a != null ==> frames <= a.Length0 && a.Length1 == out.Length1
    requires b != null ==> frames <= b.Length0 && b.Length1 == out.Length1
    modifies out
    ensures forall i, c | 0 <= i < out.Length0 && 0 <= c < out.Length1 ::
      out[i, c] ==
        if off <= i < off + frames then MixedAt(g, a, b, i - off, c, kA0, nA0, kB0, nB0) else old(out[i, c])
  {
    var nA := if nA0 == 0 then 1 else nA0;
    var nB := if nB0 == 0 then 1 else nB0;
    for i := 0 to frames
      invariant forall j, c | 0 <= j < out.Length0 && 0 <= c < out.Length1 ::
        out[j, c] ==
          if off <= j < off + i then MixedAt(g, a, b, j - off, c, kA0, nA0, kB0, nB0) else old(out[j, c])
    {
      var kA := if kA0 + i < nA then kA0 + i else nA - 1;
      var kB := if kB0 + i < nB then kB0 + i else nB - 1;
      MixRow(a, b, i, g.down(kA, nA), g.up(kB, nB), out, off + i);
    }
  }

  // Mixes row i of either side, at its gain, into a row of out.
  method MixRow(a: array2?<Sample>, b: array2?<Sample>, i: nat, ga: real, gb: real, out: array2<Sample>, row: nat)
    requires out != a && out != b && row < out.Length0
    requires a != null ==> i < a.Length0 && a.Length1 == out.Length1
    requires b != null ==> i < b.Length0 && b.Length1 == out.Length1
    modifies out
    ensures forall j, c | 0 <= j < out.Length0 && 0 <= c < out.Length1 ::
      out[j, c] == if j == row then Mixed(Row(a, i, c), ga, Row(b, i, c), gb) else old(out[j, c])
  {
    for c := 0 to out.Length1
      invariant forall j, d | 0 <= j < out.Length0 && 0 <= d < out.Length1 ::
        out[j, d] == if j == row && d < c then Mixed(Row(a, i, d), ga, Row(b, i, d), gb) else old(out[j, d])
    {
      var s := MixOne(if a != null then a[i, c] else 0, ga, if b != null then b[i, c] else 0, gb,
                      a != null, b != null);
      out[row, c] := s;
    }
  }

  // The weighted sum. A missing side adds nothing.
  method Sum(x: Sample, ga: real, y: Sample, gb: real, hasX: bool, hasY: bool) returns (v: real)
    requires hasX || x == 0
    requires hasY || y == 0
    ensures v == x as real * ga + y as real * gb
  {
    v := (if hasX then x as real * ga else 0.0) + (if hasY then y as real * gb else 0.0);
    assert x == 0 ==> x as real * ga == 0.0;
    assert y == 0 ==> y as real * gb == 0.0;
  }

  // One sample: that sum, rounded, then clamped to 16 bits.
  method MixOne(x: Sample, ga: real, y: Sample, gb: real, hasX: bool, hasY: bool) returns (r: Sample)
    requires hasX || x == 0
    requires hasY || y == 0
    ensures r == Mixed(x, ga, y, gb)
    ensures Nearest(r, x as real * ga + y as real * gb)
  {
    var v := Sum(x, ga, y, gb, hasX, hasY);
    var s := Lround(v);
    if s > 32767 { s := 32767; }
    if s < -32768 { s := -32768; }
    r := s;
    RoundsToNearest(v);
  }

  // A side that is absent mixes like a side that is all zero.
  lemma MissingIsSilent(x: Sample, ga: real, y: Sample, gb: real)
    ensures x == 0 ==> Mixed(x, ga, y, gb) == Alone(y, gb)
    ensures y == 0 ==> Mixed(x, ga, y, gb) == Alone(x, ga)
  {
    assert x == 0 ==> x as real * ga == 0.0;
    assert y == 0 ==> y as real * gb == 0.0;
  }
}
