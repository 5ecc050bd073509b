/** Samples, frames, gains, and what one mixed output sample is. */
module Audio {
  // A 16-bit sample.
  type Sample = x: int | -32768 <= x <= 32767

  // One interleaved frame: a sample per channel.
  type Frame = seq<Sample>

  // The two gain curves of a ramp, indexed by position and ramp length. The outgoing side follows 'down'
  // and the incoming side follows 'up'; their values play no part in any proof.
  datatype Gains = Gains(down: (nat, nat) -> real, up: (nat, nat) -> real)

  // Rounds to the nearest integer, halves away from zero.
  function Lround(x: real): int {
    if x >= 0.0 then (x + 0.5).Floor else -((0.5 - x).Floor)
  }

  function Clamp16(x: int): Sample {
    if x > 32767 then 32767 else if x < -32768 then -32768 else x
  }

  // One output sample of a fade: outgoing x at gain ga, incoming y at gain gb.
  function Mixed(x: Sample, ga: real, y: Sample, gb: real): Sample {
    Clamp16(Lround(x as real * ga + y as real * gb))
  }

  // One output sample of a fade with only one side: x at gain g.
  function Alone(x: Sample, g: real): Sample {
    Clamp16(Lround(x as real * g))
  }

  // m is the sample nearest to v, a half rounded away from zero, and the nearer end of the range outside it.
  predicate Nearest(m: Sample, v: real) {
    && (v >= 32767.0 ==> m == 32767)
    && (v <= -32768.0 ==> m == -32768)
    && (-32768.0 <= v <= 32767.0 ==> v - 0.5 <= m as real <= v + 0.5)
    && (-32768.0 <= v <= 32767.0 && m as real == v + 0.5 ==> v > 0.0)
    && (-32768.0 <= v <= 32767.0 && m as real == v - 0.5 ==> v < 0.0)
  }

  lemma RoundsToNearest(v: real)
    ensures Nearest(Clamp16(Lround(v)), v)
  {
  }

  lemma MixedIsNearest(x: Sample, ga: real, y: Sample, gb: real)
    ensures Nearest(Mixed(x, ga, y, gb), x as real * ga + y as real * gb)
  {
    RoundsToNearest(x as real * ga + y as real * gb);
  }

  lemma AloneIsNearest(x: Sample, g: real)
    ensures Nearest(Alone(x, g), x as real * g)
  {
    RoundsToNearest(x as real * g);
  }

  // The effective length of a ramp and the effective position on it: a position past the end holds the end.
  function RampLength(n: nat): nat {
    if n == 0 then 1 else n
  }

  function Hold(k: nat, n: nat): nat {
    if k < RampLength(n) then k else RampLength(n) - 1
  }

  // Sample c of absolute frame f of a log; silence outside it.
  function At(log: seq<Frame>, f: nat, c: nat): Sample {
    if f < |log| && c < |log[f]| then log[f][c] else 0
  }

  predicate AllSilent(buf: seq<Frame>) {
    forall i, c | 0 <= i < |buf| && 0 <= c < |buf[i]| :: buf[i][c] == 0
  }

  // Every frame of a buffer has one sample per channel.
  predicate Shaped(buf: seq<Frame>, channels: nat) {
    forall i | 0 <= i < |buf| :: |buf[i]| == channels
  }

  // The frames a two-dimensional sample buffer holds.
  ghost function Contents(a: array2<Sample>): (s: seq<Frame>)
    reads a
    ensures |s| == a.Length0 && Shaped(s, a.Length1)
    ensures forall i, c | 0 <= i < a.Length0 && 0 <= c < a.Length1 :: s[i][c] == a[i, c]
  {
    seq(a.Length0, i requires 0 <= i < a.Length0 reads a =>
      seq(a.Length1, c requires 0 <= c < a.Length1 reads a => a[i, c]))
  }
}
