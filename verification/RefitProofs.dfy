/** How the outgoing gain continues when its ramp is re-fitted to a new boundary. */
module RefitProofs {
  import opened Audio
  import opened Renderer

  // --- Multiplying out -----------------------------------------------------------------------------------

  lemma Grow(x: real, a: real, b: real)
    requires x >= 0.0 && a <= b
    ensures x * a <= x * b
  {
  }

  lemma Scaled(x: real, y: real, n: real)
    requires n > 0.0
    ensures x <= y <==> x * n <= y * n
  {
    if x <= y {
      Grow(n, x, y);
    } else {
      assert (x - y) * n > 0.0;
      assert (x - y) * n == x * n - y * n;
    }
  }

  lemma DivideTimes(a: real, b: real)
    requires b > 0.0
    ensures (a / b) * b == a
  {
  }

  lemma PositionTimes(k: nat, n: nat)
    requires n > 0
    ensures Position(k, n) * n as real == k as real + 0.5
  {
    DivideTimes(k as real + 0.5, n as real);
  }

  // Comparing with the middle of step k of an n-step ramp, and with the end of that step.
  lemma ComparePosition(x: real, k: nat, n: nat)
    requires n > 0
    ensures x <= Position(k, n) <==> x * n as real <= k as real + 0.5
    ensures Position(k, n) <= x + 1.0 / n as real <==> k as real - 0.5 <= x * n as real
  {
    var N, step := n as real, 1.0 / n as real;
    PositionTimes(k, n);
    DivideTimes(1.0, N);
    Scaled(x, Position(k, n), N);
    Scaled(Position(k, n), x + step, N);
    assert (x + step) * N == x * N + step * N;
  }

  // --- The length taken ----------------------------------------------------------------------------------

  // The longest ramp that can be taken to end at frame 'at' when r frames are left.
  function LongestRamp(r: nat, at: nat): nat {
    Max(r, if at < 1000000000 then at else 1000000000)
  }

  lemma RemainingInside(k0: nat, nA0: nat)
    requires k0 < nA0
    ensures 0.0 < Remaining(k0, nA0) <= 1.0
    ensures Remaining(k0, nA0) == 1.0 - Position(k0, nA0)
    ensures Remaining(k0, nA0) * nA0 as real == (nA0 - k0) as real - 0.5
  {
    var N := nA0 as real;
    PositionTimes(k0, nA0);
    Scaled(1.0, Position(k0, nA0), N);
    Scaled(Position(k0, nA0), 0.0, N);
    assert (1.0 - Position(k0, nA0)) * N == N - Position(k0, nA0) * N;
  }

  lemma NothingRemains(k0: nat, nA0: nat)
    requires 0 < nA0 <= k0
    ensures Remaining(k0, nA0) == 0.0
  {
    PositionTimes(k0, nA0);
    Scaled(1.0, Position(k0, nA0), nA0 as real);
  }

  // A part of at most 'bound' of a ramp of length x is at most that part of x.
  lemma PartIsShort(left: real, bound: real, x: real, r: real)
    requires 0.0 < left <= bound && r >= 1.0 && x * left == r
    ensures x > 0.0 && r <= x * bound
  {
    if x <= 0.0 {
      Grow(left, x, 0.0);
    }
    Grow(x, left, bound);
  }

  lemma IdealIsLong(left: real, r: nat)
    requires 0.0 < left <= 1.0 && 0 < r
    ensures IdealRamp(left, r) * left == r as real
    ensures IdealRamp(left, r) >= r as real
    ensures left <= 0.000000001 ==> IdealRamp(left, r) >= 1000000000.0
  {
    var x := IdealRamp(left, r);
    DivideTimes(r as real, left);
    PartIsShort(left, 1.0, x, r as real);
    if left <= 0.000000001 {
      PartIsShort(left, 0.000000001, x, r as real);
    }
  }

  // The length taken is the ideal one, rounded, unless that is longer than any that can be taken.
  lemma RampForRounds(left: real, ideal: real, r: nat, at: nat)
    requires 0 < r <= at && r as real <= ideal
    requires left <= 0.000000001 ==> ideal >= 1000000000.0
    ensures RampFor(left, ideal, r, at) ==
      if ideal <= LongestRamp(r, at) as real then Lround(ideal) else LongestRamp(r, at)
  {
  }

  // --- The gain it continues with ------------------------------------------------------------------------

  lemma AtMostHalf(left: real, d: real)
    requires 0.0 < left <= 1.0 && d <= 0.5
    ensures left * d <= 0.5
  {
    Grow(left, d, 0.5);
    assert left * 0.5 <= 0.5;
  }

  // Rounding a length by at most a half moves the relative position of its end by at most half a step.
  lemma RoundedEnd(left: real, x: real, N: real, r: real)
    requires 0.0 < left <= 1.0 && x * left == r && x - 0.5 <= N <= x + 0.5
    ensures (1.0 - left) * N <= N - r + 0.5 <= (1.0 - left) * N + 1.0
  {
    AtMostHalf(left, N - x);
    AtMostHalf(left, x - N);
    assert left * (N - x) == left * N - r;
    assert left * (x - N) == r - left * N;
    assert (1.0 - left) * N == N - left * N;
  }

  lemma UncappedContinues(left: real, x: real, r: nat, nA: nat)
    requires 0.0 < left <= 1.0 && x * left == r as real && 0 < r <= nA && nA == Lround(x)
    ensures 1.0 - left <= Position(nA - r, nA) <= 1.0 - left + 1.0 / nA as real
  {
    RoundedEnd(left, x, nA as real, r as real);
    ComparePosition(1.0 - left, nA - r, nA);
  }

  lemma PartShrinks(left: real, N: real, x: real, r: real)
    requires 0.0 < left && x * left == r && N <= x
    ensures left * N <= r
  {
    Grow(left, N, x);
  }

  // A length no longer than the ideal one never runs ahead by more than a step.
  lemma CappedNeverRunsAhead(left: real, x: real, r: nat, nA: nat)
    requires 0.0 < left && x * left == r as real && 0 < r <= nA && nA as real <= x
    ensures Position(nA - r, nA) <= 1.0 - left + 1.0 / nA as real
  {
    var N := nA as real;
    PartShrinks(left, N, x, r as real);
    assert (1.0 - left) * N == N - left * N;
    ComparePosition(1.0 - left, nA - r, nA);
  }

  lemma TwiceTimes(a: int, b: int)
    ensures (a as real + 0.5) * b as real == ((2 * a + 1) * b) as real / 2.0
  {
    assert ((2 * a + 1) * b) as real == (2.0 * a as real + 1.0) * b as real;
  }

  lemma Expand(a: int, b: int, c: int)
    ensures (2 * a + b) * c == 2 * (a * c) + b * c
  {
  }

  lemma ExpandDifference(a: int, b: int, d: int, c: int)
    ensures (2 * (a - b) + d) * c == 2 * (a * c) - 2 * (b * c) + d * c
  {
    Expand(a - b, d, c);
    assert (a - b) * c == a * c - b * c;
  }

  // Step h of n against a step of an m-step ramp, multiplied out.
  lemma CompareSteps(h: nat, n: nat, k: int, m: nat)
    requires n > 0 && m > 0
    ensures Position(h, n) * m as real <= k as real + 0.5 <==> (2 * h + 1) * m <= (2 * k + 1) * n
    ensures k as real + 0.5 <= Position(h, n) * m as real <==> (2 * k + 1) * n <= (2 * h + 1) * m
  {
    var x, N, M := Position(h, n), n as real, m as real;
    PositionTimes(h, n);
    Scaled(x * M, k as real + 0.5, N);
    Scaled(k as real + 0.5, x * M, N);
    assert (x * M) * N == (x * N) * M;
    TwiceTimes(h, m);
    TwiceTimes(k, n);
  }

  lemma CrossMultiplied(h: int, n: int, r: int, m: int)
    ensures (2 * h + 1) * m <= (2 * (m - r) + 1) * n <==> n * (2 * r - 1) <= m * (2 * (n - h) - 1)
    ensures (2 * (m - r) - 1) * n <= (2 * h + 1) * m <==> m * (2 * (n - h) - 1) <= n * (2 * r + 1)
  {
    Expand(h, 1, m);
    ExpandDifference(m, r, 1, n);
    ExpandDifference(m, r, -1, n);
    ExpandDifference(n, h, -1, m);
    Expand(r, -1, n);
    Expand(r, 1, n);
  }

  // Comparing two positions without division, and comparing with one more step.
  lemma ComparePositions(h: nat, n: nat, r: nat, m: nat)
    requires h < n && 0 < r <= m
    ensures Position(h, n) <= Position(m - r, m) <==> n * (2 * r - 1) <= m * (2 * (n - h) - 1)
  {
    ComparePosition(Position(h, n), m - r, m);
    CompareSteps(h, n, m - r, m);
    CrossMultiplied(h, n, r, m);
  }

  lemma CompareNextStep(h: nat, n: nat, r: nat, m: nat)
    requires h < n && 0 < r <= m
    ensures Position(m - r, m) <= Position(h, n) + 1.0 / m as real <==> m * (2 * (n - h) - 1) <= n * (2 * r + 1)
  {
    ComparePosition(Position(h, n), m - r, m);
    CompareSteps(h, n, m - r - 1, m);
    CrossMultiplied(h, n, r, m);
  }

  // The ramp is no louder after the re-fit than at the last position it was played at.
  predicate NoLouder(k0: nat, nA0: nat, r: nat, at: nat)
    requires nA0 > 0
  {
    nA0 * (2 * r - 1) <= LongestRamp(r, at) * (2 * (nA0 - Hold(k0, nA0)) - 1)
  }

  // The r frames are part of an L-frame ramp as the last m - 1/2 steps are of an n-step one.
  lemma PartInFrames(left: real, m: nat, n: nat, r: nat, L: nat)
    requires left * n as real == m as real - 0.5 && r as real <= left * L as real
    ensures n * (2 * r - 1) <= L * (2 * m - 1)
  {
    TwiceTimes(m - 1, L);
    Expand(r, -1, n);
    Grow(n as real, r as real, left * L as real);
    assert n as real * (left * L as real) == (left * n as real) * L as real;
    assert m as real - 0.5 == (m - 1) as real + 0.5;
  }

  lemma PartGrows(left: real, x: real, L: real, r: real)
    requires 0.0 < left && x * left == r && x <= L
    ensures r <= left * L
  {
    Grow(left, x, L);
  }

  lemma UncappedIsNoLouder(k0: nat, nA0: nat, r: nat, at: nat, left: real, x: real)
    requires k0 < nA0 && left == Remaining(k0, nA0) && x * left == r as real && x <= LongestRamp(r, at) as real
    ensures NoLouder(k0, nA0, r, at)
  {
    RemainingInside(k0, nA0);
    var L := LongestRamp(r, at);
    PartGrows(left, x, L as real, r as real);
    PartInFrames(left, nA0 - k0, nA0, r, L);
  }

  lemma RampForContinues(k0: nat, nA0: nat, r: nat, at: nat, left: real, x: real, nA: nat)
    requires 0 < r <= at && k0 < nA0 && left == Remaining(k0, nA0) && 0.0 < left <= 1.0
    requires x * left == r as real && r as real <= x && (left <= 0.000000001 ==> x >= 1000000000.0)
    requires nA == RampFor(left, x, r, at)
    ensures Position(nA - r, nA) <= 1.0 - left + 1.0 / nA as real
    ensures Position(k0, nA0) == 1.0 - left
    ensures Position(k0, nA0) <= Position(nA - r, nA) <==> NoLouder(k0, nA0, r, at)
  {
    RemainingInside(k0, nA0);
    RampForRounds(left, x, r, at);
    if x <= LongestRamp(r, at) as real {
      UncappedContinues(left, x, r, nA);
      UncappedIsNoLouder(k0, nA0, r, at, left, x);
    } else {
      CappedNeverRunsAhead(left, x, r, nA);
      ComparePositions(k0, nA0, r, nA);
    }
  }

  lemma RunningRampContinues(k0: nat, nA0: nat, r: nat, at: nat, nA: nat)
    requires 0 < r <= at && k0 < nA0 && nA == Refit(k0, nA0, r, at)
    ensures Position(nA - r, nA) <= Position(k0, nA0) + 1.0 / nA as real
    ensures Position(k0, nA0) <= Position(nA - r, nA) <==> NoLouder(k0, nA0, r, at)
  {
    var left := Remaining(k0, nA0);
    RemainingInside(k0, nA0);
    IdealIsLong(left, r);
    RampForContinues(k0, nA0, r, at, left, IdealRamp(left, r), nA);
  }

  lemma FinishedRampTakesTheLongest(k0: nat, nA0: nat, r: nat, at: nat)
    requires 0 < r <= at && 0 < nA0 <= k0
    ensures Refit(k0, nA0, r, at) == LongestRamp(r, at)
  {
    NothingRemains(k0, nA0);
  }

  /** Re-fitting an outgoing ramp with r frames left before its new end raises the outgoing gain exactly when
      the longest ramp that can be taken is too short, whether the old ramp was running or had finished (and
      was held at its last step). A running ramp steps down by at most one step of the new one; a finished
      one, which takes the longest ramp, steps down by more than that exactly when it is longer still. */
  lemma RefitRaisesTheGainExactlyWhenCapped(k0: nat, nA0: nat, r: nat, at: nat, nA: nat)
    requires 0 < r <= at && nA0 > 0 && nA == Refit(k0, nA0, r, at)
    ensures var held, now := Position(Hold(k0, nA0), nA0), Position(nA - r, nA);
      && (now < held <==> !NoLouder(k0, nA0, r, at))
      && (k0 < nA0 ==> now <= held + 1.0 / nA as real)
      && (k0 >= nA0 ==> nA == LongestRamp(r, at) && (now <= held + 1.0 / nA as real <==> nA <= nA0 * (2 * r + 1)))
  {
    if k0 < nA0 {
      RunningRampContinues(k0, nA0, r, at, nA);
    } else {
      FinishedRampTakesTheLongest(k0, nA0, r, at);
      ComparePositions(nA0 - 1, nA0, r, nA);
      CompareNextStep(nA0 - 1, nA0, r, nA);
    }
  }

  /** The same for a re-anchor of a fade that has started, in any of its phases. When outgoing frames are left
      its ramp ends exactly at the new boundary, and the gain it continues with compares as above with the
      last one the outgoing had. */
  lemma ReanchorContinuesTheOutgoingRamp(p: Play, X: nat, rate: nat, capacity: nat, q: Play)
    requires Inv(p, capacity) && p.sched && p.start <= p.read
    requires q == Reanchor(p, X, rate) && q.read < q.at
    ensures q.sched && q.start <= q.read && q.start + q.nA == q.at && 0 < q.nA
    ensures var k0, nA0, r := p.read - p.start, RampLength(p.nA), q.at - q.read;
      var held, now := Position(Hold(k0, nA0), nA0), Position(q.read - q.start, q.nA);
      && (now < held <==> !NoLouder(k0, nA0, r, q.at))
      && (k0 < nA0 ==> now <= held + 1.0 / q.nA as real)
      && (k0 >= nA0 ==> (now <= held + 1.0 / q.nA as real <==> q.nA <= nA0 * (2 * r + 1)))
  {
    var r := q.at - q.read;
    assert q.nA == Refit(p.read - p.start, RampLength(p.nA), r, q.at);
    assert q.read - q.start == q.nA - r;
    RefitRaisesTheGainExactlyWhenCapped(p.read - p.start, RampLength(p.nA), r, q.at, q.nA);
  }
}
