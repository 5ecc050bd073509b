/** A chunk of output is the frames it is made of, one at a time. */
module Chunks {
  import opened Audio
  import opened Boundary
  import opened Renderer
  import opened RendererProofs

  // The i-th frame of an outgoing chunk, and the renderer after c of them, before any completion.
  function OutgoingAt(p: Play, i: nat): Rec
    requires p.start <= p.read
  {
    var kA := Hold(p.read - p.start + i, p.nA);
    if p.b + i < p.written
    then Both(p.read + i, kA, RampLength(p.nA), p.b + i, Hold(p.kB + i, p.n), RampLength(p.n))
    else OutgoingOnly(p.read + i, kA, RampLength(p.nA))
  }

  function AfterOutgoing(p: Play, c: nat): Play {
    var h := Min(c, Tail(p.written, p.b));
    p.(read := p.read + c, b := p.b + h, kB := p.kB + h)
  }

  function IncomingAt(p: Play, i: nat): Rec {
    IncomingOnly(p.b + i, Hold(p.kB + i, p.n), RampLength(p.n))
  }

  function AfterIncoming(p: Play, c: nat): Play {
    p.(b := p.b + c, kB := p.kB + c)
  }

  lemma OutgoingStep(p: Play)
    requires InFade(p) && p.read < p.at && p.read < p.written && MarkDump(p) == p
    ensures Step(p) == Turn(Finish(AfterOutgoing(p, 1)), OutgoingAt(p, 0))
    ensures p.read + 1 < p.at ==> Finish(AfterOutgoing(p, 1)) == AfterOutgoing(p, 1)
  {
    assert Cancel(p) == p;
  }

  lemma OutgoingTwice(p: Play, c: nat)
    requires InFade(p) && p.read < p.written
    ensures AfterOutgoing(AfterOutgoing(p, 1), c) == AfterOutgoing(p, c + 1)
    ensures forall i: nat :: OutgoingAt(AfterOutgoing(p, 1), i) == OutgoingAt(p, i + 1)
  {
  }

  /** An outgoing chunk is the overlap, frame by frame. */
  lemma {:induction false} OutgoingChunk(p: Play, c: nat)
    requires InFade(p) && p.read < p.at && MarkDump(p) == p
    requires 0 < c <= p.at - p.read && c <= p.written - p.read
    ensures Steps(p, c).next == Finish(AfterOutgoing(p, c))
    ensures forall i | 0 <= i < c :: Steps(p, c).recs[i] == OutgoingAt(p, i)
    decreases c
  {
    OutgoingStep(p);
    var q := AfterOutgoing(p, 1);
    if c == 1 {
      assert Steps(Step(p).next, 0) == Stretch(Step(p).next, []);
    } else {
      OutgoingChunk(q, c - 1);
      OutgoingTwice(p, c - 1);
      assert Steps(p, c).recs == [OutgoingAt(p, 0)] + Steps(q, c - 1).recs;
      forall i | 0 < i < c
        ensures Steps(p, c).recs[i] == OutgoingAt(p, i)
      {
        assert OutgoingAt(q, i - 1) == OutgoingAt(p, i - 1 + 1);
      }
    }
  }

  lemma IncomingStep(p: Play)
    requires InFade(p) && p.read == p.at && p.kB < p.n && p.b < p.written && MarkDump(p) == p
    ensures Step(p) == Turn(Finish(AfterIncoming(p, 1)), IncomingAt(p, 0))
    ensures p.kB + 1 < p.n ==> Finish(AfterIncoming(p, 1)) == AfterIncoming(p, 1)
  {
    assert Cancel(p) == p;
  }

  /** An incoming-only chunk is the rest of the incoming ramp, frame by frame. */
  lemma {:induction false} IncomingChunk(p: Play, c: nat)
    requires InFade(p) && p.read == p.at && MarkDump(p) == p
    requires 0 < c <= p.n - p.kB && c <= p.written - p.b
    ensures Steps(p, c).next == Finish(AfterIncoming(p, c))
    ensures forall i | 0 <= i < c :: Steps(p, c).recs[i] == IncomingAt(p, i)
    decreases c
  {
    IncomingStep(p);
    var q := AfterIncoming(p, 1);
    if c == 1 {
      assert Steps(Step(p).next, 0) == Stretch(Step(p).next, []);
    } else {
      IncomingChunk(q, c - 1);
      assert Steps(p, c).recs == [IncomingAt(p, 0)] + Steps(q, c - 1).recs;
    }
  }

  /** Outside a fade a chunk is the log as it is. */
  lemma {:induction false} PlainChunk(p: Play, c: nat)
    requires p.sched ==> p.read + c <= p.start && p.start <= p.at
    requires c <= p.written - p.read
    ensures Steps(p, c).next == p.(read := p.read + c)
    ensures forall i | 0 <= i < c :: Steps(p, c).recs[i] == Plain(p.read + i)
    decreases c
  {
    if c == 0 {
    } else {
      assert Step(p) == Turn(p.(read := p.read + 1), Plain(p.read));
      var q := p.(read := p.read + 1);
      PlainChunk(q, c - 1);
      assert forall i | 0 < i < c :: Steps(p, c).recs[i] == Steps(q, c - 1).recs[i - 1];
    }
  }

  // Changes that need no output: what follows is the same.
  lemma SameFromHere(p: Play, q: Play, k: nat)
    requires k > 0 && Step(p) == Step(q)
    ensures Steps(p, k) == Steps(q, k)
  {
  }

  lemma CancelNeedsNoOutput(p: Play)
    ensures Step(Cancel(p)) == Step(p)
  {
  }

  lemma MarkDumpNeedsNoOutput(p: Play)
    requires InFade(p) && p.read <= p.at
    ensures Step(MarkDump(p)) == Step(p)
  {
  }

  lemma FinishNeedsNoOutput(p: Play)
    requires InFade(p) && p.read == p.at && p.kB >= p.n && MarkDump(p) == p
    ensures Step(Finish(p)) == Step(p)
  {
  }

  // --- Reaching the end of a stretch ------------------------------------------------------------------

  // Having played 'played' of the stretch of 'total' frames from p0, the rest of it is what p plays.
  ghost predicate Reached(p0: Play, total: nat, p: Play, played: seq<Rec>) {
    && |played| <= total
    && var rest := Steps(p, total - |played|);
       Steps(p0, total) == Stretch(rest.next, played + rest.recs)
  }

  lemma ReachFurther(p0: Play, total: nat, p: Play, played: seq<Rec>, c: nat)
    requires Reached(p0, total, p, played) && |played| + c <= total
    ensures Reached(p0, total, Steps(p, c).next, played + Steps(p, c).recs)
  {
    StepsSplit(p, c, total - |played| - c);
    var a, b := Steps(p, c), Steps(Steps(p, c).next, total - |played| - c);
    assert played + (a.recs + b.recs) == (played + a.recs) + b.recs;
  }

  function OutgoingRecs(p: Play, c: nat): seq<Rec>
    requires p.start <= p.read
  {
    seq(c, i requires 0 <= i => OutgoingAt(p, i))
  }

  function IncomingRecs(p: Play, c: nat): seq<Rec> {
    seq(c, i requires 0 <= i => IncomingAt(p, i))
  }

  function PlainRecs(p: Play, c: nat): seq<Rec> {
    seq(c, i requires 0 <= i => Plain(p.read + i))
  }

  lemma MissingAppends(xs: seq<Rec>, ys: seq<Rec>)
    ensures AnyMissing(xs + ys) <==> AnyMissing(xs) || AnyMissing(ys)
  {
    assert forall i | 0 <= i < |xs| :: (xs + ys)[i] == xs[i];
    assert forall i | 0 <= i < |ys| :: (xs + ys)[|xs| + i] == ys[i];
  }

  lemma OutgoingMissing(p: Play, c: nat)
    requires InFade(p) && c > 0
    ensures AnyMissing(OutgoingRecs(p, c)) <==> p.b + c > p.written
  {
    if p.b + c > p.written {
      assert Missing(OutgoingRecs(p, c)[c - 1]);
    }
  }

  // The three kinds of chunk, as progress through a stretch.
  lemma OutgoingAdvances(p0: Play, total: nat, p: Play, played: seq<Rec>, c: nat, capacity: nat)
    requires Reached(p0, total, p, played) && |played| + c <= total && Inv(p, capacity)
    requires InFade(p) && p.read < p.at && MarkDump(p) == p
    requires 0 < c <= p.at - p.read && c <= p.written - p.read
    ensures var q := Finish(AfterOutgoing(p, c));
      Inv(q, capacity) && q.written == p.written && Reached(p0, total, q, played + OutgoingRecs(p, c))
    ensures AnyMissing(played + OutgoingRecs(p, c)) <==> AnyMissing(played) || p.b + c > p.written
  {
    OutgoingChunk(p, c);
    assert Steps(p, c).recs == OutgoingRecs(p, c);
    ReachFurther(p0, total, p, played, c);
    StepsKeepInv(p, c, capacity);
    MissingAppends(played, OutgoingRecs(p, c));
    OutgoingMissing(p, c);
  }

  lemma IncomingAdvances(p0: Play, total: nat, p: Play, played: seq<Rec>, c: nat, capacity: nat)
    requires Reached(p0, total, p, played) && |played| + c <= total && Inv(p, capacity)
    requires InFade(p) && p.read == p.at && MarkDump(p) == p
    requires 0 < c <= p.n - p.kB && c <= p.written - p.b
    ensures var q := Finish(AfterIncoming(p, c));
      Inv(q, capacity) && q.written == p.written && Reached(p0, total, q, played + IncomingRecs(p, c))
    ensures AnyMissing(played + IncomingRecs(p, c)) <==> AnyMissing(played)
  {
    IncomingChunk(p, c);
    assert Steps(p, c).recs == IncomingRecs(p, c);
    ReachFurther(p0, total, p, played, c);
    StepsKeepInv(p, c, capacity);
    MissingAppends(played, IncomingRecs(p, c));
  }

  lemma PlainAdvances(p0: Play, total: nat, p: Play, played: seq<Rec>, c: nat, capacity: nat)
    requires Reached(p0, total, p, played) && |played| + c <= total && Inv(p, capacity)
    requires p.sched ==> p.read + c <= p.start
    requires c <= p.written - p.read
    ensures var q := p.(read := p.read + c);
      Inv(q, capacity) && Reached(p0, total, q, played + PlainRecs(p, c))
    ensures AnyMissing(played + PlainRecs(p, c)) <==> AnyMissing(played)
  {
    PlainChunk(p, c);
    assert Steps(p, c).recs == PlainRecs(p, c);
    ReachFurther(p0, total, p, played, c);
    StepsKeepInv(p, c, capacity);
    MissingAppends(played, PlainRecs(p, c));
  }

  // A stretch that can play nothing more ends in silence.
  lemma SilenceAdvances(p0: Play, total: nat, p: Play, played: seq<Rec>)
    requires Reached(p0, total, p, played) && |played| < total && Step(p) == Turn(p, Silent)
    ensures Steps(p0, total).next == p
    ensures Steps(p0, total).recs == played + seq(total - |played|, _ => Silent)
    ensures AnyMissing(Steps(p0, total).recs)
  {
    SilenceLastsOn(p, total - |played|);
    assert Steps(p, total - |played|).recs == seq(total - |played|, _ => Silent);
    assert Missing(Steps(p0, total).recs[|played|]);
  }

  lemma StretchEnds(p0: Play, total: nat, p: Play, played: seq<Rec>)
    requires Reached(p0, total, p, played) && |played| == total
    ensures Steps(p0, total) == Stretch(p, played)
  {
  }
}
