/** What is heard: the samples of the output, phase by phase, and of whole runs. */
module Sound {
  import opened Audio
  import opened Boundary
  import opened Renderer
  import opened RendererProofs
  import opened Chunks
  import opened Pipeline
  import opened PipelineProofs
  import opened Playback
  import opened Theorems

  // --- Sample by sample ------------------------------------------------------------------------------------

  // Looking at one frame of a stretch: it is a frame of any shorter stretch that reaches it.
  lemma FrameOfAPrefix(p: Play, j: nat, k: nat, i: nat)
    requires i < j <= k
    ensures Steps(p, k).recs[i] == Steps(p, j).recs[i]
  {
    StepsSplit(p, j, k - j);
  }

  lemma PastTheEnd(p: Play, k: nat, i: nat)
    requires p.read <= p.written && (p.sched ==> p.written < p.start <= p.at)
    requires p.written - p.read <= i < k
    ensures Steps(p, k).recs[i] == Silent
  {
    var h := p.written - p.read;
    PlainChunk(p, h);
    StepsSplit(p, h, k - h);
    SilenceLastsOn(p.(read := p.written), k - h);
  }

  /** Before a fade, and without one, the output is the log from the read head on, sample for sample, and silent
      exactly past its end. */
  lemma PlainOutputIsTheLog(g: Gains, log: seq<Frame>, p: Play, k: nat, i: nat, c: nat)
    requires i < k && |log| == p.written && p.read <= p.written
    requires p.sched ==> p.read + i < p.start <= p.at
    requires p.read + i < p.written ==> c < |log[p.read + i]|
    ensures Render(g, log, Steps(p, k).recs[i], c) == if p.read + i < p.written then log[p.read + i][c] else 0
    ensures Steps(p, k).recs[i] == if p.read + i < p.written then Plain(p.read + i) else Silent
  {
    if p.read + i < p.written {
      FrameOfAPrefix(p, i + 1, k, i);
      PlainChunk(p, i + 1);
    } else {
      PastTheEnd(p, k, i);
    }
  }

  // The sample of a given output frame.
  lemma BothSound(g: Gains, log: seq<Frame>, r: Rec, c: nat, x: Sample, ga: real, y: Sample, gb: real)
    requires r.Both? && r.a < |log| && r.b < |log| && c < |log[r.a]| && c < |log[r.b]|
    requires x == log[r.a][c] && y == log[r.b][c] && ga == g.down(r.kA, r.nA) && gb == g.up(r.kB, r.nB)
    ensures Nearest(Render(g, log, r, c), x as real * ga + y as real * gb)
  {
    assert Render(g, log, r, c) == Mixed(x, ga, y, gb);
    MixedIsNearest(x, ga, y, gb);
  }

  lemma OutgoingSounds(g: Gains, log: seq<Frame>, r: Rec, c: nat, x: Sample, ga: real)
    requires r.OutgoingOnly? && r.a < |log| && c < |log[r.a]| && x == log[r.a][c] && ga == g.down(r.kA, r.nA)
    ensures Nearest(Render(g, log, r, c), x as real * ga)
  {
    assert Render(g, log, r, c) == Alone(x, ga);
    AloneIsNearest(x, ga);
  }

  lemma IncomingSounds(g: Gains, log: seq<Frame>, r: Rec, c: nat, y: Sample, gb: real)
    requires r.IncomingOnly? && r.b < |log| && c < |log[r.b]| && y == log[r.b][c] && gb == g.up(r.kB, r.nB)
    ensures Nearest(Render(g, log, r, c), y as real * gb)
  {
    assert Render(g, log, r, c) == Alone(y, gb);
    AloneIsNearest(y, gb);
  }

  // The output frames of either phase of a fade.
  lemma MarkedStretch(p: Play, k: nat)
    requires InFade(p) && p.read <= p.at && k > 0
    ensures Steps(p, k) == Steps(MarkDump(p), k)
  {
    MarkDumpNeedsNoOutput(p);
    SameFromHere(p, MarkDump(p), k);
  }

  lemma OverlapFrameAt(p: Play, k: nat, i: nat)
    requires i < k && InFade(p) && p.read + i < p.at && p.read + i < p.written
    ensures Steps(p, k).recs[i] == OutgoingAt(p, i)
  {
    var d := MarkDump(p);
    MarkedStretch(p, k);
    FrameOfAPrefix(d, i + 1, k, i);
    OutgoingChunk(d, i + 1);
    assert OutgoingAt(d, i) == OutgoingAt(p, i);
  }

  lemma OverlapFrame(p: Play, capacity: nat, k: nat, i: nat)
    requires Inv(p, capacity) && i < k && p.n > 0
    requires p.sched && p.start <= p.read && p.read + i < p.at && p.read + i < p.written
    ensures var kA, kB := p.read - p.start + i, if p.kB + i < p.n then p.kB + i else p.n - 1;
      Steps(p, k).recs[i] ==
        if p.b + i < p.written then Both(p.read + i, kA, p.nA, p.b + i, kB, p.n) else OutgoingOnly(p.read + i, kA, p.nA)
  {
    OverlapFrameAt(p, k, i);
  }

  lemma IncomingFrameOf(p: Play, k: nat, i: nat)
    requires i < k && p.sched && p.start <= p.read && p.read == p.at
    requires p.kB + i < p.n && p.b + i < p.written
    ensures Steps(p, k).recs[i] == IncomingOnly(p.b + i, p.kB + i, p.n)
  {
    var d := MarkDump(p);
    MarkDumpNeedsNoOutput(p);
    SameFromHere(p, d, k);
    FrameOfAPrefix(d, i + 1, k, i);
    IncomingChunk(d, i + 1);
  }

  /** While the outgoing side plays, sample c of the i-th output frame is the nearest to that of the outgoing
      frame, x, at its step of the falling ramp, plus, exactly when it has been delivered, that of the next incoming
      frame, y, at its own step of the rising one, which holds its end. */
  lemma OverlapIsTheMix(g: Gains, log: seq<Frame>, p: Play, capacity: nat, k: nat, i: nat, c: nat, r: Rec,
                        x: Sample, ga: real, y: Sample, gb: real)
    requires Inv(p, capacity) && i < k && |log| == p.written && p.n > 0 && r == Steps(p, k).recs[i]
    requires p.sched && p.start <= p.read && p.read + i < p.at && p.read + i < p.written
    requires c < |log[p.read + i]| && x == log[p.read + i][c] && ga == g.down(p.read - p.start + i, p.nA)
    requires p.b + i < p.written ==> c < |log[p.b + i]| && y == log[p.b + i][c]
    requires gb == g.up(if p.kB + i < p.n then p.kB + i else p.n - 1, p.n)
    ensures p.b + i < p.written ==> Nearest(Render(g, log, r, c), x as real * ga + y as real * gb)
    ensures p.b + i >= p.written ==> Nearest(Render(g, log, r, c), x as real * ga)
  {
    OverlapFrame(p, capacity, k, i);
    if p.b + i < p.written {
      BothSound(g, log, r, c, x, ga, y, gb);
    } else {
      OutgoingSounds(g, log, r, c, x, ga);
    }
  }

  /** Once the outgoing side is spent, the rest of the incoming ramp is heard alone. */
  lemma LateIncomingIsHeardAlone(g: Gains, log: seq<Frame>, p: Play, k: nat, i: nat, c: nat, r: Rec,
                                 y: Sample, gb: real)
    requires i < k && |log| == p.written && r == Steps(p, k).recs[i]
    requires p.sched && p.start <= p.read && p.read == p.at && p.kB + i < p.n && p.b + i < p.written
    requires c < |log[p.b + i]| && y == log[p.b + i][c] && gb == g.up(p.kB + i, p.n)
    ensures Nearest(Render(g, log, r, c), y as real * gb)
  {
    IncomingFrameOf(p, k, i);
    IncomingSounds(g, log, r, c, y, gb);
  }

  // --- The ideal crossfade ---------------------------------------------------------------------------------

  lemma OverlapLands(p: Play)
    requires p.sched && p.read == p.start && p.start + p.n == p.at && p.n > 0
    requires p.nA == p.n && p.b == p.at && p.kB == 0 && p.at + p.n <= p.written
    ensures var q := Steps(p, p.n).next;
      !q.sched && q.read == p.at + p.n && q.written == p.written && q.fades == p.fades + 1
  {
    MarkedStretch(p, p.n);
    OutgoingChunk(MarkDump(p), p.n);
  }

  lemma CrossfadeFrame(p: Play, j: nat)
    requires p.sched && p.read == p.start && p.start + p.n == p.at && j < p.n
    requires p.nA == p.n && p.b == p.at && p.kB == 0 && p.at + p.n <= p.written
    ensures Steps(p, p.n).recs[j] == Both(p.start + j, j, p.n, p.at + j, j, p.n)
  {
    OverlapFrameAt(p, p.n, j);
  }

  /** A fade whose audio is all there is the ideal crossfade. From anywhere at or before its start the output is
      the log up to the start; then outgoing frame start + j at step j together with incoming frame at + j at
      step j, for each of the n steps; and playing goes on at frame at + n with the fade counted as done. */
  lemma DeliveredFadesAreCrossfades(p: Play, i: nat)
    requires p.sched && p.read <= p.start && p.start + p.n == p.at && p.n > 0
    requires p.nA == p.n && p.b == p.at && p.kB == 0 && p.at + p.n <= p.written
    requires i < p.at - p.read
    ensures Steps(p, p.at - p.read).recs[i] ==
      if p.read + i < p.start then Plain(p.read + i)
      else var j := p.read + i - p.start; Both(p.start + j, j, p.n, p.at + j, j, p.n)
    ensures var q := Steps(p, p.at - p.read).next;
      !q.sched && q.read == p.at + p.n && q.written == p.written && q.fades == p.fades + 1
  {
    var h, q := p.start - p.read, p.(read := p.start);
    PlainChunk(p, h);
    StepsSplit(p, h, p.n);
    OverlapLands(q);
    if i >= h {
      CrossfadeFrame(q, i - h);
      assert Steps(p, p.at - p.read).recs[i] == Steps(q, p.n).recs[i - h];
    }
  }

  // --- Whole runs ------------------------------------------------------------------------------------------

  // The output frames that are not silent.
  function Audible(out: seq<Rec>): seq<Rec> {
    if out == [] then []
    else if out[|out| - 1].Silent? then Audible(out[..|out| - 1])
    else Audible(out[..|out| - 1]) + [out[|out| - 1]]
  }

  lemma {:induction false} AudibleAppends(a: seq<Rec>, b: seq<Rec>)
    ensures Audible(a + b) == Audible(a) + Audible(b)
    decreases |b|
  {
    if b == [] {
      assert a + b == a;
    } else {
      assert (a + b)[..|a + b| - 1] == a + b[..|b| - 1];
      AudibleAppends(a, b[..|b| - 1]);
    }
  }

  // The frames from one number up to another, each as it is.
  function PlainRun(from: nat, to: nat): seq<Rec>
    requires from <= to
  {
    seq(to - from, i requires 0 <= i => Plain(from + i))
  }

  lemma OneIsAudible(r: Rec)
    ensures Audible([r]) == if r.Silent? then [] else [r]
  {
    assert [r][..0] == [] && Audible([]) == [];
  }

  lemma PlainStep(p: Play)
    requires !p.sched && p.read <= p.written
    ensures var t := Step(p);
      && !t.next.sched && p.read <= t.next.read <= p.written == t.next.written
      && Audible([t.rec]) == PlainRun(p.read, t.next.read)
  {
    OneIsAudible(Step(p).rec);
  }

  lemma {:induction false} StretchIsAudible(p: Play, k: nat)
    requires !p.sched && p.read <= p.written
    ensures !Steps(p, k).next.sched && p.read <= Steps(p, k).next.read <= p.written == Steps(p, k).next.written
    ensures Audible(Steps(p, k).recs) == PlainRun(p.read, Steps(p, k).next.read)
    decreases k
  {
    if k == 0 {
    } else {
      var t := Step(p);
      PlainStep(p);
      StretchIsAudible(t.next, k - 1);
      assert Steps(p, k).recs == [t.rec] + Steps(t.next, k - 1).recs;
      AudibleAppends([t.rec], Steps(t.next, k - 1).recs);
      assert Audible(Steps(p, k).recs) == Audible([t.rec]) + PlainRun(t.next.read, Steps(p, k).next.read);
    }
  }

  // No boundary is decided and nothing overflows.
  predicate Uneventful(s: State, es: seq<Event>)
    decreases |es|
  {
    es == [] ||
    (DecisionOf(s, es[0]) == NoBoundary && !TakesOverflow(s, es[0]) && Uneventful(Next(s, es[0]), es[1..]))
  }

  lemma UneventfulOther(s: State, e: Event)
    requires !e.FillEvent? && DecisionOf(s, e) == NoBoundary && !TakesOverflow(s, e) && !s.play.sched
    ensures Next(s, e).out == s.out && Next(s, e).play.read == s.play.read && !Next(s, e).play.sched
  {
  }

  lemma UneventfulFill(s: State, frames: nat)
    requires !s.play.sched && s.play.read <= s.play.written && Audible(s.out) == PlainRun(0, s.play.read)
    ensures var t := Fill(s, frames); !t.play.sched && Audible(t.out) == PlainRun(0, t.play.read)
  {
    StretchIsAudible(s.play, frames);
    AudibleAppends(s.out, Steps(s.play, frames).recs);
  }

  lemma UneventfulNext(s: State, e: Event)
    requires Good(s) && DecisionOf(s, e) == NoBoundary && !TakesOverflow(s, e)
    requires !s.play.sched && Audible(s.out) == PlainRun(0, s.play.read)
    ensures !Next(s, e).play.sched && Audible(Next(s, e).out) == PlainRun(0, Next(s, e).play.read)
  {
    if e.FillEvent? {
      UneventfulFill(s, e.frames);
    } else {
      UneventfulOther(s, e);
    }
  }

  lemma {:induction false} UneventfulRun(s: State, es: seq<Event>)
    requires Good(s) && AllWellFormed(s, es) && Uneventful(s, es)
    requires !s.play.sched && Audible(s.out) == PlainRun(0, s.play.read)
    ensures !Run(s, es).play.sched && Audible(Run(s, es).out) == PlainRun(0, Run(s, es).play.read)
    decreases |es|
  {
    if es == [] {
    } else {
      NextKeepsGood(s, es[0]);
      UneventfulNext(s, es[0]);
      UneventfulRun(Next(s, es[0]), es[1..]);
    }
  }

  /** A player that meets no boundary is transparent. From its start on, whatever is delivered and however the
      output is asked for, what is heard between silences is exactly the accepted stream without its padding,
      frame by frame and sample for sample, as far as it has been played. */
  lemma PlainPlaybackIsTheAcceptedStream(g: Gains, s: State, rate: nat, channels: nat, crossfadeMs: nat, nowMs: int,
                                         es: seq<Event>, i: nat, c: nat)
    requires rate > 0 && crossfadeMs <= MAX_CROSSFADE_MS
    requires s == Started(rate, channels, crossfadeMs, nowMs) && AllWellFormed(s, es) && Uneventful(s, es)
    requires i < Run(s, es).play.read && c < channels
    ensures |Audible(Run(s, es).out)| == Run(s, es).play.read <= |Kept(s, es)|
    ensures |Kept(s, es)[i]| == channels
    ensures Render(g, Run(s, es).log, Audible(Run(s, es).out)[i], c) == Kept(s, es)[i][c]
  {
    StartedIsGood(rate, channels, crossfadeMs, nowMs);
    RunKeepsGood(s, es);
    UneventfulRun(s, es);
    TheLogIsTheFilteredStream(s, es);
    assert Run(s, es).log == Kept(s, es);
  }
}
