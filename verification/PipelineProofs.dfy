/** What every step of the pipeline keeps. */
module PipelineProofs {
  import opened Audio
  import opened Boundary
  import opened Renderer
  import opened RendererProofs
  import opened Pipeline

  // --- The invariant, part by part --------------------------------------------------------------------

  // Lengths never exceed the longest crossfade, nor the lead target that goes with it.
  predicate ControlsOk(c: Controls, m: Model, p: Play, rate: nat) {
    && rate > 0
    && m.rate == rate && m.crossfade == c.X
    && c.X <= 12 * rate && c.T <= 13 * rate
    && (p.sched ==> p.n <= 12 * rate)
    && (m.flush.Some? ==> m.flush.value.frame <= p.written)
  }

  // An arm is bounded both in what it drops and in what is delivered while it lasts, spends its chance only
  // after a drop, and paces its probes.
  predicate ArmOk(a: Arm, written: nat, rate: nat) {
    && a.frame <= written
    && (a.armed ==> a.dropped < 12 * rate && written - a.frame < 45 * rate)
    && (a.reanchored ==> a.sawZero)
    && (a.sawZero <==> a.drops > 0)
    && a.lastProbeMs >= a.openedMs + PROBE_MS * a.drops
  }

  // Every accepted buffer is acknowledged, pending or cleared; the pending ones end in order inside the log;
  // what was acknowledged ends no further than 25 s ahead of the read head.
  predicate QueueOk(q: Queue, p: Play, rate: nat) {
    && q.accepted == q.acked + |q.pending| + q.cleared
    && (forall i | 0 <= i < |q.pending| :: q.pending[i].end <= p.written)
    && (forall i, j | 0 <= i < j < |q.pending| :: q.pending[i].end <= q.pending[j].end)
    && q.ackedEnd <= p.written && q.ackedEnd <= p.read + 25 * rate
  }

  predicate LogOk(s: State) {
    |s.log| == s.play.written && Shaped(s.log, s.channels)
  }

  predicate Good(s: State) {
    && LogOk(s)
    && Inv(s.play, Capacity(s))
    && ControlsOk(s.controls, s.model, s.play, s.rate)
    && ArmOk(s.arm, s.play.written, s.rate)
    && QueueOk(s.queue, s.play, s.rate)
  }

  // --- Small arithmetic -------------------------------------------------------------------------------

  lemma CrossfadeBound(ms: nat, rate: nat)
    requires ms <= MAX_CROSSFADE_MS
    ensures CrossfadeFrames(ms, rate) <= 12 * rate
    ensures LeadTarget(CrossfadeFrames(ms, rate), rate) <= 13 * rate
  {
    assert ms * rate <= MAX_CROSSFADE_MS * rate;
  }

  // --- One step at a time -----------------------------------------------------------------------------

  lemma QueueSurvives(q: Queue, p: Play, p': Play, rate: nat)
    requires QueueOk(q, p, rate) && p.written <= p'.written && p.read <= p'.read
    ensures QueueOk(q, p', rate)
  {
  }

  lemma PushKeepsQueue(q: Queue, p: Play, rate: nat, dropped: bool, notBeforeMs: int, arm: nat)
    requires QueueOk(q, p, rate)
    ensures QueueOk(Push(q, p.written, dropped, notBeforeMs, arm), p, rate)
  {
  }

  lemma AckKeepsQueue(q: Queue, p: Play, rate: nat, T: nat)
    requires QueueOk(q, p, rate) && q.pending != []
    requires !q.pending[0].dropped ==> q.pending[0].end <= Frontier(p) + T
    requires (p.sched ==> p.n <= 12 * rate) && T <= 13 * rate
    ensures QueueOk(Ack(q), p, rate)
  {
  }

  lemma DropKeepsGood(s: State, frames: nat, nowMs: int)
    requires Good(s) && s.arm.armed
    ensures Good(Drop(s, frames, nowMs))
  {
    PushKeepsQueue(s.queue, s.play, s.rate, true, Max(s.arm.lastProbeMs, nowMs) + PROBE_MS, s.arm.number);
  }

  lemma FadeChanceKeeps(p: Play, a: Arm, X: nat, rate: nat, capacity: nat)
    requires Inv(p, capacity)
    ensures Inv(FadeChance(p, a, X, rate), capacity)
    ensures FadeChance(p, a, X, rate).written == p.written && p.read <= FadeChance(p, a, X, rate).read
    ensures FadeChance(p, a, X, rate).n == p.n && (FadeChance(p, a, X, rate).sched ==> p.sched)
    ensures forall f :: Gone(p, f) ==> Gone(FadeChance(p, a, X, rate), f)
    ensures Clean(p) ==> Clean(FadeChance(p, a, X, rate))
  {
    if p.sched {
      ReanchorKeepsInv(p, X, rate, capacity);
    }
  }

  lemma ArriveKeeps(s: State, frames: nat)
    requires Good(s) && frames <= Capacity(s)
    ensures var q := Arrive(s, frames);
      && Inv(q, Capacity(s)) && q.written == s.play.written + frames && s.play.read <= q.read
      && q.n == s.play.n && (q.sched ==> s.play.sched)
      && forall f :: Gone(s.play, f) ==> Gone(q, f)
  {
    var p := FadeChance(s.play, s.arm, s.controls.X, s.rate);
    FadeChanceKeeps(s.play, s.arm, s.controls.X, s.rate, Capacity(s));
    DeliveryKeepsInv(p, frames, Capacity(s));
  }

  lemma DisarmKeepsArm(a: Arm, p: Play, written: nat, T: nat, rate: nat)
    requires ArmOk(a, written, rate) && written <= p.written
    ensures ArmOk(Disarm(p, ArmChance(a), T, rate), p.written, rate)
  {
  }

  lemma KeepKeepsGood(s: State, buf: seq<Frame>)
    requires Good(s) && |buf| <= Capacity(s) && Shaped(buf, s.channels)
    ensures Good(Keep(s, buf))
  {
    ArriveKeeps(s, |buf|);
    var q := Arrive(s, |buf|);
    DisarmKeepsArm(s.arm, q, s.play.written, s.controls.T, s.rate);
    QueueSurvives(s.queue, s.play, q, s.rate);
    PushKeepsQueue(s.queue, q, s.rate, false, 0, s.arm.number);
  }

  lemma DecisionKeeps(s: State, m: Model, d: Decision)
    requires Good(s) && (d.Fade? ==> d.n <= d.at && d.n <= s.controls.X)
    requires m.rate == s.rate && m.crossfade == s.controls.X
    requires m.flush.Some? ==> m.flush.value.frame <= s.play.written
    ensures Good(s.(model := m, play := Apply(s.play, d)))
    ensures s.play.read <= Apply(s.play, d).read && Apply(s.play, d).written == s.play.written
  {
    ApplyKeepsInv(s.play, d, Capacity(s));
    QueueSurvives(s.queue, s.play, Apply(s.play, d), s.rate);
  }

  lemma MetadataKeepsModel(m: Model, meta: TrackMeta, written: nat, read: nat, nowMs: int)
    ensures MetadataStep(m, meta, written, read, nowMs).0.rate == m.rate
    ensures MetadataStep(m, meta, written, read, nowMs).0.crossfade == m.crossfade
  {
  }

  lemma MetadataKeepsGood(s: State, meta: TrackMeta, nowMs: int)
    requires Good(s)
    ensures Good(Metadata(s, meta, nowMs)) && s.play.read <= Metadata(s, meta, nowMs).play.read
  {
    var c := Corrected(meta, s.arm.dropped, s.rate);
    var r := MetadataStep(s.model, c, s.play.written, s.play.read, nowMs);
    MetadataKeepsModel(s.model, c, s.play.written, s.play.read, nowMs);
    DecisionKeeps(s, r.0, r.1);
  }

  lemma ClockKeepsGood(s: State, nowMs: int)
    requires Good(s)
    ensures Good(Clock(s, nowMs)) && s.play.read <= Clock(s, nowMs).play.read
  {
    var r := TickStep(s.model, nowMs);
    DecisionKeeps(s, r.0, r.1);
  }

  lemma AckTurnKeepsGood(s: State, nowMs: int)
    requires Good(s)
    ensures Good(AckTurn(s, nowMs)) && s.play.read <= AckTurn(s, nowMs).play.read
  {
    ClockKeepsGood(s, nowMs);
    var c := Clock(s, nowMs);
    if AckReady(c, nowMs) {
      AckKeepsQueue(c.queue, c.play, c.rate, c.controls.T);
    }
  }

  lemma ClearKeepsGood(s: State, nowMs: int)
    requires Good(s)
    ensures Good(Clear(s, nowMs))
  {
  }

  lemma SetCrossfadeKeepsGood(s: State, ms: int)
    requires Good(s)
    ensures Good(SetCrossfade(s, ms))
  {
    CrossfadeBound(ClampMs(ms), s.rate);
  }

  lemma StepKeepsLength(p: Play)
    ensures Step(p).next.n == p.n && (Step(p).next.sched ==> p.sched)
  {
  }

  lemma {:induction false} StepsKeepLength(p: Play, k: nat)
    ensures Steps(p, k).next.n == p.n && (Steps(p, k).next.sched ==> p.sched)
    decreases k
  {
    if k == 0 {
    } else {
      StepKeepsLength(p);
      StepsKeepLength(Step(p).next, k - 1);
    }
  }

  lemma FillKeepsGood(s: State, frames: nat)
    requires Good(s)
    ensures Good(Fill(s, frames)) && s.play.read <= Fill(s, frames).play.read
  {
    StepsKeepInv(s.play, frames, Capacity(s));
    StepsKeepLength(s.play, frames);
    QueueSurvives(s.queue, s.play, Steps(s.play, frames).next, s.rate);
  }

  // What the client hands over has the agreed number of channels.
  predicate WellFormed(s: State, e: Event) {
    e.EnqueueEvent? ==> Shaped(e.buf, s.channels)
  }

  /** Every step keeps the pipeline's invariant, and none moves the read head back. */
  lemma NextKeepsGood(s: State, e: Event)
    requires Good(s) && WellFormed(s, e)
    ensures Good(Next(s, e)) && s.play.read <= Next(s, e).play.read
    ensures Next(s, e).rate == s.rate && Next(s, e).channels == s.channels
  {
    match e
    case EnqueueEvent(buf, now) =>
      if FitsRing(s, |buf|) {
        if IsPadding(s, buf) {
          DropKeepsGood(s, |buf|, now);
        } else {
          KeepKeepsGood(s, buf);
          ArriveKeeps(s, |buf|);
        }
      }
    case ClearEvent(now) => ClearKeepsGood(s, now);
    case MetadataEvent(m, now) => MetadataKeepsGood(s, m, now);
    case CrossfadeEvent(ms) => SetCrossfadeKeepsGood(s, ms);
    case PlayingEvent(_) =>
    case AckEvent(now) => AckTurnKeepsGood(s, now);
    case FillEvent(frames) => FillKeepsGood(s, frames);
  }

  lemma StartedIsGood(rate: nat, channels: nat, crossfadeMs: nat, nowMs: int)
    requires rate > 0 && crossfadeMs <= MAX_CROSSFADE_MS
    ensures Good(Started(rate, channels, crossfadeMs, nowMs))
  {
    CrossfadeBound(crossfadeMs, rate);
  }

  lemma OutputOnlyGrows(s: State, e: Event)
    ensures s.out <= Next(s, e).out
  {
  }

  lemma {:induction false} RunOutputOnlyGrows(s: State, es: seq<Event>)
    ensures s.out <= Run(s, es).out
    decreases |es|
  {
    if es == [] {
    } else {
      OutputOnlyGrows(s, es[0]);
      RunOutputOnlyGrows(Next(s, es[0]), es[1..]);
    }
  }

  lemma {:induction false} RunSplit(s: State, xs: seq<Event>, ys: seq<Event>)
    ensures Run(s, xs + ys) == Run(Run(s, xs), ys)
    decreases |xs|
  {
    if xs == [] {
      assert xs + ys == ys;
    } else {
      assert (xs + ys)[1..] == xs[1..] + ys;
      RunSplit(Next(s, xs[0]), xs[1..], ys);
    }
  }

  predicate AllWellFormed(s: State, es: seq<Event>) {
    forall i | 0 <= i < |es| :: WellFormed(s, es[i])
  }

  /** The invariant holds over every run. */
  lemma {:induction false} RunKeepsGood(s: State, es: seq<Event>)
    requires Good(s) && AllWellFormed(s, es)
    ensures Good(Run(s, es)) && s.play.read <= Run(s, es).play.read
    ensures Run(s, es).rate == s.rate && Run(s, es).channels == s.channels
    decreases |es|
  {
    if es == [] {
    } else {
      NextKeepsGood(s, es[0]);
      RunKeepsGood(Next(s, es[0]), es[1..]);
    }
  }
}
