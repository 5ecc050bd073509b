/** What every run plays: no frame twice, and none lost without a reason. */
module Playback {
  import opened Boundary
  import opened Renderer
  import opened RendererProofs
  import opened Pipeline
  import opened PipelineProofs

  // --- No frame is played twice ----------------------------------------------------------------------------

  predicate PlayedIn(out: seq<Rec>, f: nat) {
    exists i :: 0 <= i < |out| && Emits(out[i], f)
  }

  // No absolute frame is in the output twice.
  ghost predicate EachFrameOnce(out: seq<Rec>) {
    && (forall i, j, f | 0 <= i < j < |out| && Emits(out[i], f) :: !Emits(out[j], f))
    && (forall i | 0 <= i < |out| && out[i].Both? :: out[i].a != out[i].b)
  }

  // The incoming frames that the fade in progress has consumed are in the output.
  ghost predicate IncomingHeard(s: State) {
    s.play.sched ==> forall f: nat | s.play.at <= f < s.play.b :: PlayedIn(s.out, f)
  }

  // Nothing has been played twice, and nothing that was played is still to be played.
  ghost predicate NoRepeat(s: State) {
    EachFrameOnce(s.out) && forall i, f | 0 <= i < |s.out| && Emits(s.out[i], f) :: Gone(s.play, f)
  }

  // This event gives up unplayed audio to make room in the ring.
  predicate TakesOverflow(s: State, e: Event) {
    && e.EnqueueEvent? && FitsRing(s, |e.buf|) && !IsPadding(s, e.buf)
    && Overflows(FadeChance(s.play, s.arm, s.controls.X, s.rate), |e.buf|, Capacity(s))
  }

  lemma ArriveStaysClean(s: State, frames: nat)
    requires Good(s) && Clean(s.play) && frames <= Capacity(s)
    requires !Overflows(FadeChance(s.play, s.arm, s.controls.X, s.rate), frames, Capacity(s))
    ensures Clean(Arrive(s, frames))
  {
    var p := FadeChance(s.play, s.arm, s.controls.X, s.rate);
    FadeChanceKeeps(s.play, s.arm, s.controls.X, s.rate, Capacity(s));
    DeliveryKeepsInv(p, frames, Capacity(s));
  }

  lemma DecisionsOnlyUseUp(s: State, d: Decision)
    requires Good(s) && (d.Fade? ==> d.n <= d.at)
    ensures forall f :: Gone(s.play, f) ==> Gone(Apply(s.play, d), f)
    ensures Clean(s.play) ==> Clean(Apply(s.play, d))
  {
    ApplyKeepsInv(s.play, d, Capacity(s));
  }

  // The decision an event comes to.
  function DecisionOf(s: State, e: Event): (d: Decision)
    ensures d.Fade? ==> d.n <= d.at
  {
    match e
    case MetadataEvent(m, now) =>
      MetadataStep(s.model, Corrected(m, s.arm.dropped, s.rate), s.play.written, s.play.read, now).1
    case AckEvent(now) => TickStep(s.model, now).1
    case _ => NoBoundary
  }

  // Everything but output leaves the record alone and only ever uses frames up.
  lemma OthersOnlyUseUp(s: State, e: Event)
    requires Good(s) && WellFormed(s, e) && !e.FillEvent?
    ensures Next(s, e).out == s.out
    ensures forall f :: Gone(s.play, f) ==> Gone(Next(s, e).play, f)
    ensures Clean(s.play) && !TakesOverflow(s, e) ==> Clean(Next(s, e).play)
  {
    match e
    case EnqueueEvent(buf, now) =>
      if FitsRing(s, |buf|) && !IsPadding(s, buf) {
        ArriveKeeps(s, |buf|);
        if Clean(s.play) && !TakesOverflow(s, e) {
          ArriveStaysClean(s, |buf|);
        }
      }
    case MetadataEvent(m, now) => DecisionsOnlyUseUp(s, DecisionOf(s, e));
    case AckEvent(now) => DecisionsOnlyUseUp(s, DecisionOf(s, e));
    case _ =>
  }

  lemma FillDoesNotRepeat(s: State, frames: nat)
    requires Good(s) && NoRepeat(s) && Clean(s.play)
    ensures NoRepeat(Fill(s, frames)) && Clean(Fill(s, frames).play)
  {
    StretchPlaysWhatItUsesUp(s.play, frames, Capacity(s));
    var rs := Steps(s.play, frames).recs;
    var out := s.out + rs;
    forall i, f | 0 <= i < |out| && Emits(out[i], f)
      ensures Gone(Steps(s.play, frames).next, f)
    {
      if i >= |s.out| {
        assert Emits(rs[i - |s.out|], f);
      }
    }
    forall i, j, f | 0 <= i < j < |out| && Emits(out[i], f)
      ensures !Emits(out[j], f)
    {
      if i >= |s.out| {
        assert Emits(rs[i - |s.out|], f);
      } else {
        assert Emits(s.out[i], f) && Gone(s.play, f);
        assert j >= |s.out| ==> out[j] == rs[j - |s.out|];
        assert j < |s.out| ==> out[j] == s.out[j];
      }
    }
  }

  lemma PlayedByFill(s: State, frames: nat, f: nat)
    requires PlayedIn(s.out, f) || exists i :: 0 <= i < frames && Emits(Steps(s.play, frames).recs[i], f)
    ensures PlayedIn(Fill(s, frames).out, f)
  {
    var rs := Steps(s.play, frames).recs;
    if PlayedIn(s.out, f) {
      var i :| 0 <= i < |s.out| && Emits(s.out[i], f);
      assert Emits((s.out + rs)[i], f);
    } else {
      var i :| 0 <= i < frames && Emits(rs[i], f);
      assert Emits((s.out + rs)[|s.out| + i], f);
    }
  }

  lemma BoundariesConsumeNothing(p: Play, d: Decision, a: Arm, X: nat, rate: nat)
    requires d.Fade? ==> d.n <= d.at
    ensures var q := Apply(p, d); q.sched && q.at < q.b ==> p.sched && q.at == p.at && q.b == p.b
    ensures var q := FadeChance(p, a, X, rate); q.sched && q.at < q.b ==> p.sched && q.at == p.at && q.b == p.b
  {
  }

  // No event but output consumes incoming frames.
  lemma OthersConsumeNothing(s: State, e: Event, f: nat)
    requires !e.FillEvent? && Next(s, e).play.sched && Next(s, e).play.at <= f < Next(s, e).play.b
    ensures s.play.sched && s.play.at <= f < s.play.b && Next(s, e).out == s.out
  {
    BoundariesConsumeNothing(s.play, DecisionOf(s, e), s.arm, s.controls.X, s.rate);
  }

  // What was consumed as incoming before an event and still counts after it stays in the record.
  lemma NextKeepsIncomingHeard(s: State, e: Event)
    requires IncomingHeard(s)
    ensures IncomingHeard(Next(s, e))
  {
    var n := Next(s, e);
    if n.play.sched {
      forall f: nat | n.play.at <= f < n.play.b
        ensures PlayedIn(n.out, f)
      {
        if e.FillEvent? {
          StretchPlaysTheIncoming(s.play, e.frames, f);
          PlayedByFill(s, e.frames, f);
        } else {
          OthersConsumeNothing(s, e, f);
        }
      }
    }
  }

  // Output from a read head that is not clean starts with a frame that is in the record already.
  lemma UncleanFillRepeats(s: State, frames: nat)
    requires Good(s) && IncomingHeard(s) && !Clean(s.play) && frames > 0
    ensures !EachFrameOnce(Fill(s, frames).out)
  {
    var f := s.play.read;
    UncleanHeadRepeats(s.play, Capacity(s));
    assert PlayedIn(s.out, f);
    var i :| 0 <= i < |s.out| && Emits(s.out[i], f);
    var out := Fill(s, frames).out;
    assert out[i] == s.out[i] && out[|s.out|] == Step(s.play).rec;
    assert Emits(out[i], f) && Emits(out[|s.out|], f);
  }

  lemma RepeatsStay(out: seq<Rec>, longer: seq<Rec>)
    requires out <= longer && EachFrameOnce(longer)
    ensures EachFrameOnce(out)
  {
    assert forall i | 0 <= i < |out| :: out[i] == longer[i];
  }

  // Whenever output is asked for, the read head is not inside the incoming frames already mixed in.
  predicate HeadCleanAtOutput(s: State, es: seq<Event>)
    decreases |es|
  {
    es == [] ||
    ((es[0].FillEvent? && es[0].frames > 0 ==> Clean(s.play)) && HeadCleanAtOutput(Next(s, es[0]), es[1..]))
  }

  /** In any interleaving of deliveries, flushes, metadata, live crossfade changes, acknowledgements and output,
      a frame is played twice exactly when output is asked for while the read head stands inside the incoming
      frames that a fade has already mixed in. */
  lemma {:induction false} FramesRepeatExactlyFromAnUncleanHead(s: State, es: seq<Event>)
    requires Good(s) && NoRepeat(s) && IncomingHeard(s) && AllWellFormed(s, es)
    ensures EachFrameOnce(Run(s, es).out) <==> HeadCleanAtOutput(s, es)
    ensures HeadCleanAtOutput(s, es) ==> NoRepeat(Run(s, es))
    decreases |es|
  {
    if es == [] {
    } else {
      var e, n := es[0], Next(s, es[0]);
      NextKeepsGood(s, e);
      NextKeepsIncomingHeard(s, e);
      if e.FillEvent? && e.frames > 0 && !Clean(s.play) {
        UncleanFillRepeats(s, e.frames);
        RunOutputOnlyGrows(n, es[1..]);
        if EachFrameOnce(Run(s, es).out) {
          RepeatsStay(n.out, Run(s, es).out);
        }
      } else {
        EventDoesNotRepeat(s, e);
        FramesRepeatExactlyFromAnUncleanHead(n, es[1..]);
      }
    }
  }

  lemma EventDoesNotRepeat(s: State, e: Event)
    requires Good(s) && NoRepeat(s) && WellFormed(s, e) && (e.FillEvent? && e.frames > 0 ==> Clean(s.play))
    ensures NoRepeat(Next(s, e))
  {
    if e.FillEvent? {
      if Clean(s.play) {
        FillDoesNotRepeat(s, e.frames);
      } else {
        assert Next(s, e).out == s.out && Next(s, e).play == s.play;
      }
    } else {
      OthersOnlyUseUp(s, e);
    }
  }

  // No delivery overflows the ring.
  predicate Orderly(s: State, es: seq<Event>)
    decreases |es|
  {
    es == [] || (!TakesOverflow(s, es[0]) && Orderly(Next(s, es[0]), es[1..]))
  }

  /** Only an overflow can put the read head there. */
  lemma {:induction false} OrderlyRunsAreClean(s: State, es: seq<Event>)
    requires Good(s) && Clean(s.play) && AllWellFormed(s, es) && Orderly(s, es)
    ensures HeadCleanAtOutput(s, es)
    decreases |es|
  {
    if es == [] {
    } else {
      NextKeepsGood(s, es[0]);
      if es[0].FillEvent? {
        StepsKeepInv(s.play, es[0].frames, Capacity(s));
      } else {
        OthersOnlyUseUp(s, es[0]);
      }
      OrderlyRunsAreClean(Next(s, es[0]), es[1..]);
    }
  }

  // --- No frame is lost without a reason -------------------------------------------------------------------

  // Moving the read head past what a fade has mixed in gives up the outgoing frames before the boundary.
  predicate ParkSkips(p: Play, f: nat) {
    p.sched && p.kB > 0 && p.read <= f < p.at
  }

  // A cut or a re-scheduled fade gives up those, a cut also the rest of what lies before its frame.
  predicate DecisionSkips(p: Play, d: Decision, f: nat) {
    d != NoBoundary && (ParkSkips(p, f) || (d.Cut? && Park(p).read <= f < Min(d.at, p.written)))
  }

  // A delivery gives up those if it re-anchors the fade, and the oldest unplayed frames if it overflows.
  predicate DeliverySkips(s: State, frames: nat, f: nat) {
    var p := FadeChance(s.play, s.arm, s.controls.X, s.rate);
    || (SpendsChance(s.arm) && NearTheFade(s.play, s.arm, s.rate) && ParkSkips(s.play, f))
    || (p.read <= f < MakeRoom(p, frames, Capacity(s)).read && !Gone(p, f))
  }

  predicate Skips(s: State, e: Event, f: nat) {
    match e
    case EnqueueEvent(buf, _) => FitsRing(s, |buf|) && !IsPadding(s, buf) && DeliverySkips(s, |buf|, f)
    case MetadataEvent(_, _) => DecisionSkips(s.play, DecisionOf(s, e), f)
    case AckEvent(_) => DecisionSkips(s.play, DecisionOf(s, e), f)
    case _ => false
  }

  lemma DeliveriesSkipExactly(s: State, frames: nat, f: nat)
    requires Good(s) && frames <= Capacity(s) && !Gone(s.play, f)
    ensures Gone(Arrive(s, frames), f) <==> DeliverySkips(s, frames, f)
    ensures Gone(Arrive(s, frames), f) ==> f < Arrive(s, frames).read
  {
    WhatBoundariesSkip(s.play, NoBoundary, s.controls.X, s.rate, Capacity(s), f);
    FadeChanceKeeps(s.play, s.arm, s.controls.X, s.rate, Capacity(s));
  }

  lemma DecisionsSkipExactly(s: State, d: Decision, f: nat)
    requires Good(s) && (d.Fade? ==> d.n <= d.at) && !Gone(s.play, f)
    ensures Gone(Apply(s.play, d), f) <==> DecisionSkips(s.play, d, f)
    ensures Gone(Apply(s.play, d), f) ==> f < Apply(s.play, d).read
  {
    WhatBoundariesSkip(s.play, d, 0, s.rate, Capacity(s), f);
  }

  /** Exactly which frames an event other than output gives up unplayed: by a re-anchor, by an overflow, by a
      re-scheduled fade or by a cut. */
  lemma EventsSkipExactly(s: State, e: Event, f: nat)
    requires Good(s) && WellFormed(s, e) && !e.FillEvent?
    ensures Skips(s, e, f) <==> Gone(Next(s, e).play, f) && !Gone(s.play, f)
    ensures Skips(s, e, f) ==> f < Next(s, e).play.read
  {
    if Gone(s.play, f) {
    } else if e.EnqueueEvent? && FitsRing(s, |e.buf|) && !IsPadding(s, e.buf) {
      DeliveriesSkipExactly(s, |e.buf|, f);
    } else {
      DecisionsSkipExactly(s, DecisionOf(s, e), f);
    }
  }

  // Some event of the run gives frame f up.
  predicate GivenUp(s: State, es: seq<Event>, f: nat)
    decreases |es|
  {
    es != [] && (Skips(s, es[0], f) || GivenUp(Next(s, es[0]), es[1..], f))
  }

  lemma PlayedStays(out: seq<Rec>, longer: seq<Rec>, f: nat)
    requires out <= longer && PlayedIn(out, f)
    ensures PlayedIn(longer, f)
  {
    var i :| 0 <= i < |out| && Emits(out[i], f);
    assert longer[i] == out[i];
  }

  lemma EventAccounts(s: State, e: Event, f: nat)
    requires Good(s) && WellFormed(s, e) && IncomingHeard(s) && s.play.read <= f < Next(s, e).play.read
    ensures PlayedIn(Next(s, e).out, f) || Skips(s, e, f)
  {
    if e.FillEvent? {
      StretchSkipsNothing(s.play, e.frames, Capacity(s), f);
      PlayedByFill(s, e.frames, f);
    } else {
      OthersOnlyUseUp(s, e);
      EventsSkipExactly(s, e, f);
      if Gone(s.play, f) {
        assert PlayedIn(s.out, f);
      }
    }
  }

  /** Every frame that the read head of a run moves over is in the output, or was given up by a re-anchor, an
      overflow, a re-scheduled fade or a cut of that run. */
  lemma {:induction false} NothingIsLostWithoutAReason(s: State, es: seq<Event>, f: nat)
    requires Good(s) && IncomingHeard(s) && AllWellFormed(s, es)
    requires s.play.read <= f < Run(s, es).play.read
    ensures PlayedIn(Run(s, es).out, f) || GivenUp(s, es, f)
    decreases |es|
  {
    if es == [] {
    } else {
      var n := Next(s, es[0]);
      NextKeepsGood(s, es[0]);
      NextKeepsIncomingHeard(s, es[0]);
      if f < n.play.read {
        EventAccounts(s, es[0], f);
        RunOutputOnlyGrows(n, es[1..]);
        if PlayedIn(n.out, f) {
          PlayedStays(n.out, Run(s, es).out, f);
        }
      } else {
        NothingIsLostWithoutAReason(n, es[1..], f);
      }
    }
  }

  // What is gone and was not played is never played.
  lemma {:induction false} GoneIsNotPlayed(s: State, es: seq<Event>, f: nat)
    requires Good(s) && AllWellFormed(s, es) && HeadCleanAtOutput(s, es)
    requires Gone(s.play, f) && !PlayedIn(s.out, f)
    ensures !PlayedIn(Run(s, es).out, f)
    decreases |es|
  {
    if es == [] {
    } else {
      var e, n := es[0], Next(s, es[0]);
      NextKeepsGood(s, e);
      if e.FillEvent? {
        FillLeavesGone(s, e.frames, f);
      } else {
        OthersOnlyUseUp(s, e);
      }
      GoneIsNotPlayed(n, es[1..], f);
    }
  }

  lemma FillLeavesGone(s: State, frames: nat, f: nat)
    requires Good(s) && (frames > 0 ==> Clean(s.play)) && Gone(s.play, f) && !PlayedIn(s.out, f)
    ensures Gone(Fill(s, frames).play, f) && !PlayedIn(Fill(s, frames).out, f)
  {
    var rs := Steps(s.play, frames).recs;
    if frames > 0 {
      StretchPlaysWhatItUsesUp(s.play, frames, Capacity(s));
    }
    forall i | 0 <= i < |s.out + rs|
      ensures !Emits((s.out + rs)[i], f)
    {
      if i < |s.out| {
        assert !Emits(s.out[i], f);
      } else {
        assert !Emits(rs[i - |s.out|], f);
      }
    }
  }

  /** Played and given up exclude each other: unless output repeats itself, a frame that was given up is never
      played, before or after. */
  lemma {:induction false} GivenUpIsNotPlayed(s: State, es: seq<Event>, f: nat)
    requires Good(s) && NoRepeat(s) && AllWellFormed(s, es) && HeadCleanAtOutput(s, es) && GivenUp(s, es, f)
    ensures !PlayedIn(Run(s, es).out, f)
    decreases |es|
  {
    var e, n := es[0], Next(s, es[0]);
    NextKeepsGood(s, e);
    if Skips(s, e, f) {
      OthersOnlyUseUp(s, e);
      EventsSkipExactly(s, e, f);
      GoneIsNotPlayed(n, es[1..], f);
    } else {
      EventDoesNotRepeat(s, e);
      GivenUpIsNotPlayed(n, es[1..], f);
    }
  }

  /** The whole account of a player from its start on: every frame behind its read head was played or given up
      by an event that says so, and never both unless output repeats itself. */
  lemma EveryFrameIsPlayedOrGivenUp(s: State, rate: nat, channels: nat, crossfadeMs: nat, nowMs: int,
                                    es: seq<Event>, f: nat)
    requires rate > 0 && crossfadeMs <= MAX_CROSSFADE_MS
    requires s == Started(rate, channels, crossfadeMs, nowMs) && AllWellFormed(s, es) && f < Run(s, es).play.read
    ensures PlayedIn(Run(s, es).out, f) || GivenUp(s, es, f)
    ensures HeadCleanAtOutput(s, es) ==> !(PlayedIn(Run(s, es).out, f) && GivenUp(s, es, f))
    ensures HeadCleanAtOutput(s, es) <==> EachFrameOnce(Run(s, es).out)
  {
    StartedIsGood(rate, channels, crossfadeMs, nowMs);
    NothingIsLostWithoutAReason(s, es, f);
    FramesRepeatExactlyFromAnUncleanHead(s, es);
    if HeadCleanAtOutput(s, es) && GivenUp(s, es, f) {
      GivenUpIsNotPlayed(s, es, f);
    }
  }
}
