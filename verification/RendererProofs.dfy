/** What every step of the renderer keeps, and what it plays. */
module RendererProofs {
  import opened Boundary
  import opened Renderer

  // --- One output frame -------------------------------------------------------------------------------

  // What playing one frame from p may do: keep the invariant, never step back, use up exactly what it plays,
  // never what was used up already, and never withdraw the acknowledgement frontier.
  ghost predicate FairTurn(p: Play, t: Turn, capacity: nat) {
    && Inv(t.next, capacity) && Clean(t.next)
    && t.next.written == p.written && p.read <= t.next.read
    && (forall f :: Gone(t.next, f) <==> Gone(p, f) || Emits(t.rec, f))
    && (forall f :: !(Gone(p, f) && Emits(t.rec, f)))
    && (t.rec.Both? ==> t.rec.a != t.rec.b)
    && ((p.sched && p.read > p.at) || (Frontier(p) <= Frontier(t.next) && (t.next.sched ==> t.next.read <= t.next.at)))
  }

  // The same for a change that plays nothing.
  ghost predicate FairChange(p: Play, q: Play, capacity: nat) {
    && Inv(q, capacity) && Clean(q) && q.written == p.written && p.read <= q.read
    && (forall f :: Gone(q, f) <==> Gone(p, f))
    && ((p.sched && p.read > p.at) || (Frontier(p) <= Frontier(q) && (q.sched ==> q.read <= q.at)))
  }

  lemma CancelIsFair(p: Play, capacity: nat)
    requires Inv(p, capacity) && Clean(p)
    ensures FairChange(p, Cancel(p), capacity)
  {
  }

  lemma MarkDumpIsFair(p: Play, capacity: nat)
    requires Inv(p, capacity) && Clean(p)
    ensures FairChange(p, MarkDump(p), capacity)
  {
  }

  lemma FinishIsFair(p: Play, capacity: nat)
    requires Inv(p, capacity) && p.sched && p.read <= p.at
    ensures FairChange(p, Finish(p), capacity)
  {
  }

  lemma PlainIsFair(p: Play, capacity: nat)
    requires Inv(p, capacity) && Clean(p) && (p.sched ==> p.read < p.start)
    ensures FairTurn(p, PlainFrame(p), capacity)
  {
  }

  lemma OutgoingUsesUp(p: Play, capacity: nat)
    requires Inv(p, capacity) && InFade(p) && p.read < p.at && p.read < p.written
    ensures var t := TakeIncoming(p).(read := p.read + 1);
      && Inv(t, capacity) && t.read <= t.at
      && forall f :: Gone(t, f) <==> Gone(p, f) || Emits(OutgoingRec(p), f)
  {
  }

  lemma OutgoingIsFair(p: Play, capacity: nat)
    requires Inv(p, capacity) && InFade(p) && p.read < p.at
    ensures FairTurn(p, OutgoingFrame(p), capacity)
  {
    if p.read < p.written {
      OutgoingUsesUp(p, capacity);
      var t := TakeIncoming(p).(read := p.read + 1);
      FinishIsFair(t, capacity);
      assert OutgoingFrame(p) == Turn(Finish(t), OutgoingRec(p));
      assert Frontier(p) <= Frontier(t);
      assert forall f: nat :: Emits(OutgoingRec(p), f) ==> p.read <= f && !(p.at <= f < p.b);
    }
  }

  lemma IncomingIsFair(p: Play, capacity: nat)
    requires Inv(p, capacity) && InFade(p) && p.read == p.at
    ensures FairTurn(p, IncomingFrame(p), capacity)
  {
    if p.b < p.written {
      var t := TakeIncoming(p);
      assert Inv(t, capacity);
      assert forall f :: Gone(t, f) <==> Gone(p, f) || Emits(IncomingFrame(p).rec, f);
      FinishIsFair(t, capacity);
    }
  }

  /** One output frame plays exactly the frames it uses up, none of which was used up before. */
  lemma StepIsFair(p: Play, capacity: nat)
    requires Inv(p, capacity) && Clean(p)
    ensures FairTurn(p, Step(p), capacity)
  {
    CancelIsFair(p, capacity);
    var q := Cancel(p);
    if !InFade(q) {
      PlainIsFair(q, capacity);
    } else {
      MarkDumpIsFair(q, capacity);
      var d := MarkDump(q);
      if d.read < d.at {
        OutgoingIsFair(d, capacity);
      } else if d.kB < d.n {
        IncomingIsFair(d, capacity);
      } else {
        FinishIsFair(d, capacity);
        PlainIsFair(Finish(d), capacity);
      }
    }
  }

  // Even a read head that is not clean keeps the invariant and never steps back.
  lemma StepKeepsInv(p: Play, capacity: nat)
    requires Inv(p, capacity)
    ensures Inv(Step(p).next, capacity) && Clean(Step(p).next)
    ensures Step(p).next.written == p.written && p.read <= Step(p).next.read
  {
    if Clean(p) {
      StepIsFair(p, capacity);
    }
  }

  lemma {:induction false} StepsKeepInv(p: Play, k: nat, capacity: nat)
    requires Inv(p, capacity)
    ensures Inv(Steps(p, k).next, capacity) && (Clean(p) ==> Clean(Steps(p, k).next))
    ensures Steps(p, k).next.written == p.written && p.read <= Steps(p, k).next.read
    decreases k
  {
    if k == 0 {
    } else {
      StepKeepsInv(p, capacity);
      StepsKeepInv(Step(p).next, k - 1, capacity);
    }
  }

  lemma ApplyKeepsInv(p: Play, d: Decision, capacity: nat)
    requires Inv(p, capacity) && (d.Fade? ==> d.n <= d.at)
    ensures Inv(Apply(p, d), capacity)
    ensures p.read <= Apply(p, d).read
    ensures forall f :: Gone(p, f) ==> Gone(Apply(p, d), f)
    ensures Clean(p) ==> Clean(Apply(p, d))
    ensures d.Cut? ==> !Apply(p, d).sched && Apply(p, d).read >= Min(d.at, p.written)
  {
  }

  lemma ReanchorKeepsInv(p: Play, X: nat, rate: nat, capacity: nat)
    requires Inv(p, capacity) && p.sched
    ensures Inv(Reanchor(p, X, rate), capacity)
    ensures p.read <= Reanchor(p, X, rate).read
    ensures forall f :: Gone(p, f) ==> Gone(Reanchor(p, X, rate), f)
    ensures Clean(Reanchor(p, X, rate))
  {
  }

  /** What a cut and a scheduled fade are: playing goes on at the cut, or at what has been delivered of it, without
      a fade; or the fade ends at its frame with both ramps of its length, and nothing of it heard yet. Before
      either, the read head moves past what an earlier fade has mixed in. */
  lemma BoundariesTakeEffect(p: Play, d: Decision, capacity: nat)
    requires Inv(p, capacity) && (d.Fade? ==> d.n <= d.at)
    ensures var q := Apply(p, d);
      var head := if p.sched && p.kB > 0 && p.b > p.read then p.b else p.read;
      && q.written == p.written
      && (d.Cut? ==> !q.sched && q.read == Max(head, if d.at < p.written then d.at else p.written)
                     && q.dumps == p.dumps + 1)
      && (d.Fade? ==> q.sched && q.read == head && q.at == d.at && q.b == d.at && q.n == d.n && q.nA == d.n
                      && q.start + d.n == d.at && q.kB == 0 && !q.dumped && q.dumps == p.dumps)
      && (d == NoBoundary ==> q == p)
  {
  }

  /** A fade that has not started when the incoming track's first real audio arrives moves there if at least
      200 ms of outgoing frames are left before that audio, and is dropped otherwise. Moved, it ends where the audio
      starts, keeps its incoming length and the read head, and fades the outgoing over the full crossfade length or,
      when fewer frames are left, over exactly those. */
  lemma UnstartedFadesMoveOrDrop(p: Play, X: nat, rate: nat, capacity: nat)
    requires Inv(p, capacity) && p.sched && p.read < p.start
    ensures var q := Reanchor(p, X, rate);
      && q.read == p.read && q.written == p.written && q.fades == p.fades && q.dumps == p.dumps
      && (q.sched <==> p.written - p.read >= rate * 200 / 1000)
      && (q.sched ==>
            && q.at == p.written && q.b == p.written && q.kB == 0 && q.n == p.n
            && q.read <= q.start && q.start + q.nA == q.at
            && q.nA == if X < p.written - p.read then X else p.written - p.read)
  {
  }

  /** One that has started is never dropped. It moves to the new audio with its incoming side untouched, the read
      head goes past what was mixed in as incoming, and the outgoing side ends at the new boundary. */
  lemma StartedFadesMove(p: Play, X: nat, rate: nat, capacity: nat)
    requires Inv(p, capacity) && p.sched && p.start <= p.read
    ensures var q := Reanchor(p, X, rate);
      && q.sched && q.at == p.written && q.b == p.written && q.kB == 0 && q.n == p.n && !q.dumped
      && q.read == (if p.kB > 0 && p.b > p.read then p.b else p.read)
      && q.written == p.written && q.fades == p.fades && q.dumps == p.dumps
      && (q.read < q.at ==> q.start <= q.read && q.start + q.nA == q.at)
      && (q.read == q.at ==> q.start == q.at && q.nA == 1)
  {
  }

  /** Room is made exactly when a delivery does not fit behind the read head, and then no more than it needs. */
  lemma RoomIsMadeExactly(p: Play, frames: nat, capacity: nat)
    requires Inv(p, capacity) && frames <= capacity
    ensures var q := Deliver(MakeRoom(p, frames, capacity), frames);
      q == p.(written := p.written + frames,
              read := if p.read + capacity < p.written + frames then p.written + frames - capacity else p.read)
  {
  }

  // --- Nothing is played twice, and nothing is lost while playing -------------------------------------

  /** A stretch of output plays every frame it uses up exactly once, whatever its length: what is gone
      afterwards is what was gone before and what was played, and nothing was played that was gone. */
  lemma {:induction false} StretchPlaysWhatItUsesUp(p: Play, k: nat, capacity: nat)
    requires Inv(p, capacity) && Clean(p)
    ensures Inv(Steps(p, k).next, capacity) && Clean(Steps(p, k).next)
    ensures forall f :: Gone(Steps(p, k).next, f) <==>
      Gone(p, f) || exists i :: 0 <= i < k && Emits(Steps(p, k).recs[i], f)
    ensures forall i, f | 0 <= i < k && Emits(Steps(p, k).recs[i], f) :: !Gone(p, f)
    ensures forall i, j, f | 0 <= i < j < k && Emits(Steps(p, k).recs[i], f) :: !Emits(Steps(p, k).recs[j], f)
    ensures forall i | 0 <= i < k && Steps(p, k).recs[i].Both? :: Steps(p, k).recs[i].a != Steps(p, k).recs[i].b
    decreases k
  {
    if k == 0 {
    } else {
      StepIsFair(p, capacity);
      var t := Step(p);
      StretchPlaysWhatItUsesUp(t.next, k - 1, capacity);
      var rs, tail := Steps(p, k).recs, Steps(t.next, k - 1).recs;
      assert forall i | 0 < i < k :: rs[i] == tail[i - 1];
      forall f | Gone(Steps(p, k).next, f) && !Gone(p, f)
        ensures exists i :: 0 <= i < k && Emits(rs[i], f)
      {
        if Emits(t.rec, f) {
          assert Emits(rs[0], f);
        } else {
          var i :| 0 <= i < k - 1 && Emits(tail[i], f);
          assert Emits(rs[i + 1], f);
        }
      }
      forall i, f | 0 <= i < k && Emits(rs[i], f)
        ensures Gone(Steps(p, k).next, f) && !Gone(p, f)
      {
        if i > 0 {
          assert Emits(tail[i - 1], f);
        }
      }
      forall i, j, f | 0 <= i < j < k && Emits(rs[i], f)
        ensures !Emits(rs[j], f)
      {
        if i == 0 {
          assert Gone(t.next, f);
        }
      }
    }
  }

  // Nothing behind the read head is ever played.
  lemma {:induction false} StretchPlaysFromTheReadHead(p: Play, k: nat, capacity: nat)
    requires Inv(p, capacity)
    ensures forall i, f | 0 <= i < k && Emits(Steps(p, k).recs[i], f) :: p.read <= f
    decreases k
  {
    if k == 0 {
    } else {
      StepPlaysFromTheReadHead(p, capacity);
      StepKeepsInv(p, capacity);
      StretchPlaysFromTheReadHead(Step(p).next, k - 1, capacity);
      assert forall i | 0 < i < k :: Steps(p, k).recs[i] == Steps(Step(p).next, k - 1).recs[i - 1];
    }
  }

  lemma StepPlaysFromTheReadHead(p: Play, capacity: nat)
    requires Inv(p, capacity)
    ensures forall f | Emits(Step(p).rec, f) :: p.read <= f
  {
    if Clean(p) {
      StepIsFair(p, capacity);
    }
  }

  // From a read head that is not clean the next output frame is one that was used up.
  lemma UncleanHeadRepeats(p: Play, capacity: nat)
    requires Inv(p, capacity) && !Clean(p)
    ensures Step(p).rec == Plain(p.read) && p.at <= p.read < p.b
  {
  }

  /** Delivering keeps the invariant even when room has to be made, and making room leaves the read head
      clean exactly when it does not land inside the incoming frames already mixed in. */
  lemma DeliveryKeepsInv(p: Play, frames: nat, capacity: nat)
    requires Inv(p, capacity) && frames <= capacity
    ensures Inv(Deliver(MakeRoom(p, frames, capacity), frames), capacity)
    ensures Clean(p) && !Overflows(p, frames, capacity) ==> Clean(Deliver(MakeRoom(p, frames, capacity), frames))
    ensures Overflows(p, frames, capacity) ==>
      (Clean(Deliver(MakeRoom(p, frames, capacity), frames)) <==>
         !(p.sched && p.at < p.written + frames - capacity < p.b))
    ensures forall f :: Gone(p, f) ==> Gone(Deliver(MakeRoom(p, frames, capacity), frames), f)
  {
  }

  /** What a boundary or a re-anchor gives up without playing it: a fade and a re-anchor only the outgoing
      tail of a fade whose incoming side has already been heard, a cut also everything before its frame. */
  lemma WhatBoundariesSkip(p: Play, d: Decision, X: nat, rate: nat, capacity: nat, f: nat)
    requires Inv(p, capacity) && (d.Fade? ==> d.n <= d.at) && !Gone(p, f)
    ensures d.Fade? ==> (Gone(Apply(p, d), f) <==> p.sched && p.kB > 0 && f < p.at)
    ensures d.Cut? ==>
      (Gone(Apply(p, d), f) <==> (p.sched && p.kB > 0 && f < p.at) || f < Min(d.at, p.written))
    ensures p.sched ==> (Gone(Reanchor(p, X, rate), f) <==> p.kB > 0 && f < p.at)
  {
  }

  // The incoming frames that a fade in progress has consumed were consumed by being played.
  lemma {:induction false} StretchPlaysTheIncoming(p: Play, k: nat, f: nat)
    requires Steps(p, k).next.sched && Steps(p, k).next.at <= f < Steps(p, k).next.b
    ensures (p.sched && p.at <= f < p.b) || exists i :: 0 <= i < k && Emits(Steps(p, k).recs[i], f)
    decreases k
  {
    if k == 0 {
    } else {
      var t := Step(p);
      StretchPlaysTheIncoming(t.next, k - 1, f);
      if t.next.sched && t.next.at <= f < t.next.b {
        StepPlaysTheIncoming(p, f);
        assert Emits(t.rec, f) ==> Emits(Steps(p, k).recs[0], f);
      } else {
        var i :| 0 <= i < k - 1 && Emits(Steps(t.next, k - 1).recs[i], f);
        assert Emits(Steps(p, k).recs[i + 1], f);
      }
    }
  }

  lemma StepPlaysTheIncoming(p: Play, f: nat)
    requires Step(p).next.sched && Step(p).next.at <= f < Step(p).next.b
    ensures (p.sched && p.at <= f < p.b) || Emits(Step(p).rec, f)
  {
  }

  /** Playing skips nothing: every frame the read head moves over is played, or was mixed in as incoming before,
      even from a read head that is not clean. */
  lemma StretchSkipsNothing(p: Play, k: nat, capacity: nat, f: nat)
    requires Inv(p, capacity) && p.read <= f < Steps(p, k).next.read
    ensures (p.sched && p.at <= f < p.b) || exists i :: 0 <= i < k && Emits(Steps(p, k).recs[i], f)
  {
    if Clean(p) {
      StretchPlaysWhatItUsesUp(p, k, capacity);
      assert Gone(Steps(p, k).next, f);
    } else {
      var q := Cancel(p);
      assert Step(p) == Step(q);
      assert Steps(p, k) == Steps(q, k);
      StretchPlaysWhatItUsesUp(q, k, capacity);
      assert Gone(Steps(q, k).next, f) && !Gone(q, f);
    }
  }

  // --- Flow control -----------------------------------------------------------------------------------

  /** Playing never moves the acknowledgement frontier back while the read head has not passed the boundary. */
  lemma {:induction false} FrontierNeverMovesBack(p: Play, k: nat, capacity: nat)
    requires Inv(p, capacity) && (p.sched ==> p.read <= p.at)
    ensures Frontier(p) <= Frontier(Steps(p, k).next)
    decreases k
  {
    if k == 0 {
    } else {
      StepIsFair(p, capacity);
      FrontierNeverMovesBack(Step(p).next, k - 1, capacity);
    }
  }

  // Once nothing can be played, nothing changes until something arrives.
  lemma SilenceLasts(p: Play)
    requires Step(p).rec.Silent?
    ensures Step(Step(p).next) == Turn(Step(p).next, Silent)
  {
  }

  lemma {:induction false} SilenceLastsOn(p: Play, k: nat)
    requires Step(p) == Turn(p, Silent)
    ensures Steps(p, k).next == p
    ensures forall i | 0 <= i < k :: Steps(p, k).recs[i] == Silent
    decreases k
  {
    if k == 0 {
    } else {
      SilenceLastsOn(p, k - 1);
    }
  }

  // Everything delivered is played or passed, also once a boundary has parked the read head, and is within the
  // acknowledgement frontier.
  predicate Dry(p: Play) {
    p.written <= Park(p).read && p.written <= Frontier(p)
  }

  lemma SilentMeansDry(p: Play, capacity: nat)
    requires Inv(p, capacity) && Step(p) == Turn(p, Silent)
    ensures Dry(p)
  {
  }

  /** Whenever silence had to be played, the renderer is dry, in any phase: it never makes an acknowledgement
      wait for the lead target. */
  lemma {:induction false} RunningDryOpensTheGate(p: Play, k: nat, i: nat, capacity: nat)
    requires Inv(p, capacity) && i < k && Steps(p, k).recs[i].Silent?
    ensures Dry(Steps(p, k).next)
    decreases k
  {
    var t := Step(p);
    StepKeepsInv(p, capacity);
    assert Steps(p, k) == Stretch(Steps(t.next, k - 1).next, [t.rec] + Steps(t.next, k - 1).recs);
    if i == 0 {
      SilenceLasts(p);
      SilenceLastsOn(t.next, k - 1);
      SilentMeansDry(t.next, capacity);
    } else {
      RunningDryOpensTheGate(t.next, k - 1, i - 1, capacity);
    }
  }
}
