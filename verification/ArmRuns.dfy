/** How an arm goes over a run: it ends after bounded input, and moves the fade at most once. */
module ArmRuns {
  import opened Audio
  import opened Renderer
  import opened Pipeline
  import opened PipelineProofs
  import opened QueueRuns

  // Everything that has been accepted, written or dropped, in frames.
  function Received(s: State): nat {
    s.play.written + s.controls.paddingTotal
  }

  // --- Arms end --------------------------------------------------------------------------------------------

  // What has been received since the arm was opened, when 'received' frames had been.
  predicate Counts(s: State, received: nat) {
    Received(s) == received + (s.play.written - s.arm.frame) + s.arm.dropped
  }

  lemma NextCounts(s: State, e: Event, received: nat)
    requires Good(s) && WellFormed(s, e) && Counts(s, received) && !Rearms(s, e)
    ensures Counts(Next(s, e), received)
  {
    NextKeepsGood(s, e);
  }

  lemma {:induction false} ArmsOnlyAdvance(s: State, es: seq<Event>)
    ensures s.arm.number <= Run(s, es).arm.number
    decreases |es|
  {
    if es == [] {
    } else {
      ArmsOnlyAdvance(Next(s, es[0]), es[1..]);
    }
  }

  lemma {:induction false} RunCounts(s: State, es: seq<Event>, received: nat)
    requires Good(s) && AllWellFormed(s, es) && Counts(s, received) && Run(s, es).arm.number == s.arm.number
    ensures Counts(Run(s, es), received)
    decreases |es|
  {
    if es == [] {
    } else {
      ArmsOnlyAdvance(Next(s, es[0]), es[1..]);
      NextKeepsGood(s, es[0]);
      NextCounts(s, es[0], received);
      RunCounts(Next(s, es[0]), es[1..], received);
    }
  }

  /** Every arm ends after bounded input: once 57 s of frames have been accepted since an event opened it, an arm
      that no newer one has replaced is closed, whatever mix of audio and padding they were. */
  lemma ArmsEnd(s: State, e: Event, es: seq<Event>)
    requires Good(s) && WellFormed(s, e) && Rearms(s, e) && AllWellFormed(Next(s, e), es)
    requires Run(Next(s, e), es).arm.number == s.arm.number + 1
    ensures var t := Run(Next(s, e), es); t.arm.armed ==> Received(t) < Received(s) + 57 * s.rate
  {
    var n := Next(s, e);
    NextKeepsGood(s, e);
    RunKeepsGood(n, es);
    RunCounts(n, es, Received(s));
  }

  /** The same for the arm that the start of a player opens. */
  lemma TheFirstArmEnds(s: State, rate: nat, channels: nat, crossfadeMs: nat, nowMs: int, es: seq<Event>)
    requires rate > 0 && crossfadeMs <= MAX_CROSSFADE_MS
    requires s == Started(rate, channels, crossfadeMs, nowMs) && AllWellFormed(s, es)
    requires Run(s, es).arm.number == s.arm.number
    ensures Run(s, es).arm.armed ==> Received(Run(s, es)) < 57 * rate
  {
    StartedIsGood(rate, channels, crossfadeMs, nowMs);
    RunKeepsGood(s, es);
    RunCounts(s, es, 0);
  }

  // --- One chance per arm ----------------------------------------------------------------------------------

  // The event delivers audio that may move the fade: the first of the arm after something was dropped.
  predicate TakesChance(s: State, e: Event) {
    e.EnqueueEvent? && FitsRing(s, |e.buf|) && !IsPadding(s, e.buf) && SpendsChance(s.arm)
  }

  // How often a run may have moved the fade under the arm with this number.
  function Chances(s: State, es: seq<Event>, arm: nat): nat
    decreases |es|
  {
    if es == [] then 0
    else (if TakesChance(s, es[0]) && s.arm.number == arm then 1 else 0) + Chances(Next(s, es[0]), es[1..], arm)
  }

  // No event but such a delivery re-anchors; a fade that stays scheduled otherwise keeps its place, unless a
  // decision schedules another.
  lemma OnlyChancesReanchor(s: State, e: Event)
    requires Good(s) && WellFormed(s, e)
    ensures TakesChance(s, e) ==> s.arm.drops > 0 && Next(s, e).arm.reanchored
    ensures Next(s, e).play.sched && Next(s, e).play.at != s.play.at ==>
      TakesChance(s, e) || e.MetadataEvent?
  {
    if e.FillEvent? {
      StepsKeepPlace(s.play, e.frames);
    }
  }

  lemma {:induction false} StepsKeepPlace(p: Play, k: nat)
    ensures Steps(p, k).next.sched ==> Steps(p, k).next.at == p.at
    decreases k
  {
    if k == 0 {
    } else {
      StepsKeepPlace(Step(p).next, k - 1);
    }
  }

  lemma {:induction false} SpentArmsHaveNoChance(s: State, es: seq<Event>, arm: nat)
    requires s.arm.number > arm || (s.arm.number == arm && s.arm.reanchored)
    ensures Chances(s, es, arm) == 0
    decreases |es|
  {
    if es == [] {
    } else {
      SpentArmsHaveNoChance(Next(s, es[0]), es[1..], arm);
    }
  }

  /** An arm moves the fade at most once, over any run, and only after it has dropped something. */
  lemma {:induction false} OneChancePerArm(s: State, es: seq<Event>, arm: nat)
    requires Good(s) && AllWellFormed(s, es)
    ensures Chances(s, es, arm) <= 1
    ensures Chances(s, es, arm) == 1 ==>
      exists i :: 0 <= i < |es| && TakesChance(Run(s, es[..i]), es[i]) && Run(s, es[..i]).arm.number == arm
               && Run(s, es[..i]).arm.drops > 0
    decreases |es|
  {
    if es == [] {
    } else {
      var n := Next(s, es[0]);
      NextKeepsGood(s, es[0]);
      OnlyChancesReanchor(s, es[0]);
      if TakesChance(s, es[0]) && s.arm.number == arm {
        SpentArmsHaveNoChance(n, es[1..], arm);
        assert Run(s, es[..0]) == s;
      } else {
        OneChancePerArm(n, es[1..], arm);
        if Chances(n, es[1..], arm) == 1 {
          var i :| 0 <= i < |es[1..]| && TakesChance(Run(n, es[1..][..i]), es[1..][i])
            && Run(n, es[1..][..i]).arm.number == arm && Run(n, es[1..][..i]).arm.drops > 0;
          assert es[..i + 1][1..] == es[1..][..i];
          assert Run(s, es[..i + 1]) == Run(n, es[1..][..i]);
        }
      }
    }
  }

  // --- What an arm drops, and until when -------------------------------------------------------------------

  predicate Silence(buf: seq<Frame>) {
    forall i, c | 0 <= i < |buf| && 0 <= c < |buf[i]| :: buf[i][c] == 0
  }

  /** What becomes of a delivery. One that is empty or longer than 30 s is refused. A silent one is dropped exactly
      while the arm is open: nothing is written or moved, and it is due 100 ms after the last probe or now. Any
      other is written whole, and queued with the length the log then has. */
  lemma DeliveriesAreWrittenOrDropped(s: State, buf: seq<Frame>, nowMs: int)
    requires Good(s)
    ensures var t := Next(s, EnqueueEvent(buf, nowMs));
      && (|buf| == 0 || |buf| > 30 * s.rate ==> t == s)
      && (0 < |buf| <= 30 * s.rate ==>
            |t.queue.pending| == |s.queue.pending| + 1 && t.queue.pending[..|s.queue.pending|] == s.queue.pending
            && var e := t.queue.pending[|s.queue.pending|];
               && e.end == |t.log| == t.play.written && (e.dropped <==> s.arm.armed && Silence(buf))
               && (e.dropped ==>
                     && t.log == s.log && t.play == s.play
                     && t.arm.dropped == s.arm.dropped + |buf| && t.arm.sawZero
                     && t.controls.paddingTotal == s.controls.paddingTotal + |buf|
                     && e.notBeforeMs == (if s.arm.lastProbeMs > nowMs then s.arm.lastProbeMs else nowMs) + 100)
               && (!e.dropped ==>
                     && t.log == s.log + buf && t.arm.dropped == s.arm.dropped
                     && t.controls.paddingTotal == s.controls.paddingTotal))
  {
    if FitsRing(s, |buf|) && !IsPadding(s, buf) {
      ArriveLength(s, |buf|);
    }
  }

  lemma ArriveLength(s: State, frames: nat)
    ensures Arrive(s, frames).written == s.play.written + frames
  {
  }

  /** The fade is moved by exactly these deliveries: the first audio of an open arm after it has dropped something,
      when the fade ends in the arm and the audio starts at most 2.5 s after that end or 12 s before it. Then room
      is made, and counted, exactly when the audio does not fit within 30 s of the read head. */
  lemma ChancesAreTakenExactly(s: State, buf: seq<Frame>, nowMs: int)
    requires 0 < |buf| <= 30 * s.rate && !(s.arm.armed && Silence(buf))
    ensures var p, a := s.play, s.arm;
      var q := if a.armed && a.sawZero && !a.reanchored && p.sched && p.at >= a.frame
                  && p.written <= p.at + s.rate * 2500 / 1000 && p.at <= p.written + s.rate * 12000 / 1000
               then Reanchor(p, s.controls.X, s.rate) else p;
      var t, full := Next(s, EnqueueEvent(buf, nowMs)), q.written + |buf| > q.read + 30 * s.rate;
      && t.play == q.(written := q.written + |buf|,
                      read := if full then q.written + |buf| - 30 * s.rate else q.read)
      && t.controls.overflows == s.controls.overflows + if full then 1 else 0
  {
  }

  // After this event the arm is still short: it has dropped less than 12 s, or the audio since its boundary that is
  // still to be played has not reached the lead target, nor all audio since then 45 s.
  predicate StillShort(s: State, e: Event) {
    e.EnqueueEvent? && 0 < |e.buf| <= 30 * s.rate ==>
      if Silence(e.buf) then s.arm.dropped + |e.buf| < s.rate * 12000 / 1000
      else
        var t := Next(s, e);
        && t.play.written < Max(t.play.read, t.arm.frame) + t.controls.T + (if t.play.sched then t.play.n else 0)
        && t.play.written < t.arm.frame + 45 * s.rate
  }

  predicate StaysShort(s: State, es: seq<Event>)
    decreases |es|
  {
    es == [] || (StillShort(s, es[0]) && StaysShort(Next(s, es[0]), es[1..]))
  }

  lemma NextStaysOpen(s: State, e: Event)
    requires Good(s) && WellFormed(s, e) && Next(s, e).arm.number == s.arm.number
    ensures s.arm.armed ==> (Next(s, e).arm.armed <==> StillShort(s, e))
    ensures !s.arm.armed ==> !Next(s, e).arm.armed
  {
    if e.EnqueueEvent? && FitsRing(s, |e.buf|) && !IsPadding(s, e.buf) {
      ArriveLength(s, |e.buf|);
    }
  }

  lemma {:induction false} ClosedArmsStayClosed(s: State, es: seq<Event>)
    requires Good(s) && AllWellFormed(s, es) && !s.arm.armed && Run(s, es).arm.number == s.arm.number
    ensures !Run(s, es).arm.armed
    decreases |es|
  {
    if es == [] {
    } else {
      ArmsOnlyAdvance(Next(s, es[0]), es[1..]);
      NextKeepsArmsNumber(s, es[0]);
      NextKeepsGood(s, es[0]);
      NextStaysOpen(s, es[0]);
      ClosedArmsStayClosed(Next(s, es[0]), es[1..]);
    }
  }

  lemma NextKeepsArmsNumber(s: State, e: Event)
    ensures s.arm.number <= Next(s, e).arm.number
  {
  }

  /** Over any run in which no newer arm replaces it, an open arm is still open at the end if and only if it stayed
      short throughout: of what it may drop at every silent delivery, and of both the unplayed lead and the 45 s at
      every other. So audio that has been played already never closes it. */
  lemma {:induction false} ArmsStayOpenExactlyWhileShort(s: State, es: seq<Event>)
    requires Good(s) && AllWellFormed(s, es) && s.arm.armed && Run(s, es).arm.number == s.arm.number
    ensures Run(s, es).arm.armed <==> StaysShort(s, es)
    decreases |es|
  {
    if es == [] {
    } else {
      ArmsOnlyAdvance(Next(s, es[0]), es[1..]);
      NextKeepsArmsNumber(s, es[0]);
      NextKeepsGood(s, es[0]);
      NextStaysOpen(s, es[0]);
      if Next(s, es[0]).arm.armed {
        ArmsStayOpenExactlyWhileShort(Next(s, es[0]), es[1..]);
      } else {
        ClosedArmsStayClosed(Next(s, es[0]), es[1..]);
      }
    }
  }
}
