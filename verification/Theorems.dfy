/** What holds over every run of the pipeline. */
module Theorems {
  import opened Audio
  import opened Boundary
  import BoundaryTraces
  import opened Renderer
  import opened RendererProofs
  import opened Pipeline
  import opened PipelineProofs
  import opened Playback

  // --- Who never overflows the ring -------------------------------------------------------------------

  // The client keeps at most 5 s of audio, this buffer included, beyond what was acknowledged to it. Buffers
  // whose acknowledgement a flush discarded count too.
  predicate Disciplined(s: State, es: seq<Event>)
    decreases |es|
  {
    es == [] ||
    ((es[0].EnqueueEvent? ==> s.play.written + |es[0].buf| <= s.queue.ackedEnd + 5 * s.rate)
     && Disciplined(Next(s, es[0]), es[1..]))
  }

  lemma DisciplinedNeverOverflows(s: State, e: Event)
    requires Good(s)
    requires e.EnqueueEvent? ==> s.play.written + |e.buf| <= s.queue.ackedEnd + 5 * s.rate
    ensures !TakesOverflow(s, e)
  {
    FadeChanceKeeps(s.play, s.arm, s.controls.X, s.rate, Capacity(s));
  }

  /** What is acknowledged never ends more than 25 s ahead of the read head, so a disciplined client never
      overflows the ring, however the crossfade length changes meanwhile. */
  lemma {:induction false} DisciplinedRunsAreOrderly(s: State, es: seq<Event>)
    requires Good(s) && AllWellFormed(s, es) && Disciplined(s, es)
    ensures Orderly(s, es)
    ensures Run(s, es).queue.ackedEnd <= Run(s, es).play.read + 25 * s.rate
    ensures Run(s, es).play.written <= Run(s, es).play.read + Capacity(s)
    decreases |es|
  {
    if es == [] {
    } else {
      DisciplinedNeverOverflows(s, es[0]);
      NextKeepsGood(s, es[0]);
      DisciplinedRunsAreOrderly(Next(s, es[0]), es[1..]);
    }
  }

  /** From the start of the player on, a disciplined client never hears a frame twice. */
  lemma DisciplinedClientsHearEachFrameOnce(s: State, rate: nat, channels: nat, crossfadeMs: nat, nowMs: int,
                                            es: seq<Event>)
    requires rate > 0 && crossfadeMs <= MAX_CROSSFADE_MS
    requires s == Started(rate, channels, crossfadeMs, nowMs) && AllWellFormed(s, es) && Disciplined(s, es)
    ensures var out := Run(s, es).out;
      forall i, j, f | 0 <= i < j < |out| && Emits(out[i], f) :: !Emits(out[j], f)
  {
    StartedIsGood(rate, channels, crossfadeMs, nowMs);
    DisciplinedRunsAreOrderly(s, es);
    OrderlyRunsAreClean(s, es);
    FramesRepeatExactlyFromAnUncleanHead(s, es);
  }

  // --- Manual changes ---------------------------------------------------------------------------------

  // The flush at frame w is still to be resolved, or the read head is past it.
  predicate Owes(s: State, w: nat) {
    s.play.read >= w || (s.model.flush.Some? && s.model.flush.value.frame >= w)
  }

  // This event resolves whatever flush is pending: metadata, or the clock after the flush window.
  predicate ResolvesFlush(s: State, e: Event) {
    e.MetadataEvent? || (e.AckEvent? && Expired(s.model.flush, e.nowMs))
  }

  lemma NextKeepsOwing(s: State, e: Event, w: nat)
    requires Good(s) && WellFormed(s, e) && w <= s.play.written && Owes(s, w)
    ensures Owes(Next(s, e), w) && w <= Next(s, e).play.written
    ensures ResolvesFlush(s, e) ==> Next(s, e).play.read >= w
    ensures ResolvesFlush(s, e) && s.model.flush.Some? ==> !Next(s, e).play.sched
  {
    NextKeepsGood(s, e);
    if s.model.flush.Some? {
      ApplyKeepsInv(s.play, Cut(s.model.flush.value.frame), Capacity(s));
    }
    if e.EnqueueEvent? && FitsRing(s, |e.buf|) && !IsPadding(s, e.buf) {
      ArriveKeeps(s, |e.buf|);
    }
    if e.FillEvent? {
      StepsKeepInv(s.play, e.frames, Capacity(s));
    }
  }

  lemma {:induction false} RunKeepsOwing(s: State, es: seq<Event>, w: nat)
    requires Good(s) && AllWellFormed(s, es) && w <= s.play.written && Owes(s, w)
    ensures Owes(Run(s, es), w) && w <= Run(s, es).play.written
    decreases |es|
  {
    if es == [] {
    } else {
      NextKeepsGood(s, es[0]);
      NextKeepsOwing(s, es[0], w);
      RunKeepsOwing(Next(s, es[0]), es[1..], w);
    }
  }

  // Everything a run plays lies at or beyond where its read head started.
  lemma {:induction false} RunPlaysFromTheReadHead(s: State, es: seq<Event>)
    requires Good(s) && AllWellFormed(s, es)
    ensures |s.out| <= |Run(s, es).out| && Run(s, es).out[..|s.out|] == s.out
    ensures forall i, f | |s.out| <= i < |Run(s, es).out| && Emits(Run(s, es).out[i], f) :: s.play.read <= f
    decreases |es|
  {
    if es == [] {
    } else {
      var n := Next(s, es[0]);
      NextKeepsGood(s, es[0]);
      if es[0].FillEvent? {
        StretchPlaysFromTheReadHead(s.play, es[0].frames, Capacity(s));
      } else {
        OthersOnlyUseUp(s, es[0]);
      }
      RunPlaysFromTheReadHead(n, es[1..]);
      var out := Run(s, es).out;
      forall i, f | |s.out| <= i < |out| && Emits(out[i], f)
        ensures s.play.read <= f
      {
        if i < |n.out| {
          assert out[i] == n.out[i];
          assert es[0].FillEvent? && n.out[i] == Steps(s.play, es[0].frames).recs[i - |s.out|];
        }
      }
    }
  }

  /** Manual changes are instant, end to end. Take a flush when 'w' frames had been written, any events, then
      metadata or the flush timeout. From then on every frame played was delivered after that flush, whatever
      fade or re-anchor was in progress; and if the flush was still pending no fade is scheduled. */
  lemma ManualChangesAreInstant(s: State, nowMs: int, before: seq<Event>, e: Event, after: seq<Event>)
    requires Good(s) && AllWellFormed(s, before) && WellFormed(s, e) && AllWellFormed(s, after)
    requires ResolvesFlush(Run(Clear(s, nowMs), before), e)
    ensures var w, m := s.play.written, Run(Clear(s, nowMs), before);
      var r, z := Next(m, e), Run(Next(m, e), after);
      && r.play.read >= w
      && (m.model.flush.Some? ==> !r.play.sched)
      && |m.out| <= |z.out|
      && forall i, f: nat | |m.out| <= i < |z.out| && Emits(z.out[i], f) :: f >= w
  {
    var c := Clear(s, nowMs);
    ClearKeepsGood(s, nowMs);
    RunKeepsGood(c, before);
    RunKeepsOwing(c, before, s.play.written);
    var m := Run(c, before);
    NextKeepsGood(m, e);
    NextKeepsOwing(m, e, s.play.written);
    OthersOnlyUseUp(m, e);
    RunPlaysFromTheReadHead(Next(m, e), after);
  }

  // --- Flow control -----------------------------------------------------------------------------------

  /** A pipeline that has run dry has no lead target to wait for: after any output in which silence had to be
      played, every written buffer in the queue is within the gate. */
  lemma RunningDryNeverDeadlocks(s: State, frames: nat, i: nat, k: nat)
    requires Good(s) && i < frames && Fill(s, frames).out[|s.out| + i].Silent?
    requires k < |s.queue.pending| && !s.queue.pending[k].dropped
    ensures s.queue.pending[k].end <= Frontier(Fill(s, frames).play) + s.controls.T
  {
    StepsKeepInv(s.play, frames, Capacity(s));
    RunningDryOpensTheGate(s.play, frames, i, Capacity(s));
  }

  // A turn of the acknowledgement thread at each of these times.
  function Turns(times: seq<int>): seq<Event> {
    seq(|times|, i requires 0 <= i < |times| => AckEvent(times[i]))
  }

  lemma DryTurn(s: State, nowMs: int)
    requires Good(s) && Dry(s.play) && s.queue.pending != []
    requires s.queue.pending[0].dropped ==> s.controls.playing && nowMs >= s.queue.pending[0].notBeforeMs
    ensures var t := AckTurn(s, nowMs); Dry(t.play) && t.queue == Ack(s.queue) && t.controls == s.controls
  {
  }

  lemma {:induction false} DryQueuesDrain(s: State, times: seq<int>)
    requires Good(s) && Dry(s.play) && |times| == |s.queue.pending|
    requires forall j | 0 <= j < |times| && s.queue.pending[j].dropped ::
      s.controls.playing && times[j] >= s.queue.pending[j].notBeforeMs
    ensures Run(s, Turns(times)).queue.pending == []
    ensures Run(s, Turns(times)).queue.acked == s.queue.acked + |times|
    decreases |times|
  {
    if times == [] {
    } else {
      assert Turns(times)[0] == AckEvent(times[0]) && Turns(times)[1..] == Turns(times[1..]);
      AckTurnKeepsGood(s, times[0]);
      DryTurn(s, times[0]);
      DryQueuesDrain(AckTurn(s, times[0]), times[1..]);
    }
  }

  /** Starvation never deadlocks. After output in which silence had to be played, one turn of the
      acknowledgement thread per queued buffer hands all of them back, whatever their kind and order, as long as
      the turn for a dropped one comes while playing and not before its probe is due, even if a flush times out
      meanwhile. */
  lemma StarvedQueuesDrain(s: State, frames: nat, i: nat, times: seq<int>)
    requires Good(s) && i < frames && Fill(s, frames).out[|s.out| + i].Silent?
    requires |times| == |s.queue.pending|
    requires forall j | 0 <= j < |times| && s.queue.pending[j].dropped ::
      s.controls.playing && times[j] >= s.queue.pending[j].notBeforeMs
    ensures var t := Run(Fill(s, frames), Turns(times));
      t.queue.pending == [] && t.queue.acked == s.queue.acked + |s.queue.pending|
  {
    FillKeepsGood(s, frames);
    RunningDryOpensTheGate(s.play, frames, i, Capacity(s));
    DryQueuesDrain(Fill(s, frames), times);
  }

  /** Exactly when a turn of the acknowledgement thread hands a buffer back. While no flush times out it moves
      nothing, and the oldest buffer goes if it is padding whose probe is due while playing, or audio that ends no
      further ahead of the read head than the lead target, plus the incoming length while a fade is scheduled. */
  lemma TurnsHandBackWhatIsDue(s: State, nowMs: int)
    requires s.model.flush.Some? ==> nowMs <= s.model.flush.value.timeMs + 500
    ensures var t, q := AckTurn(s, nowMs), s.queue.pending;
      var due := q != [] && if q[0].dropped then s.controls.playing && nowMs >= q[0].notBeforeMs
                            else q[0].end <= s.play.read + (if s.play.sched then s.play.n else 0) + s.controls.T;
      && t.(queue := s.queue) == s
      && t.queue.pending == (if due then q[1..] else q)
      && t.queue.handed == s.queue.handed + (if due then [q[0].number] else [])
      && t.queue.ackedEnd == if due && !q[0].dropped then q[0].end else s.queue.ackedEnd
  {
  }

  // The head of the queue has to wait: a probe that is not due, or audio beyond the lead target.
  predicate Waits(s: State, nowMs: int) {
    s.queue.pending != [] &&
    var h := s.queue.pending[0];
    if h.dropped then !s.controls.playing || nowMs < h.notBeforeMs
    else h.end > s.play.read + (if s.play.sched then s.play.n else 0) + s.controls.T
  }

  lemma OneTurn(s: State, nowMs: int)
    requires Good(s)
    ensures var t, q := AckTurn(s, nowMs), s.queue.pending;
      && (t.model.flush.Some? ==> nowMs <= t.model.flush.value.timeMs + 500)
      && (t.queue == s.queue ==> q == [] || Waits(t, nowMs))
      && (t.queue != s.queue ==>
            q != [] && t.queue.pending == q[1..] && t.queue.handed == s.queue.handed + [q[0].number])
  {
    var c := Clock(s, nowMs);
    TurnsHandBackWhatIsDue(c, nowMs);
    assert AckTurn(s, nowMs) == AckTurn(c, nowMs);
  }

  function Repeatedly(nowMs: int, k: nat): seq<Event> {
    seq(k, _ => AckEvent(nowMs))
  }

  lemma RunRepeatedly(s: State, nowMs: int, k: nat)
    requires k > 0
    ensures Run(s, Repeatedly(nowMs, k)) == Run(AckTurn(s, nowMs), Repeatedly(nowMs, k - 1))
  {
    assert Repeatedly(nowMs, k)[0] == AckEvent(nowMs) && Repeatedly(nowMs, k)[1..] == Repeatedly(nowMs, k - 1);
  }

  lemma {:induction false} WaitingLasts(s: State, nowMs: int, k: nat)
    requires s.queue.pending == [] || Waits(s, nowMs)
    requires s.model.flush.Some? ==> nowMs <= s.model.flush.value.timeMs + 500
    ensures Run(s, Repeatedly(nowMs, k)) == s
    decreases k
  {
    if k == 0 {
    } else {
      RunRepeatedly(s, nowMs, k);
      TurnsHandBackWhatIsDue(s, nowMs);
      WaitingLasts(s, nowMs, k - 1);
    }
  }

  // What t still has queued is a back part of q, the front part was handed back since 'before', and the head, if
  // any, has to wait.
  predicate HandedUpToTheGate(q: seq<Pending>, before: seq<nat>, t: State, nowMs: int) {
    && |t.queue.pending| <= |q| && t.queue.pending == q[|q| - |t.queue.pending|..]
    && t.queue.handed == before + Numbers(q[..|q| - |t.queue.pending|])
    && (t.queue.pending == [] || Waits(t, nowMs))
  }

  lemma HandedOneMore(q: seq<Pending>, before: seq<nat>, t: State, nowMs: int)
    requires q != [] && HandedUpToTheGate(q[1..], before + [q[0].number], t, nowMs)
    ensures HandedUpToTheGate(q, before, t, nowMs)
  {
    var j := |q| - |t.queue.pending|;
    assert Numbers(q[..j]) == [q[0].number] + Numbers(q[1..][..j - 1]);
    assert q[1..][j - 1..] == q[j..];
  }

  lemma NoneHanded(t: State, nowMs: int)
    requires t.queue.pending == [] || Waits(t, nowMs)
    ensures HandedUpToTheGate(t.queue.pending, t.queue.handed, t, nowMs)
  {
    assert Numbers(t.queue.pending[..0]) == [];
  }

  lemma HandsNone(s: State, t: State, nowMs: int, k: nat)
    requires Good(s) && t == AckTurn(s, nowMs) && t.queue == s.queue && k > 0
    ensures HandedUpToTheGate(s.queue.pending, s.queue.handed, Run(s, Repeatedly(nowMs, k)), nowMs)
  {
    OneTurn(s, nowMs);
    RunRepeatedly(s, nowMs, k);
    WaitingLasts(t, nowMs, k - 1);
    assert Run(s, Repeatedly(nowMs, k)) == t;
    NoneHanded(t, nowMs);
  }

  /** Acknowledgements go on until they may not: as many turns as there are buffers hand back a front part of the
      queue, in order, and leave it empty or with a head that is a probe not due or ends beyond the read head plus
      the lead target, whatever flush times out meanwhile. */
  lemma {:induction false} TurnsGoOnUntilTheGate(s: State, nowMs: int, k: nat)
    requires Good(s) && k >= |s.queue.pending|
    ensures HandedUpToTheGate(s.queue.pending, s.queue.handed, Run(s, Repeatedly(nowMs, k)), nowMs)
    decreases k
  {
    if k == 0 {
      NoneHanded(s, nowMs);
    } else if AckTurn(s, nowMs).queue == s.queue {
      HandsNone(s, AckTurn(s, nowMs), nowMs, k);
    } else {
      OneTurn(s, nowMs);
      AckTurnKeepsGood(s, nowMs);
      RunRepeatedly(s, nowMs, k);
      TurnsGoOnUntilTheGate(AckTurn(s, nowMs), nowMs, k - 1);
      HandedOneMore(s.queue.pending, s.queue.handed, Run(s, Repeatedly(nowMs, k)), nowMs);
    }
  }

  // --- Flushes and decisions --------------------------------------------------------------------------------

  /** A flush discards the whole queue unacknowledged and is noted at the end of the log. What has been delivered,
      the fade in progress and everything else stay as they are, but for the arm that it opens. */
  lemma FlushesTakeEffect(s: State, nowMs: int)
    ensures var t := Clear(s, nowMs);
      && t.queue.pending == [] && t.queue.discarded == s.queue.discarded + Numbers(s.queue.pending)
      && t.queue.handed == s.queue.handed && t.queue.accepted == s.queue.accepted
      && t.model.flush == Some(Mark(s.play.written, nowMs)) && t.model.late == None
      && t == s.(queue := t.queue, model := t.model, arm := t.arm)
      && t.model == s.model.(flush := t.model.flush, late := None)
      && t.arm.armed && t.arm.frame == s.play.written && t.arm.dropped == 0 && t.arm.lastProbeMs == nowMs
  {
  }

  /** Metadata and the clock act on the renderer by exactly the decision of the boundary model, which sees the
      position without the padding, the frames written and the read head as it was. */
  lemma DecisionsTakeEffect(s: State, m: TrackMeta, nowMs: int)
    ensures Metadata(s, m, nowMs).play == Apply(s.play,
      MetadataStep(s.model, Corrected(m, s.arm.dropped, s.rate), s.play.written, s.play.read, nowMs).1)
    ensures Metadata(s, m, nowMs).model ==
      MetadataStep(s.model, Corrected(m, s.arm.dropped, s.rate), s.play.written, s.play.read, nowMs).0
    ensures AckTurn(s, nowMs).play == Apply(s.play, TickStep(s.model, nowMs).1)
    ensures AckTurn(s, nowMs).model == TickStep(s.model, nowMs).0
    ensures Metadata(s, m, nowMs).log == s.log && Metadata(s, m, nowMs).queue == s.queue
    ensures SetPlaying(s, true).controls.playing && !SetPlaying(s, false).controls.playing
  {
  }

  // --- Targets and counters ---------------------------------------------------------------------------------

  /** A crossfade length, limited to 12 s, is that many frames; the lead target is a second more, and half a second
      when there is no crossfade; and nothing but these changes. */
  lemma CrossfadeSetsTheTargets(s: State, ms: int)
    ensures var t, c := SetCrossfade(s, ms), if ms < 0 then 0 else if ms > 12000 then 12000 else ms;
      && t.controls.crossfadeMs == c && t.controls.X == c * s.rate / 1000 == t.model.crossfade
      && t.controls.T == (if t.controls.X > 0 then t.controls.X + s.rate else s.rate / 2)
      && t == s.(controls := t.controls, model := s.model.(crossfade := t.controls.X))
      && t.controls == s.controls.(crossfadeMs := c, X := t.controls.X, T := t.controls.T)
  {
  }

  /** The start of a player sets the same targets. */
  lemma StartSetsTheTargets(rate: nat, channels: nat, crossfadeMs: nat, nowMs: int)
    requires crossfadeMs <= 12000
    ensures var s := Started(rate, channels, crossfadeMs, nowMs);
      && s == SetCrossfade(s, crossfadeMs)
      && s.log == [] && s.out == [] && s.play.written == 0 && s.play.read == 0 && !s.play.sched
      && s.arm.armed && s.arm.frame == 0 && s.arm.lastProbeMs == nowMs
      && s.queue.pending == [] && s.queue.accepted == 0 && !s.controls.playing && s.controls.lastId == ""
      && s.model.current == None && s.model.flush == None && s.model.late == None && s.model.rate == rate
  {
  }

  lemma MissingInOutput(out: seq<Rec>, rs: seq<Rec>)
    ensures AnyMissing(rs) <==>
      exists i :: |out| <= i < |out + rs| && ((out + rs)[i] == Silent || (out + rs)[i].OutgoingOnly?)
  {
    if AnyMissing(rs) {
      var i :| 0 <= i < |rs| && Missing(rs[i]);
      assert (out + rs)[|out| + i] == rs[i];
    } else {
      forall i | |out| <= i < |out + rs|
        ensures !((out + rs)[i] == Silent || (out + rs)[i].OutgoingOnly?)
      {
        assert !Missing(rs[i - |out|]);
      }
    }
  }

  /** An output buffer counts as an underrun exactly if the player is playing and some frame of it is silent or
      lacks the incoming side of its fade. */
  lemma UnderrunsAreCounted(s: State, frames: nat)
    ensures var t := Fill(s, frames);
      && |t.out| == |s.out| + frames
      && t.controls.underruns == s.controls.underruns +
           if s.controls.playing
              && exists i :: |s.out| <= i < |t.out| && (t.out[i] == Silent || t.out[i].OutgoingOnly?) then 1 else 0
  {
    MissingInOutput(s.out, Steps(s.play, frames).recs);
  }

  /** A track is announced once: metadata opens an arm only if its playback id differs from that of the metadata
      before it, whatever happened in between. */
  lemma {:induction false} RepeatedMetadataKeepsTheArm(s: State, m: TrackMeta, t1: int, es: seq<Event>,
                                                       again: TrackMeta, t2: int)
    requires forall i | 0 <= i < |es| :: !es[i].MetadataEvent?
    ensures var z := Run(Metadata(s, m, t1), es);
      Metadata(z, again, t2).arm ==
        if again.playbackId == m.playbackId then z.arm else OpenArm(z.play.written, t2, z.arm.number + 1)
  {
    RunKeepsLastId(Metadata(s, m, t1), es);
  }

  lemma {:induction false} RunKeepsLastId(s: State, es: seq<Event>)
    requires forall i | 0 <= i < |es| :: !es[i].MetadataEvent?
    ensures Run(s, es).controls.lastId == s.controls.lastId
    decreases |es|
  {
    if es == [] {
    } else {
      assert Next(s, es[0]).controls.lastId == s.controls.lastId;
      RunKeepsLastId(Next(s, es[0]), es[1..]);
    }
  }

  // --- The padding filter -----------------------------------------------------------------------------

  // What a delivery adds to the log, and what it drops.
  function KeptBy(s: State, e: Event): seq<Frame> {
    if e.EnqueueEvent? && FitsRing(s, |e.buf|) && !IsPadding(s, e.buf) then e.buf else []
  }

  function DroppedBy(s: State, e: Event): seq<Frame> {
    if e.EnqueueEvent? && FitsRing(s, |e.buf|) && IsPadding(s, e.buf) then e.buf else []
  }

  function Kept(s: State, es: seq<Event>): seq<Frame>
    decreases |es|
  {
    if es == [] then [] else KeptBy(s, es[0]) + Kept(Next(s, es[0]), es[1..])
  }

  function Dropped(s: State, es: seq<Event>): seq<Frame>
    decreases |es|
  {
    if es == [] then [] else DroppedBy(s, es[0]) + Dropped(Next(s, es[0]), es[1..])
  }

  /** Over every run the log is the accepted stream with exactly the silent buffers received while armed taken
      out, and what is taken out is silent, sample for sample, and counted. */
  lemma {:induction false} TheLogIsTheFilteredStream(s: State, es: seq<Event>)
    ensures Run(s, es).log == s.log + Kept(s, es)
    ensures forall i, c | 0 <= i < |Dropped(s, es)| && 0 <= c < |Dropped(s, es)[i]| :: Dropped(s, es)[i][c] == 0
    ensures Run(s, es).controls.paddingTotal == s.controls.paddingTotal + |Dropped(s, es)|
    decreases |es|
  {
    if es == [] {
    } else {
      TheLogIsTheFilteredStream(Next(s, es[0]), es[1..]);
      assert Next(s, es[0]).log == s.log + KeptBy(s, es[0]);
    }
  }

  /** An arm that is open when audio arrives stays open if and only if the audio since its boundary that is still to
      be played is short of the lead target, plus the incoming length while a fade is scheduled, and all the audio
      since then is short of 45 s, however much older audio is still unplayed. */
  lemma ArmsOutliveTheOldTail(s: State, buf: seq<Frame>)
    requires Good(s) && |buf| <= Capacity(s) && Shaped(buf, s.channels) && s.arm.armed
    ensures var t := Keep(s, buf);
      var lead := t.controls.T + (if t.play.sched then t.play.n else 0);
      t.arm.armed <==>
        && t.play.written < (if t.play.read > t.arm.frame then t.play.read else t.arm.frame) + lead
        && t.play.written < t.arm.frame + 45 * s.rate
  {
    KeepKeepsGood(s, buf);
  }

  // --- Output in pieces -------------------------------------------------------------------------------

  /** Producing m frames and then n is producing m + n, but for the count of underruns: state, output and
      everything a later event can see. */
  lemma OutputInPieces(s: State, m: nat, n: nat)
    ensures var two, one := Fill(Fill(s, m), n), Fill(s, m + n);
      two.(controls := one.controls) == one
      && two.controls.(underruns := 0) == one.controls.(underruns := 0)
      && (two.controls.underruns == s.controls.underruns <==> one.controls.underruns == s.controls.underruns)
  {
    StepsSplit(s.play, m, n);
    var xs, ys := Steps(s.play, m).recs, Steps(Steps(s.play, m).next, n).recs;
    assert (s.out + xs) + ys == s.out + (xs + ys);
    assert forall i | 0 <= i < |xs| :: (xs + ys)[i] == xs[i];
    assert forall i | 0 <= i < |ys| :: (xs + ys)[|xs| + i] == ys[i];
  }

  // --- Predictions despite the padding ----------------------------------------------------------------

  lemma FloorBounds(x: nat, rate: nat)
    requires rate > 0
    ensures x - rate < (x / rate) * rate <= x
  {
  }

  lemma Distribute(a: int, b: int, rate: int)
    ensures (a - b) * rate == a * rate - b * rate
  {
  }

  // The correction, up to rounding, leaves w frames' worth of milliseconds.
  lemma CorrectionBound(w: nat, d: nat, rate: nat, c: int)
    requires rate > 0 && c == 1000 * (w + d) / rate - d * 1000 / rate
    ensures 0 <= c && 1000 * w - rate < c * rate < 1000 * w + rate
  {
    var p, q := 1000 * (w + d) / rate, d * 1000 / rate;
    FloorBounds(1000 * (w + d), rate);
    FloorBounds(d * 1000, rate);
    Distribute(p, q, rate);
    if c < 0 {
      Distribute(c, -1, rate);
      NegativeTimes(c + 1, rate);
    }
  }

  lemma NegativeTimes(x: int, rate: nat)
    requires x <= 0
    ensures x * rate <= 0
  {
  }

  lemma PredictionBound(w: nat, c: int, D: int, rate: nat, f: int)
    requires rate > 0 && c <= D && f == (D - c) * rate / 1000
    requires 1000 * w - rate < c * rate < 1000 * w + rate
    ensures D * rate - rate - 1000 < 1000 * (w + f) < D * rate + rate
  {
    Distribute(D, c, rate);
  }

  // What correcting the report leaves, and the frames from there to the end of the track.
  lemma CorrectedPrediction(m: TrackMeta, w: nat, d: nat, rate: nat)
    requires rate > 0 && m.positionMs == 1000 * (w + d) / rate
    ensures var c, D := Corrected(m, d, rate).positionMs, m.durationMs;
      c <= D ==> D * rate - rate - 1000 < 1000 * (w + (D - c) * rate / 1000) < D * rate + rate
  {
    var c, D := m.positionMs - d * 1000 / rate, m.durationMs;
    CorrectionBound(w, d, rate, c);
    assert Corrected(m, d, rate).positionMs == c;
    if c <= D {
      PredictionBound(w, c, D, rate, (D - c) * rate / 1000);
    }
  }

  // Metadata that is not a boundary only moves the anchor of the prediction.
  lemma RefreshedPrediction(m: Model, c: TrackMeta, written: nat, read: nat, nowMs: int)
    requires m.flush.None? && (m.current.None? || !IsNewTrack(m, c)) && m.rate > 0
    ensures Predicted(MetadataStep(m, c, written, read, nowMs).0) ==
      if 0 < c.durationMs && c.positionMs <= c.durationMs
      then Some(written + (c.durationMs - c.positionMs) * m.rate / 1000) else None
  {
  }

  /** Padding does not bias the prediction. When the client reports, for its first or its current track, the
      position of the w frames written and the d frames of padding dropped since the arm, rounded down to a
      millisecond, a boundary is predicted from then on exactly if the position without the padding lies within
      the track, and is within rate / 1000 + 1 frames of the arm's frame plus the duration, whatever d is. */
  lemma PaddingDoesNotBiasThePrediction(s: State, m: TrackMeta, nowMs: int, w: nat)
    requires Good(s) && s.play.written == s.arm.frame + w
    requires s.model.flush.None? && (s.model.current.None? || !IsNewTrack(s.model, m))
    requires m.positionMs == 1000 * (w + s.arm.dropped) / s.rate
    ensures var p := Predicted(Metadata(s, m, nowMs).model);
      && (p.Some? <==> 0 < m.durationMs && Corrected(m, s.arm.dropped, s.rate).positionMs <= m.durationMs)
      && (p.Some? ==>
            m.durationMs * s.rate - s.rate - 1000 < 1000 * (p.value - s.arm.frame) < m.durationMs * s.rate + s.rate)
  {
    CorrectedPrediction(m, w, s.arm.dropped, s.rate);
    RefreshedPrediction(s.model, Corrected(m, s.arm.dropped, s.rate), s.play.written, s.play.read, nowMs);
  }

  // Neither a flush nor metadata.
  predicate KeepsTrack(es: seq<Event>) {
    forall i | 0 <= i < |es| :: !es[i].ClearEvent? && !es[i].MetadataEvent?
  }

  lemma {:induction false} RunKeepsTrack(s: State, es: seq<Event>)
    requires KeepsTrack(es) && s.model.flush.None?
    ensures var m := Run(s, es).model; m == s.model.(crossfade := m.crossfade) && Run(s, es).rate == s.rate
    decreases |es|
  {
    if es == [] {
    } else {
      var m := Next(s, es[0]).model;
      assert m == s.model.(crossfade := m.crossfade);
      RunKeepsTrack(Next(s, es[0]), es[1..]);
    }
  }

  lemma PredictionOf(s: State, m: TrackMeta, nowMs: int, w: nat, p: int)
    requires Good(s) && s.play.written == s.arm.frame + w
    requires s.model.flush.None? && (s.model.current.None? || !IsNewTrack(s.model, m))
    requires m.positionMs == 1000 * (w + s.arm.dropped) / s.rate
    requires 0 < m.durationMs && Corrected(m, s.arm.dropped, s.rate).positionMs <= m.durationMs
    requires p == s.play.written + (m.durationMs - Corrected(m, s.arm.dropped, s.rate).positionMs) * s.rate / 1000
    ensures m.durationMs * s.rate - s.rate - 1000 < 1000 * (p - s.arm.frame) < m.durationMs * s.rate + s.rate
    ensures var n := Metadata(s, m, nowMs).model;
      n.current.Some? && n.current.value.durationMs == m.durationMs && n.current.value.playbackId == m.playbackId
      && n.flush.None? && n.late == s.model.late && n.rate == s.rate
      && n.startPositionMs <= m.durationMs
      && p == n.startFrame + (m.durationMs - n.startPositionMs) * n.rate / 1000
  {
    PaddingDoesNotBiasThePrediction(s, m, nowMs, w);
  }

  /** The next track gets the true end of this one. After such a report, and until the next track is announced,
      whatever is delivered and played and however the crossfade length changes, the boundary of that track is the
      predicted frame p, which is within rate / 1000 + 1 frames of the arm's frame plus the duration, if the
      announcement comes within 2500 ms of it, and the announcement otherwise. */
  lemma TheNextTrackGetsTheTrueEnd(s: State, m: TrackMeta, t1: int, w: nat, es: seq<Event>, next: TrackMeta, t2: int,
                                   p: int)
    requires Good(s) && s.play.written == s.arm.frame + w
    requires s.model.flush.None? && (s.model.current.None? || !IsNewTrack(s.model, m))
    requires m.positionMs == 1000 * (w + s.arm.dropped) / s.rate
    requires 0 < m.durationMs && Corrected(m, s.arm.dropped, s.rate).positionMs <= m.durationMs
    requires p == s.play.written + (m.durationMs - Corrected(m, s.arm.dropped, s.rate).positionMs) * s.rate / 1000
    requires KeepsTrack(es) && next.playbackId != m.playbackId
    requires s.model.late.Some? ==> t2 > s.model.late.value.timeMs + 2000
    ensures m.durationMs * s.rate - s.rate - 1000 < 1000 * (p - s.arm.frame) < m.durationMs * s.rate + s.rate
    ensures var z := Run(Metadata(s, m, t1), es);
      var d, near := DecisionOf(z, MetadataEvent(next, t2)), s.rate * 2500 / 1000;
      d != NoBoundary && d.at == if z.play.written - near <= p <= z.play.written + near then p else z.play.written
  {
    PredictionOf(s, m, t1, w, p);
    var n := Metadata(s, m, t1);
    RunKeepsTrack(n, es);
    var z := Run(n, es);
    var c := Corrected(next, z.arm.dropped, z.rate);
    BoundaryTraces.NaturalTransitionsDecide(z.model, c, z.play.written, z.play.read, t2, p);
  }
}
