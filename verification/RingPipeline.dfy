/** The pipeline as the program keeps it: mutable state, a ring, and an output buffer filled in place. */
module RingPipelineClass {
  import opened Audio
  import opened Boundary
  import opened Renderer
  import opened Chunks
  import opened Pipeline
  import opened PipelineProofs
  import opened RendererProofs
  import opened Sound
  import Mixer
  import Ring

  const OUT_MS := 10

  class RingPipeline {
    const gains: Gains
    const rate: nat
    const channels: nat
    const outFrames: nat
    const ring: Ring.Ring
    const mixA: array2<Sample>
    const mixB: array2<Sample>
    const model: BoundaryModel

    var started: bool
    var play: Play
    var arm: Arm
    var queue: Queue
    var controls: Controls
    ghost var log: seq<Frame>
    ghost var out: seq<Rec>

    ghost function State(): State
      reads this, model
    {
      Pipeline.State(rate, channels, log, out, play, arm, queue, controls, model.State())
    }

    // The buffers have their shapes, do not overlap, and the ring agrees with the log.
    ghost predicate Buffers()
      reads this`log, ring.data
    {
      && ring.Valid() && ring.capacity == rate * RING_SECONDS && ring.channels == channels
      && ring.Holds(log)
      && mixA.Length0 == outFrames && mixA.Length1 == channels
      && mixB.Length0 == outFrames && mixB.Length1 == channels
      && mixA != mixB && mixA != ring.data && mixB != ring.data
    }

    ghost predicate Valid()
      reads this, model, ring.data
    {
      Buffers() && Good(State())
    }

    // A pipeline that has just started.
    constructor (gains: Gains, rate: nat, channels: nat, crossfadeMs: nat, nowMs: int)
      requires rate > 0 && channels > 0 && crossfadeMs <= MAX_CROSSFADE_MS
      ensures Valid() && started && State() == Started(rate, channels, crossfadeMs, nowMs)
      ensures outFrames == if rate < 200 then 1 else rate / 100
    {
      this.gains, this.rate, this.channels := gains, rate, channels;
      var frames := if rate * OUT_MS / 1000 > 1 then rate * OUT_MS / 1000 else 1;
      outFrames := frames;
      ring := new Ring.Ring(rate * RING_SECONDS, channels);
      mixA := new Sample[frames, channels];
      mixB := new Sample[frames, channels];
      model := new BoundaryModel();
      started := true;
      play := Play(0, 0, false, 0, 0, 0, 0, 0, 0, false, 0, 0);
      queue := Queue([], 0, 0, 0, 0, [], []);
      controls := Controls(false, crossfadeMs, 0, 0, "", 0, 0, 0);
      arm := Arm(false, 0, 0, false, false, 0, 0, 0, 0);
      log, out := [], [];
      new;
      model.Configure(rate, 0);
      RecomputeTargets();
      OpenArm(nowMs);
      assert State() == Started(rate, channels, crossfadeMs, nowMs);
      StartedIsGood(rate, channels, crossfadeMs, nowMs);
    }

    // --- Controls ---------------------------------------------------------------------------------------

    method RecomputeTargets()
      modifies this`controls, model
      ensures State() == var X := CrossfadeFrames(old(controls).crossfadeMs, rate);
        old(State()).(controls := old(controls).(X := X, T := LeadTarget(X, rate)),
                      model := old(model.State()).(crossfade := X))
    {
      var X := controls.crossfadeMs * rate / 1000;
      var minLead := rate * MIN_LEAD_MS / 1000;
      controls := controls.(X := X, T := if X > 0 then Max(X + rate, minLead) else minLead);
      model.SetCrossfadeFrames(X);
    }

    method OpenArm(nowMs: int)
      modifies this`arm
      ensures arm == Pipeline.OpenArm(play.written, nowMs, old(arm).number + 1)
    {
      arm := arm.(armed := true, frame := play.written, dropped := 0);
      arm := arm.(sawZero := false, reanchored := false, lastProbeMs := nowMs);
      arm := arm.(openedMs := nowMs, drops := 0, number := arm.number + 1);
    }

    method SetCrossfadeMs(ms: int)
      requires Valid()
      modifies this`controls, model
      ensures Valid()
      ensures State() ==
        if started then SetCrossfade(old(State()), ms)
        else old(State()).(controls := old(controls).(crossfadeMs := ClampMs(ms)))
    {
      ghost var s := State();
      var clamped := ms;
      if clamped < 0 {
        clamped := 0;
      }
      if clamped > MAX_CROSSFADE_MS {
        clamped := MAX_CROSSFADE_MS;
      }
      controls := controls.(crossfadeMs := clamped);
      assert clamped == ClampMs(ms);
      if started {
        RecomputeTargets();
        assert State() == SetCrossfade(s, ms);
        SetCrossfadeKeepsGood(s, ms);
      }
    }

    method SetPlayState(playing: bool)
      requires Valid()
      modifies this`controls
      ensures Valid() && State() == SetPlaying(old(State()), playing)
    {
      controls := controls.(playing := playing);
    }

    // A stopped pipeline takes no more buffers and no more metadata.
    method Stop()
      requires Valid()
      modifies this`started
      ensures Valid() && !started && State() == old(State())
    {
      started := false;
    }

    method Clear(nowMs: int)
      requires Valid()
      modifies this`queue, this`arm, model
      ensures Valid() && State() == Pipeline.Clear(old(State()), nowMs)
    {
      ghost var s := State();
      queue := queue.(pending := [], cleared := queue.cleared + |queue.pending|,
                      discarded := queue.discarded + Numbers(queue.pending));
      model.OnFlush(play.written, nowMs);
      OpenArm(nowMs);
      ClearKeepsGood(s, nowMs);
    }

    // --- Boundaries -------------------------------------------------------------------------------------

    method ApplyDecision(d: Decision)
      requires d != NoBoundary && (d.Fade? ==> d.n <= d.at)
      modifies this`play
      ensures play == Apply(old(play), d)
    {
      if play.sched && play.kB > 0 && play.read < play.b {
        play := play.(read := play.b);
      }
      if d.Cut? {
        play := play.(sched := false);
        var at := Min(d.at, play.written);
        if at > play.read {
          play := play.(read := at);
        }
        play := play.(dumps := play.dumps + 1);
      } else if d.Fade? {
        play := play.(sched := true, at := d.at, n := d.n, nA := d.n, start := d.at - d.n);
        play := play.(b := d.at, kB := 0, dumped := false);
      }
    }

    method ReanchorFade()
      requires play.sched
      modifies this`play
      ensures play == Reanchor(old(play), controls.X, rate)
    {
      var started := play.read >= play.start;
      var k0 := if started then play.read - play.start else 0;
      var nA0 := if play.nA > 0 then play.nA else 1;
      if play.kB > 0 && play.b > play.read {
        play := play.(read := play.b);
      }
      play := play.(at := play.written, b := play.written, kB := 0, dumped := false);
      var r := if play.at > play.read then play.at - play.read else 0;
      if !started {
        var minTail := rate * MIN_TAIL_MS / 1000;
        if r < minTail {
          play := play.(sched := false);
          return;
        }
        var nA := if controls.X < r then controls.X else r;
        play := play.(nA := nA, start := play.at - nA);
      } else if r == 0 {
        play := play.(start := play.at, nA := 1);
      } else {
        var nA := Refit(k0, nA0, r, play.at);
        play := play.(nA := nA, start := play.at - nA);
      }
    }

    // The client's position counts the padding it believes it played. A client that is 'dropped' frames ahead
    // of the t ms it has really reached gets t back, and one that reports less than the padding gets zero.
    method CorrectPosition(m: TrackMeta) returns (corrected: TrackMeta)
      ensures corrected == Corrected(m, arm.dropped, rate)
      ensures corrected == m.(positionMs := corrected.positionMs)
      ensures 0 <= m.positionMs ==> 0 <= corrected.positionMs <= m.positionMs
      ensures rate > 0 && 0 <= m.positionMs ==>
        m.positionMs - corrected.positionMs == Min(m.positionMs, arm.dropped * 1000 / rate)
      ensures rate == 0 || m.positionMs < 0 ==> corrected == m
    {
      corrected := m;
      var droppedMs := if rate > 0 then arm.dropped * 1000 / rate else 0;
      if droppedMs > corrected.positionMs {
        droppedMs := corrected.positionMs;
      }
      if droppedMs > 0 {
        corrected := corrected.(positionMs := corrected.positionMs - droppedMs);
      }
    }

    method Announce(m: TrackMeta, nowMs: int)
      modifies this`play, this`arm, this`controls, model
      ensures State() == Metadata(old(State()), m, nowMs)
    {
      var corrected := CorrectPosition(m);
      var d := model.OnMetadata(corrected, play.written, play.read, nowMs);
      if d != NoBoundary {
        ApplyDecision(d);
      }
      if m.playbackId != controls.lastId {
        controls := controls.(lastId := m.playbackId);
        OpenArm(nowMs);
      }
    }

    method OnMetadata(m: TrackMeta, nowMs: int)
      requires Valid()
      modifies this`play, this`arm, this`controls, model
      ensures Valid()
      ensures State() == if started then Metadata(old(State()), m, nowMs) else old(State())
    {
      if started {
        MetadataKeepsGood(State(), m, nowMs);
        Announce(m, nowMs);
      }
    }

    method TickClock(nowMs: int)
      modifies this`play, model
      ensures State() == Clock(old(State()), nowMs)
    {
      var d := model.Tick(nowMs);
      if d != NoBoundary {
        ApplyDecision(d);
      }
    }

    // Hands the oldest buffer back to the client when its time has come.
    method Acknowledge(nowMs: int) returns (acked: bool)
      modifies this`queue
      ensures acked <==> AckReady(old(State()), nowMs)
      ensures queue == if acked then Ack(old(queue)) else old(queue)
    {
      acked := false;
      if queue.pending != [] {
        var p := queue.pending[0];
        acked := if p.dropped then controls.playing && nowMs >= p.notBeforeMs
                 else p.end <= (if play.sched then play.read + play.n else play.read) + controls.T;
        if acked {
          queue := queue.(pending := queue.pending[1..], acked := queue.acked + 1,
                          ackedEnd := if p.dropped then queue.ackedEnd else p.end,
                          handed := queue.handed + [p.number]);
        }
      }
    }

    // One turn of the acknowledgement thread; 'acked' tells whether a buffer is handed back to the client.
    method AckTurn(nowMs: int) returns (acked: bool)
      requires Valid()
      modifies this`play, this`queue, model
      ensures Valid() && State() == Pipeline.AckTurn(old(State()), nowMs)
      ensures acked <==> queue.acked == old(queue).acked + 1
    {
      AckTurnKeepsGood(State(), nowMs);
      TickClock(nowMs);
      acked := Acknowledge(nowMs);
    }

    // --- Deliveries -------------------------------------------------------------------------------------

    static method AllZero(data: array2<Sample>) returns (r: bool)
      ensures r <==> AllSilent(Contents(data))
    {
      for i := 0 to data.Length0
        invariant forall k, c | 0 <= k < i && 0 <= c < data.Length1 :: data[k, c] == 0
      {
        for c := 0 to data.Length1
          invariant forall e | 0 <= e < c :: data[i, e] == 0
        {
          if data[i, c] != 0 {
            assert Contents(data)[i][c] != 0;
            return false;
          }
        }
      }
      return true;
    }

    method DropPadding(frames: nat, nowMs: int)
      requires arm.armed
      modifies this`arm, this`queue, this`controls
      ensures State() == Drop(old(State()), frames, nowMs)
    {
      arm := arm.(dropped := arm.dropped + frames, sawZero := true, drops := arm.drops + 1);
      controls := controls.(paddingTotal := controls.paddingTotal + frames);
      arm := arm.(lastProbeMs := Max(arm.lastProbeMs, nowMs) + PROBE_MS);
      queue := queue.(pending := queue.pending +
                        [Pending(play.written, true, arm.lastProbeMs, queue.accepted, arm.number)],
                      accepted := queue.accepted + 1);
      if arm.dropped >= rate * MAX_ZERO_DROP_MS / 1000 {
        arm := arm.(armed := false);
      }
    }

    // The first real audio after padding is where the incoming track starts.
    method TakeChance()
      modifies this`arm, this`play
      ensures play == FadeChance(old(play), old(arm), controls.X, rate) && arm == ArmChance(old(arm))
    {
      if arm.armed && arm.sawZero && !arm.reanchored {
        arm := arm.(reanchored := true);
        var c := play.written;
        var ahead := rate * REANCHOR_AHEAD_MS / 1000;
        var behind := rate * REANCHOR_BEHIND_MS / 1000;
        if play.sched && play.at >= arm.frame && c <= play.at + ahead && c + behind >= play.at {
          ReanchorFade();
        }
      }
    }

    method EndArm()
      requires arm.frame <= play.written
      modifies this`arm
      ensures arm == Disarm(play, old(arm), controls.T, rate)
    {
      if arm.armed {
        var base := if play.read > arm.frame then play.read else arm.frame;
        var lead := if play.written > base then play.written - base else 0;
        var target := controls.T + (if play.sched then play.n else 0);
        if lead >= target || play.written - arm.frame >= rate * ARM_CAP_SECONDS {
          arm := arm.(armed := false);
        }
      }
    }

    method GiveUpOldest(frames: nat)
      requires frames <= ring.capacity
      modifies this`play, this`controls
      ensures play == MakeRoom(old(play), frames, ring.capacity)
      ensures controls == old(controls).(overflows :=
        old(controls).overflows + if Overflows(old(play), frames, ring.capacity) then 1 else 0)
    {
      if play.written + frames > play.read + ring.capacity {
        var newRead := play.written + frames - ring.capacity;
        controls := controls.(overflows := controls.overflows + 1);
        play := play.(read := newRead);
      }
    }

    method Append(data: array2<Sample>)
      requires Buffers() && |log| == play.written
      requires data.Length0 <= ring.capacity && data.Length1 == channels && data != ring.data
      modifies this`log, this`play, this`queue, ring.data
      ensures Buffers() && log == old(log) + old(Contents(data))
      ensures play == Renderer.Deliver(old(play), data.Length0)
      ensures queue == Push(old(queue), play.written, false, 0, arm.number)
    {
      ring.Append(log, play.written, data);
      log := log + Contents(data);
      play := play.(written := play.written + data.Length0);
      queue := queue.(pending := queue.pending + [Pending(play.written, false, 0, queue.accepted, arm.number)],
                      accepted := queue.accepted + 1);
    }

    method KeepAudio(data: array2<Sample>)
      requires Valid() && data.Length0 <= ring.capacity && data.Length1 == channels && data != ring.data
      modifies this`log, this`arm, this`play, this`queue, this`controls, ring.data
      ensures Buffers() && State() == Keep(old(State()), old(Contents(data)))
    {
      TakeChance();
      GiveUpOldest(data.Length0);
      Append(data);
      EndArm();
    }

    method Enqueue(data: array2?<Sample>, nowMs: int) returns (r: Result)
      requires Valid()
      requires data != null ==> data.Length1 == channels && data != ring.data
      modifies this`log, this`arm, this`play, this`queue, this`controls, ring.data
      ensures Valid()
      ensures r == if !started || data == null then ResourceError
                   else if !FitsRing(old(State()), data.Length0) then ParameterInvalid else Success
      ensures State() ==
        if r == Success then Pipeline.Enqueue(old(State()), old(Contents(data)), nowMs) else old(State())
    {
      if !started || data == null {
        return ResourceError;
      }
      var frames := data.Length0;
      if frames == 0 || frames > ring.capacity {
        return ParameterInvalid;
      }
      ghost var s := State();
      NextKeepsGood(s, EnqueueEvent(Contents(data), nowMs));
      if arm.armed {
        var zero := AllZero(data);
        if zero {
          DropPadding(frames, nowMs);
          return Success;
        }
      }
      KeepAudio(data);
      return Success;
    }

    // --- Output -----------------------------------------------------------------------------------------

    // Output goes to a buffer of the client's, none of the pipeline's own.
    predicate Separate(dst: array2<Sample>)
    {
      dst != mixA && dst != mixB && dst != ring.data && dst.Length1 == channels
    }

    // Loads 'chunk' outgoing frames, and beside them the 'haveB' incoming ones that have been delivered.
    method LoadSides(a: nat, chunk: nat, b: nat, haveB: nat)
      requires Buffers() && haveB <= chunk <= outFrames
      requires |log| - ring.capacity <= a && a + chunk <= |log|
      requires haveB > 0 ==> |log| - ring.capacity <= b && b + haveB <= |log|
      modifies mixA, mixB
      ensures forall i, c | 0 <= i < chunk && 0 <= c < channels :: mixA[i, c] == At(log, a + i, c)
      ensures forall i, c | 0 <= i < chunk && 0 <= c < channels ::
        mixB[i, c] == if i < haveB then At(log, b + i, c) else 0
    {
      ring.Fetch(log, a, mixA, 0, chunk);
      forall i, c | 0 <= i < chunk && 0 <= c < channels {
        mixB[i, c] := 0;
      }
      if haveB > 0 {
        ring.Fetch(log, b, mixB, 0, haveB);
      }
    }

    method MixBoth(dst: array2<Sample>, done: nat, chunk: nat, haveB: nat)
      requires Buffers() && Separate(dst) && |log| == play.written <= play.read + ring.capacity
      requires play.start <= play.read <= play.b && chunk <= outFrames && done + chunk <= dst.Length0
      requires play.read + chunk <= play.written && haveB == Min(chunk, Tail(play.written, play.b))
      modifies mixA, mixB, dst
      ensures forall i, c | 0 <= i < dst.Length0 && 0 <= c < channels ::
        dst[i, c] == if done <= i < done + chunk then Render(gains, log, OutgoingAt(play, i - done), c)
                     else old(dst[i, c])
    {
      LoadSides(play.read, chunk, play.b, haveB);
      Mixer.MixEqualPowerSplit(gains, mixA, mixB, dst, done, chunk, play.read - play.start, play.nA, play.kB, play.n);
      forall i, c | done <= i < done + chunk && 0 <= c < channels
        ensures dst[i, c] == Render(gains, log, OutgoingAt(play, i - done), c)
      {
        OutgoingRow(gains, log, play, i - done, c, mixA, mixB);
      }
    }

    // Mixes the outgoing tail with whatever of the incoming has been delivered.
    method MixOutgoing(dst: array2<Sample>, done: nat, want: nat) returns (chunk: nat, short: bool)
      requires Buffers() && Separate(dst) && |log| == play.written && Inv(play, ring.capacity)
      requires InFade(play) && play.read < play.at && play.read < play.written
      requires 0 < want <= outFrames && done + want <= dst.Length0
      modifies this`play, mixA, mixB, dst
      ensures 0 < chunk <= want && chunk <= old(play).at - old(play).read && chunk <= play.written - old(play).read
      ensures play == AfterOutgoing(old(play), chunk)
      ensures short <==> old(play).b + chunk > play.written
      ensures forall i, c | 0 <= i < dst.Length0 && 0 <= c < channels ::
        dst[i, c] == if done <= i < done + chunk then Render(gains, log, OutgoingAt(old(play), i - done), c)
                     else old(dst[i, c])
    {
      var k0 := play.read - play.start;
      var haveA := play.written - play.read;
      var left := if play.nA > k0 then play.nA - k0 else 1;
      chunk := Min(Min(want, play.at - play.read), Min(haveA, left));
      var haveB := if play.written > play.b then Min(play.written - play.b, chunk) else 0;
      MixBoth(dst, done, chunk, haveB);
      short := haveB < chunk;
      play := play.(read := play.read + chunk, b := play.b + haveB, kB := play.kB + haveB);
    }

    // One sample of the overlap: an incoming frame that is not there is silence.
    static lemma OutgoingSample(g: Gains, log: seq<Frame>, p: Play, i: nat, c: nat, x: Sample, y: Sample)
      requires p.start <= p.read
      requires x == At(log, p.read + i, c)
      requires y == if p.b + i < p.written then At(log, p.b + i, c) else 0
      ensures Mixed(x, g.down(Hold(p.read - p.start + i, p.nA), RampLength(p.nA)),
                    y, g.up(Hold(p.kB + i, p.n), RampLength(p.n)))
           == Render(g, log, OutgoingAt(p, i), c)
    {
      if p.b + i < p.written {
        assert OutgoingAt(p, i).Both?;
      } else {
        Mixer.MissingIsSilent(x, g.down(Hold(p.read - p.start + i, p.nA), RampLength(p.nA)),
                              0, g.up(Hold(p.kB + i, p.n), RampLength(p.n)));
        OutgoingAlone(g, log, p, i, c);
      }
    }

    static lemma OutgoingRow(g: Gains, log: seq<Frame>, p: Play, i: nat, c: nat, a: array2<Sample>, b: array2<Sample>)
      requires p.start <= p.read && i < a.Length0 && i < b.Length0 && c < a.Length1 && c < b.Length1
      requires a[i, c] == At(log, p.read + i, c)
      requires b[i, c] == if p.b + i < p.written then At(log, p.b + i, c) else 0
      ensures Mixer.MixedAt(g, a, b, i, c, p.read - p.start, p.nA, p.kB, p.n) == Render(g, log, OutgoingAt(p, i), c)
    {
      OutgoingSample(g, log, p, i, c, a[i, c], b[i, c]);
    }

    static lemma OutgoingAlone(g: Gains, log: seq<Frame>, p: Play, i: nat, c: nat)
      requires p.start <= p.read && p.b + i >= p.written
      ensures Render(g, log, OutgoingAt(p, i), c) ==
        Alone(At(log, p.read + i, c), g.down(Hold(p.read - p.start + i, p.nA), RampLength(p.nA)))
    {
    }

    static lemma IncomingSample(g: Gains, log: seq<Frame>, p: Play, i: nat, c: nat, y: Sample)
      requires y == At(log, p.b + i, c)
      ensures Mixed(0, g.down(Hold(i, p.n), RampLength(p.n)), y, g.up(Hold(p.kB + i, p.n), RampLength(p.n)))
           == Render(g, log, IncomingAt(p, i), c)
    {
      Mixer.MissingIsSilent(0, g.down(Hold(i, p.n), RampLength(p.n)), y, g.up(Hold(p.kB + i, p.n), RampLength(p.n)));
    }

    // Continues the incoming ramp over the frames that have been delivered.
    method MixIncoming(dst: array2<Sample>, done: nat, want: nat) returns (haveB: nat)
      requires Buffers() && Separate(dst) && |log| == play.written && Inv(play, ring.capacity)
      requires InFade(play) && play.read == play.at && play.kB < play.n
      requires 0 < want <= outFrames && done + want <= dst.Length0
      modifies this`play, mixB, dst
      ensures haveB <= want && haveB <= old(play).n - old(play).kB
      ensures haveB == 0 <==> old(play).b >= play.written
      ensures haveB > 0 ==> haveB <= play.written - old(play).b
      ensures play == AfterIncoming(old(play), haveB)
      ensures forall i, c | 0 <= i < dst.Length0 && 0 <= c < channels ::
        dst[i, c] == if done <= i < done + haveB then Render(gains, log, IncomingAt(old(play), i - done), c)
                     else old(dst[i, c])
    {
      var p := play;
      var chunk := Min(want, p.n - p.kB);
      haveB := if p.written > p.b then Min(p.written - p.b, chunk) else 0;
      if haveB == 0 {
        return;
      }
      ring.Fetch(log, p.b, mixB, 0, haveB);
      Mixer.MixEqualPowerSplit(gains, null, mixB, dst, done, haveB, 0, p.n, p.kB, p.n);
      forall i, c | done <= i < done + haveB && 0 <= c < channels
        ensures dst[i, c] == Render(gains, log, IncomingAt(p, i - done), c)
      {
        IncomingSample(gains, log, p, i - done, c, mixB[i - done, c]);
      }
      play := play.(b := p.b + haveB, kB := p.kB + haveB);
    }

    // 'played' is what the first rows of dst hold, and the rest of the stretch of dst.Length0 frames that
    // started at p0 is what is still to be played from here.
    ghost predicate Filled(p0: Play, dst: array2<Sample>, played: seq<Rec>)
      reads this`play, this`log, dst
    {
      && Reached(p0, dst.Length0, play, played)
      && Inv(play, rate * RING_SECONDS) && |log| == play.written
      && forall i, c | 0 <= i < |played| && 0 <= c < dst.Length1 :: dst[i, c] == Render(gains, log, played[i], c)
    }

    // Drops a boundary that the read head has passed.
    method DropPassedBoundary(ghost p0: Play, dst: array2<Sample>, ghost played: seq<Rec>)
      requires Filled(p0, dst, played) && |played| < dst.Length0
      modifies this`play
      ensures Filled(p0, dst, played) && play == Cancel(old(play))
    {
      CancelNeedsNoOutput(play);
      SameFromHere(play, Cancel(play), dst.Length0 - |played|);
      if play.sched && play.read > play.at {
        play := play.(sched := false);
      }
    }

    // Asks for one dump when the fade starts.
    method AskForDump(ghost p0: Play, dst: array2<Sample>, ghost played: seq<Rec>)
      requires Filled(p0, dst, played) && |played| < dst.Length0 && InFade(play) && play.read <= play.at
      modifies this`play
      ensures Filled(p0, dst, played) && play == MarkDump(old(play))
    {
      MarkDumpNeedsNoOutput(play);
      SameFromHere(play, MarkDump(play), dst.Length0 - |played|);
      var k0 := play.read - play.start;
      if k0 == 0 && !play.dumped {
        play := play.(dumped := true, dumps := play.dumps + 1);
      }
    }

    method CompleteFade()
      modifies this`play
      ensures play == Finish(old(play))
    {
      if play.read >= play.at && play.kB >= play.n {
        play := play.(read := play.b, sched := false, fades := play.fades + 1);
      }
    }

    method PlayOutgoing(ghost p0: Play, dst: array2<Sample>, done: nat, ghost played: seq<Rec>)
      returns (chunk: nat, short: bool, ghost grown: seq<Rec>)
      requires Buffers() && Separate(dst) && Filled(p0, dst, played) && done == |played| < dst.Length0 <= outFrames
      requires InFade(play) && play.read < play.at && play.read < play.written && MarkDump(play) == play
      modifies this`play, mixA, mixB, dst
      ensures Buffers() && Filled(p0, dst, grown) && |grown| == done + chunk <= dst.Length0 && chunk > 0
      ensures short || AnyMissing(played) <==> AnyMissing(grown)
    {
      ghost var p := play;
      chunk, short := MixOutgoing(dst, done, dst.Length0 - done);
      CompleteFade();
      OutgoingAdvances(p0, dst.Length0, p, played, chunk, ring.capacity);
      grown := played + OutgoingRecs(p, chunk);
      assert forall i | 0 <= i < |grown| ::
        grown[i] == if i < done then played[i] else OutgoingAt(p, i - done);
    }

    method PlayIncoming(ghost p0: Play, dst: array2<Sample>, done: nat, ghost played: seq<Rec>)
      returns (haveB: nat, ghost grown: seq<Rec>)
      requires Buffers() && Separate(dst) && Filled(p0, dst, played) && done == |played| < dst.Length0 <= outFrames
      requires InFade(play) && play.read == play.at && play.kB < play.n && MarkDump(play) == play
      modifies this`play, mixB, dst
      ensures Buffers() && Filled(p0, dst, grown) && |grown| == done + haveB <= dst.Length0
      ensures haveB == 0 ==> Step(play) == Turn(play, Silent)
      ensures AnyMissing(played) <==> AnyMissing(grown)
    {
      ghost var p := play;
      haveB := MixIncoming(dst, done, dst.Length0 - done);
      grown := played;
      if haveB > 0 {
        CompleteFade();
        IncomingAdvances(p0, dst.Length0, p, played, haveB, ring.capacity);
        grown := played + IncomingRecs(p, haveB);
        assert forall i | 0 <= i < |grown| :: grown[i] == if i < done then played[i] else IncomingAt(p, i - done);
      }
    }

    // Copies what has been delivered, up to the fade's start.
    method CopyPlain(dst: array2<Sample>, done: nat) returns (chunk: nat)
      requires Buffers() && Separate(dst) && |log| == play.written && Inv(play, ring.capacity)
      requires done < dst.Length0
      modifies this`play, dst
      ensures done + chunk <= dst.Length0 && play == old(play).(read := old(play).read + chunk)
      ensures play.read <= play.written && (play.sched && chunk > 0 ==> play.read <= play.start)
      ensures chunk == 0 ==> old(play).read >= play.written || (play.sched && old(play).read >= play.start)
      ensures forall i, c | 0 <= i < dst.Length0 && 0 <= c < channels ::
        dst[i, c] == if done <= i < done + chunk then Render(gains, log, Plain(old(play).read + (i - done)), c)
                     else old(dst[i, c])
    {
      chunk := 0;
      var limit := if play.sched then Min(play.start, play.written) else play.written;
      if play.read < limit {
        chunk := Min(limit - play.read, dst.Length0 - done);
        ring.Fetch(log, play.read, dst, done, chunk);
        play := play.(read := play.read + chunk);
      }
    }

    // Outside a fade the ring is copied as it is.
    method PlayPlain(ghost p0: Play, dst: array2<Sample>, done: nat, ghost played: seq<Rec>)
      returns (chunk: nat, ghost grown: seq<Rec>)
      requires Buffers() && Separate(dst) && Filled(p0, dst, played) && done == |played| < dst.Length0
      requires Cancel(play) == play && !InFade(play)
      modifies this`play, dst
      ensures Buffers() && Filled(p0, dst, grown) && |grown| == done + chunk <= dst.Length0
      ensures chunk == 0 ==> Step(play) == Turn(play, Silent)
      ensures AnyMissing(played) <==> AnyMissing(grown)
    {
      ghost var p := play;
      chunk := CopyPlain(dst, done);
      grown := played;
      if chunk > 0 {
        PlainAdvances(p0, dst.Length0, p, played, chunk, ring.capacity);
        grown := played + PlainRecs(p, chunk);
        assert forall i | 0 <= i < |grown| :: grown[i] == if i < done then played[i] else Plain(p.read + (i - done));
      }
    }

    // One pass of the output loop inside a fade. It ends the output when the side it needs has run dry.
    method PlayFade(ghost p0: Play, dst: array2<Sample>, done: nat, ghost played: seq<Rec>)
      returns (chunk: nat, short: bool, stalled: bool, ghost grown: seq<Rec>)
      requires Buffers() && Separate(dst) && Filled(p0, dst, played) && done == |played| < dst.Length0 <= outFrames
      requires InFade(play) && play.read <= play.at
      modifies this`play, mixA, mixB, dst
      ensures Buffers() && Filled(p0, dst, grown) && |grown| == done + chunk <= dst.Length0
      ensures stalled ==> chunk == 0 && Step(play) == Turn(play, Silent)
      ensures !stalled && chunk == 0 ==> !play.sched
      ensures short || AnyMissing(played) <==> AnyMissing(grown)
    {
      AskForDump(p0, dst, played);
      chunk, short, stalled, grown := 0, false, false, played;
      if play.read < play.at {
        if play.written <= play.read {
          stalled := true;
        } else {
          chunk, short, grown := PlayOutgoing(p0, dst, done, played);
        }
      } else if play.kB < play.n {
        chunk, grown := PlayIncoming(p0, dst, done, played);
        stalled := chunk == 0;
      } else {
        FinishNeedsNoOutput(play);
        SameFromHere(play, Finish(play), dst.Length0 - done);
        CompleteFade();
      }
    }

    // Renders output until the buffer is full or nothing more can be played.
    method RenderInto(ghost p0: Play, dst: array2<Sample>)
      returns (done: nat, underrun: bool, ghost played: seq<Rec>)
      requires Buffers() && Separate(dst) && Filled(p0, dst, []) && dst.Length0 <= outFrames
      modifies this`play, mixA, mixB, dst
      ensures Buffers() && Filled(p0, dst, played) && |played| == done
      ensures done < dst.Length0 ==> underrun && Step(play) == Turn(play, Silent)
      ensures done == dst.Length0 ==> (underrun <==> AnyMissing(played))
    {
      done, underrun, played := 0, false, [];
      while done < dst.Length0
        invariant Buffers() && Filled(p0, dst, played) && |played| == done <= dst.Length0
        invariant underrun <==> AnyMissing(played)
        decreases dst.Length0 - done, if play.sched then 1 else 0
      {
        DropPassedBoundary(p0, dst, played);
        if play.sched && play.read >= play.start {
          var chunk, short, stalled;
          chunk, short, stalled, played := PlayFade(p0, dst, done, played);
          if stalled {
            underrun := true;
            break;
          }
          done := done + chunk;
          underrun := underrun || short;
        } else {
          var chunk;
          chunk, played := PlayPlain(p0, dst, done, played);
          if chunk == 0 {
            underrun := true;
            break;
          }
          done := done + chunk;
        }
      }
    }

    // Renders output and pads what could not be played with silence.
    method RenderPadded(dst: array2<Sample>) returns (underrun: bool)
      requires Buffers() && Separate(dst) && Filled(play, dst, []) && dst.Length0 <= outFrames
      modifies this`play, mixA, mixB, dst
      ensures Buffers() && play == Steps(old(play), dst.Length0).next
      ensures underrun <==> AnyMissing(Steps(old(play), dst.Length0).recs)
      ensures forall i, c | 0 <= i < dst.Length0 && 0 <= c < channels ::
        dst[i, c] == Render(gains, log, Steps(old(play), dst.Length0).recs[i], c)
    {
      ghost var p0 := play;
      var done;
      ghost var played;
      done, underrun, played := RenderInto(p0, dst);
      if done < dst.Length0 {
        SilenceAdvances(p0, dst.Length0, play, played);
        forall i, c | done <= i < dst.Length0 && 0 <= c < channels {
          dst[i, c] := 0;
        }
      } else {
        StretchEnds(p0, dst.Length0, play, played);
      }
    }

    // The buffer holds, up to the start of a fade, and without one, the log from the read head on, and silence
    // past its end.
    ghost predicate IsTheLog(p: Play, dst: array2<Sample>)
      requires Shaped(log, channels) && dst.Length1 == channels
      reads this`log, dst
    {
      forall i, c | 0 <= i < dst.Length0 && 0 <= c < channels && (p.sched ==> p.read + i < p.start) ::
        dst[i, c] == if p.read + i < |log| then log[p.read + i][c] else 0
    }

    // The same, with what plain output sounds like.
    method RenderBuffer(dst: array2<Sample>) returns (underrun: bool)
      requires Buffers() && Separate(dst) && Filled(play, dst, []) && dst.Length0 <= outFrames && Shaped(log, channels)
      modifies this`play, mixA, mixB, dst
      ensures Buffers() && play == Steps(old(play), dst.Length0).next
      ensures underrun <==> AnyMissing(Steps(old(play), dst.Length0).recs)
      ensures forall i, c | 0 <= i < dst.Length0 && 0 <= c < channels ::
        dst[i, c] == Render(gains, log, Steps(old(play), dst.Length0).recs[i], c)
      ensures IsTheLog(old(play), dst)
    {
      ghost var p := play;
      StepsKeepInv(p, dst.Length0, rate * RING_SECONDS);
      underrun := RenderPadded(dst);
      forall i, c | 0 <= i < dst.Length0 && 0 <= c < channels && (p.sched ==> p.read + i < p.start)
        ensures dst[i, c] == if p.read + i < |log| then log[p.read + i][c] else 0
      {
        PlainOutputIsTheLog(gains, log, p, dst.Length0, i, c);
      }
    }

    // Counts an underrun heard while playing, and records the output.
    method Account(underrun: bool, ghost recs: seq<Rec>)
      modifies this`controls, this`out
      ensures out == old(out) + recs
      ensures controls == old(controls).(underruns :=
        old(controls).underruns + if underrun && old(controls).playing then 1 else 0)
    {
      if underrun && controls.playing {
        controls := controls.(underruns := controls.underruns + 1);
      }
      out := out + recs;
    }

    /** Produces one output buffer. In chunks, and across every phase of a fade, it plays exactly what playing
        frame by frame would. Up to the start of a fade, and without one, that is the log from the read head on,
        and silence past its end. */
    method Fill(dst: array2<Sample>)
      requires Valid() && Separate(dst) && dst.Length0 <= outFrames
      modifies this`play, this`controls, this`out, mixA, mixB, dst
      ensures Valid() && State() == Pipeline.Fill(old(State()), dst.Length0)
      ensures forall i, c | 0 <= i < dst.Length0 && 0 <= c < channels ::
        dst[i, c] == Render(gains, log, Steps(old(play), dst.Length0).recs[i], c)
      ensures IsTheLog(old(play), dst)
    {
      FillKeepsGood(State(), dst.Length0);
      ghost var recs := Steps(play, dst.Length0).recs;
      var underrun := RenderBuffer(dst);
      Account(underrun, recs);
    }
  }
}
