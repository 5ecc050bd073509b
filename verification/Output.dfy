/** The output side: four buffers that circulate between the pipeline and the back end. */
module Output {
  import opened Audio
  import opened Pipeline
  import opened Renderer
  import opened RingPipelineClass

  const OUT_BUFFERS := 4
  const MAX_RING_SAMPLES := 0x1000_0000

  datatype Format = Format(rateHz: nat, channels: nat, bits: nat)

  // The buffers in the order they complete, when 'head' is the oldest one.
  function Rotation(head: nat): seq<nat>
    requires head < OUT_BUFFERS
  {
    [head, (head + 1) % OUT_BUFFERS, (head + 2) % OUT_BUFFERS, (head + 3) % OUT_BUFFERS]
  }

  /** Refilling the oldest finished buffer and queueing it again turns the rotation by one. */
  lemma RotationTurns(head: nat, finished: seq<nat>, queued: seq<nat>)
    requires head < OUT_BUFFERS && finished != [] && finished + queued == Rotation(head)
    ensures finished[0] == head && head !in finished[1..] && head !in queued
    ensures finished[1..] + (queued + [head]) == Rotation((head + 1) % OUT_BUFFERS)
  {
    var r := Rotation(head);
    assert forall i | 0 <= i < |finished| :: finished[i] == r[i];
    assert forall i | 0 <= i < |queued| :: queued[i] == r[|finished| + i];
    assert finished[1..] + (queued + [head]) == r[1..] + [head];
  }

  predicate Supported(f: Format) {
    f.bits == 16 && f.channels > 0 && f.rateHz > 0
  }

  class Player {
    const pipeline: RingPipeline
    const buffers: seq<array2<Sample>>
    var outHead: nat
    // The back end: the buffers it has finished but not yet reported, then those still to be played.
    var finished: seq<nat>
    var queued: seq<nat>

    // The four buffers have the right shape and are all different from each other and from the pipeline's.
    ghost predicate Shapes() {
      && |buffers| == OUT_BUFFERS
      && (forall i | 0 <= i < OUT_BUFFERS ::
            pipeline.Separate(buffers[i]) && buffers[i].Length0 == pipeline.outFrames)
      && (forall i, j | 0 <= i < j < OUT_BUFFERS :: buffers[i] != buffers[j])
    }

    ghost predicate Valid()
      reads this, pipeline, pipeline.model, pipeline.ring.data
    {
      && Shapes() && pipeline.Valid()
      && outHead < OUT_BUFFERS
      && finished + queued == Rotation(outHead)
    }

    constructor (pipeline: RingPipeline, buffers: seq<array2<Sample>>)
      requires pipeline.Valid() && |buffers| == OUT_BUFFERS
      requires forall i | 0 <= i < OUT_BUFFERS ::
        pipeline.Separate(buffers[i]) && buffers[i].Length0 == pipeline.outFrames
      requires forall i, j | 0 <= i < j < OUT_BUFFERS :: buffers[i] != buffers[j]
      ensures Valid() && this.pipeline == pipeline && this.buffers == buffers
      ensures finished == [] && queued == Rotation(0)
    {
      this.pipeline, this.buffers := pipeline, buffers;
      outHead, finished, queued := 0, [], Rotation(0);
    }

    // The back end finishes the oldest queued buffer.
    method Finishes()
      requires Valid() && queued != []
      modifies this`finished, this`queued
      ensures Valid() && finished == old(finished) + [old(queued)[0]] && queued == old(queued)[1..]
    {
      finished, queued := finished + [queued[0]], queued[1..];
    }

    /** The completion callback refills exactly the buffer whose completion it reports, which the back end no
        longer holds, and queues it again behind all the others. */
    method OnBackendDone()
      requires Valid() && finished != []
      modifies this, pipeline`play, pipeline`controls, pipeline`out, pipeline.mixA, pipeline.mixB, buffers[outHead]
      ensures Valid()
      ensures old(outHead) == old(finished)[0]
      ensures old(outHead) !in old(finished)[1..] && old(outHead) !in old(queued)
      ensures !pipeline.started ==>
        finished == old(finished) && queued == old(queued) && pipeline.State() == old(pipeline.State())
      ensures pipeline.started ==>
        && finished == old(finished)[1..] && queued == old(queued) + [old(outHead)]
        && pipeline.State() == Fill(old(pipeline.State()), pipeline.outFrames)
        && forall i, c | 0 <= i < pipeline.outFrames && 0 <= c < pipeline.channels ::
             buffers[old(outHead)][i, c] ==
               Render(pipeline.gains, pipeline.log, Steps(old(pipeline.play), pipeline.outFrames).recs[i], c)
    {
      RotationTurns(outHead, finished, queued);
      if !pipeline.started {
        return;
      }
      var buf := outHead;
      outHead := (outHead + 1) % OUT_BUFFERS;
      pipeline.Fill(buffers[buf]);
      finished, queued := finished[1..], queued + [buf];
    }
  }

  // Four different buffers of this shape.
  method OutputBuffers(frames: nat, channels: nat) returns (buffers: seq<array2<Sample>>)
    ensures |buffers| == OUT_BUFFERS
    ensures forall i | 0 <= i < OUT_BUFFERS ::
      fresh(buffers[i]) && buffers[i].Length0 == frames && buffers[i].Length1 == channels
    ensures forall i, j | 0 <= i < j < OUT_BUFFERS :: buffers[i] != buffers[j]
  {
    var b0 := new Sample[frames, channels];
    var b1 := new Sample[frames, channels];
    var b2 := new Sample[frames, channels];
    var b3 := new Sample[frames, channels];
    buffers := [b0, b1, b2, b3];
  }

  // A started pipeline and the four buffers that carry its output.
  method Prime(gains: Gains, f: Format, crossfadeMs: nat, nowMs: int) returns (p: Player)
    requires crossfadeMs <= MAX_CROSSFADE_MS && Supported(f)
    ensures fresh(p) && p.Valid() && p.pipeline.started && p.queued == Rotation(0)
    ensures p.pipeline.State() == Started(f.rateHz, f.channels, crossfadeMs, nowMs)
  {
    var pipeline := new RingPipeline(gains, f.rateHz, f.channels, crossfadeMs, nowMs);
    var buffers := OutputBuffers(pipeline.outFrames, f.channels);
    p := new Player(pipeline, buffers);
  }

  // Starts a player, or not: the format, the ring, the back end and every priming buffer must be accepted, and
  // the acknowledgement thread must start.
  method Start(gains: Gains, f: Format, crossfadeMs: nat, allocates: bool, opens: bool, accepts: seq<bool>,
               threadStarts: bool, nowMs: int)
    returns (p: Player?)
    requires crossfadeMs <= MAX_CROSSFADE_MS && |accepts| == OUT_BUFFERS
    ensures p != null <==>
      && f.bits == 16 && f.channels > 0 && f.rateHz > 0 && f.rateHz * 30 * f.channels <= 268435456
      && allocates && opens
      && (forall i | 0 <= i < OUT_BUFFERS :: accepts[i]) && threadStarts
    ensures p != null ==> fresh(p) && p.Valid() && p.pipeline.started && p.queued == Rotation(0)
    ensures p != null ==> p.pipeline.State() == Started(f.rateHz, f.channels, crossfadeMs, nowMs)
  {
    if f.bits != 16 || f.channels == 0 || f.rateHz == 0 {
      return null;
    }
    if f.rateHz * RING_SECONDS * f.channels > MAX_RING_SAMPLES || !allocates || !opens {
      return null;
    }
    for i := 0 to OUT_BUFFERS
      invariant forall k | 0 <= k < i :: accepts[k]
    {
      if !accepts[i] {
        return null;
      }
    }
    if !threadStarts {
      return null;
    }
    p := Prime(gains, f, crossfadeMs, nowMs);
  }
}
