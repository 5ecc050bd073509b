/** What happens to every accepted buffer: acknowledgement in order, and the pace at which padding is released. */
module QueueRuns {
  import opened Audio
  import opened Pipeline
  import opened PipelineProofs

  // --- Every buffer is handed back once, in order, or discarded --------------------------------------------

  predicate Increasing(xs: seq<nat>) {
    forall i, j | 0 <= i < j < |xs| :: xs[i] < xs[j]
  }

  // The number of the oldest buffer in the queue, or of the next one to be accepted.
  function Oldest(q: Queue): int {
    q.accepted - |q.pending|
  }

  // Accepted buffers are numbered from zero. The queue holds the latest of them in order; of the others each
  // was either handed back or discarded, and both happened in order.
  predicate Numbered(q: Queue) {
    && |q.pending| <= q.accepted
    && |q.handed| == q.acked && |q.discarded| == q.cleared
    && (forall i | 0 <= i < |q.pending| :: q.pending[i].number == Oldest(q) + i)
    && Increasing(q.handed) && Increasing(q.discarded)
    && (forall n | n in q.handed :: n < Oldest(q) && n !in q.discarded)
    && (forall n | n in q.discarded :: n < Oldest(q))
    && (forall n: nat | n < Oldest(q) :: n in q.handed || n in q.discarded)
  }

  lemma AppendIncreasing(xs: seq<nat>, ys: seq<nat>)
    requires Increasing(xs) && Increasing(ys)
    requires forall x, y | x in xs && y in ys :: x < y
    ensures Increasing(xs + ys)
  {
    var zs := xs + ys;
    forall i, j | 0 <= i < j < |zs|
      ensures zs[i] < zs[j]
    {
      if i < |xs| <= j {
        assert xs[i] in xs && ys[j - |xs|] in ys;
      }
    }
  }

  lemma PushKeepsNumbers(q: Queue, end: nat, dropped: bool, notBeforeMs: int, arm: nat)
    requires Numbered(q)
    ensures Numbered(Push(q, end, dropped, notBeforeMs, arm))
  {
  }

  lemma AckKeepsNumbers(q: Queue)
    requires Numbered(q) && q.pending != []
    ensures Numbered(Ack(q))
  {
    var t := Ack(q);
    AppendIncreasing(q.handed, [q.pending[0].number]);
    assert forall i | 0 <= i < |t.pending| :: t.pending[i] == q.pending[i + 1];
    assert forall n | n in t.handed :: n in q.handed || n == Oldest(q);
    assert t.handed[|q.handed|] == Oldest(q);
    assert forall n | n in q.handed :: n in t.handed;
  }

  lemma NumbersOf(q: Queue)
    requires Numbered(q)
    ensures Increasing(Numbers(q.pending))
    ensures forall n: nat :: n in Numbers(q.pending) <==> Oldest(q) <= n < q.accepted
  {
    var ns := Numbers(q.pending);
    forall n: nat | Oldest(q) <= n < q.accepted
      ensures n in ns
    {
      assert ns[n - Oldest(q)] == n;
    }
  }

  lemma DiscardKeepsNumbers(q: Queue)
    requires Numbered(q)
    ensures Numbered(Discard(q))
  {
    NumbersOf(q);
    AppendIncreasing(q.discarded, Numbers(q.pending));
  }

  lemma NextKeepsNumbers(s: State, e: Event)
    requires Numbered(s.queue)
    ensures Numbered(Next(s, e).queue)
    ensures s.queue.handed <= Next(s, e).queue.handed && s.queue.discarded <= Next(s, e).queue.discarded
  {
    match e
    case EnqueueEvent(buf, now) =>
      if FitsRing(s, |buf|) {
        var n := Next(s, e).queue.pending[|s.queue.pending|];
        PushKeepsNumbers(s.queue, n.end, n.dropped, n.notBeforeMs, n.arm);
      }
    case ClearEvent(now) => DiscardKeepsNumbers(s.queue);
    case AckEvent(now) =>
      if AckReady(Clock(s, now), now) {
        AckKeepsNumbers(s.queue);
      }
    case _ =>
  }

  // Each accepted buffer is exactly one of handed back, discarded by a flush, and still in the queue; the ones
  // handed back are so in order, and the queue is in order.
  ghost predicate Accounted(q: Queue) {
    && Increasing(q.handed) && Increasing(Numbers(q.pending)) && |q.handed| == q.acked
    && (forall n: nat :: n < q.accepted <==> n in q.handed || n in q.discarded || n in Numbers(q.pending))
    && (forall n: nat :: !(n in q.handed && n in q.discarded) && !(n in q.handed && n in Numbers(q.pending))
                      && !(n in q.discarded && n in Numbers(q.pending)))
  }

  lemma {:induction false} RunKeepsNumbers(s: State, es: seq<Event>)
    requires Numbered(s.queue)
    ensures Numbered(Run(s, es).queue) && Accounted(Run(s, es).queue)
    ensures s.queue.handed <= Run(s, es).queue.handed && s.queue.discarded <= Run(s, es).queue.discarded
    decreases |es|
  {
    if es == [] {
      NumbersOf(s.queue);
    } else {
      NextKeepsNumbers(s, es[0]);
      RunKeepsNumbers(Next(s, es[0]), es[1..]);
    }
  }

  /** Acknowledgements are first in, first out, and at most one per buffer. At any moment of any run of a
      player, and whatever happens afterwards, every accepted buffer is accounted for, and what was handed back
      or discarded stays so, in the same order. */
  lemma EveryBufferIsHandedBackOnceInOrder(rate: nat, channels: nat, crossfadeMs: nat, nowMs: int,
                                           before: seq<Event>, after: seq<Event>)
    ensures var s := Run(Started(rate, channels, crossfadeMs, nowMs), before);
      var t := Run(s, after);
      && Accounted(s.queue) && Accounted(t.queue)
      && s.queue.handed <= t.queue.handed && s.queue.discarded <= t.queue.discarded
  {
    var start := Started(rate, channels, crossfadeMs, nowMs);
    RunKeepsNumbers(start, before);
    RunKeepsNumbers(Run(start, before), after);
  }

  // --- The probe schedule ----------------------------------------------------------------------------------

  // A dropped buffer of the arm with this number.
  predicate Probe(p: Pending, arm: nat) {
    p.dropped && p.arm == arm
  }

  function Probes(q: seq<Pending>, arm: nat): nat {
    if q == [] then 0 else (if Probe(q[0], arm) then 1 else 0) + Probes(q[1..], arm)
  }

  // The queued probes of an arm, of which 'first' came before, are due one per probe interval after t0.
  predicate Paced(q: seq<Pending>, arm: nat, first: nat, t0: int) {
    q == [] ||
    if Probe(q[0], arm) then q[0].notBeforeMs >= t0 + PROBE_MS * (first + 1) && Paced(q[1..], arm, first + 1, t0)
    else Paced(q[1..], arm, first, t0)
  }

  lemma {:induction false} PacedAppend(q: seq<Pending>, e: Pending, arm: nat, first: nat, t0: int)
    requires Paced(q, arm, first, t0)
    requires Probe(e, arm) ==> e.notBeforeMs >= t0 + PROBE_MS * (first + Probes(q, arm) + 1)
    ensures Paced(q + [e], arm, first, t0)
    ensures Probes(q + [e], arm) == Probes(q, arm) + if Probe(e, arm) then 1 else 0
  {
    if q == [] {
      assert q + [e] == [e] && [e][1..] == [];
    } else {
      assert (q + [e])[1..] == q[1..] + [e];
      PacedAppend(q[1..], e, arm, if Probe(q[0], arm) then first + 1 else first, t0);
    }
  }

  lemma {:induction false} NoneOfANewArm(q: seq<Pending>, arm: nat, first: nat, t0: int)
    requires forall i | 0 <= i < |q| :: q[i].arm < arm
    ensures Probes(q, arm) == 0 && Paced(q, arm, first, t0)
  {
    if q == [] {
    } else {
      NoneOfANewArm(q[1..], arm, first, t0);
    }
  }

  // Every queued buffer was received under an arm that has been opened.
  predicate ArmsKnown(s: State) {
    forall i | 0 <= i < |s.queue.pending| :: s.queue.pending[i].arm <= s.arm.number
  }

  lemma NextKeepsArmsKnown(s: State, e: Event)
    requires ArmsKnown(s)
    ensures ArmsKnown(Next(s, e)) && s.arm.number <= Next(s, e).arm.number
  {
  }

  // The event opens a new arm: a flush, or metadata with a new playback id.
  predicate Rearms(s: State, e: Event) {
    e.ClearEvent? || (e.MetadataEvent? && e.meta.playbackId != s.controls.lastId)
  }

  // An arm has just been opened at t0: it has dropped nothing, and nothing of it is queued.
  predicate JustArmed(s: State, t0: int) {
    && s.arm.armed && s.arm.openedMs == t0 && s.arm.drops == 0
    && forall i | 0 <= i < |s.queue.pending| :: s.queue.pending[i].arm < s.arm.number
  }

  /** The start of the player, every flush and every metadata with a new playback id open an arm of their own,
      and nothing else does. */
  lemma ArmsOpen(s: State, e: Event, rate: nat, channels: nat, crossfadeMs: nat, nowMs: int)
    requires ArmsKnown(s)
    ensures JustArmed(Started(rate, channels, crossfadeMs, nowMs), nowMs)
    ensures ArmsKnown(Started(rate, channels, crossfadeMs, nowMs))
    ensures Rearms(s, e) ==> JustArmed(Next(s, e), e.nowMs) && Next(s, e).arm.number == s.arm.number + 1
    ensures !Rearms(s, e) ==> Next(s, e).arm.number == s.arm.number && Next(s, e).arm.openedMs == s.arm.openedMs
  {
  }

  // The probes of an arm that was opened at t0: 'released' of them have been handed back, the queued ones are
  // on their schedule, and while it is the latest arm those are all it has dropped.
  predicate Probing(s: State, arm: nat, t0: int, released: nat) {
    && arm <= s.arm.number && Paced(s.queue.pending, arm, released, t0)
    && (s.arm.number == arm ==> s.arm.openedMs == t0 && s.arm.drops == released + Probes(s.queue.pending, arm))
  }

  // This event hands back a probe of the arm.
  predicate ReleasesProbe(s: State, e: Event, arm: nat) {
    e.AckEvent? && AckReady(Clock(s, e.nowMs), e.nowMs) && Probe(s.queue.pending[0], arm)
  }

  function ReleasedBy(s: State, e: Event, arm: nat): nat {
    if ReleasesProbe(s, e, arm) then 1 else 0
  }

  lemma EnqueueKeepsProbing(s: State, buf: seq<Frame>, nowMs: int, arm: nat, t0: int, released: nat)
    requires Good(s) && Probing(s, arm, t0, released)
    ensures Probing(Enqueue(s, buf, nowMs), arm, t0, released)
  {
    if FitsRing(s, |buf|) {
      var n := Enqueue(s, buf, nowMs).queue.pending;
      PacedAppend(s.queue.pending, n[|n| - 1], arm, released, t0);
    }
  }

  lemma NextKeepsProbing(s: State, e: Event, arm: nat, t0: int, released: nat)
    requires Good(s) && ArmsKnown(s) && Probing(s, arm, t0, released)
    ensures Probing(Next(s, e), arm, t0, released + ReleasedBy(s, e, arm))
    ensures ReleasesProbe(s, e, arm) ==> s.controls.playing && e.nowMs >= t0 + PROBE_MS * (released + 1)
  {
    if e.EnqueueEvent? {
      EnqueueKeepsProbing(s, e.buf, e.nowMs, arm, t0, released);
    }
  }

  // How many probes of the arm a run hands back.
  function Released(s: State, es: seq<Event>, arm: nat): nat
    decreases |es|
  {
    if es == [] then 0 else ReleasedBy(s, es[0], arm) + Released(Next(s, es[0]), es[1..], arm)
  }

  lemma {:induction false} RunKeepsProbing(s: State, es: seq<Event>, arm: nat, t0: int, released: nat)
    requires Good(s) && AllWellFormed(s, es) && ArmsKnown(s) && Probing(s, arm, t0, released)
    ensures ArmsKnown(Run(s, es)) && Probing(Run(s, es), arm, t0, released + Released(s, es, arm))
    decreases |es|
  {
    if es == [] {
    } else {
      var next := released + ReleasedBy(s, es[0], arm);
      NextKeepsGood(s, es[0]);
      NextKeepsArmsKnown(s, es[0]);
      NextKeepsProbing(s, es[0], arm, t0, released);
      RunKeepsProbing(Next(s, es[0]), es[1..], arm, t0, next);
    }
  }

  /** Padding is released no faster than one buffer per probe interval, and only while playing. Take any arm,
      opened at t0 by the start of the player, a flush or a new track, and any events after that, further arms
      among them: when the i-th buffer this arm dropped is handed back, at least i intervals have passed since
      t0. */
  lemma PaddingIsReleasedAtProbePace(s: State, t0: int, es: seq<Event>, e: Event)
    requires Good(s) && AllWellFormed(s, es) && JustArmed(s, t0)
    requires ReleasesProbe(Run(s, es), e, s.arm.number)
    ensures e.nowMs >= t0 + 100 * (Released(s, es, s.arm.number) + 1)
    ensures Run(s, es).controls.playing
  {
    var arm := s.arm.number;
    NoneOfANewArm(s.queue.pending, arm, 0, t0);
    RunKeepsGood(s, es);
    RunKeepsProbing(s, es, arm, t0, 0);
    NextKeepsProbing(Run(s, es), e, arm, t0, Released(s, es, arm));
  }

  // --- Probes come in time ---------------------------------------------------------------------------------

  // When an event happens; events without a time happen when the one before them does.
  function TimeOf(e: Event, before: int): int {
    match e
    case EnqueueEvent(_, now) => now
    case ClearEvent(now) => now
    case MetadataEvent(_, now) => now
    case AckEvent(now) => now
    case _ => before
  }

  // Time does not run backwards, from t on.
  predicate Timed(es: seq<Event>, t: int)
    decreases |es|
  {
    es == [] || (TimeOf(es[0], t) >= t && Timed(es[1..], TimeOf(es[0], t)))
  }

  // The time when a run is over.
  function EndTime(es: seq<Event>, t: int): int
    decreases |es|
  {
    if es == [] then t else EndTime(es[1..], TimeOf(es[0], t))
  }

  // The schedule of the arm is no further ahead of time t than what it has dropped.
  predicate InTime(s: State, t: int) {
    s.arm.lastProbeMs <= t + 100 * s.arm.drops
  }

  lemma NextInTime(s: State, e: Event, t: int)
    requires InTime(s, t) && TimeOf(e, t) >= t
    ensures InTime(Next(s, e), TimeOf(e, t))
  {
  }

  lemma {:induction false} RunInTime(s: State, es: seq<Event>, t: int)
    requires InTime(s, t) && Timed(es, t)
    ensures InTime(Run(s, es), EndTime(es, t))
    decreases |es|
  {
    if es == [] {
    } else {
      NextInTime(s, es[0], t);
      RunInTime(Next(s, es[0]), es[1..], TimeOf(es[0], t));
    }
  }

  /** Padding is not held back longer than its pace asks for: from the start of a player on, the i-th buffer an arm
      drops is due no later than i probe intervals after it came in. */
  lemma ProbesComeInTime(s: State, rate: nat, channels: nat, crossfadeMs: nat, t0: int, es: seq<Event>,
                         buf: seq<Frame>, nowMs: int)
    requires s == Started(rate, channels, crossfadeMs, t0) && Timed(es, t0) && nowMs >= EndTime(es, t0)
    ensures var m := Run(s, es);
      var t := Drop(m, |buf|, nowMs);
      && |t.queue.pending| == |m.queue.pending| + 1
      && var e := t.queue.pending[|m.queue.pending|];
         e.dropped && e.notBeforeMs <= nowMs + 100 * (m.arm.drops + 1)
  {
    RunInTime(s, es, t0);
  }
}
