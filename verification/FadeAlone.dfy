/** A fade left alone: deliveries of any size at any time, and output frames, until it completes. */
module FadeAlone {
  import opened Audio
  import opened Boundary
  import opened Renderer

  datatype Beat = Delivery(frames: nat) | Output

  // What has been played since some point, and whether the fade has completed.
  datatype Progress = Progress(play: Play, recs: seq<Rec>, done: bool)

  function Advance(s: Progress, e: Beat): Progress {
    if s.done then s
    else match e
      case Delivery(frames) => s.(play := Deliver(s.play, frames))
      case Output =>
        var t := Step(s.play);
        Progress(t.next, s.recs + [t.rec], t.next.fades > s.play.fades)
  }

  function Run(s: Progress, beats: seq<Beat>): Progress
    decreases |beats|
  {
    if beats == [] then s else Run(Advance(s, beats[0]), beats[1..])
  }

  // A frame of one side of a fade, with the position and the length that selected its gain.
  datatype Part = Part(frame: nat, k: nat, n: nat)

  // The part of either side that an output frame plays, if any.
  function IncomingOf(r: Rec): seq<Part> {
    if r.Both? || r.IncomingOnly? then [Part(r.b, r.kB, r.nB)] else []
  }

  function OutgoingOf(r: Rec): seq<Part> {
    if r.Both? || r.OutgoingOnly? then [Part(r.a, r.kA, r.nA)] else []
  }

  // The incoming and the outgoing side of a stretch of output, in the order they were played.
  function Incoming(rs: seq<Rec>): seq<Part> {
    if rs == [] then [] else Incoming(rs[..|rs| - 1]) + IncomingOf(rs[|rs| - 1])
  }

  function Outgoing(rs: seq<Rec>): seq<Part> {
    if rs == [] then [] else Outgoing(rs[..|rs| - 1]) + OutgoingOf(rs[|rs| - 1])
  }

  lemma PartsGrow(rs: seq<Rec>, r: Rec)
    ensures Incoming(rs + [r]) == Incoming(rs) + IncomingOf(r)
    ensures Outgoing(rs + [r]) == Outgoing(rs) + OutgoingOf(r)
  {
    assert (rs + [r])[..|rs|] == rs;
  }

  // The fade scheduled in p, before any of it has been played.
  predicate Untouched(p: Play) {
    && p.sched && p.n > 0 && p.b == p.at && p.kB == 0
    && p.read <= p.at && p.start <= p.at
    && (p.read < p.at ==> p.start + p.nA == p.at)
  }

  // Where the outgoing side of the fade starts being played.
  function OutgoingFrom(p: Play): nat {
    Max(p.read, p.start)
  }

  // The fade of p is in progress in q, as far as its numbers go.
  predicate Continues(p: Play, q: Play) {
    && q.at == p.at && q.n == p.n && q.start == p.start && q.nA == p.nA
    && q.sched && q.fades == p.fades
    && p.read <= q.read <= p.at
    && q.b == p.at + q.kB
    && (q.read < p.start ==> q.kB == 0)
    && (q.read == p.at ==> q.kB < p.n)
  }

  // Whether the incoming side has been keeping step with the outgoing one: an outgoing ramp as long as the
  // incoming one, played from its start, is never overtaken.
  predicate InStep(p: Play) {
    p.read <= p.start && p.nA == p.n && p.start + p.nA == p.at
  }

  // The fade of p has just completed in q.
  predicate Completes(p: Play, q: Play) {
    && q.fades == p.fades + 1 && !q.sched
    && q.read >= p.at + p.n
    && (InStep(p) ==> q.read == p.at + p.n)
  }

  // How many frames of either side have been played when the fade of p stands at q, or completed in q.
  function IncomingCount(p: Play, q: Play, done: bool): nat
    requires done ==> q.read >= p.at
  {
    if done then q.read - p.at else q.kB
  }

  function OutgoingCount(p: Play, q: Play, done: bool): nat
    requires p.read <= p.at && p.start <= p.at
  {
    if done then p.at - OutgoingFrom(p) else Max(q.read - OutgoingFrom(p), 0)
  }

  predicate Stands(p: Play, q: Play, done: bool)
    requires Untouched(p)
  {
    if done then Completes(p, q)
    else Continues(p, q) && (InStep(p) ==> q.kB <= OutgoingCount(p, q, false))
  }

  function IncomingPart(p: Play, j: nat): Part {
    Part(p.at + j, Hold(j, p.n), RampLength(p.n))
  }

  function OutgoingPart(p: Play, j: nat): Part {
    Part(OutgoingFrom(p) + j, Hold(OutgoingFrom(p) - p.start + j, p.nA), RampLength(p.nA))
  }

  function IncomingRun(p: Play, count: nat): seq<Part> {
    seq(count, j requires 0 <= j => IncomingPart(p, j))
  }

  function OutgoingRun(p: Play, count: nat): seq<Part> {
    seq(count, j requires 0 <= j => OutgoingPart(p, j))
  }

  lemma RunsGrow(p: Play, count: nat)
    ensures IncomingRun(p, count + 1) == IncomingRun(p, count) + [IncomingPart(p, count)]
    ensures OutgoingRun(p, count + 1) == OutgoingRun(p, count) + [OutgoingPart(p, count)]
  {
  }

  // In progress or just completed, with every frame of either side that was played in order, at the
  // positions its own ramp gives it.
  ghost predicate OnItsRamps(p: Play, s: Progress)
    requires Untouched(p)
  {
    && Stands(p, s.play, s.done)
    && Incoming(s.recs) == IncomingRun(p, IncomingCount(p, s.play, s.done))
    && Outgoing(s.recs) == OutgoingRun(p, OutgoingCount(p, s.play, s.done))
  }

  // What one output frame adds to either side: nothing, or the next part of its ramp.
  predicate AddsTo(p: Play, q: Play, t: Turn)
    requires Untouched(p)
  {
    var done := t.next.fades > q.fades;
    && Stands(p, t.next, done)
    && IncomingCount(p, t.next, done) == q.kB + |IncomingOf(t.rec)|
    && (IncomingOf(t.rec) == [] || IncomingOf(t.rec) == [IncomingPart(p, q.kB)])
    && OutgoingCount(p, t.next, done) == OutgoingCount(p, q, false) + |OutgoingOf(t.rec)|
    && (OutgoingOf(t.rec) == [] || OutgoingOf(t.rec) == [OutgoingPart(p, OutgoingCount(p, q, false))])
  }

  lemma BeforeTheFade(p: Play, q: Play)
    requires Untouched(p) && Stands(p, q, false) && q.read < q.start
    ensures AddsTo(p, q, PlainFrame(q))
  {
  }

  lemma DuringTheOverlap(p: Play, q: Play)
    requires Untouched(p) && Stands(p, q, false) && q.start <= q.read < q.at
    ensures AddsTo(p, q, OutgoingFrame(q))
  {
    if q.read < q.written {
      var t := TakeIncoming(q).(read := q.read + 1);
      assert t.b == t.at + t.kB && OutgoingCount(p, t, false) == OutgoingCount(p, q, false) + 1;
      if t.read >= t.at && t.kB >= t.n {
        assert Completes(p, Finish(t));
      } else {
        assert Finish(t) == t && Stands(p, t, false);
      }
    }
  }

  lemma AfterTheOverlap(p: Play, q: Play)
    requires Untouched(p) && Stands(p, q, false) && q.start <= q.read && q.read == q.at
    ensures AddsTo(p, q, IncomingFrame(q))
  {
  }

  lemma OutputAdds(p: Play, q: Play)
    requires Untouched(p) && Stands(p, q, false)
    ensures AddsTo(p, q, Step(q))
  {
    assert Cancel(q) == q;
    if !InFade(q) {
      BeforeTheFade(p, q);
    } else {
      var d := MarkDump(q);
      assert Stands(p, d, false);
      if d.read < d.at {
        DuringTheOverlap(p, d);
      } else {
        AfterTheOverlap(p, d);
      }
    }
  }

  lemma IncomingExtends(p: Play, rs: seq<Rec>, r: Rec, count: nat)
    requires Incoming(rs) == IncomingRun(p, count)
    requires IncomingOf(r) == [] || IncomingOf(r) == [IncomingPart(p, count)]
    ensures Incoming(rs + [r]) == IncomingRun(p, count + |IncomingOf(r)|)
  {
    PartsGrow(rs, r);
    RunsGrow(p, count);
  }

  lemma OutgoingExtends(p: Play, rs: seq<Rec>, r: Rec, count: nat)
    requires Outgoing(rs) == OutgoingRun(p, count)
    requires OutgoingOf(r) == [] || OutgoingOf(r) == [OutgoingPart(p, count)]
    ensures Outgoing(rs + [r]) == OutgoingRun(p, count + |OutgoingOf(r)|)
  {
    PartsGrow(rs, r);
    RunsGrow(p, count);
  }

  lemma IncomingStays(p: Play, q: Play, recs: seq<Rec>, t: Turn, done: bool)
    requires Untouched(p) && AddsTo(p, q, t) && done == (t.next.fades > q.fades)
    requires Incoming(recs) == IncomingRun(p, q.kB)
    ensures Incoming(recs + [t.rec]) == IncomingRun(p, IncomingCount(p, t.next, done))
  {
    IncomingExtends(p, recs, t.rec, q.kB);
  }

  lemma OutgoingStays(p: Play, q: Play, recs: seq<Rec>, t: Turn, done: bool)
    requires Untouched(p) && AddsTo(p, q, t) && done == (t.next.fades > q.fades)
    requires Outgoing(recs) == OutgoingRun(p, OutgoingCount(p, q, false))
    ensures Outgoing(recs + [t.rec]) == OutgoingRun(p, OutgoingCount(p, t.next, done))
  {
    OutgoingExtends(p, recs, t.rec, OutgoingCount(p, q, false));
  }

  lemma TurnStaysOnRamps(p: Play, q: Play, recs: seq<Rec>, t: Turn, done: bool)
    requires Untouched(p) && AddsTo(p, q, t) && done == (t.next.fades > q.fades)
    requires Incoming(recs) == IncomingRun(p, q.kB)
    requires Outgoing(recs) == OutgoingRun(p, OutgoingCount(p, q, false))
    ensures OnItsRamps(p, Progress(t.next, recs + [t.rec], done))
  {
    IncomingStays(p, q, recs, t, done);
    OutgoingStays(p, q, recs, t, done);
  }

  lemma AdvanceStaysOnRamps(p: Play, s: Progress, e: Beat)
    requires Untouched(p) && OnItsRamps(p, s)
    ensures OnItsRamps(p, Advance(s, e))
  {
    if !s.done && e.Output? {
      var t := Step(s.play);
      OutputAdds(p, s.play);
      TurnStaysOnRamps(p, s.play, s.recs, t, t.next.fades > s.play.fades);
    }
  }

  /** Late audio is never skipped. From the moment a fade is scheduled, whatever is delivered whenever, every
      incoming frame is played exactly once and in order from the boundary on, frame at + j with the gain of
      step min(j, n - 1) of the incoming ramp, and every outgoing frame f with that of step f - start of the
      outgoing one. A fade with ramps of equal length consumes exactly n incoming frames and lands the read
      head on at + n; a re-fitted one never lands below that. */
  lemma {:induction false} LateAudioIsNeverSkipped(p: Play, s: Progress, beats: seq<Beat>)
    requires Untouched(p) && OnItsRamps(p, s)
    ensures OnItsRamps(p, Run(s, beats))
    decreases |beats|
  {
    if beats == [] {
    } else {
      AdvanceStaysOnRamps(p, s, beats[0]);
      LateAudioIsNeverSkipped(p, Advance(s, beats[0]), beats[1..]);
    }
  }

  function Outputs(k: nat): seq<Beat> {
    seq(k, _ => Output)
  }

  // Output frames that both sides of the fade still need.
  function Needs(q: Play): int {
    q.at - q.read + Max(q.n - q.kB, 0)
  }

  lemma OverlapGetsCloser(q: Play)
    requires InFade(q) && q.read < q.at && q.b == q.at + q.kB && q.at + q.n <= q.written
    ensures var t := OutgoingFrame(q).next; t.written == q.written && (t.fades == q.fades ==> Needs(t) < Needs(q))
  {
    var t := TakeIncoming(q).(read := q.read + 1);
    assert Needs(t) < Needs(q);
    assert Finish(t) == t || Finish(t).fades == q.fades + 1;
  }

  lemma OutputGetsCloser(q: Play)
    requires q.sched && q.read <= q.at && q.b == q.at + q.kB && q.at + q.n <= q.written
    requires q.read == q.at ==> q.kB < q.n
    ensures Step(q).next.written == q.written
    ensures Step(q).next.fades == q.fades ==> Needs(Step(q).next) < Needs(q)
  {
    assert Cancel(q) == q;
    if InFade(q) && q.read < q.at {
      assert Step(q) == OutgoingFrame(MarkDump(q));
      OverlapGetsCloser(MarkDump(q));
    }
  }

  // The incoming frames consumed so far had been delivered.
  predicate TookDelivered(q: Play) {
    q.kB > 0 ==> q.b <= q.written
  }

  // A fade takes all of its incoming side, once delivered, before it completes.
  lemma CompletionTakesTheAudio(q: Play)
    requires q.sched && q.read <= q.at && q.b == q.at + q.kB && TookDelivered(q)
    requires q.read == q.at ==> q.kB < q.n
    ensures Step(q).next.written == q.written
    ensures Step(q).next.fades == q.fades ==> TookDelivered(Step(q).next)
    ensures Step(q).next.fades > q.fades ==> q.at + q.n <= q.written
  {
    assert Cancel(q) == q;
  }

  lemma {:induction false} UndeliveredFadesWait(p: Play, s: Progress, k: nat)
    requires Untouched(p) && Stands(p, s.play, s.done) && TookDelivered(s.play)
    requires !s.done && s.play.written < p.at + p.n
    ensures !Run(s, Outputs(k)).done
    decreases k
  {
    if k == 0 {
    } else {
      assert Outputs(k)[0] == Output && Outputs(k)[1..] == Outputs(k - 1);
      OutputAdds(p, s.play);
      CompletionTakesTheAudio(s.play);
      UndeliveredFadesWait(p, Advance(s, Output), k - 1);
    }
  }

  lemma {:induction false} DeliveredFadesFinish(p: Play, s: Progress, k: nat)
    requires Untouched(p) && Stands(p, s.play, s.done)
    requires s.done || (Needs(s.play) <= k && p.at + p.n <= s.play.written)
    ensures Run(s, Outputs(k)).done
    decreases k
  {
    if k == 0 {
    } else {
      assert Outputs(k)[0] == Output && Outputs(k)[1..] == Outputs(k - 1);
      if !s.done {
        OutputAdds(p, s.play);
        OutputGetsCloser(s.play);
      }
      DeliveredFadesFinish(p, Advance(s, Output), k - 1);
    }
  }

  /** Wherever a fade stands, as many output frames as its two sides still need complete it if and only if its
      incoming side has been delivered whole; until then no number of output frames does. */
  lemma DeliveredFadesComplete(p: Play, s: Progress, k: nat)
    requires Untouched(p) && Stands(p, s.play, s.done) && TookDelivered(s.play) && !s.done
    ensures Needs(s.play) <= k ==> (Run(s, Outputs(k)).done <==> p.at + p.n <= s.play.written)
    ensures s.play.written < p.at + p.n ==> !Run(s, Outputs(k)).done
  {
    if s.play.written < p.at + p.n {
      UndeliveredFadesWait(p, s, k);
    } else if Needs(s.play) <= k {
      DeliveredFadesFinish(p, s, k);
    }
  }

  // Every scheduled or re-anchored fade starts on its ramps, with nothing played.
  lemma StartsOnItsRamps(p: Play)
    requires Untouched(p)
    ensures OnItsRamps(p, Progress(p, [], false))
  {
  }

  // Scheduling a fade can move the read head past what an earlier one has mixed in. The new fade is played
  // from there on its ramps if its boundary is still ahead, in step if its start is, and otherwise dropped.
  lemma ScheduledFadesAreUntouched(p: Play, d: Decision)
    requires d.Fade? && 0 < d.n <= d.at
    ensures Park(p).read <= d.at <==> Untouched(Apply(p, d))
    ensures Park(p).read + d.n <= d.at <==> InStep(Apply(p, d))
    ensures Park(p).read > d.at ==> Step(Apply(p, d)) == PlainFrame(Apply(p, d).(sched := false))
  {
  }

  lemma ReanchoredFadesAreUntouched(p: Play, X: nat, rate: nat, capacity: nat)
    requires Inv(p, capacity) && p.sched && p.n > 0 && Reanchor(p, X, rate).sched
    ensures Untouched(Reanchor(p, X, rate))
  {
  }

  // A fade asks for its dump when the read head is asked for output at its start, and at no other time.
  predicate Dumped(p: Play, q: Play) {
    && q.dumps == p.dumps + (if q.dumped then 1 else 0)
    && (p.read > p.start ==> !q.dumped)
    && (q.read < p.start ==> !q.dumped)
    && (p.read <= p.start < q.read ==> q.dumped)
  }

  lemma StepDumps(p: Play, q: Play)
    requires Untouched(p) && Stands(p, q, false) && Dumped(p, q)
    ensures Dumped(p, Step(q).next)
    ensures q.dumped || p.read <= p.start == q.read ==> Step(q).next.dumped
  {
    assert Cancel(q) == q;
  }

  /** A fade asks for exactly one dump, however its start stalls: none before the read head is at its start, one as
      soon as output is asked for there, and no other. One whose start the read head has already passed, as a
      re-anchor can leave it, asks for none. */
  lemma {:induction false} OneDumpPerFade(p: Play, s: Progress, beats: seq<Beat>)
    requires Untouched(p) && Stands(p, s.play, s.done) && Dumped(p, s.play)
    ensures Dumped(p, Run(s, beats).play)
    ensures s.play.dumped ==> Run(s, beats).play.dumped
    ensures !s.done && p.read <= p.start == s.play.read && beats != [] && beats[0].Output? ==>
      Run(s, beats).play.dumps == p.dumps + 1
    decreases |beats|
  {
    if beats == [] {
    } else {
      if !s.done && beats[0].Output? {
        OutputAdds(p, s.play);
        StepDumps(p, s.play);
      }
      OneDumpPerFade(p, Advance(s, beats[0]), beats[1..]);
    }
  }
}
