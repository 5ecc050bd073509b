/** A fade left alone inside a running pipeline. */
module FadeRuns {
  import opened Boundary
  import opened Renderer
  import opened Pipeline
  import opened PipelineProofs
  import FadeAlone

  // The event neither decides a boundary nor re-anchors the fade, and fits the ring.
  predicate LeavesFadeAlone(s: State, e: Event) {
    match e
    case EnqueueEvent(buf, _) =>
      FitsRing(s, |buf|) && !IsPadding(s, buf) ==>
        !(SpendsChance(s.arm) && NearTheFade(s.play, s.arm, s.rate)) && !Overflows(s.play, |buf|, Capacity(s))
    case MetadataEvent(m, now) =>
      MetadataStep(s.model, Corrected(m, s.arm.dropped, s.rate), s.play.written, s.play.read, now).1 == NoBoundary
    case AckEvent(now) => !Expired(s.model.flush, now)
    case _ => true
  }

  predicate LeftAlone(s: State, es: seq<Event>)
    decreases |es|
  {
    es == [] || (LeavesFadeAlone(s, es[0]) && LeftAlone(Next(s, es[0]), es[1..]))
  }

  // What such an event is to the fade: a delivery, output, or nothing.
  function BeatsOf(s: State, e: Event): seq<FadeAlone.Beat> {
    match e
    case EnqueueEvent(buf, _) =>
      if FitsRing(s, |buf|) && !IsPadding(s, buf) then [FadeAlone.Delivery(|buf|)] else []
    case FillEvent(frames) => FadeAlone.Outputs(frames)
    case _ => []
  }

  function Beats(s: State, es: seq<Event>): seq<FadeAlone.Beat>
    decreases |es|
  {
    if es == [] then [] else BeatsOf(s, es[0]) + Beats(Next(s, es[0]), es[1..])
  }

  lemma {:induction false} RunSplit(p: FadeAlone.Progress, xs: seq<FadeAlone.Beat>, ys: seq<FadeAlone.Beat>)
    ensures FadeAlone.Run(p, xs + ys) == FadeAlone.Run(FadeAlone.Run(p, xs), ys)
    decreases |xs|
  {
    if xs == [] {
      assert xs + ys == ys;
    } else {
      assert (xs + ys)[1..] == xs[1..] + ys;
      RunSplit(FadeAlone.Advance(p, xs[0]), xs[1..], ys);
    }
  }

  // r follows the pipeline: it stands where the renderer stands, or has stopped at the completion of the fade,
  // and has seen the output produced since 'from' up to there.
  ghost predicate Follows(r: FadeAlone.Progress, play: Play, recs: seq<Rec>) {
    r.recs <= recs && (!r.done ==> r.play == play && r.recs == recs)
  }

  lemma {:induction false} OutputFollows(r: FadeAlone.Progress, p: Play, recs: seq<Rec>, k: nat)
    requires Follows(r, p, recs)
    ensures Follows(FadeAlone.Run(r, FadeAlone.Outputs(k)), Steps(p, k).next, recs + Steps(p, k).recs)
    decreases k
  {
    if k == 0 {
      assert recs + Steps(p, 0).recs == recs;
    } else {
      assert FadeAlone.Outputs(k)[0] == FadeAlone.Output && FadeAlone.Outputs(k)[1..] == FadeAlone.Outputs(k - 1);
      var t := Step(p);
      OutputFollows(FadeAlone.Advance(r, FadeAlone.Output), t.next, recs + [t.rec], k - 1);
      assert recs + Steps(p, k).recs == recs + [t.rec] + Steps(t.next, k - 1).recs;
    }
  }

  lemma EventFollows(s: State, e: Event, r: FadeAlone.Progress, recs: seq<Rec>)
    requires LeavesFadeAlone(s, e) && Follows(r, s.play, recs)
    ensures |s.out| <= |Next(s, e).out|
    ensures Follows(FadeAlone.Run(r, BeatsOf(s, e)), Next(s, e).play, recs + Next(s, e).out[|s.out|..])
  {
    if e.FillEvent? {
      OutputFollows(r, s.play, recs, e.frames);
      assert Next(s, e).out[|s.out|..] == Steps(s.play, e.frames).recs;
    } else {
      assert Next(s, e).out == s.out && recs + s.out[|s.out|..] == recs;
      if e.EnqueueEvent? && FitsRing(s, |e.buf|) && !IsPadding(s, e.buf) {
        var d := FadeAlone.Delivery(|e.buf|);
        assert FadeAlone.Run(r, [d]) == FadeAlone.Run(FadeAlone.Advance(r, d), []);
      }
    }
  }

  lemma Suffixes(recs: seq<Rec>, a: seq<Rec>, b: seq<Rec>, c: seq<Rec>)
    requires a <= b <= c
    ensures recs + c[|a|..] == recs + b[|a|..] + c[|b|..]
  {
  }

  lemma {:induction false} RunFollows(s: State, es: seq<Event>, r: FadeAlone.Progress, recs: seq<Rec>)
    requires LeftAlone(s, es) && Follows(r, s.play, recs)
    ensures |s.out| <= |Run(s, es).out|
    ensures Follows(FadeAlone.Run(r, Beats(s, es)), Run(s, es).play, recs + Run(s, es).out[|s.out|..])
    decreases |es|
  {
    if es == [] {
      assert recs + s.out[|s.out|..] == recs;
    } else {
      var n := Next(s, es[0]);
      var q := FadeAlone.Run(r, BeatsOf(s, es[0]));
      EventFollows(s, es[0], r, recs);
      RunFollows(n, es[1..], q, recs + n.out[|s.out|..]);
      RunSplit(r, BeatsOf(s, es[0]), Beats(n, es[1..]));
      OutputOnlyGrows(s, es[0]);
      RunOutputOnlyGrows(n, es[1..]);
      Suffixes(recs, s.out, n.out, Run(n, es[1..]).out);
    }
  }

  /** In a running pipeline, a fade that no later boundary, re-anchor or overflow touches plays its incoming
      side whole and in order at its own gains, and its outgoing side likewise, whatever else happens: there
      is a prefix 'r.recs' of the output since, all of it until the fade completes, that is on the ramps. */
  lemma FadesLeftAloneStayOnTheirRamps(s: State, es: seq<Event>)
    requires FadeAlone.Untouched(s.play) && LeftAlone(s, es)
    ensures |s.out| <= |Run(s, es).out|
    ensures var r := FadeAlone.Run(FadeAlone.Progress(s.play, [], false), Beats(s, es));
      && FadeAlone.OnItsRamps(s.play, r)
      && Follows(r, Run(s, es).play, Run(s, es).out[|s.out|..])
  {
    var r := FadeAlone.Progress(s.play, [], false);
    FadeAlone.StartsOnItsRamps(s.play);
    FadeAlone.LateAudioIsNeverSkipped(s.play, r, Beats(s, es));
    RunFollows(s, es, r, []);
    assert [] + Run(s, es).out[|s.out|..] == Run(s, es).out[|s.out|..];
  }
}
