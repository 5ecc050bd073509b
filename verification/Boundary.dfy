/** Turns flushes, metadata updates and time into cut and fade decisions. */
module Boundary {
  const FLUSH_WINDOW_MS := 500
  const MIN_TAIL_MS := 200
  const SANITY_WINDOW_MS := 2500
  const LATE_METADATA_MS := 2000

  datatype Option<+T> = None | Some(value: T)

  datatype TrackMeta = TrackMeta(playbackId: string, trackUri: string, durationMs: int, positionMs: int,
                                 isAd: bool, isVideo: bool)

  // A boundary at frame 'at'; a fade of n frames ends there.
  datatype Decision = NoBoundary | Cut(at: nat) | Fade(at: nat, n: nat)

  // A frame remembered with the time it was noted.
  datatype Mark = Mark(frame: nat, timeMs: int)

  // What the model remembers: the current track and its anchor, the flush not yet resolved, and the timeout
  // cut whose announcement may still come.
  datatype Model = Model(rate: nat, crossfade: nat, current: Option<TrackMeta>, startFrame: nat,
                         startPositionMs: int, flush: Option<Mark>, lastDeltaMs: int, late: Option<Mark>)

  predicate IsEpisode(uri: string) {
    "spotify:episode:" <= uri
  }

  predicate Fadeable(m: TrackMeta) {
    !m.isAd && !IsEpisode(m.trackUri)
  }

  function Abs(x: int): nat {
    if x < 0 then -x else x
  }

  // Division that truncates towards zero.
  function TruncDiv(x: int, y: nat): int
    requires y > 0
  {
    if x >= 0 then x / y else -((-x) / y)
  }

  function MinTail(rate: nat): nat {
    rate * MIN_TAIL_MS / 1000
  }

  function Tail(b: nat, read: nat): nat {
    if b > read then b - read else 0
  }

  // The natural branch: fade when there is something to fade on both sides and enough of it, else cut.
  function Decide(crossfade: nat, rate: nat, outgoing: TrackMeta, b: nat, incoming: TrackMeta, read: nat): (d: Decision)
    ensures d != NoBoundary && d.at == b
    ensures d.Fade? <==> crossfade > 0 && Fadeable(outgoing) && Fadeable(incoming) && Tail(b, read) >= MinTail(rate)
    ensures d.Fade? ==> d.n <= b && d.n <= crossfade && (d.n == crossfade || d.n == Tail(b, read))
    ensures d.Fade? && read <= b ==> read + d.n <= b
  {
    var tail := Tail(b, read);
    if crossfade > 0 && Fadeable(outgoing) && Fadeable(incoming) && tail >= MinTail(rate)
    then Fade(b, if tail < crossfade then tail else crossfade)
    else Cut(b)
  }

  // The frame at which the current track's duration runs out, when that can be computed.
  function Predicted(m: Model): Option<nat> {
    if m.rate > 0 && m.current.Some? && m.current.value.durationMs > 0
       && m.current.value.durationMs >= m.startPositionMs
    then Some(m.startFrame + (m.current.value.durationMs - m.startPositionMs) * m.rate / 1000)
    else None
  }

  predicate Sane(rate: nat, p: nat, written: nat) {
    Abs(p - written) <= rate * SANITY_WINDOW_MS / 1000
  }

  // The frame of a natural transition announced at 'written'.
  function NaturalFrame(m: Model, written: nat): nat {
    match Predicted(m)
    case Some(p) => if Sane(m.rate, p, written) then p else written
    case None => written
  }

  predicate IsNewTrack(m: Model, meta: TrackMeta) {
    m.current.None? || meta.playbackId != m.current.value.playbackId
  }

  // Whether metadata at this time is the late announcement of a timeout cut.
  predicate IsLateAnnouncement(m: Model, meta: TrackMeta, nowMs: int) {
    m.flush.None? && m.current.Some? && IsNewTrack(m, meta)
    && m.late.Some? && nowMs - m.late.value.timeMs <= LATE_METADATA_MS
  }

  function Anchor(m: Model, meta: TrackMeta, frame: nat): Model {
    m.(startFrame := frame, startPositionMs := meta.positionMs, current := Some(meta))
  }

  function FlushStep(m: Model, written: nat, nowMs: int): Model {
    m.(flush := Some(Mark(written, nowMs)), late := None)
  }

  function MetadataStep(m: Model, meta: TrackMeta, written: nat, read: nat, nowMs: int): (r: (Model, Decision))
    ensures r.1.Fade? ==> r.1.n <= r.1.at && r.1.n <= m.crossfade
    ensures m.flush.Some? ==> r.1 == Cut(m.flush.value.frame)
    ensures r.0.flush == None
  {
    if m.flush.Some? then
      (Anchor(m.(flush := None, late := None), meta, m.flush.value.frame), Cut(m.flush.value.frame))
    else if IsLateAnnouncement(m, meta, nowMs) then
      (Anchor(m.(late := None), meta, m.late.value.frame), NoBoundary)
    else if IsNewTrack(m, meta) && m.current.Some? then
      var b := NaturalFrame(m, written);
      var delta := if Predicted(m).Some? then TruncDiv((Predicted(m).value - written) * 1000, m.rate)
                   else m.lastDeltaMs;
      (Anchor(m.(late := None, lastDeltaMs := delta), meta, b),
       Decide(m.crossfade, m.rate, m.current.value, b, meta, read))
    else
      (Anchor(m, meta, written), NoBoundary)
  }

  predicate Expired(flush: Option<Mark>, nowMs: int) {
    flush.Some? && nowMs - flush.value.timeMs > FLUSH_WINDOW_MS
  }

  function TickStep(m: Model, nowMs: int): (r: (Model, Decision))
    ensures r.1 != NoBoundary <==> Expired(m.flush, nowMs)
  {
    if Expired(m.flush, nowMs) then
      (m.(flush := None, late := Some(Mark(m.flush.value.frame, nowMs))), Cut(m.flush.value.frame))
    else
      (m, NoBoundary)
  }

  // The model as the program keeps it: a validity flag beside each remembered value.
  class BoundaryModel {
    var rate: nat
    var crossfade: nat
    var hasCurrent: bool
    var current: TrackMeta
    var startFrame: nat
    var startPositionMs: int
    var flushPending: bool
    var flushFrame: nat
    var flushTimeMs: int
    var lastDeltaMs: int
    var lateCutValid: bool
    var lateCutFrame: nat
    var lateCutTimeMs: int

    ghost function State(): Model
      reads this
    {
      Model(rate, crossfade, if hasCurrent then Some(current) else None, startFrame, startPositionMs,
            if flushPending then Some(Mark(flushFrame, flushTimeMs)) else None, lastDeltaMs,
            if lateCutValid then Some(Mark(lateCutFrame, lateCutTimeMs)) else None)
    }

    constructor ()
      ensures State() == Model(0, 0, None, 0, 0, None, 0, None)
    {
      rate, crossfade := 0, 0;
      hasCurrent, current, startFrame, startPositionMs := false, TrackMeta("", "", 0, 0, false, false), 0, 0;
      flushPending, flushFrame, flushTimeMs := false, 0, 0;
      lastDeltaMs := 0;
      lateCutValid, lateCutFrame, lateCutTimeMs := false, 0, 0;
    }

    method Configure(rateHz: nat, crossfadeFrames: nat)
      modifies this
      ensures State() == old(State()).(rate := rateHz, crossfade := crossfadeFrames)
    {
      rate := rateHz;
      crossfade := crossfadeFrames;
    }

    method SetCrossfadeFrames(frames: nat)
      modifies this
      ensures State() == old(State()).(crossfade := frames)
    {
      crossfade := frames;
    }

    method OnFlush(written: nat, nowMs: int)
      modifies this
      ensures State() == FlushStep(old(State()), written, nowMs)
    {
      flushPending := true;
      flushFrame := written;
      flushTimeMs := nowMs;
      lateCutValid := false;
    }

    method OnMetadata(m: TrackMeta, written: nat, read: nat, nowMs: int) returns (d: Decision)
      modifies this
      ensures (State(), d) == MetadataStep(old(State()), m, written, read, nowMs)
    {
      d := NoBoundary;
      var newTrack := !hasCurrent || m.playbackId != current.playbackId;
      if flushPending {
        flushPending := false;
        lateCutValid := false;
        d := Cut(flushFrame);
      } else if newTrack && hasCurrent && lateCutValid && nowMs - lateCutTimeMs <= LATE_METADATA_MS {
        lateCutValid := false;
        startFrame := lateCutFrame;
        startPositionMs := m.positionMs;
        current := m;
        hasCurrent := true;
        return;
      } else if newTrack && hasCurrent {
        lateCutValid := false;
        var b := written;
        if rate > 0 && current.durationMs > 0 && current.durationMs >= startPositionMs {
          b := Predict(written);
        }
        d := Decide(crossfade, rate, current, b, m, read);
      }
      startFrame := if d == NoBoundary then written else d.at;
      startPositionMs := m.positionMs;
      current := m;
      hasCurrent := true;
    }

    // Predicts the end of the current track, notes how far that is from the announcement, and keeps the
    // prediction when it is close enough.
    method Predict(written: nat) returns (b: nat)
      requires rate > 0 && hasCurrent && current.durationMs > 0 && current.durationMs >= startPositionMs
      modifies this`lastDeltaMs
      ensures b == NaturalFrame(State(), written)
      ensures var p, near := startFrame + (current.durationMs - startPositionMs) * rate / 1000, rate * 2500 / 1000;
        b == if written - near <= p <= written + near then p else written
      ensures lastDeltaMs == TruncDiv((Predicted(State()).value - written) * 1000, rate)
    {
      var p := startFrame + (current.durationMs - startPositionMs) * rate / 1000;
      var delta := p - written;
      lastDeltaMs := TruncDiv(delta * 1000, rate);
      b := if Abs(delta) <= rate * SANITY_WINDOW_MS / 1000 then p else written;
    }

    method Tick(nowMs: int) returns (d: Decision)
      modifies this
      ensures (State(), d) == TickStep(old(State()), nowMs)
    {
      d := NoBoundary;
      if flushPending && nowMs - flushTimeMs > FLUSH_WINDOW_MS {
        flushPending := false;
        d := Cut(flushFrame);
        lateCutValid := true;
        lateCutFrame := flushFrame;
        lateCutTimeMs := nowMs;
      }
    }
  }
}

/** What the decisions amount to over whole traces of inputs. */
module BoundaryTraces {
  import opened Boundary

  datatype Input =
    | Flush(written: nat, nowMs: int)
    | Announce(meta: TrackMeta, written: nat, read: nat, nowMs: int)
    | Clock(nowMs: int)

  function Feed(m: Model, i: Input): (Model, Decision) {
    match i
    case Flush(written, now) => (FlushStep(m, written, now), NoBoundary)
    case Announce(meta, written, read, now) => MetadataStep(m, meta, written, read, now)
    case Clock(now) => TickStep(m, now)
  }

  function After(m: Model, trace: seq<Input>): Model
    decreases |trace|
  {
    if trace == [] then m else After(Feed(m, trace[0]).0, trace[1..])
  }

  function Decisions(m: Model, trace: seq<Input>): (ds: seq<Decision>)
    ensures |ds| == |trace|
    decreases |trace|
  {
    if trace == [] then [] else [Feed(m, trace[0]).1] + Decisions(Feed(m, trace[0]).0, trace[1..])
  }

  lemma {:induction false} TraceSplit(m: Model, xs: seq<Input>, ys: seq<Input>)
    ensures After(m, xs + ys) == After(After(m, xs), ys)
    ensures Decisions(m, xs + ys) == Decisions(m, xs) + Decisions(After(m, xs), ys)
    decreases |xs|
  {
    if xs == [] {
      assert xs + ys == ys;
    } else {
      assert (xs + ys)[1..] == xs[1..] + ys;
      TraceSplit(Feed(m, xs[0]).0, xs[1..], ys);
    }
  }

  predicate Quiet(ds: seq<Decision>) {
    forall i | 0 <= i < |ds| :: ds[i] == NoBoundary
  }

  // The latest flush of a trace, given the flush that was pending before it.
  function Latest(pending: Option<Mark>, trace: seq<Input>): Option<Mark> {
    if trace == [] then pending
    else if trace[|trace| - 1].Flush? then Some(Mark(trace[|trace| - 1].written, trace[|trace| - 1].nowMs))
    else Latest(pending, trace[..|trace| - 1])
  }

  // Flushes, and clock ticks none of which finds the latest flush before it expired.
  predicate Burst(pending: Option<Mark>, trace: seq<Input>) {
    forall i | 0 <= i < |trace| ::
      trace[i].Flush? || (trace[i].Clock? && !Expired(Latest(pending, trace[..i]), trace[i].nowMs))
  }

  lemma {:induction false} BurstIsQuiet(m: Model, trace: seq<Input>)
    requires Burst(m.flush, trace)
    ensures Quiet(Decisions(m, trace))
    ensures After(m, trace).flush == Latest(m.flush, trace)
  {
    if trace == [] {
    } else {
      var front, last := trace[..|trace| - 1], trace[|trace| - 1];
      assert trace == front + [last];
      forall i | 0 <= i < |front|
        ensures front[..i] == trace[..i]
      {
      }
      BurstIsQuiet(m, front);
      TraceSplit(m, front, [last]);
      assert Decisions(After(m, front), [last]) == [Feed(After(m, front), last).1];
      assert After(After(m, front), [last]) == Feed(After(m, front), last).0;
    }
  }

  predicate Clocks(trace: seq<Input>) {
    forall i | 0 <= i < |trace| :: trace[i].Clock?
  }

  lemma {:induction false} NothingPendingStaysQuiet(m: Model, trace: seq<Input>)
    requires m.flush.None? && Clocks(trace)
    ensures Quiet(Decisions(m, trace)) && After(m, trace) == m
  {
    if trace == [] {
    } else {
      NothingPendingStaysQuiet(m, trace[1..]);
    }
  }

  // Metadata, or a tick that finds the latest flush expired, resolves a burst.
  predicate Resolves(i: Input, pending: Option<Mark>) {
    i.Announce? || (i.Clock? && Expired(pending, i.nowMs))
  }

  /** A burst of flushes yields exactly one boundary, a cut at its latest flush, however the flushes and
      ticks interleave, whatever came before, and however long the clock runs on afterwards. */
  lemma BurstYieldsOneCut(m: Model, burst: seq<Input>, e: Input, after: seq<Input>)
    requires |burst| > 0 && burst[0].Flush? && Burst(m.flush, burst)
    requires Resolves(e, Latest(m.flush, burst)) && Clocks(after)
    ensures Latest(m.flush, burst).Some?
    ensures Decisions(m, burst + [e] + after) ==
      Decisions(m, burst) + [Cut(Latest(m.flush, burst).value.frame)] + Decisions(After(m, burst + [e]), after)
    ensures Quiet(Decisions(m, burst)) && Quiet(Decisions(After(m, burst + [e]), after))
  {
    BurstIsQuiet(m, burst);
    BurstHasLatest(m.flush, burst);
    TraceSplit(m, burst, [e]);
    TraceSplit(m, burst + [e], after);
    var n := After(m, burst);
    assert Decisions(n, [e]) == [Feed(n, e).1];
    assert After(n, [e]) == Feed(n, e).0;
    NothingPendingStaysQuiet(After(m, burst + [e]), after);
  }

  lemma {:induction false} BurstHasLatest(pending: Option<Mark>, burst: seq<Input>)
    requires |burst| > 0 && burst[0].Flush?
    ensures Latest(pending, burst).Some?
  {
    if burst[|burst| - 1].Flush? {
    } else {
      BurstHasLatest(pending, burst[..|burst| - 1]);
    }
  }

  // Ticks and refreshes of the track that is already current.
  predicate SameTrack(trace: seq<Input>, id: string) {
    forall i | 0 <= i < |trace| ::
      trace[i].Clock? || (trace[i].Announce? && trace[i].meta.playbackId == id)
  }

  lemma {:induction false} SameTrackStaysQuiet(m: Model, trace: seq<Input>)
    requires m.flush.None? && m.current.Some? && SameTrack(trace, m.current.value.playbackId)
    ensures Quiet(Decisions(m, trace))
    ensures After(m, trace).late == m.late && After(m, trace).flush.None?
    ensures After(m, trace).current.Some?
    ensures After(m, trace).current.value.playbackId == m.current.value.playbackId
    decreases |trace|
  {
    if trace == [] {
    } else {
      SameTrackStaysQuiet(Feed(m, trace[0]).0, trace[1..]);
    }
  }

  /** The first new track announced within the window after a timeout cut is that cut's own announcement: it
      yields no second boundary and anchors the track at the frame of the cut, and it is the only one that
      can. */
  lemma LateAnnouncementIsNotABoundary(m: Model, cut: Input, mid: seq<Input>, e: Input)
    requires m.current.Some? && cut.Clock? && Expired(m.flush, cut.nowMs)
    requires SameTrack(mid, m.current.value.playbackId)
    requires e.Announce? && e.meta.playbackId != m.current.value.playbackId
    requires e.nowMs - cut.nowMs <= LATE_METADATA_MS
    ensures Decisions(m, [cut] + mid + [e]) ==
      [Cut(m.flush.value.frame)] + Decisions(TickStep(m, cut.nowMs).0, mid) + [NoBoundary]
    ensures Quiet(Decisions(TickStep(m, cut.nowMs).0, mid))
    ensures After(m, [cut] + mid + [e]).startFrame == m.flush.value.frame
    ensures After(m, [cut] + mid + [e]).late == None
  {
    var n := TickStep(m, cut.nowMs).0;
    SameTrackStaysQuiet(n, mid);
    TraceSplit(m, [cut], mid);
    TraceSplit(m, [cut] + mid, [e]);
    assert After(m, [cut]) == n;
    assert Decisions(m, [cut]) == [Feed(m, cut).1];
    var k := After(n, mid);
    assert Decisions(k, [e]) == [Feed(k, e).1];
    assert After(k, [e]) == Feed(k, e).0;
  }

  /** Exactly when metadata schedules a fade, and where: no flush is pending, the track changed for a reason
      that is not a late announcement, both sides may fade, and the tail left is long enough. The fade then
      ends within the sanity window of the announcement and starts no earlier than the read head. */
  lemma FadeExactlyOnNaturalTransitions(m: Model, meta: TrackMeta, written: nat, read: nat, nowMs: int)
    ensures MetadataStep(m, meta, written, read, nowMs).1.Fade? <==>
      && m.flush.None? && m.current.Some? && IsNewTrack(m, meta) && !IsLateAnnouncement(m, meta, nowMs)
      && m.crossfade > 0 && Fadeable(m.current.value) && Fadeable(meta)
      && Tail(NaturalFrame(m, written), read) >= MinTail(m.rate)
    ensures var d := MetadataStep(m, meta, written, read, nowMs).1;
      d.Fade? ==> 1000 * Abs(d.at - written) <= m.rate * SANITY_WINDOW_MS
    ensures var d := MetadataStep(m, meta, written, read, nowMs).1;
      d.Fade? && m.rate >= 5 ==>
        read + d.n <= d.at && 0 < d.n && (d.n == m.crossfade || (d.n < m.crossfade && read + d.n == d.at))
  {
    var b := NaturalFrame(m, written);
    assert m.rate >= 5 ==> MinTail(m.rate) >= 1;
    assert 1000 * (m.rate * SANITY_WINDOW_MS / 1000) <= m.rate * SANITY_WINDOW_MS;
    assert b == written || Abs(b - written) <= m.rate * SANITY_WINDOW_MS / 1000;
  }

  // --- Which decision, and where -------------------------------------------------------------------------

  // Where the current track ends by its duration, as a frame number.
  lemma PredictionIsTheEnd(m: Model)
    ensures Predicted(m).Some? <==>
      m.rate > 0 && m.current.Some? && 0 < m.current.value.durationMs && m.startPositionMs <= m.current.value.durationMs
    ensures Predicted(m).Some? ==>
      Predicted(m).value == m.startFrame + (m.current.value.durationMs - m.startPositionMs) * m.rate / 1000
  {
  }

  /** Metadata of the current track, or of the first, decides nothing; while a flush is pending it cuts there; and a
      new track within 2 s of a timeout cut decides nothing either. */
  lemma OtherMetadataDecides(m: Model, meta: TrackMeta, written: nat, read: nat, nowMs: int)
    ensures var d := MetadataStep(m, meta, written, read, nowMs).1;
      && (m.flush.Some? ==> d == Cut(m.flush.value.frame))
      && (m.flush.None? && (m.current.None? || m.current.value.playbackId == meta.playbackId) ==> d == NoBoundary)
      && (m.flush.None? && m.late.Some? && nowMs <= m.late.value.timeMs + 2000 ==> d == NoBoundary)
  {
  }

  // Neither an advertisement nor a podcast episode.
  predicate IsMusic(m: TrackMeta) {
    !m.isAd && !("spotify:episode:" <= m.trackUri)
  }

  /** Every other new track is a natural transition. Its boundary is the frame at which the current track's duration
      runs out, if that is known and within 2500 ms of the announcement, and the announcement otherwise. It is a
      fade exactly if a crossfade is set, both sides are music and at least 200 ms are left to play before it; the
      fade takes the crossfade length, or what is left if that is less. */
  lemma NaturalTransitionsDecide(m: Model, meta: TrackMeta, written: nat, read: nat, nowMs: int, p: int)
    requires m.flush.None? && m.current.Some? && m.current.value.playbackId != meta.playbackId
    requires m.late.Some? ==> nowMs > m.late.value.timeMs + 2000
    requires p == m.startFrame + (m.current.value.durationMs - m.startPositionMs) * m.rate / 1000
    ensures var d := MetadataStep(m, meta, written, read, nowMs).1;
      var known := m.rate > 0 && 0 < m.current.value.durationMs && m.startPositionMs <= m.current.value.durationMs;
      var b := if known && written - m.rate * 2500 / 1000 <= p <= written + m.rate * 2500 / 1000 then p else written;
      && d != NoBoundary && d.at == b
      && (d.Fade? <==> m.crossfade > 0 && IsMusic(m.current.value) && IsMusic(meta)
                       && (if b > read then b - read else 0) >= m.rate * 200 / 1000)
      && (d.Fade? ==> d.n == if read + m.crossfade <= b then m.crossfade else if b > read then b - read else 0)
  {
    PredictionIsTheEnd(m);
  }

  // How far the prediction was from the announcement, in milliseconds truncated towards zero.
  lemma DeltasAreTruncated(m: Model, meta: TrackMeta, written: nat, read: nat, nowMs: int, p: int)
    requires m.flush.None? && m.current.Some? && m.current.value.playbackId != meta.playbackId
    requires m.late.Some? ==> nowMs > m.late.value.timeMs + 2000
    requires p == m.startFrame + (m.current.value.durationMs - m.startPositionMs) * m.rate / 1000
    ensures var delta := MetadataStep(m, meta, written, read, nowMs).0.lastDeltaMs;
      if m.rate > 0 && 0 < m.current.value.durationMs && m.startPositionMs <= m.current.value.durationMs then
        if p >= written then 0 <= (p - written) * 1000 - delta * m.rate < m.rate && delta >= 0
        else 0 <= delta * m.rate - (p - written) * 1000 < m.rate && delta <= 0
      else delta == m.lastDeltaMs
  {
    if m.rate > 0 {
      Truncates((p - written) * 1000, m.rate);
    }
  }

  lemma Divides(a: nat, y: nat)
    requires y > 0
    ensures 0 <= a - a / y * y < y
  {
    assert a == a / y * y + a % y;
  }

  lemma NegatedTimes(q: int, y: int)
    ensures (-q) * y == -(q * y)
  {
  }

  lemma Truncates(x: int, y: nat)
    requires y > 0
    ensures x >= 0 ==> 0 <= x - TruncDiv(x, y) * y < y && TruncDiv(x, y) >= 0
    ensures x <= 0 ==> 0 <= TruncDiv(x, y) * y - x < y && TruncDiv(x, y) <= 0
  {
    if x >= 0 {
      Divides(x, y);
    } else {
      Divides(-x, y);
      NegatedTimes((-x) / y, y);
    }
  }

  /** The new anchor: the boundary itself, the timeout cut that the metadata belongs to, or the announcement. */
  lemma MetadataAnchors(m: Model, meta: TrackMeta, written: nat, read: nat, nowMs: int)
    ensures var (n, d) := MetadataStep(m, meta, written, read, nowMs);
      && n.current == Some(meta) && n.startPositionMs == meta.positionMs && n.flush == None
      && (d != NoBoundary ==> n.startFrame == d.at)
      && (d == NoBoundary ==>
            n.startFrame == if m.late.Some? && m.current.Some? && m.current.value.playbackId != meta.playbackId
                            then m.late.value.frame else written)
      && (n.late.Some? ==> n.late == m.late && (m.current.Some? ==> m.current.value.playbackId == meta.playbackId))
  {
  }

  /** The clock cuts exactly when a flush has been pending for more than 500 ms, at its frame, and remembers that. */
  lemma TheClockCuts(m: Model, nowMs: int)
    ensures var (n, d) := TickStep(m, nowMs);
      if m.flush.Some? && nowMs > m.flush.value.timeMs + 500
      then d == Cut(m.flush.value.frame) && n == m.(flush := None, late := Some(Mark(m.flush.value.frame, nowMs)))
      else d == NoBoundary && n == m
  {
  }
}
