/** The whole pipeline as a state machine: one step per critical section. */
module Pipeline {
  import opened Audio
  import opened Boundary
  import opened Renderer

  const RING_SECONDS := 30
  const MAX_CROSSFADE_MS := 12000
  const MIN_LEAD_MS := 500
  const ARM_CAP_SECONDS := 45
  const MAX_ZERO_DROP_MS := 12000
  const PROBE_MS := 100
  const REANCHOR_AHEAD_MS := 2500
  const REANCHOR_BEHIND_MS := 12000

  // An accepted buffer that is not yet acknowledged. 'end' is its end frame; a dropped one was padding that
  // was never written and is released on the probe schedule. The last two fields are history: the number of
  // the buffer among all accepted ones, and the number of the arm it was received under.
  datatype Pending = Pending(end: nat, dropped: bool, notBeforeMs: int, number: nat, arm: nat)

  // The padding filter between a boundary and the incoming track's real audio. The last three fields are
  // history: when the arm was opened, how many buffers it has dropped, and its number among all arms.
  datatype Arm = Arm(armed: bool, frame: nat, dropped: nat, sawZero: bool, reanchored: bool, lastProbeMs: int,
                     openedMs: int, drops: nat, number: nat)

  // Acknowledgements: the queue, and the counts of buffers acknowledged, accepted and cleared. The rest is
  // history: the end of the last written buffer that was acknowledged, and the numbers of the buffers handed
  // back to the client and of those discarded by a flush, in the order in which that happened.
  datatype Queue = Queue(pending: seq<Pending>, acked: nat, accepted: nat, cleared: nat, ackedEnd: nat,
                         handed: seq<nat>, discarded: seq<nat>)

  datatype Controls = Controls(playing: bool, crossfadeMs: nat, X: nat, T: nat, lastId: string,
                               underruns: nat, overflows: nat, paddingTotal: nat)

  // 'log' is every frame ever written and 'out' every output frame ever produced.
  datatype State = State(rate: nat, channels: nat, log: seq<Frame>, out: seq<Rec>, play: Play, arm: Arm,
                         queue: Queue, controls: Controls, model: Model)

  function Capacity(s: State): nat {
    s.rate * RING_SECONDS
  }

  // --- Targets ----------------------------------------------------------------------------------------

  function CrossfadeFrames(ms: nat, rate: nat): nat {
    ms * rate / 1000
  }

  function MinLead(rate: nat): nat {
    rate * MIN_LEAD_MS / 1000
  }

  function LeadTarget(X: nat, rate: nat): nat {
    if X > 0 then Max(X + rate, MinLead(rate)) else MinLead(rate)
  }

  function ClampMs(ms: int): nat {
    if ms < 0 then 0 else if ms > MAX_CROSSFADE_MS then MAX_CROSSFADE_MS else ms
  }

  function SetCrossfade(s: State, ms: int): State {
    var X := CrossfadeFrames(ClampMs(ms), s.rate);
    s.(controls := s.controls.(crossfadeMs := ClampMs(ms), X := X, T := LeadTarget(X, s.rate)),
       model := s.model.(crossfade := X))
  }

  function SetPlaying(s: State, playing: bool): State {
    s.(controls := s.controls.(playing := playing))
  }

  // --- The arm and the padding filter -----------------------------------------------------------------

  function OpenArm(written: nat, nowMs: int, number: nat): Arm {
    Arm(true, written, 0, false, false, nowMs, nowMs, 0, number)
  }

  // Takes one more buffer into the queue.
  function Push(q: Queue, end: nat, dropped: bool, notBeforeMs: int, arm: nat): Queue {
    q.(pending := q.pending + [Pending(end, dropped, notBeforeMs, q.accepted, arm)], accepted := q.accepted + 1)
  }

  function ZeroBudget(rate: nat): nat {
    rate * MAX_ZERO_DROP_MS / 1000
  }

  // An all-zero buffer received while armed is dropped: counted, and queued for its probe.
  function Drop(s: State, frames: nat, nowMs: int): State {
    var a := s.arm;
    var probe := Max(a.lastProbeMs, nowMs) + PROBE_MS;
    s.(arm := a.(dropped := a.dropped + frames, sawZero := true, lastProbeMs := probe, drops := a.drops + 1,
                 armed := a.dropped + frames < ZeroBudget(s.rate)),
       queue := Push(s.queue, s.play.written, true, probe, a.number),
       controls := s.controls.(paddingTotal := s.controls.paddingTotal + frames))
  }

  // The first real audio after something was dropped spends the arm's one chance to move the fade.
  predicate SpendsChance(a: Arm) {
    a.armed && a.sawZero && !a.reanchored
  }

  // Only the fade this boundary scheduled is moved, and only onto audio that landed near it.
  predicate NearTheFade(p: Play, a: Arm, rate: nat) {
    && p.sched && p.at >= a.frame
    && p.written <= p.at + rate * REANCHOR_AHEAD_MS / 1000
    && p.written + rate * REANCHOR_BEHIND_MS / 1000 >= p.at
  }

  function ArmChance(a: Arm): Arm {
    if SpendsChance(a) then a.(reanchored := true) else a
  }

  function FadeChance(p: Play, a: Arm, X: nat, rate: nat): Play {
    if SpendsChance(a) && NearTheFade(p, a, rate) then Reanchor(p, X, rate) else p
  }

  // The arm ends when the audio delivered since the boundary reaches the lead target, or after the cap.
  predicate LeadMet(p: Play, a: Arm, T: nat) {
    Tail(p.written, Max(p.read, a.frame)) >= T + (if p.sched then p.n else 0)
  }

  predicate ArmSpent(p: Play, a: Arm, rate: nat) {
    p.written - a.frame >= rate * ARM_CAP_SECONDS
  }

  function Disarm(p: Play, a: Arm, T: nat, rate: nat): Arm {
    if a.armed && (LeadMet(p, a, T) || ArmSpent(p, a, rate)) then a.(armed := false) else a
  }

  // What the arrival of real audio does to the renderer: possibly a re-anchor, possibly room made, then the
  // delivery itself.
  function Arrive(s: State, frames: nat): Play {
    Deliver(MakeRoom(FadeChance(s.play, s.arm, s.controls.X, s.rate), frames, Capacity(s)), frames)
  }

  function Keep(s: State, buf: seq<Frame>): State {
    var p := FadeChance(s.play, s.arm, s.controls.X, s.rate);
    var q := Arrive(s, |buf|);
    s.(log := s.log + buf, play := q,
       arm := Disarm(q, ArmChance(s.arm), s.controls.T, s.rate),
       queue := Push(s.queue, q.written, false, 0, s.arm.number),
       controls := s.controls.(overflows := s.controls.overflows + if Overflows(p, |buf|, Capacity(s)) then 1 else 0))
  }

  datatype Result = Success | ResourceError | ParameterInvalid

  predicate FitsRing(s: State, frames: nat) {
    0 < frames <= Capacity(s)
  }

  predicate IsPadding(s: State, buf: seq<Frame>) {
    s.arm.armed && AllSilent(buf)
  }

  function Enqueue(s: State, buf: seq<Frame>, nowMs: int): State {
    if !FitsRing(s, |buf|) then s
    else if IsPadding(s, buf) then Drop(s, |buf|, nowMs)
    else Keep(s, buf)
  }

  // --- Flushes, metadata, acknowledgements, output ----------------------------------------------------

  function Numbers(pending: seq<Pending>): seq<nat> {
    seq(|pending|, i requires 0 <= i < |pending| => pending[i].number)
  }

  function Discard(q: Queue): Queue {
    q.(pending := [], cleared := q.cleared + |q.pending|, discarded := q.discarded + Numbers(q.pending))
  }

  function Clear(s: State, nowMs: int): State {
    s.(queue := Discard(s.queue), model := FlushStep(s.model, s.play.written, nowMs),
       arm := OpenArm(s.play.written, nowMs, s.arm.number + 1))
  }

  // The position the client reports counts the padding it believes it played.
  function Corrected(m: TrackMeta, dropped: nat, rate: nat): TrackMeta {
    if rate == 0 || m.positionMs < 0 then m
    else m.(positionMs := Max(m.positionMs - dropped * 1000 / rate, 0))
  }

  function Metadata(s: State, m: TrackMeta, nowMs: int): State {
    var r := MetadataStep(s.model, Corrected(m, s.arm.dropped, s.rate), s.play.written, s.play.read, nowMs);
    var newTrack := m.playbackId != s.controls.lastId;
    s.(model := r.0, play := Apply(s.play, r.1),
       arm := if newTrack then OpenArm(s.play.written, nowMs, s.arm.number + 1) else s.arm,
       controls := s.controls.(lastId := m.playbackId))
  }

  function Clock(s: State, nowMs: int): State {
    var r := TickStep(s.model, nowMs);
    s.(model := r.0, play := Apply(s.play, r.1))
  }

  predicate AckReady(s: State, nowMs: int) {
    && s.queue.pending != []
    && var p := s.queue.pending[0];
       if p.dropped then s.controls.playing && nowMs >= p.notBeforeMs
       else p.end <= Frontier(s.play) + s.controls.T
  }

  function Ack(q: Queue): Queue
    requires q.pending != []
  {
    q.(pending := q.pending[1..], acked := q.acked + 1,
       ackedEnd := if q.pending[0].dropped then q.ackedEnd else q.pending[0].end,
       handed := q.handed + [q.pending[0].number])
  }

  // One turn of the acknowledgement thread: the clock, then one acknowledgement if one is due.
  function AckTurn(s: State, nowMs: int): State {
    var c := Clock(s, nowMs);
    if AckReady(c, nowMs) then c.(queue := Ack(c.queue)) else c
  }

  function Fill(s: State, frames: nat): State {
    var r := Steps(s.play, frames);
    s.(play := r.next, out := s.out + r.recs,
       controls := s.controls.(underruns :=
         s.controls.underruns + if AnyMissing(r.recs) && s.controls.playing then 1 else 0))
  }

  // --- Runs -------------------------------------------------------------------------------------------

  datatype Event =
    | EnqueueEvent(buf: seq<Frame>, nowMs: int)
    | ClearEvent(nowMs: int)
    | MetadataEvent(meta: TrackMeta, nowMs: int)
    | CrossfadeEvent(ms: int)
    | PlayingEvent(playing: bool)
    | AckEvent(nowMs: int)
    | FillEvent(frames: nat)

  function Next(s: State, e: Event): State {
    match e
    case EnqueueEvent(buf, now) => Enqueue(s, buf, now)
    case ClearEvent(now) => Clear(s, now)
    case MetadataEvent(m, now) => Metadata(s, m, now)
    case CrossfadeEvent(ms) => SetCrossfade(s, ms)
    case PlayingEvent(playing) => SetPlaying(s, playing)
    case AckEvent(now) => AckTurn(s, now)
    case FillEvent(frames) => Fill(s, frames)
  }

  function Run(s: State, es: seq<Event>): State
    decreases |es|
  {
    if es == [] then s else Run(Next(s, es[0]), es[1..])
  }

  // A started pipeline: armed, with nothing written and nothing played.
  function Started(rate: nat, channels: nat, crossfadeMs: nat, nowMs: int): State {
    var X := CrossfadeFrames(crossfadeMs, rate);
    State(rate, channels, [], [], Play(0, 0, false, 0, 0, 0, 0, 0, 0, false, 0, 0), OpenArm(0, nowMs, 1),
          Queue([], 0, 0, 0, 0, [], []), Controls(false, crossfadeMs, X, LeadTarget(X, rate), "", 0, 0, 0),
          Model(rate, X, None, 0, 0, None, 0, None))
  }
}
