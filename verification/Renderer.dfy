/** The read head and the scheduled fade, one output frame at a time. */
module Renderer {
  import opened Audio
  import opened Boundary

  // Everything that decides what the next output frame is. Frames are named by their absolute number.
  datatype Play = Play(
    written: nat,      // frames delivered so far
    read: nat,         // next outgoing frame
    sched: bool,       // a fade is scheduled
    at: nat,           // its boundary
    start: nat,        // where the outgoing ramp starts
    n: nat,            // incoming ramp length
    nA: nat,           // outgoing ramp length
    b: nat,            // next incoming frame
    kB: nat,           // incoming frames consumed by this fade
    dumped: bool,      // this fade has asked for its dump
    dumps: nat,        // dumps asked for so far
    fades: nat)        // fades completed so far

  // What one output frame is made of: nothing, one frame as it is, or the sides of a fade with the position
  // and ramp length that select their gains.
  datatype Rec =
    | Silent
    | Plain(f: nat)
    | OutgoingOnly(a: nat, kA: nat, nA: nat)
    | Both(a: nat, kA: nat, nA: nat, b: nat, kB: nat, nB: nat)
    | IncomingOnly(b: nat, kB: nat, nB: nat)

  // The renderer after one output frame, and that frame; and after a stretch of them.
  datatype Turn = Turn(next: Play, rec: Rec)
  datatype Stretch = Stretch(next: Play, recs: seq<Rec>)

  predicate Emits(r: Rec, f: nat) {
    match r
    case Silent => false
    case Plain(g) => f == g
    case OutgoingOnly(a, _, _) => f == a
    case Both(a, _, _, b, _, _) => f == a || f == b
    case IncomingOnly(b, _, _) => f == b
  }

  // Something was missing from this output frame.
  predicate Missing(r: Rec) {
    r.Silent? || r.OutgoingOnly?
  }

  predicate AnyMissing(rs: seq<Rec>) {
    exists i :: 0 <= i < |rs| && Missing(rs[i])
  }

  // Sample c of an output frame.
  function Render(g: Gains, log: seq<Frame>, r: Rec, c: nat): Sample {
    match r
    case Silent => 0
    case Plain(f) => At(log, f, c)
    case OutgoingOnly(a, kA, nA) => Alone(At(log, a, c), g.down(kA, nA))
    case Both(a, kA, nA, b, kB, nB) => Mixed(At(log, a, c), g.down(kA, nA), At(log, b, c), g.up(kB, nB))
    case IncomingOnly(b, kB, nB) => Alone(At(log, b, c), g.up(kB, nB))
  }

  // --- One output frame -------------------------------------------------------------------------------

  // A boundary that the read head has passed is no boundary any more.
  function Cancel(p: Play): Play {
    if p.sched && p.read > p.at then p.(sched := false) else p
  }

  predicate InFade(p: Play) {
    p.sched && p.start <= p.read
  }

  function MarkDump(p: Play): Play {
    if p.read == p.start && !p.dumped then p.(dumped := true, dumps := p.dumps + 1) else p
  }

  // When both ramps are done the incoming track is the one being played.
  function Finish(p: Play): Play {
    if p.read >= p.at && p.kB >= p.n then p.(read := p.b, sched := false, fades := p.fades + 1) else p
  }

  function PlainFrame(p: Play): Turn {
    if p.read < p.written then Turn(p.(read := p.read + 1), Plain(p.read)) else Turn(p, Silent)
  }

  // Consumes one incoming frame when there is one.
  function TakeIncoming(p: Play): Play {
    if p.b < p.written then p.(b := p.b + 1, kB := p.kB + 1) else p
  }

  function OutgoingRec(p: Play): Rec
    requires p.start <= p.read
  {
    var kA := Hold(p.read - p.start, p.nA);
    if p.b < p.written
    then Both(p.read, kA, RampLength(p.nA), p.b, Hold(p.kB, p.n), RampLength(p.n))
    else OutgoingOnly(p.read, kA, RampLength(p.nA))
  }

  function OutgoingFrame(p: Play): Turn
    requires InFade(p)
  {
    if p.read < p.written then
      Turn(Finish(TakeIncoming(p).(read := p.read + 1)), OutgoingRec(p))
    else
      Turn(p, Silent)
  }

  function IncomingFrame(p: Play): Turn {
    if p.b < p.written then
      Turn(Finish(TakeIncoming(p)), IncomingOnly(p.b, Hold(p.kB, p.n), RampLength(p.n)))
    else
      Turn(p, Silent)
  }

  function Step(p: Play): Turn {
    var q := Cancel(p);
    if !InFade(q) then PlainFrame(q)
    else
      var d := MarkDump(q);
      if d.read < d.at then OutgoingFrame(d)
      else if d.kB < d.n then IncomingFrame(d)
      else PlainFrame(Finish(d))
  }

  function Steps(p: Play, k: nat): (r: Stretch)
    ensures |r.recs| == k
    decreases k
  {
    if k == 0 then Stretch(p, [])
    else
      var first := Step(p);
      var rest := Steps(first.next, k - 1);
      Stretch(rest.next, [first.rec] + rest.recs)
  }

  lemma {:induction false} StepsSplit(p: Play, j: nat, k: nat)
    ensures Steps(p, j + k) ==
      Stretch(Steps(Steps(p, j).next, k).next, Steps(p, j).recs + Steps(Steps(p, j).next, k).recs)
    decreases j
  {
    if j == 0 {
    } else {
      var t := Step(p);
      StepsSplit(t.next, j - 1, k);
      assert Steps(p, j + k).recs == [t.rec] + Steps(t.next, j - 1 + k).recs;
    }
  }

  // --- Boundaries -------------------------------------------------------------------------------------

  // Incoming frames that were already heard are never played again.
  function Park(p: Play): Play {
    if p.sched && p.kB > 0 && p.read < p.b then p.(read := p.b) else p
  }

  function Min(x: nat, y: nat): nat {
    if x < y then x else y
  }

  function Max(x: int, y: int): int {
    if x > y then x else y
  }

  function Apply(p: Play, d: Decision): Play
    requires d.Fade? ==> d.n <= d.at
  {
    var q := Park(p);
    match d
    case NoBoundary => p
    case Cut(at) => q.(sched := false, read := Max(q.read, Min(at, q.written)), dumps := q.dumps + 1)
    case Fade(at, n) =>
      q.(sched := true, at := at, n := n, nA := n, start := at - n, b := at, kB := 0, dumped := false)
  }

  // The position on a ramp, as a fraction of it: the middle of its k-th step.
  function Position(k: nat, n: nat): real
    requires n > 0
  {
    (k as real + 0.5) / (n as real)
  }

  // No ramp is longer than this when it has to end at frame 'at'.
  function RampCap(at: nat): nat {
    if at < 1000000000 then at else 1000000000
  }

  // The part of a ramp that is left at position k0 of nA0; nothing is left past its end.
  function Remaining(k0: nat, nA0: nat): real
    requires nA0 > 0
  {
    var pos := Position(k0, nA0);
    1.0 - (if pos < 1.0 then pos else 1.0)
  }

  // The length of the ramp whose last r frames are the part 'left' of it.
  function IdealRamp(left: real, r: nat): real
    requires left > 0.0
  {
    r as real / left
  }

  // The length taken for an ideal one: rounded, within the cap, and never shorter than what is left.
  function RampFor(left: real, ideal: real, r: nat, at: nat): (nA: nat)
    requires 0 < r <= at
    ensures r <= nA <= at
  {
    var cap := RampCap(at) as real;
    var x := if left > 0.000000001 then ideal else cap;
    var nA := Lround(if !(x >= 1.0) || x > cap then cap else x);
    if nA < r then r else nA
  }

  // The re-fitted length of an outgoing ramp at position k0 of nA0 with r frames left before 'at'.
  function Refit(k0: nat, nA0: nat, r: nat, at: nat): (nA: nat)
    requires nA0 > 0 && 0 < r <= at
    ensures r <= nA <= at
  {
    var left := Remaining(k0, nA0);
    RampFor(left, if left > 0.0 then IdealRamp(left, r) else 0.0, r, at)
  }

  // Moves the scheduled fade onto the incoming track's first real audio, about to be written at p.written.
  function Reanchor(p: Play, X: nat, rate: nat): Play
    requires p.sched
  {
    var started := p.read >= p.start;
    var k0 := if started then p.read - p.start else 0;
    var nA0 := RampLength(p.nA);
    var q := Park(p).(at := p.written, b := p.written, kB := 0, dumped := false);
    var r := Tail(q.at, q.read);
    if !started then
      if r < MinTail(rate) then q.(sched := false)
      else q.(nA := Min(X, r), start := q.at - Min(X, r))
    else if r == 0 then q.(start := q.at, nA := 1)
    else
      var nA := Refit(k0, nA0, r, q.at);
      q.(nA := nA, start := q.at - nA)
  }

  // Makes room for frames about to be written by giving up the oldest unplayed ones.
  predicate Overflows(p: Play, frames: nat, capacity: nat) {
    p.written + frames > p.read + capacity
  }

  function MakeRoom(p: Play, frames: nat, capacity: nat): Play {
    if Overflows(p, frames, capacity) then p.(read := p.written + frames - capacity) else p
  }

  function Deliver(p: Play, frames: nat): Play {
    p.(written := p.written + frames)
  }

  // How far acknowledgements may run ahead, before the lead target is added.
  function Frontier(p: Play): nat {
    if p.sched then p.read + p.n else p.read
  }

  // --- Invariants -------------------------------------------------------------------------------------

  predicate Inv(p: Play, capacity: nat) {
    && p.read <= p.written <= p.read + capacity
    && (p.sched ==>
          && p.b == p.at + p.kB
          && p.start <= p.at
          && (p.kB > 0 ==> p.b <= p.written)
          && (p.read < p.start ==> p.kB == 0)
          && (p.read < p.at ==> p.start + p.nA == p.at))
  }

  // Frames that will never be played again: those behind the read head, and the incoming frames that the
  // fade in progress has already mixed in ahead of it.
  predicate Gone(p: Play, f: nat) {
    f < p.read || (p.sched && p.at <= f < p.b)
  }

  // The read head is not between the boundary and the incoming frames already mixed in.
  predicate Clean(p: Play) {
    !(p.sched && p.at < p.read < p.b)
  }
}
