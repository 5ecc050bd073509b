/** Runs from the start of a player that meet the two limits of the design: an overflow that repeats a frame,
    and a re-anchor of a finished ramp. */
module Witnesses {
  import opened Audio
  import opened Boundary
  import opened Renderer
  import opened RefitProofs
  import opened Chunks
  import opened Pipeline
  import opened PipelineProofs
  import opened Playback

  lemma RunAppend(s: State, es: seq<Event>, e: Event)
    ensures Run(s, es + [e]) == Next(Run(s, es), e)
  {
    RunSplit(s, es, [e]);
  }

  // --- The run that both start with ------------------------------------------------------------------------

  function Sound(frames: nat): seq<Frame> {
    seq(frames, _ => [1])
  }

  function Track(id: string): TrackMeta {
    TrackMeta(id, "", 0, 0, false, false)
  }

  lemma SoundIsHeard(frames: nat)
    requires frames > 0
    ensures !AllSilent(Sound(frames)) && Shaped(Sound(frames), 1) && |Sound(frames)| == frames
  {
    assert Sound(frames)[0][0] == 1;
  }

  // A mono player at 5 Hz with a crossfade of 2 s: ten frames, with a ring of 150.
  function Player(): State {
    Started(5, 1, 2000, 0)
  }

  // One track, the announcement of the next one when 100 frames are there, and output up to that boundary.
  function ToTheAnnouncement(): seq<Event> {
    [MetadataEvent(Track("a"), 0), EnqueueEvent(Sound(100), 0), MetadataEvent(Track("b"), 0)]
  }

  function ToTheStall(): seq<Event> {
    ToTheAnnouncement() + [FillEvent(100)]
  }

  // The fade in progress: its outgoing side is finished at 100 and 'k' frames of its incoming side are played.
  function Waiting(written: nat, k: nat): Play {
    Play(written, 100, true, 100, 90, 10, 10, 100 + k, k, true, 1, 0)
  }

  predicate Stalled(s: State, written: nat, k: nat) {
    && s.rate == 5 && s.channels == 1 && s.controls.X == 10 && s.controls.T == 15
    && s.play == Waiting(written, k)
    && s.arm.frame == 100 && !s.arm.reanchored
  }

  // The first track is announced and 'written' frames of it are there.
  predicate Begun(s: State, written: nat) {
    && s.rate == 5 && s.channels == 1 && s.controls.X == 10 && s.controls.T == 15 && s.controls.lastId == "a"
    && s.play == Play(written, 0, false, 0, 0, 0, 0, 0, 0, false, 0, 0)
    && !s.arm.sawZero && s.arm.dropped == 0
    && s.model == Model(5, 10, Some(Track("a")), 0, 0, None, 0, None)
    && s.out == []
  }

  lemma AnnounceTheFirst(s: State)
    requires s == Next(Player(), MetadataEvent(Track("a"), 0))
    ensures Begun(s, 0)
  {
  }

  lemma DeliverTheFirst(s: State)
    requires Begun(s, 0)
    ensures Begun(Next(s, EnqueueEvent(Sound(100), 0)), 100)
  {
    SoundIsHeard(100);
  }

  // The fade to the second track is scheduled.
  predicate Announced(s: State) {
    && s.rate == 5 && s.channels == 1 && s.controls.X == 10 && s.controls.T == 15
    && s.play == Play(100, 0, true, 100, 90, 10, 10, 100, 0, false, 0, 0)
    && s.arm.armed && s.arm.frame == 100 && !s.arm.sawZero && !s.arm.reanchored && s.arm.dropped == 0
    && s.out == []
  }

  lemma AnnounceTheSecond(s: State)
    requires Begun(s, 100)
    ensures Announced(Next(s, MetadataEvent(Track("b"), 0)))
  {
    assert Decide(10, 5, Track("a"), 100, Track("b"), 0) == Fade(100, 10);
  }

  lemma PlayUpToTheBoundary(p: Play)
    requires p == Play(100, 0, true, 100, 90, 10, 10, 100, 0, false, 0, 0)
    ensures Steps(p, 100).next == Waiting(100, 0)
  {
    var q := p.(read := 90);
    PlainChunk(p, 90);
    StepsSplit(p, 90, 10);
    MarkDumpNeedsNoOutput(q);
    SameFromHere(q, MarkDump(q), 10);
    OutgoingChunk(MarkDump(q), 10);
  }

  lemma PlayToTheStall(s: State)
    requires Announced(s)
    ensures Stalled(Next(s, FillEvent(100)), 100, 0) && Next(s, FillEvent(100)).arm == s.arm
    ensures |Next(s, FillEvent(100)).out| == 100
  {
    PlayUpToTheBoundary(s.play);
  }

  lemma TheAnnouncement()
    ensures Announced(Run(Player(), ToTheAnnouncement()))
  {
    var es := ToTheAnnouncement();
    assert es[..1] == [] + [es[0]] && es[..2] == es[..1] + [es[1]] && es == es[..2] + [es[2]];
    RunAppend(Player(), [], es[0]);
    RunAppend(Player(), es[..1], es[1]);
    RunAppend(Player(), es[..2], es[2]);
    AnnounceTheFirst(Run(Player(), es[..1]));
    DeliverTheFirst(Run(Player(), es[..1]));
    AnnounceTheSecond(Run(Player(), es[..2]));
  }

  lemma TheStall(s: State)
    requires s == Run(Player(), ToTheStall())
    ensures Stalled(s, 100, 0) && s.arm.armed && !s.arm.sawZero && s.arm.dropped == 0 && |s.out| == 100
  {
    TheAnnouncement();
    RunAppend(Player(), ToTheAnnouncement(), FillEvent(100));
    PlayToTheStall(Run(Player(), ToTheAnnouncement()));
  }

  // --- An overflow that repeats a frame --------------------------------------------------------------------

  lemma DeliverWithoutOverflow(s: State, frames: nat, written: nat, k: nat)
    requires Stalled(s, written, k) && !s.arm.sawZero && 0 < frames <= 150 && written + frames <= 250
    ensures var t := Next(s, EnqueueEvent(Sound(frames), 0));
      && Stalled(t, written + frames, k) && t.out == s.out
      && !t.arm.sawZero && t.arm.dropped == s.arm.dropped
      && (t.arm.armed <==> s.arm.armed && written + frames < 125)
  {
    SoundIsHeard(frames);
  }

  lemma PlayFiveIncoming(s: State)
    requires Stalled(s, 105, 0)
    ensures var t := Next(s, FillEvent(5));
      Stalled(t, 105, 5) && t.arm == s.arm && |t.out| == |s.out| + 5 && Emits(t.out[|s.out| + 3], 103)
  {
    IncomingChunk(s.play, 5);
    assert Steps(s.play, 5).recs[3] == IncomingAt(s.play, 3);
  }

  lemma OverflowIntoTheIncoming(s: State)
    requires Stalled(s, 250, 5) && !s.arm.sawZero
    ensures var t := Next(s, EnqueueEvent(Sound(3), 0));
      t.play == Waiting(253, 5).(read := 103) && t.out == s.out && t.rate == 5
  {
    SoundIsHeard(3);
  }

  lemma PlayOneAgain(s: State)
    requires s.play == Waiting(253, 5).(read := 103)
    ensures var t := Next(s, FillEvent(1)); |t.out| == |s.out| + 1 && t.out == s.out + [Plain(103)]
  {
    assert Step(s.play).rec == Plain(103);
    assert Steps(s.play, 1).recs == [Step(s.play).rec] + Steps(Step(s.play).next, 0).recs;
  }

  function ToTheOverflow(): seq<Event> {
    [EnqueueEvent(Sound(5), 0), FillEvent(5), EnqueueEvent(Sound(145), 0), EnqueueEvent(Sound(3), 0), FillEvent(1)]
  }

  lemma TheOverflow(s: State)
    requires Stalled(s, 100, 0) && !s.arm.sawZero
    ensures var t := Run(s, ToTheOverflow());
      |t.out| == |s.out| + 6 && Emits(t.out[|s.out| + 3], 103) && Emits(t.out[|s.out| + 5], 103)
  {
    var es := ToTheOverflow();
    assert es[..1] == [] + [es[0]] && es[..2] == es[..1] + [es[1]] && es[..3] == es[..2] + [es[2]];
    assert es[..4] == es[..3] + [es[3]] && es == es[..4] + [es[4]];
    RunAppend(s, [], es[0]);
    RunAppend(s, es[..1], es[1]);
    RunAppend(s, es[..2], es[2]);
    RunAppend(s, es[..3], es[3]);
    RunAppend(s, es[..4], es[4]);
    DeliverWithoutOverflow(s, 5, 100, 0);
    PlayFiveIncoming(Run(s, es[..1]));
    DeliverWithoutOverflow(Run(s, es[..2]), 145, 105, 5);
    OverflowIntoTheIncoming(Run(s, es[..3]));
    PlayOneAgain(Run(s, es[..4]));
  }

  /** An overflow can make the player repeat itself. After the stall, five incoming frames are delivered and
      played; then a client that does not wait for acknowledgements fills the ring and delivers three frames
      more. That moves the read head from 100 to 103, inside the incoming frames already heard, and frame 103
      is played a second time. */
  lemma OverflowCanRepeat()
    ensures var out := Run(Player(), ToTheStall() + ToTheOverflow()).out;
      |out| == 106 && Emits(out[103], 103) && Emits(out[105], 103) && !EachFrameOnce(out)
  {
    RunSplit(Player(), ToTheStall(), ToTheOverflow());
    TheStall(Run(Player(), ToTheStall()));
    TheOverflow(Run(Player(), ToTheStall()));
  }

  // --- A re-anchor of a finished ramp ----------------------------------------------------------------------

  lemma DropOneFrame(s: State, k: nat)
    requires Stalled(s, 100 + k, 0) && s.arm.armed && s.arm.dropped == 0
    ensures var t := Next(s, EnqueueEvent([[0]], 0));
      Stalled(t, 100 + k, 0) && t.arm.armed && t.arm.sawZero
  {
  }

  // The renderer once the fade was moved 'k' frames on.
  function Moved(k: nat): Play {
    Play(101 + k, 100, true, 100 + k, 0, 10, 100 + k, 100 + k, 0, false, 1, 0)
  }

  lemma ReanchorAfterTheStall(s: State, k: nat)
    requires Stalled(s, 100 + k, 0) && s.arm.armed && s.arm.sawZero && 0 < k <= 12
    ensures Next(s, EnqueueEvent(Sound(1), 0)).play == Moved(k)
  {
    SoundIsHeard(1);
    FinishedRampTakesTheLongest(10, 10, k, 100 + k);
    assert Refit(10, 10, k, 100 + k) == 100 + k;
  }

  // 'k' frames of the second track, one of padding, and the frame that re-anchors.
  function ToTheReanchor(k: nat): seq<Event> {
    [EnqueueEvent(Sound(k), 0), EnqueueEvent([[0]], 0), EnqueueEvent(Sound(1), 0)]
  }

  lemma TheReanchor(s: State, k: nat)
    requires Stalled(s, 100, 0) && s.arm.armed && !s.arm.sawZero && s.arm.dropped == 0 && 0 < k <= 12
    ensures Run(s, ToTheReanchor(k)[..2]).play == Waiting(100 + k, 0)
    ensures Run(s, ToTheReanchor(k)).play == Moved(k)
  {
    var es := ToTheReanchor(k);
    assert es[..1] == [] + [es[0]] && es[..2] == es[..1] + [es[1]] && es == es[..2] + [es[2]];
    RunAppend(s, [], es[0]);
    RunAppend(s, es[..1], es[1]);
    RunAppend(s, es[..2], es[2]);
    DeliverWithoutOverflow(s, k, 100, 0);
    DropOneFrame(Run(s, es[..1]), k);
    ReanchorAfterTheStall(Run(s, es[..2]), k);
  }

  // How far the outgoing is on its ramp: at the last step it was played at, when it is finished.
  function Faded(p: Play): real
    requires p.start <= p.read
  {
    Position(Hold(p.read - p.start, p.nA), RampLength(p.nA))
  }

  lemma ReanchoredPlayers(k: nat)
    requires 0 < k <= 12
    ensures Run(Player(), ToTheStall() + ToTheReanchor(k)[..2]).play == Waiting(100 + k, 0)
    ensures Run(Player(), ToTheStall() + ToTheReanchor(k)).play == Moved(k)
  {
    RunSplit(Player(), ToTheStall(), ToTheReanchor(k)[..2]);
    RunSplit(Player(), ToTheStall(), ToTheReanchor(k));
    TheStall(Run(Player(), ToTheStall()));
    TheReanchor(Run(Player(), ToTheStall()), k);
  }

  /** A re-anchor can step the outgoing gain either way. After the stall the outgoing has reached the last of
      its ten steps. When the real audio comes twelve frames later it resumes at step 100 of 112, which is
      louder; when it comes one frame later it resumes at step 100 of 101, more than a step down. */
  lemma ReanchorCanStepTheGain()
    ensures var before, after := Run(Player(), ToTheStall() + ToTheReanchor(12)[..2]).play,
                                 Run(Player(), ToTheStall() + ToTheReanchor(12)).play;
      && before.sched && before.start <= before.read && after.start <= after.read < after.at
      && Faded(after) < Faded(before)
    ensures var before, after := Run(Player(), ToTheStall() + ToTheReanchor(1)[..2]).play,
                                 Run(Player(), ToTheStall() + ToTheReanchor(1)).play;
      && before.sched && before.start <= before.read && after.start <= after.read < after.at && after.nA > 0
      && Faded(after) > Faded(before) + 1.0 / after.nA as real
  {
    ReanchoredPlayers(12);
    ReanchoredPlayers(1);
    assert Faded(Waiting(112, 0)) == 0.95 && Faded(Waiting(101, 0)) == 0.95;
    ComparePositions(9, 10, 12, 112);
    CompareNextStep(9, 10, 1, 101);
  }
}
