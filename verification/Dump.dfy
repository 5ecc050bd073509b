/** The debug dump: the last seconds of output before a trigger, then the next ones, one file per trigger. */
module Dump {
  import opened Audio
  import opened Ring

  const HISTORY_SECONDS := 5
  const TAIL_SECONDS := 15

  // A file whose trigger was seen when 'at' frames had been pushed, holding the stream up to frame 'end'.
  datatype File = File(at: nat, end: nat, content: seq<Frame>)

  function HistoryStart(at: nat, history: nat): nat {
    if at > history then at - history else 0
  }

  // The content a file must have, given the whole pushed stream.
  predicate Holds(f: File, stream: seq<Frame>, history: nat, tail: nat) {
    && f.at <= f.end <= |stream| && f.end <= f.at + tail
    && f.content == stream[HistoryStart(f.at, history)..f.end]
  }

  lemma StillHolds(f: File, stream: seq<Frame>, more: seq<Frame>, history: nat, tail: nat)
    requires Holds(f, stream, history, tail)
    ensures Holds(f, stream + more, history, tail)
  {
    assert (stream + more)[HistoryStart(f.at, history)..f.end] == stream[HistoryStart(f.at, history)..f.end];
  }

  // Where a file started at frame 'at' ends when nothing interrupts it before 'length' frames are pushed.
  function EndOf(at: nat, length: nat, tail: nat): nat {
    if length < at + tail then length else at + tail
  }

  // --- The dumper as a function of what it is given --------------------------------------------------------

  // The stream pushed so far, whether a trigger is pending, whether the last file is still being written, and
  // the files.
  datatype Tape = Tape(stream: seq<Frame>, triggered: bool, open: bool, files: seq<File>)

  predicate TapeOk(t: Tape, history: nat, tail: nat) {
    && tail > 0
    && (forall i | 0 <= i < |t.files| :: Holds(t.files[i], t.stream, history, tail))
    && (t.open ==> t.files != [] && var f := t.files[|t.files| - 1];
                   f.end == |t.stream| && |t.stream| < f.at + tail)
  }

  // A pending trigger closes the file being written and starts another, if that can be opened.
  function TakeTrigger(t: Tape, opens: bool, history: nat): Tape {
    if !t.triggered then t
    else
      var u := t.(triggered := false, open := opens);
      if opens then u.(files := t.files + [File(|t.stream|, |t.stream|, t.stream[HistoryStart(|t.stream|, history)..])])
      else u
  }

  // The file being written takes what it still lacks of the stream.
  function Extend(t: Tape, chunk: seq<Frame>, history: nat, tail: nat): Tape
    requires TapeOk(t, history, tail)
  {
    var stream := t.stream + chunk;
    if !t.open then t.(stream := stream)
    else
      var f := t.files[|t.files| - 1];
      var end := EndOf(f.at, |stream|, tail);
      var g := File(f.at, end, stream[HistoryStart(f.at, history)..end]);
      t.(stream := stream, open := |stream| < f.at + tail, files := t.files[|t.files| - 1 := g])
  }

  lemma TakeTriggerKeepsTape(t: Tape, opens: bool, history: nat, tail: nat)
    requires TapeOk(t, history, tail)
    ensures TapeOk(TakeTrigger(t, opens, history), history, tail)
  {
  }

  lemma ExtendKeepsTape(t: Tape, chunk: seq<Frame>, history: nat, tail: nat)
    requires TapeOk(t, history, tail)
    ensures TapeOk(Extend(t, chunk, history, tail), history, tail)
  {
    forall i | 0 <= i < |t.files| {
      StillHolds(t.files[i], t.stream, chunk, history, tail);
    }
  }

  function PushTape(t: Tape, chunk: seq<Frame>, opens: bool, history: nat, tail: nat): (u: Tape)
    requires TapeOk(t, history, tail)
    ensures TapeOk(u, history, tail)
  {
    TakeTriggerKeepsTape(t, opens, history, tail);
    ExtendKeepsTape(TakeTrigger(t, opens, history), chunk, history, tail);
    Extend(TakeTrigger(t, opens, history), chunk, history, tail)
  }

  // --- Whole sequences of pushes and triggers --------------------------------------------------------------

  datatype DumpEvent = TriggerEvent | PushEvent(chunk: seq<Frame>, opens: bool)

  function On(t: Tape, e: DumpEvent, history: nat, tail: nat): (u: Tape)
    requires TapeOk(t, history, tail)
    ensures TapeOk(u, history, tail)
  {
    match e
    case TriggerEvent => t.(triggered := true)
    case PushEvent(chunk, opens) => PushTape(t, chunk, opens, history, tail)
  }

  function Replay(t: Tape, es: seq<DumpEvent>, history: nat, tail: nat): (u: Tape)
    requires TapeOk(t, history, tail)
    ensures TapeOk(u, history, tail)
    decreases |es|
  {
    if es == [] then t else Replay(On(t, es[0], history, tail), es[1..], history, tail)
  }

  // What an event, and a sequence of them, pushes.
  function PushedBy(e: DumpEvent): seq<Frame> {
    if e.PushEvent? then e.chunk else []
  }

  function Pushed(es: seq<DumpEvent>): seq<Frame> {
    if es == [] then [] else PushedBy(es[0]) + Pushed(es[1..])
  }

  lemma {:induction false} StreamIsWhatWasPushed(t: Tape, es: seq<DumpEvent>, history: nat, tail: nat)
    requires TapeOk(t, history, tail)
    ensures Replay(t, es, history, tail).stream == t.stream + Pushed(es)
    decreases |es|
  {
    if es == [] {
    } else {
      var u := On(t, es[0], history, tail);
      assert u.stream == t.stream + PushedBy(es[0]);
      StreamIsWhatWasPushed(u, es[1..], history, tail);
      assert (t.stream + PushedBy(es[0])) + Pushed(es[1..]) == t.stream + Pushed(es);
    }
  }

  // No push will write to file i any more: it is not the open one, or a trigger is pending.
  predicate Settled(t: Tape, i: nat) {
    i < |t.files| && (t.triggered || (t.open ==> i < |t.files| - 1))
  }

  lemma SettledStays(t: Tape, e: DumpEvent, history: nat, tail: nat, i: nat)
    requires TapeOk(t, history, tail) && Settled(t, i)
    ensures Settled(On(t, e, history, tail), i) && On(t, e, history, tail).files[i] == t.files[i]
  {
  }

  lemma {:induction false} SettledFilesStay(t: Tape, es: seq<DumpEvent>, history: nat, tail: nat, i: nat)
    requires TapeOk(t, history, tail) && Settled(t, i)
    ensures i < |Replay(t, es, history, tail).files| && Replay(t, es, history, tail).files[i] == t.files[i]
    decreases |es|
  {
    if es == [] {
    } else {
      SettledStays(t, es[0], history, tail, i);
      SettledFilesStay(On(t, es[0], history, tail), es[1..], history, tail, i);
    }
  }

  predicate NoTrigger(es: seq<DumpEvent>) {
    forall i | 0 <= i < |es| :: es[i].PushEvent?
  }

  // File i is the last one, was started at frame 'at', and has all it can have of the stream so far.
  predicate UpToDate(t: Tape, i: nat, at: nat, history: nat, tail: nat) {
    && |t.files| == i + 1 && !t.triggered
    && t.files[i].at == at && t.files[i].end == EndOf(at, |t.stream|, tail)
    && (t.open <==> |t.stream| < at + tail)
  }

  lemma PushKeepsUpToDate(t: Tape, e: DumpEvent, history: nat, tail: nat, i: nat, at: nat)
    requires TapeOk(t, history, tail) && UpToDate(t, i, at, history, tail) && e.PushEvent?
    ensures UpToDate(On(t, e, history, tail), i, at, history, tail)
  {
  }

  lemma {:induction false} PushesKeepUpToDate(t: Tape, es: seq<DumpEvent>, history: nat, tail: nat, i: nat, at: nat)
    requires TapeOk(t, history, tail) && UpToDate(t, i, at, history, tail) && NoTrigger(es)
    ensures UpToDate(Replay(t, es, history, tail), i, at, history, tail)
    decreases |es|
  {
    if es == [] {
    } else {
      PushKeepsUpToDate(t, es[0], history, tail, i, at);
      PushesKeepUpToDate(On(t, es[0], history, tail), es[1..], history, tail, i, at);
    }
  }

  lemma TriggeredPushStarts(t: Tape, chunk: seq<Frame>, history: nat, tail: nat)
    requires TapeOk(t, history, tail) && t.triggered
    ensures UpToDate(On(t, PushEvent(chunk, true), history, tail), |t.files|, |t.stream|, history, tail)
  {
  }

  // The file of a trigger, seen by a push of 'chunk', after some more pushes.
  lemma FileAfterPushes(t: Tape, chunk: seq<Frame>, pushes: seq<DumpEvent>, history: nat, tail: nat, m: Tape)
    requires TapeOk(t, history, tail) && t.triggered && NoTrigger(pushes)
    requires m == Replay(On(t, PushEvent(chunk, true), history, tail), pushes, history, tail)
    ensures m.stream == t.stream + chunk + Pushed(pushes) && TapeOk(m, history, tail)
    ensures UpToDate(m, |t.files|, |t.stream|, history, tail)
  {
    var u := On(t, PushEvent(chunk, true), history, tail);
    TriggeredPushStarts(t, chunk, history, tail);
    PushesKeepUpToDate(u, pushes, history, tail, |t.files|, |t.stream|);
    StreamIsWhatWasPushed(u, pushes, history, tail);
  }

  // f holds the stream from 'history' frames before frame 'at', or its beginning, to 'tail' frames after it, or
  // its end.
  predicate IsDump(f: File, stream: seq<Frame>, at: nat, history: nat, tail: nat)
    requires at <= |stream|
  {
    var start := if at > history then at - history else 0;
    var end := if |stream| < at + tail then |stream| else at + tail;
    f == File(at, end, stream[start..end])
  }

  lemma UpToDateContent(m: Tape, i: nat, at: nat, history: nat, tail: nat)
    requires TapeOk(m, history, tail) && UpToDate(m, i, at, history, tail) && at <= |m.stream|
    ensures IsDump(m.files[i], m.stream, at, history, tail)
  {
    assert Holds(m.files[i], m.stream, history, tail);
  }

  /** What a trigger leaves behind, over whole sequences of events. The push that sees it starts a file. For any
      chunking of that push and those that follow, the file is the stream from the history before the push up to
      the end of the tail, or to where the stream stands when a newer trigger comes or everything ends; and from
      that trigger on it never changes, whether or not the newer file can be opened. */
  lemma EveryTriggerGetsItsFile(t: Tape, chunk: seq<Frame>, pushes: seq<DumpEvent>, after: seq<DumpEvent>,
                                history: nat, tail: nat)
    requires TapeOk(t, history, tail) && t.triggered && NoTrigger(pushes)
    ensures var at, i := |t.stream|, |t.files|;
      var m := Replay(On(t, PushEvent(chunk, true), history, tail), pushes, history, tail);
      var z := Replay(On(m, TriggerEvent, history, tail), after, history, tail);
      && m.stream == t.stream + chunk + Pushed(pushes)
      && |m.files| == i + 1 && IsDump(m.files[i], m.stream, at, history, tail)
      && i < |z.files| && z.files[i] == m.files[i]
  {
    var m := Replay(On(t, PushEvent(chunk, true), history, tail), pushes, history, tail);
    FileAfterPushes(t, chunk, pushes, history, tail, m);
    UpToDateContent(m, |t.files|, |t.stream|, history, tail);
    SettledFilesStay(On(m, TriggerEvent, history, tail), after, history, tail, |t.files|);
  }

  class PcmDumper {
    const enabled: bool
    const channels: nat
    const historyFrames: nat
    const tailFrames: nat
    const history: array2<Sample>

    var pushed: nat
    var triggered: bool
    var open: bool           // the last file is still being written
    var remaining: nat
    var files: seq<File>
    ghost var stream: seq<Frame>

    ghost predicate Valid()
      reads this, history
    {
      && (enabled ==> historyFrames > 0 && tailFrames > 0
                      && history.Length0 == historyFrames && history.Length1 == channels
                      && Agrees(history, stream))
      && (!enabled ==> !triggered)
      && pushed == |stream| && Shaped(stream, channels)
      && (forall i | 0 <= i < |files| :: Holds(files[i], stream, historyFrames, tailFrames))
      && (open ==> enabled && files != [] && var f := files[|files| - 1];
                   f.end == |stream| && remaining > 0 && f.end + remaining == f.at + tailFrames)
    }

    ghost function State(): (t: Tape)
      reads this
    {
      Tape(stream, triggered, open, files)
    }

    // Refuses to be enabled with a format that has no frames.
    constructor (rateHz: nat, channels: nat, enabled: bool)
      ensures Valid() && stream == [] && files == [] && !triggered && !open
      ensures this.enabled <==> enabled && rateHz > 0 && channels > 0
      ensures this.historyFrames == 5 * rateHz && this.tailFrames == 15 * rateHz
    {
      this.enabled := enabled && rateHz > 0 && channels > 0;
      this.channels := channels;
      historyFrames, tailFrames := HISTORY_SECONDS * rateHz, TAIL_SECONDS * rateHz;
      history := new Sample[HISTORY_SECONDS * rateHz, channels];
      pushed, triggered, open, remaining, files := 0, false, false, 0, [];
      stream := [];
    }

    method Trigger()
      requires Valid()
      modifies this`triggered
      ensures Valid() && State() == if enabled then old(State()).(triggered := true) else old(State())
    {
      if enabled {
        triggered := true;
      }
    }

    static method RowOf(a: array2<Sample>, i: nat) returns (r: Frame)
      requires i < a.Length0
      ensures |r| == a.Length1 && forall c | 0 <= c < a.Length1 :: r[c] == a[i, c]
    {
      r := [];
      for c := 0 to a.Length1
        invariant |r| == c && forall e | 0 <= e < c :: r[e] == a[i, e]
      {
        r := r + [a[i, c]];
      }
    }

    static method FirstRows(a: array2<Sample>, n: nat) returns (rows: seq<Frame>)
      requires n <= a.Length0
      ensures rows == Contents(a)[..n]
    {
      rows := [];
      for i := 0 to n
        invariant rows == Contents(a)[..i]
      {
        var row := RowOf(a, i);
        assert row == Contents(a)[i];
        rows := rows + [row];
      }
    }

    // The remembered frames, oldest first.
    method Remembered() returns (content: seq<Frame>)
      requires Valid() && enabled
      ensures content == stream[HistoryStart(|stream|, historyFrames)..]
    {
      content := [];
      var start := if pushed > historyFrames then pushed - historyFrames else 0;
      for f := start to pushed
        invariant content == stream[start..f]
      {
        var row := RowOf(history, f % historyFrames);
        assert |row| == |stream[f]|;
        assert forall c | 0 <= c < channels :: row[c] == At(stream, f, c);
        assert row == stream[f];
        content := content + [row];
      }
    }

    method StartFile(opens: bool)
      requires Valid() && enabled && !open
      modifies this`files, this`open, this`remaining
      ensures Valid() && open == opens
      ensures files == if opens
        then old(files) + [File(|stream|, |stream|, stream[HistoryStart(|stream|, historyFrames)..])]
        else old(files)
    {
      if opens {
        var content := Remembered();
        files := files + [File(pushed, pushed, content)];
        open := true;
        remaining := tailFrames;
      }
    }

    // Overwrites the oldest rows of the history.
    method Remember(frames: array2<Sample>)
      requires enabled && historyFrames > 0 && history.Length0 == historyFrames && history.Length1 == channels
      requires Agrees(history, stream) && pushed == |stream| && Shaped(stream, channels)
      requires frames.Length1 == channels && frames != history
      modifies this`pushed, this`stream, history
      ensures Agrees(history, stream) && pushed == |stream| && Shaped(stream, channels)
      ensures stream == old(stream) + Contents(frames)
    {
      ghost var chunk := Contents(frames);
      for i := 0 to frames.Length0
        invariant Agrees(history, stream) && pushed == |stream|
        invariant stream == old(stream) + chunk[..i]
      {
        ghost var before := stream;
        label row:
        forall c | 0 <= c < channels {
          history[pushed % historyFrames, c] := frames[i, c];
        }
        stream := stream + [chunk[i]];
        forall f, c | 0 <= f < |stream| && |stream| - historyFrames <= f && 0 <= c < channels
          ensures history[Slot(f, historyFrames), c] == At(stream, f, c)
        {
          if f < |before| {
            SlotsDiffer(f, |before|, historyFrames);
            assert old@row(history[Slot(f, historyFrames), c]) == At(before, f, c);
          }
        }
        pushed := pushed + 1;
        assert chunk[..i + 1] == chunk[..i] + [chunk[i]];
      }
      assert chunk[..frames.Length0] == chunk;
    }

    // Every file still holds what it must when the stream grows.
    lemma FilesStillHold(fs: seq<File>, before: seq<Frame>, more: seq<Frame>)
      requires forall i | 0 <= i < |fs| :: Holds(fs[i], before, historyFrames, tailFrames)
      ensures forall i | 0 <= i < |fs| :: Holds(fs[i], before + more, historyFrames, tailFrames)
    {
      forall i | 0 <= i < |fs| {
        StillHolds(fs[i], before, more, historyFrames, tailFrames);
      }
    }

    // Appends to the file being written what it still needs of the frames just pushed.
    method WriteTail(frames: array2<Sample>, ghost before: seq<Frame>)
      requires open && files != [] && frames.Length1 == channels && remaining > 0
      requires stream == before + Contents(frames)
      requires Holds(files[|files| - 1], before, historyFrames, tailFrames)
      requires var f := files[|files| - 1]; f.end == |before| && f.end + remaining == f.at + tailFrames
      modifies this`files, this`open, this`remaining
      ensures |files| == |old(files)| && files[..|files| - 1] == old(files)[..|files| - 1]
      ensures var f := files[|files| - 1];
        && Holds(f, stream, historyFrames, tailFrames)
        && f.at == old(files)[|files| - 1].at && f.end == EndOf(f.at, |stream|, tailFrames)
        && (open <==> |stream| < f.at + tailFrames)
        && (open ==> remaining > 0 && f.end + remaining == f.at + tailFrames)
    {
      var n := frames.Length0;
      var w := if remaining < n then remaining else n;
      var f := files[|files| - 1];
      var more := FirstRows(frames, w);
      ghost var from := HistoryStart(f.at, historyFrames);
      assert f.content == stream[from..f.end] && more == stream[f.end..f.end + w];
      assert f.content + more == stream[from..f.end + w];
      files := files[|files| - 1 := f.(end := f.end + w, content := f.content + more)];
      remaining := remaining - w;
      if remaining == 0 {
        open := false;
      }
    }

    // Folds a buffer into the history and into the file being written.
    method Record(frames: array2<Sample>)
      requires Valid() && enabled && !triggered && frames.Length1 == channels && frames != history
      modifies this`pushed, this`stream, this`files, this`open, this`remaining, history
      ensures Valid() && TapeOk(old(State()), historyFrames, tailFrames)
      ensures State() == Extend(old(State()), old(Contents(frames)), historyFrames, tailFrames)
    {
      ghost var before := stream;
      Remember(frames);
      FilesStillHold(files, before, Contents(frames));
      if open && remaining > 0 {
        assert Holds(files[|files| - 1], before, historyFrames, tailFrames);
        WriteTail(frames, before);
        assert forall i | 0 <= i < |files| - 1 :: files[i] == files[..|files| - 1][i];
      }
    }

    // A pending trigger closes the file being written, and starts another.
    method ConsumeTrigger(opens: bool)
      requires Valid() && enabled
      modifies this`triggered, this`files, this`open, this`remaining
      ensures Valid() && State() == TakeTrigger(old(State()), opens, historyFrames)
      ensures TapeOk(old(State()), historyFrames, tailFrames)
    {
      if triggered {
        triggered := false;
        open := false;
        StartFile(opens);
      }
    }

    /** Pushes a buffer of output: the loops over the history ring and the file compute the same tape as the
        stream itself does. */
    method Push(frames: array2<Sample>, opens: bool)
      requires Valid() && frames.Length1 == channels && frames != history
      modifies this`pushed, this`stream, this`triggered, this`files, this`open, this`remaining, history
      ensures Valid()
      ensures !enabled ==> State() == old(State())
      ensures enabled ==>
        && TapeOk(old(State()), historyFrames, tailFrames)
        && State() == PushTape(old(State()), old(Contents(frames)), opens, historyFrames, tailFrames)
    {
      if !enabled {
        return;
      }
      ConsumeTrigger(opens);
      Record(frames);
    }
  }
}
