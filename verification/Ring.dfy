/** Fixed-capacity storage addressed by absolute frame number. */
module Ring {
  import opened Audio

  // The row that stores absolute frame f.
  function Slot(f: int, capacity: nat): nat
    requires capacity > 0
  {
    f % capacity
  }

  // A non-zero multiple of m is at least m away from zero.
  lemma Multiples(d: int, m: nat)
    ensures d >= 1 ==> d * m >= m
    ensures d <= -1 ==> d * m + m <= 0
  {
    assert d * m == (d - 1) * m + m;
    assert d * m == (d + 1) * m - m;
  }

  // Up to the end of the storage, consecutive frames are in consecutive rows.
  lemma SlotRun(f: int, i: nat, capacity: nat)
    requires capacity > 0 && i < capacity - Slot(f, capacity)
    ensures Slot(f + i, capacity) == Slot(f, capacity) + i
  {
    var d := (f + i) / capacity - f / capacity;
    assert d * capacity == (f + i) / capacity * capacity - f / capacity * capacity;
    assert d * capacity == Slot(f, capacity) + i - Slot(f + i, capacity);
    Multiples(d, capacity);
  }

  // Two different frames less than a capacity apart never share a row.
  lemma SlotsDiffer(f: int, g: int, capacity: nat)
    requires capacity > 0 && f < g < f + capacity
    ensures Slot(f, capacity) != Slot(g, capacity)
  {
    var d := g / capacity - f / capacity;
    assert d * capacity == g / capacity * capacity - f / capacity * capacity;
    assert d * capacity == g - f - Slot(g, capacity) + Slot(f, capacity);
    Multiples(d, capacity);
  }

  // Rows used as a ring agree with an unbounded log on the last frames of it, as many as there are rows.
  ghost predicate Agrees(rows: array2<Sample>, log: seq<Frame>)
    requires rows.Length0 > 0
    reads rows
  {
    forall f, c | 0 <= f < |log| && |log| - rows.Length0 <= f && 0 <= c < rows.Length1 ::
      rows[Slot(f, rows.Length0), c] == At(log, f, c)
  }

  // Copies rows [from, from + count) of src into rows [to, to + count) of dst.
  method CopyRows(src: array2<Sample>, from: nat, dst: array2<Sample>, to: nat, count: nat)
    requires src != dst && src.Length1 == dst.Length1
    requires from + count <= src.Length0 && to + count <= dst.Length0
    modifies dst
    ensures forall i, c | 0 <= i < dst.Length0 && 0 <= c < dst.Length1 ::
      dst[i, c] == if to <= i < to + count then src[from + (i - to), c] else old(dst[i, c])
  {
    forall i, c | to <= i < to + count && 0 <= c < dst.Length1 {
      dst[i, c] := src[from + (i - to), c];
    }
  }

  class Ring {
    const data: array2<Sample>
    const capacity: nat
    const channels: nat

    constructor (capacity: nat, channels: nat)
      ensures this.capacity == capacity && this.channels == channels
      ensures data.Length0 == capacity && data.Length1 == channels && fresh(data)
    {
      this.capacity, this.channels := capacity, channels;
      data := new Sample[capacity, channels];
    }

    ghost predicate Valid()
    {
      capacity > 0 && data.Length0 == capacity && data.Length1 == channels
    }

    ghost predicate Holds(log: seq<Frame>)
      requires Valid()
      reads data
    {
      Agrees(data, log)
    }

    // Copies the first 'frames' rows of src into absolute positions [frame, frame + frames). The window of
    // 'capacity' positions that ends there names every row once: positions from 'frame' on hold src, the
    // older ones keep what they held.
    method Write(frame: nat, src: array2<Sample>, frames: nat)
      requires Valid() && src != data && frames <= src.Length0 && src.Length1 == channels
      modifies data
      ensures forall g, c | frame + frames - capacity <= g < frame + frames && 0 <= c < channels ::
        data[Slot(g, capacity), c] ==
          if g >= frame then src[g - frame, c] else old(data[Slot(g, capacity), c])
    {
      var k := 0;
      while k < frames
        invariant 0 <= k <= frames
        invariant forall g, c | frame + k - capacity <= g < frame + k && 0 <= c < channels ::
          data[Slot(g, capacity), c] ==
            if g >= frame then src[g - frame, c] else old(data[Slot(g, capacity), c])
      {
        var pos := (frame + k) % capacity;
        var chunk := if capacity - pos < frames - k then capacity - pos else frames - k;
        label before:
        CopyRows(src, k, data, pos, chunk);
        forall g, c | frame + k + chunk - capacity <= g < frame + k + chunk && 0 <= c < channels
          ensures data[Slot(g, capacity), c] ==
            if g >= frame then src[g - frame, c] else old(data[Slot(g, capacity), c])
        {
          if g >= frame + k {
            SlotRun(frame + k, g - frame - k, capacity);
          } else {
            RowUntouched(frame + k, chunk, g);
            assert data[Slot(g, capacity), c] == old@before(data[Slot(g, capacity), c]);
          }
        }
        k := k + chunk;
      }
    }

    // A position of the older part of the window is none of the rows a chunk at 'frame' overwrites.
    lemma RowUntouched(frame: nat, chunk: nat, g: int)
      requires Valid() && chunk <= capacity - Slot(frame, capacity)
      requires frame + chunk - capacity <= g < frame
      ensures !(Slot(frame, capacity) <= Slot(g, capacity) < Slot(frame, capacity) + chunk)
    {
      var j := Slot(g, capacity) - Slot(frame, capacity);
      if 0 <= j < chunk {
        SlotRun(frame, j, capacity);
        SlotsDiffer(g, frame + j, capacity);
      }
    }

    // Copies a chunk that does not wrap: absolute positions [frame, frame + chunk) into rows [off, off + chunk).
    method ReadChunk(frame: nat, dst: array2<Sample>, off: nat, chunk: nat)
      requires Valid() && dst != data && off + chunk <= dst.Length0 && dst.Length1 == channels
      requires chunk <= capacity - Slot(frame, capacity)
      modifies dst
      ensures forall i, c | 0 <= i < dst.Length0 && 0 <= c < channels ::
        dst[i, c] ==
          if off <= i < off + chunk then data[Slot(frame + (i - off), capacity), c] else old(dst[i, c])
    {
      CopyRows(data, Slot(frame, capacity), dst, off, chunk);
      forall i, c | off <= i < off + chunk && 0 <= c < channels
        ensures dst[i, c] == data[Slot(frame + (i - off), capacity), c]
      {
        SlotRun(frame, i - off, capacity);
      }
    }

    // Copies absolute positions [frame, frame + frames) into rows [off, off + frames) of dst.
    method Read(frame: nat, dst: array2<Sample>, off: nat, frames: nat)
      requires Valid() && dst != data && off + frames <= dst.Length0 && dst.Length1 == channels
      modifies dst
      ensures forall i, c | 0 <= i < dst.Length0 && 0 <= c < channels ::
        dst[i, c] ==
          if off <= i < off + frames then data[Slot(frame + (i - off), capacity), c] else old(dst[i, c])
    {
      var k := 0;
      while k < frames
        invariant 0 <= k <= frames
        invariant forall i, c | 0 <= i < dst.Length0 && 0 <= c < channels ::
          dst[i, c] ==
            if off <= i < off + k then data[Slot(frame + (i - off), capacity), c] else old(dst[i, c])
      {
        var pos := (frame + k) % capacity;
        var chunk := if capacity - pos < frames - k then capacity - pos else frames - k;
        ReadChunk(frame + k, dst, off + k, chunk);
        k := k + chunk;
      }
    }

    // Appending to the log is a Write at its end; agreement with the log survives it.
    method Append(ghost log: seq<Frame>, written: nat, src: array2<Sample>)
      requires Valid() && Holds(log) && written == |log|
      requires src != data && src.Length0 <= capacity && src.Length1 == channels
      modifies data
      ensures Holds(log + Contents(src))
    {
      Write(written, src, src.Length0);
      ghost var grown := log + Contents(src);
      forall f, c | 0 <= f < |grown| && |grown| - capacity <= f && 0 <= c < channels
        ensures data[Slot(f, capacity), c] == At(grown, f, c)
      {
        if f < |log| {
          assert grown[f] == log[f];
          assert old(data[Slot(f, capacity), c]) == At(log, f, c);
        } else {
          assert grown[f] == Contents(src)[f - |log|];
        }
      }
    }

    // Reading any range inside the last 'capacity' frames of the log returns exactly that range.
    method Fetch(ghost log: seq<Frame>, frame: nat, dst: array2<Sample>, off: nat, frames: nat)
      requires Valid() && Holds(log) && |log| - capacity <= frame && frame + frames <= |log|
      requires dst != data && off + frames <= dst.Length0 && dst.Length1 == channels
      modifies dst
      ensures forall i, c | 0 <= i < dst.Length0 && 0 <= c < channels ::
        dst[i, c] == if off <= i < off + frames then At(log, frame + (i - off), c) else old(dst[i, c])
    {
      Read(frame, dst, off, frames);
    }
  }
}
