/** The calls of a writer (src/nvwal_api.c) as methods on its context. Without interference each call
    does what the corresponding steps of the pipeline do one after the other. */
module WriterCalls {
  import opened Base
  import opened Circular
  import opened LogStream
  import opened Pipeline
  import opened WriterInvariant

  // ================================================================ whole calls as functions

  /** The active frame is one for epoch `e`, newly set up if need be. */
  function Framed(x: Writer, e: nat): Writer
    requires |x.frames| == FRAME_COUNT && x.active < FRAME_COUNT
  {
    var b := Began(x, e);
    if b.pc.Publish? then b
    else WithFrame(b, b.active, b.frames[b.active].(head := x.lastTail, tail := x.lastTail, epoch := e)).(pc := Publish(e))
  }

  /** Three stores after the choice of the frame. */
  lemma FramedBySteps(c: Config, w: nat, x: Writer, e: nat)
    requires c.Valid() && WriterShape(c, x)
    ensures var b := Began(x, e);
            if b.pc.Publish? then Framed(x, e) == b
            else
              && WriterShape(c, b) && WriterShape(c, StoredNext(c, w, b))
              && WriterShape(c, StoredNext(c, w, StoredNext(c, w, b)))
              && Framed(x, e) == StoredNext(c, w, StoredNext(c, w, StoredNext(c, w, b)))
  {
  }

  lemma FramedKeeps(c: Config, w: nat, x: Writer, d: nat, e: nat)
    requires WriterOk(c, w, x, d) && x.pc.Idle? && d < e < d + FRAME_COUNT && x.frames[x.active].epoch <= e
    ensures WriterOk(c, w, Framed(x, e), d) && Framed(x, e).pc == Publish(e)
  {
    hide BufferOk, EntriesOk, FramesOk, OrderOk, PcOk;
    var b := Began(x, e);
    BeginWriteKeeps(c, w, x, d, e, b);
    FramedBySteps(c, w, x, e);
    if !b.pc.Publish? {
      var b1 := StoredNext(c, w, b);
      StoreOffsetKeeps(c, w, b, d, b1);
      var b2 := StoredNext(c, w, b1);
      StoreOffsetKeeps(c, w, b1, d, b2);
      StoreEpochKeeps(c, w, b2, d, StoredNext(c, w, b2));
    }
  }

  /** Index of the first frame of epoch `e`; the number of frames if there is none. */
  function FrameOf(frames: seq<Frame>, e: nat): (i: nat)
    ensures i <= |frames|
    ensures forall k | 0 <= k < i :: frames[k].epoch != e
    ensures i < |frames| ==> frames[i].epoch == e
  {
    if |frames| == 0 then 0 else if frames[0].epoch == e then 0 else 1 + FrameOf(frames[1..], e)
  }

  /** What the space check adds up over the first `i` frames. */
  function Consumed(size: nat, frames: seq<Frame>, durable: nat, i: nat): nat
    requires i <= |frames| && forall k | 0 <= k < |frames| :: frames[k].head < size && frames[k].tail < size
  {
    if i == 0 then 0
    else
      var f := frames[i - 1];
      Consumed(size, frames, durable, i - 1) + if Counted(durable, f) then Distance(size, f.head, f.tail) else 0
  }

  // ================================================================ the context

  class WriterContext {
    const bufferSize: nat
    const frames: array<Frame>
    var active: nat
    var lastTail: nat

    constructor (bufferSize: nat)
      requires bufferSize > 0
      ensures this.bufferSize == bufferSize && frames.Length == FRAME_COUNT && active == 0 && lastTail == 0
      ensures forall i | 0 <= i < FRAME_COUNT :: frames[i] == Frame(0, 0, 0, 0, 0)
      ensures fresh(frames)
    {
      this.bufferSize := bufferSize;
      frames := new Frame[FRAME_COUNT](_ => Frame(0, 0, 0, 0, 0));
      active, lastTail := 0, 0;
    }

    /** The fields are those of the writer `x` of the pipeline. */
    ghost predicate Is(x: Writer)
      reads this, frames
    {
      && frames.Length == FRAME_COUNT && frames[..] == x.frames && active == x.active && lastTail == x.lastTail
      && active < FRAME_COUNT && lastTail < bufferSize
    }

    method AssureActiveFrame(e: nat, ghost x: Writer)
      requires Is(x)
      modifies this`active, frames
      ensures Is(Framed(x, e))
    {
      var f := frames[active];
      if f.epoch != e {
        if f.epoch != 0 {
          active := WrapFrame(active + 1);
        }
        frames[active] := frames[active].(head := lastTail);
        frames[active] := frames[active].(tail := lastTail);
        frames[active] := frames[active].(epoch := e);
      }
    }

    /** Announces `n` bytes written at the tail. The assertions of the source hold. */
    method OnWalWrite(n: nat, e: nat, ghost c: Config, ghost w: nat, ghost x: Writer, ghost d: nat)
      requires Is(x) && WriterOk(c, w, x, d) && x.pc.Idle? && c.bufferSize == bufferSize && |x.staged| == n
      requires d < e < d + FRAME_COUNT && x.frames[x.active].epoch <= e
      modifies this`active, this`lastTail, frames
      ensures WriterShape(c, Framed(x, e))
      ensures var y := Published(c, w, Framed(x, e), e);
              && Is(y) && WriterOk(c, w, y, d)
              && y.submitted == x.submitted + Tagged(x.staged, e, w) && y.staged == []
    {
      hide BufferOk, EntriesOk, FramesOk, OrderOk, PcOk;
      ghost var y := Framed(x, e);
      FramedKeeps(c, w, x, d, e);
      AssureActiveFrame(e, x);
      AssertionsHold(c, w, y, d);
      PublishKeeps(c, w, y, d, e, Published(c, w, y, e));
      var f := frames[active];
      assert f.epoch == e && f.tail == lastTail;
      assert Distance(bufferSize, f.head, f.tail) + n < bufferSize;
      lastTail := WrapOffset(bufferSize, f.tail + n);
      frames[active] := f.(tail := lastTail);
    }

    /** Tags the frame of epoch `e`; without one, nothing happens. */
    method TagEpoch(e: nat, v0: nat, v1: nat)
      requires frames.Length == FRAME_COUNT
      modifies frames
      ensures var i := FrameOf(old(frames[..]), e);
              frames[..] == if i < FRAME_COUNT then old(frames[..])[i := old(frames[i]).(tag0 := v0, tag1 := v1)]
                            else old(frames[..])
    {
      var i := FindFrame(e);
      if i == FRAME_COUNT {
        return;
      }
      frames[i] := frames[i].(tag0 := v0);
      frames[i] := frames[i].(tag1 := v1);
    }

    /** The search the flusher and the tagging writer share. */
    method FindFrame(e: nat) returns (i: nat)
      requires frames.Length == FRAME_COUNT
      ensures i == FrameOf(frames[..], e)
    {
      i := 0;
      while i < FRAME_COUNT
        invariant 0 <= i <= FRAME_COUNT
        invariant forall k | 0 <= k < i :: frames[k].epoch != e
      {
        if frames[i].epoch == e {
          break;
        }
        i := i + 1;
      }
    }

    /** Whether at most half of the buffer is in use, as far as the frames tell. */
    method HasEnoughSpace(durable: nat) returns (ok: bool)
      requires frames.Length == FRAME_COUNT
      requires forall k | 0 <= k < FRAME_COUNT :: frames[k].head < bufferSize && frames[k].tail < bufferSize
      ensures ok <==> 2 * Consumed(bufferSize, frames[..], durable, FRAME_COUNT) <= bufferSize
    {
      var consumed := 0;
      for i := 0 to FRAME_COUNT
        invariant consumed == Consumed(bufferSize, frames[..], durable, i)
      {
        var f := frames[i];
        if f.epoch == 0 || durable >= f.epoch || f.epoch >= durable + FRAME_COUNT {
          continue;
        }
        consumed := consumed + Distance(bufferSize, f.head, f.tail);
      }
      return consumed * 2 <= bufferSize;
    }
  }

  lemma AssertionsHold(c: Config, w: nat, y: Writer, d: nat)
    requires WriterOk(c, w, y, d) && y.pc.Publish?
    ensures var f := y.frames[y.active];
            f.epoch == y.pc.e && f.tail == y.lastTail && Distance(c.bufferSize, f.head, f.tail) + |y.staged| < c.bufferSize
  {
    var u, e, f := y.Unflushed(), y.pc.e, y.frames[y.active];
    ActiveTail(c.bufferSize, y.buffer, y.flushedOff, y.lastTail, y.staged, y.frames, y.active, e, y.submitted,
               y.flushed, d);
    assert Age(y.frames, y.active, 4) == f.epoch;
    assert FrameOk(c.bufferSize, y.flushedOff, u, f);
    UpToMonotone(u, e - 1, e);
    DistanceInvertsWrap(c.bufferSize, y.flushedOff, UpTo(u, e - 1), UpTo(u, e));
  }

  // ================================================================ the space check is exact

  /** Frames of epochs that are not durable are told apart by their epochs. */
  ghost predicate Distinct(frames: seq<Frame>, d: nat) {
    forall i, j | 0 <= i < j < |frames| && frames[i].epoch > d :: frames[i].epoch != frames[j].epoch
  }

  /** Unflushed entries in the first `i` frames, as far as these are counted. */
  function CountedEntries(u: seq<Entry>, frames: seq<Frame>, d: nat, i: nat): nat
    requires i <= |frames|
  {
    if i == 0 then 0
    else CountedEntries(u, frames, d, i - 1) + if Counted(d, frames[i - 1]) then Occurrences(u, frames[i - 1].epoch) else 0
  }

  lemma {:induction false} ConsumedCounts(size: nat, frames: seq<Frame>, off: nat, u: seq<Entry>, d: nat, i: nat)
    requires FramesOk(size, frames, off, u, d) && i <= |frames|
    requires forall k | 0 <= k < |frames| :: frames[k].head < size && frames[k].tail < size
    ensures Consumed(size, frames, d, i) == CountedEntries(u, frames, d, i)
    decreases i
  {
    if i == 0 {
    } else {
      ConsumedCounts(size, frames, off, u, d, i - 1);
      var f := frames[i - 1];
      if Counted(d, f) {
        assert FrameOk(size, off, u, f);
        UpToMonotone(u, f.epoch - 1, f.epoch);
        DistanceInvertsWrap(size, off, UpTo(u, f.epoch - 1), UpTo(u, f.epoch));
      }
    }
  }

  lemma {:induction false} EntriesCounted(u: seq<Entry>, frames: seq<Frame>, d: nat)
    requires Distinct(frames, d)
    requires forall k | 0 <= k < |u| :: u[k].epoch > d && HasFrame(frames, u[k].epoch)
    ensures CountedEntries(u, frames, d, |frames|) == UpTo(u, d + FRAME_COUNT - 1)
    decreases |u|
  {
    if |u| == 0 {
      NoEntriesCounted(frames, d, |frames|);
    } else {
      var front, last := u[..|u| - 1], u[|u| - 1];
      EntriesCounted(front, frames, d);
      assert HasFrame(frames, last.epoch);
      var m :| 0 <= m < |frames| && frames[m].epoch == last.epoch;
      LastCounted(u, frames, d, |frames|, m);
    }
  }

  lemma {:induction false} NoEntriesCounted(frames: seq<Frame>, d: nat, i: nat)
    requires i <= |frames|
    ensures CountedEntries([], frames, d, i) == 0
    decreases i
  {
    if i == 0 {
    } else {
      NoEntriesCounted(frames, d, i - 1);
    }
  }

  /** The last entry counts once, in its frame, if that frame is counted at all. */
  lemma {:induction false} LastCounted(u: seq<Entry>, frames: seq<Frame>, d: nat, i: nat, m: nat)
    requires |u| > 0 && i <= |frames| && m < |frames| && frames[m].epoch == u[|u| - 1].epoch > d && Distinct(frames, d)
    ensures CountedEntries(u, frames, d, i)
         == CountedEntries(u[..|u| - 1], frames, d, i) + if m < i && Counted(d, frames[m]) then 1 else 0
    decreases i
  {
    if i == 0 {
    } else {
      LastCounted(u, frames, d, i - 1, m);
      assert i - 1 != m && frames[i - 1].epoch > d ==> frames[i - 1].epoch != frames[m].epoch;
    }
  }

  /** The check adds up exactly the unflushed bytes of the epochs before the horizon DE + 5; so it
      sees all of them exactly if none of them belongs to the horizon or a later epoch. */
  lemma SpaceCheckExactly(size: nat, frames: seq<Frame>, off: nat, u: seq<Entry>, d: nat)
    requires FramesOk(size, frames, off, u, d) && Distinct(frames, d)
    requires forall k | 0 <= k < |u| :: u[k].epoch > d
    requires forall k | 0 <= k < |frames| :: frames[k].head < size && frames[k].tail < size
    ensures Consumed(size, frames, d, |frames|) == UpTo(u, d + FRAME_COUNT - 1)
    ensures Consumed(size, frames, d, |frames|) == |u| <==> forall k | 0 <= k < |u| :: u[k].epoch < d + FRAME_COUNT
  {
    ConsumedCounts(size, frames, off, u, d, |frames|);
    EntriesCounted(u, frames, d);
    AllUpTo(u, d + FRAME_COUNT - 1);
  }

  lemma {:induction false} AllUpTo(u: seq<Entry>, e: nat)
    ensures UpTo(u, e) == |u| <==> forall k | 0 <= k < |u| :: u[k].epoch <= e
    decreases |u|
  {
    if |u| == 0 {
    } else {
      AllUpTo(u[..|u| - 1], e);
      assert forall k | 0 <= k < |u| - 1 :: u[k] == u[..|u| - 1][k];
    }
  }

  /** Under the epoch contract of the header that is always so, and the check is exact. */
  lemma SpaceCheckOfWriter(c: Config, w: nat, x: Writer, d: nat)
    requires WriterOk(c, w, x, d)
    ensures Consumed(c.bufferSize, x.frames, d, FRAME_COUNT) == |x.Unflushed()|
  {
    hide BufferOk, PcOk;
    var u := x.Unflushed();
    forall k | 0 <= k < |u| ensures d < u[k].epoch < d + FRAME_COUNT {
      assert u[k] == x.submitted[x.flushed + k] && HasFrame(x.frames, u[k].epoch);
    }
    forall i, j | 0 <= i < j < |x.frames| && x.frames[i].epoch > d ensures x.frames[i].epoch != x.frames[j].epoch {
      LiveFramesDistinct(x.frames, x.active, x.pc, x.submitted, d, i, j);
    }
    SpaceCheckExactly(c.bufferSize, x.frames, x.flushedOff, u, d);
  }

  /** The assertion in the write call admits epochs up to SE + 4. With SE = DE + 1 that is the
      horizon: here six of eight bytes are in use in epoch 5 at DE = 0, and the check counts none. */
  lemma HorizonIsNotCounted()
    ensures var unused := Frame(0, 0, 0, 0, 0);
            var frames := [Frame(0, 6, 5, 0, 0), unused, unused, unused, unused];
            Consumed(8, frames, 0, 5) == 0 && Distance(8, 0, 6) == 6
  {
    var unused := Frame(0, 0, 0, 0, 0);
    var frames := [Frame(0, 6, 5, 0, 0), unused, unused, unused, unused];
    assert Consumed(8, frames, 0, 1) == 0;
    assert Consumed(8, frames, 0, 3) == 0;
  }
}
