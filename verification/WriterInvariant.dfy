/** What holds of one writer between any two steps of the pipeline, and that each step that
    touches the writer keeps it. `d` is the durable epoch, `u` the unflushed entries. */
module WriterInvariant {
  import opened Base
  import opened Circular
  import opened LogStream
  import opened Pipeline

  // ================================================================ the invariant

  /** The live region of the buffer is exactly the unflushed and the staged bytes. */
  ghost predicate BufferOk(size: nat, buffer: seq<byte>, off: nat, lastTail: nat, u: seq<Entry>, staged: seq<byte>) {
    && |buffer| == size
    && off < size
    && |u| + |staged| < size
    && lastTail == WrapOffset(size, off + |u|)
    && CircularRead(buffer, off, |u| + |staged|) == Data(u) + staged
  }

  /** Entries carry their writer, come in epoch order, and are unflushed only after `d`. */
  ghost predicate EntriesOk(w: nat, submitted: seq<Entry>, flushed: nat, d: nat) {
    && flushed <= |submitted|
    && (forall i | 0 <= i < |submitted| :: submitted[i].writer == w && submitted[i].epoch >= 1)
    && SortedByEpoch(submitted)
    && (forall i | flushed <= i < |submitted| :: submitted[i].epoch > d)
  }

  /** A frame's offsets delimit the unflushed entries of its epoch. */
  ghost predicate FrameOk(size: nat, off: nat, u: seq<Entry>, f: Frame)
    requires off < size && |u| < size && f.epoch > 0
  {
    && f.head == WrapOffset(size, off + UpTo(u, f.epoch - 1))
    && f.tail == WrapOffset(size, off + UpTo(u, f.epoch))
  }

  /** That holds of every frame whose epoch is not durable, and every unflushed entry has one. */
  ghost predicate FramesOk(size: nat, frames: seq<Frame>, off: nat, u: seq<Entry>, d: nat) {
    && off < size && |u| < size
    && (forall i | 0 <= i < |frames| && frames[i].epoch > d :: FrameOk(size, off, u, frames[i]))
    && (forall k | 0 <= k < |u| :: HasFrame(frames, u[k].epoch))
  }

  ghost predicate HasFrame(frames: seq<Frame>, e: nat) {
    exists i :: 0 <= i < |frames| && frames[i].epoch == e
  }

  /** Epoch of the k-th oldest frame; number 4 is the active one. */
  function Age(frames: seq<Frame>, active: nat, k: nat): nat
    requires |frames| == FRAME_COUNT && active < FRAME_COUNT && k < FRAME_COUNT
  {
    frames[WrapFrame(active + 1 + k)].epoch
  }

  /** Among the `n` oldest frames, older ones hold smaller epochs and unused ones (epoch 0) come first. */
  ghost predicate InOrder(frames: seq<Frame>, active: nat, n: nat)
    requires |frames| == FRAME_COUNT && active < FRAME_COUNT && n <= FRAME_COUNT
  {
    forall a, b | 0 <= a < b < n :: Age(frames, active, a) < Age(frames, active, b) || Age(frames, active, a) == 0
  }

  ghost predicate OrderOk(frames: seq<Frame>, active: nat, pc: WriterPc, submitted: seq<Entry>, d: nat) {
    && |frames| == FRAME_COUNT && active < FRAME_COUNT
    && InOrder(frames, active, 4)
    && (forall i | 0 <= i < |frames| :: frames[i].epoch < d + FRAME_COUNT)
    && match pc
       case StoreHead(e) => ReuseOk(frames, active, e, submitted, d)
       case StoreTail(e) => ReuseOk(frames, active, e, submitted, d)
       case StoreEpoch(e) => ReuseOk(frames, active, e, submitted, d)
       case Publish(e) => d < e < d + FRAME_COUNT && Age(frames, active, 4) == e && ActiveOk(frames, active, submitted)
       case _ => ActiveOk(frames, active, submitted)
  }

  /** The active frame is the newest. */
  ghost predicate ActiveOk(frames: seq<Frame>, active: nat, submitted: seq<Entry>)
    requires |frames| == FRAME_COUNT && active < FRAME_COUNT
  {
    && InOrder(frames, active, 5)
    && (forall k | 0 <= k < |submitted| :: submitted[k].epoch <= Age(frames, active, 4))
  }

  /** A frame is being set up for epoch `e`: its old epoch is durable, all others are before `e`. */
  ghost predicate ReuseOk(frames: seq<Frame>, active: nat, e: nat, submitted: seq<Entry>, d: nat)
    requires |frames| == FRAME_COUNT && active < FRAME_COUNT
  {
    && d < e < d + FRAME_COUNT
    && Age(frames, active, 4) <= d
    && Age(frames, active, 0) < e && Age(frames, active, 1) < e && Age(frames, active, 2) < e && Age(frames, active, 3) < e
    && (forall k | 0 <= k < |submitted| :: submitted[k].epoch < e)
  }

  /** Unflushed entries of the first `i` frames. */
  function Remaining(u: seq<Entry>, frames: seq<Frame>, i: nat): nat
    requires i <= |frames|
  {
    if i == 0 then 0 else Remaining(u, frames, i - 1) + Occurrences(u, frames[i - 1].epoch)
  }

  function Occurrences(u: seq<Entry>, e: nat): nat {
    UpToMonotone(u, if e == 0 then 0 else e - 1, e);
    if e == 0 then 0 else UpTo(u, e) - UpTo(u, e - 1)
  }

  ghost predicate PcOk(frames: seq<Frame>, active: nat, lastTail: nat, pc: WriterPc, u: seq<Entry>, d: nat) {
    && |frames| == FRAME_COUNT && active < FRAME_COUNT
    && match pc
       case StoreTail(e) => frames[active].head == lastTail
       case StoreEpoch(e) => frames[active].head == lastTail && frames[active].tail == lastTail
       case CheckSpace(de, i, sum) =>
         && de <= d && i < FRAME_COUNT
         && (forall j | 0 <= j < |frames| :: frames[j].epoch < de + FRAME_COUNT)
         && sum >= Remaining(u, frames, i)
       case _ => true
  }

  /** A positive check leaves room for half a buffer. */
  predicate SpaceOk(size: nat, x: Writer, unflushed: nat) {
    x.checked ==> 2 * x.checkSum <= size && unflushed + |x.staged| <= x.checkSum + x.sinceCheck
  }

  ghost predicate WriterOk(c: Config, w: nat, x: Writer, d: nat) {
    && c.Valid()
    && WriterShape(c, x)
    && BufferOk(c.bufferSize, x.buffer, x.flushedOff, x.lastTail, x.Unflushed(), x.staged)
    && EntriesOk(w, x.submitted, x.flushed, d)
    && FramesOk(c.bufferSize, x.frames, x.flushedOff, x.Unflushed(), d)
    && OrderOk(x.frames, x.active, x.pc, x.submitted, d)
    && PcOk(x.frames, x.active, x.lastTail, x.pc, x.Unflushed(), d)
    && SpaceOk(c.bufferSize, x, |x.Unflushed()|)
  }

  // ================================================================ consequences

  lemma LiveFramesDistinct(frames: seq<Frame>, active: nat, pc: WriterPc, submitted: seq<Entry>, d: nat, i: nat, j: nat)
    requires OrderOk(frames, active, pc, submitted, d)
    requires i < FRAME_COUNT && j < FRAME_COUNT && i != j
    requires frames[i].epoch > d
    ensures frames[i].epoch != frames[j].epoch
  {
    var a, b := WrapFrame(i + 4 - active), WrapFrame(j + 4 - active);
    assert Age(frames, active, a) == frames[i].epoch && Age(frames, active, b) == frames[j].epoch;
  }

  /** Five frames are enough: the frame a writer is about to reuse holds a durable epoch. */
  lemma ReusedFrameIsDurable(frames: seq<Frame>, active: nat, d: nat, e: nat)
    requires |frames| == FRAME_COUNT && active < FRAME_COUNT
    requires InOrder(frames, active, 5)
    requires Age(frames, active, 4) < e < d + FRAME_COUNT
    ensures Age(frames, active, 0) <= d
  {
    assert Age(frames, active, 0) == 0 || Age(frames, active, 0) < Age(frames, active, 1);
    assert Age(frames, active, 1) < Age(frames, active, 2) || Age(frames, active, 1) == 0;
    assert Age(frames, active, 2) < Age(frames, active, 3) || Age(frames, active, 2) == 0;
    assert Age(frames, active, 3) < Age(frames, active, 4) || Age(frames, active, 3) == 0;
  }

  /** The unflushed entries start with those of the epoch after `d`. */
  lemma FrontOfUnflushed(w: nat, x: Writer, d: nat)
    requires x.flushed <= |x.submitted| && EntriesOk(w, x.submitted, x.flushed, d)
    ensures UpTo(x.Unflushed(), d) == 0
    ensures forall k | 0 <= k < UpTo(x.Unflushed(), d + 1) :: x.Unflushed()[k].epoch == d + 1
  {
    var u := x.Unflushed();
    UpToNone(u, d);
    UpToIsBoundary(u, d + 1);
  }

  // ================================================================ steps of the writer

  lemma StageKeeps(c: Config, w: nat, x: Writer, d: nat, data: seq<byte>, y: Writer)
    requires WriterOk(c, w, x, d)
    requires x.pc.Idle? && x.checked && 2 * (x.sinceCheck + |data|) < c.bufferSize
    requires y == x.(buffer := CircularWrite(x.buffer, WrapOffset(c.bufferSize, x.lastTail + |x.staged|), data),
                     staged := x.staged + data, sinceCheck := x.sinceCheck + |data|)
    ensures WriterOk(c, w, y, d)
  {
    hide BufferOk, EntriesOk, FramesOk, OrderOk, PcOk;
    BufferAfterStage(c.bufferSize, x.buffer, x.flushedOff, x.lastTail, x.Unflushed(), x.staged, data);
  }

  lemma BufferAfterStage(size: nat, buffer: seq<byte>, off: nat, lastTail: nat, u: seq<Entry>, staged: seq<byte>,
                         data: seq<byte>)
    requires BufferOk(size, buffer, off, lastTail, u, staged)
    requires |u| + |staged| + |data| < size && lastTail < size && |staged| < size
    ensures BufferOk(size, CircularWrite(buffer, WrapOffset(size, lastTail + |staged|), data), off, lastTail, u, staged + data)
  {
    var len := |u| + |staged|;
    assert WrapOffset(size, lastTail + |staged|) == WrapOffset(size, off + len);
    WriteAppends(buffer, off, len, data);
    assert Data(u) + staged + data == Data(u) + (staged + data);
  }

  lemma BeginWriteKeeps(c: Config, w: nat, x: Writer, d: nat, e: nat, y: Writer)
    requires WriterOk(c, w, x, d)
    requires x.pc.Idle? && d < e < d + FRAME_COUNT && x.frames[x.active].epoch <= e
    requires y == Began(x, e)
    ensures WriterOk(c, w, y, d)
  {
    hide BufferOk, EntriesOk, FramesOk, OrderOk;
    OrderAfterBegin(x.frames, x.active, x.submitted, d, e);
  }

  lemma OrderAfterBegin(frames: seq<Frame>, active: nat, submitted: seq<Entry>, d: nat, e: nat)
    requires |frames| == FRAME_COUNT && active < FRAME_COUNT
    requires OrderOk(frames, active, Idle, submitted, d)
    requires d < e < d + FRAME_COUNT && frames[active].epoch <= e
    ensures var next := if frames[active].epoch == 0 then active else WrapFrame(active + 1);
            if frames[active].epoch == e then OrderOk(frames, active, Publish(e), submitted, d)
            else OrderOk(frames, next, StoreHead(e), submitted, d)
  {
    assert Age(frames, active, 4) == frames[active].epoch;
    if frames[active].epoch != e {
      ReusedFrameIsDurable(frames, active, d, e);
      if frames[active].epoch != 0 {
        var next := WrapFrame(active + 1);
        assert forall k | 0 <= k < 4 :: Age(frames, next, k) == Age(frames, active, k + 1);
        assert Age(frames, next, 4) == Age(frames, active, 0);
      }
    }
  }

  // ---------------------------------------------------------------- replacing one frame

  /** Two program points between which the order of the frames has the same meaning. */
  predicate SamePhase(p: WriterPc, q: WriterPc) {
    || p == q
    || ((p.StoreHead? || p.StoreTail? || p.StoreEpoch?) && (q.StoreHead? || q.StoreTail? || q.StoreEpoch?) && p.e == q.e)
    || ((p.Idle? || p.StoreTag1? || p.CheckSpace?) && (q.Idle? || q.StoreTag1? || q.CheckSpace?))
    || (p.Publish? && q.Idle?)
  }

  lemma OrderKept(frames: seq<Frame>, active: nat, p: WriterPc, q: WriterPc, submitted: seq<Entry>, d: nat, i: nat,
                  g: Frame)
    requires OrderOk(frames, active, p, submitted, d) && SamePhase(p, q)
    requires i < |frames| && g.epoch == frames[i].epoch
    ensures OrderOk(frames[i := g], active, q, submitted, d)
  {
    var after := frames[i := g];
    assert forall k | 0 <= k < FRAME_COUNT :: Age(after, active, k) == Age(frames, active, k);
  }

  lemma ReplaceFrame(size: nat, frames: seq<Frame>, off: nat, u: seq<Entry>, d: nat, i: nat, g: Frame,
                     w: nat, submitted: seq<Entry>, flushed: nat)
    requires FramesOk(size, frames, off, u, d) && i < |frames|
    requires frames[i].epoch <= d || g.epoch == frames[i].epoch
    requires EntriesOk(w, submitted, flushed, d) && flushed <= |submitted| && u == submitted[flushed..]
    requires g.epoch > d ==> off < size && |u| < size && FrameOk(size, off, u, g)
    ensures FramesOk(size, frames[i := g], off, u, d)
  {
    var after := frames[i := g];
    forall k | 0 <= k < |u| ensures HasFrame(after, u[k].epoch) {
      var m :| 0 <= m < |frames| && frames[m].epoch == u[k].epoch;
      assert after[m].epoch == u[k].epoch;
    }
  }

  // ---------------------------------------------------------------- publishing

  lemma ReusedIsDurable(frames: seq<Frame>, active: nat, pc: WriterPc, submitted: seq<Entry>, d: nat)
    requires OrderOk(frames, active, pc, submitted, d)
    requires pc.StoreHead? || pc.StoreTail? || pc.StoreEpoch?
    ensures frames[active].epoch <= d < pc.e
  {
    assert Age(frames, active, 4) == frames[active].epoch;
  }

  lemma StoreOffsetKeeps(c: Config, w: nat, x: Writer, d: nat, y: Writer)
    requires WriterOk(c, w, x, d) && (x.pc.StoreHead? || x.pc.StoreTail?)
    requires y == StoredNext(c, w, x)
    ensures WriterOk(c, w, y, d)
  {
    hide BufferOk, EntriesOk, FramesOk, OrderOk;
    var g := y.frames[x.active];
    ReusedIsDurable(x.frames, x.active, x.pc, x.submitted, d);
    OrderKept(x.frames, x.active, x.pc, y.pc, x.submitted, d, x.active, g);
    ReplaceFrame(c.bufferSize, x.frames, x.flushedOff, x.Unflushed(), d, x.active, g, w, x.submitted, x.flushed);
  }

  /** The third store makes the frame visible, and it is already complete. */
  lemma StoreEpochKeeps(c: Config, w: nat, x: Writer, d: nat, y: Writer)
    requires WriterOk(c, w, x, d) && x.pc.StoreEpoch?
    requires y == StoredNext(c, w, x)
    ensures WriterOk(c, w, y, d)
  {
    hide BufferOk, EntriesOk, FramesOk, OrderOk;
    var e := x.pc.e;
    ReusedIsDurable(x.frames, x.active, x.pc, x.submitted, d);
    NewFrameOk(c.bufferSize, x.buffer, x.flushedOff, x.lastTail, x.Unflushed(), x.staged, y.frames[x.active],
               x.frames, x.active, x.submitted, x.flushed, d);
    OrderAfterEpoch(x.frames, x.active, e, x.submitted, d);
    ReplaceFrame(c.bufferSize, x.frames, x.flushedOff, x.Unflushed(), d, x.active, y.frames[x.active], w, x.submitted,
                 x.flushed);
  }

  lemma NewFrameOk(size: nat, buffer: seq<byte>, off: nat, lastTail: nat, u: seq<Entry>, staged: seq<byte>, g: Frame,
                   frames: seq<Frame>, active: nat, submitted: seq<Entry>, flushed: nat, d: nat)
    requires BufferOk(size, buffer, off, lastTail, u, staged)
    requires OrderOk(frames, active, StoreEpoch(g.epoch), submitted, d)
    requires flushed <= |submitted| && u == submitted[flushed..]
    requires g.head == g.tail == lastTail
    ensures off < size && |u| < size && g.epoch > 0 && FrameOk(size, off, u, g)
  {
    UpToAll(u, g.epoch);
    UpToAll(u, g.epoch - 1);
  }

  lemma OrderAfterEpoch(frames: seq<Frame>, active: nat, e: nat, submitted: seq<Entry>, d: nat)
    requires |frames| == FRAME_COUNT && active < FRAME_COUNT
    requires OrderOk(frames, active, StoreEpoch(e), submitted, d)
    ensures OrderOk(frames[active := frames[active].(epoch := e)], active, Publish(e), submitted, d)
  {
    var after := frames[active := frames[active].(epoch := e)];
    assert forall k | 0 <= k < 4 :: Age(after, active, k) == Age(frames, active, k);
    assert Age(after, active, 4) == e;
  }

  lemma PublishKeeps(c: Config, w: nat, x: Writer, d: nat, e: nat, y: Writer)
    requires WriterOk(c, w, x, d) && x.pc == Publish(e)
    requires y == StoredNext(c, w, x)
    ensures WriterOk(c, w, y, d)
  {
    hide BufferOk, EntriesOk, FramesOk, OrderOk, CircularRead;
    var u, more := x.Unflushed(), Tagged(x.staged, e, w);
    assert y.Unflushed() == u + more;
    ActiveTail(c.bufferSize, x.buffer, x.flushedOff, x.lastTail, x.staged, x.frames, x.active, e, x.submitted,
               x.flushed, d);
    BufferAfterPublish(c.bufferSize, x.buffer, x.flushedOff, x.lastTail, u, x.staged, e, w);
    EntriesAfterPublish(x.frames, x.active, e, w, x.submitted, x.flushed, d, more);
    FramesAfterPublish(c.bufferSize, x.frames, x.flushedOff, u, d, x.active, more, e, x.submitted, x.flushed,
                       y.frames[x.active]);
    OrderKept(x.frames, x.active, x.pc, Idle, y.submitted, d, x.active, y.frames[x.active]);
  }

  lemma ActiveTail(size: nat, buffer: seq<byte>, off: nat, lastTail: nat, staged: seq<byte>, frames: seq<Frame>,
                   active: nat, e: nat, submitted: seq<Entry>, flushed: nat, d: nat)
    requires flushed <= |submitted|
    requires BufferOk(size, buffer, off, lastTail, submitted[flushed..], staged)
    requires FramesOk(size, frames, off, submitted[flushed..], d)
    requires OrderOk(frames, active, Publish(e), submitted, d)
    ensures frames[active].tail == lastTail
    ensures frames[active].tail == WrapOffset(size, off + |submitted[flushed..]|)
    ensures |submitted[flushed..]| + |staged| < size
  {
    assert Age(frames, active, 4) == frames[active].epoch;
    UpToAll(submitted[flushed..], e);
    assert FrameOk(size, off, submitted[flushed..], frames[active]);
  }

  lemma BufferAfterPublish(size: nat, buffer: seq<byte>, off: nat, lastTail: nat, u: seq<Entry>, staged: seq<byte>,
                           e: nat, w: nat)
    requires BufferOk(size, buffer, off, lastTail, u, staged)
    requires lastTail < size && |staged| < size
    ensures BufferOk(size, buffer, off, WrapOffset(size, lastTail + |staged|), u + Tagged(staged, e, w), [])
  {
    hide CircularRead;
    TaggedData(u, staged, e, w);
  }

  lemma TaggedData(u: seq<Entry>, staged: seq<byte>, e: nat, w: nat)
    ensures Data(u + Tagged(staged, e, w)) + [] == Data(u) + staged
  {
  }

  lemma EntriesAfterPublish(frames: seq<Frame>, active: nat, e: nat, w: nat, submitted: seq<Entry>, flushed: nat,
                            d: nat,
                            more: seq<Entry>)
    requires OrderOk(frames, active, Publish(e), submitted, d)
    requires EntriesOk(w, submitted, flushed, d)
    requires forall i | 0 <= i < |more| :: more[i].epoch == e && more[i].writer == w
    ensures EntriesOk(w, submitted + more, flushed, d)
    ensures OrderOk(frames, active, Publish(e), submitted + more, d)
  {
  }

  lemma FramesAfterPublish(size: nat, frames: seq<Frame>, off: nat, u: seq<Entry>, d: nat, active: nat,
                           more: seq<Entry>, e: nat, submitted: seq<Entry>, flushed: nat, g: Frame)
    requires FramesOk(size, frames, off, u, d) && off < size && |u| + |more| < size
    requires OrderOk(frames, active, Publish(e), submitted, d)
    requires flushed <= |submitted| && u == submitted[flushed..]
    requires forall i | 0 <= i < |more| :: more[i].epoch == e
    requires active < |frames| && g == frames[active].(tail := WrapOffset(size, off + |u| + |more|))
    ensures FramesOk(size, frames[active := g], off, u + more, d)
  {
    assert Age(frames, active, 4) == frames[active].epoch == e;
    var after := frames[active := g];
    forall i | 0 <= i < |after| && after[i].epoch > d ensures FrameOk(size, off, u + more, after[i]) {
      if i != active {
        assert Age(frames, active, WrapFrame(i + 4 - active)) == frames[i].epoch;
      }
      FrameAfterPublish(size, off, u, more, e, frames[i], after[i]);
    }
    forall k | 0 <= k < |u + more| ensures HasFrame(after, (u + more)[k].epoch) {
      if k < |u| {
        var m :| 0 <= m < |frames| && frames[m].epoch == u[k].epoch;
        assert after[m].epoch == u[k].epoch;
      } else {
        assert after[active].epoch == e;
      }
    }
  }

  lemma FrameAfterPublish(size: nat, off: nat, u: seq<Entry>, more: seq<Entry>, e: nat, f: Frame, g: Frame)
    requires off < size && |u| + |more| < size && f.epoch > 0 && FrameOk(size, off, u, f)
    requires forall i | 0 <= i < |u| :: u[i].epoch <= e
    requires forall i | 0 <= i < |more| :: more[i].epoch == e
    requires if f.epoch == e then g == f.(tail := WrapOffset(size, off + |u| + |more|)) else f.epoch < e && g == f
    ensures FrameOk(size, off, u + more, g)
  {
    UpToConcat(u, more, f.epoch);
    UpToConcat(u, more, f.epoch - 1);
    UpToNone(more, f.epoch - 1);
    if f.epoch == e {
      UpToAll(u, e);
      UpToAll(more, e);
    } else {
      UpToNone(more, f.epoch);
    }
  }

  // ---------------------------------------------------------------- tags and space check

  lemma TagKeeps(c: Config, w: nat, x: Writer, d: nat, i: nat, g: Frame, pc: WriterPc)
    requires WriterOk(c, w, x, d)
    requires (x.pc.Idle? && pc.StoreTag1? && pc.i < FRAME_COUNT) || (x.pc.StoreTag1? && pc.Idle?)
    requires i < FRAME_COUNT && g == x.frames[i].(tag0 := g.tag0, tag1 := g.tag1)
    ensures WriterOk(c, w, WithFrame(x, i, g).(pc := pc), d)
  {
    hide BufferOk, EntriesOk, FramesOk, OrderOk;
    OrderKept(x.frames, x.active, x.pc, pc, x.submitted, d, i, g);
    LiveFrameOk(c.bufferSize, x.frames, x.flushedOff, x.Unflushed(), d, i, g);
    ReplaceFrame(c.bufferSize, x.frames, x.flushedOff, x.Unflushed(), d, i, g, w, x.submitted, x.flushed);
  }

  lemma LiveFrameOk(size: nat, frames: seq<Frame>, off: nat, u: seq<Entry>, d: nat, i: nat, g: Frame)
    requires FramesOk(size, frames, off, u, d) && i < |frames|
    requires g.head == frames[i].head && g.tail == frames[i].tail && g.epoch == frames[i].epoch
    ensures off < size && |u| < size
    ensures g.epoch > d ==> FrameOk(size, off, u, g)
  {
    assert frames[i].epoch > d ==> FrameOk(size, off, u, frames[i]);
  }

  lemma BeginCheckKeeps(c: Config, w: nat, x: Writer, d: nat)
    requires WriterOk(c, w, x, d) && x.pc.Idle?
    ensures WriterOk(c, w, x.(pc := CheckSpace(d, 0, 0), checked := false), d)
  {
    hide BufferOk, EntriesOk, FramesOk;
  }

  lemma CheckFrameKeeps(c: Config, w: nat, x: Writer, d: nat)
    requires WriterOk(c, w, x, d) && x.pc.CheckSpace?
    ensures WriterOk(c, w, CheckedFrame(c, x), d)
  {
    hide BufferOk, EntriesOk, FramesOk, OrderOk;
    var CheckSpace(de, i, sum) := x.pc;
    var u := x.Unflushed();
    CountedEnough(c.bufferSize, x.frames, x.flushedOff, w, x.submitted, x.flushed, d, de, i);
    OrderKept(x.frames, x.active, x.pc, CheckedFrame(c, x).pc, x.submitted, d, i, x.frames[i]);
    assert x.frames[i := x.frames[i]] == x.frames;
    if i + 1 == FRAME_COUNT {
      AllCounted(c.bufferSize, x.frames, x.flushedOff, w, x.submitted, x.flushed, d);
    }
  }

  /** What the check adds for a frame is at least what is unflushed in it. */
  lemma CountedEnough(size: nat, frames: seq<Frame>, off: nat, w: nat, submitted: seq<Entry>, flushed: nat, d: nat,
                      de: nat, i: nat)
    requires flushed <= |submitted| && EntriesOk(w, submitted, flushed, d)
    requires FramesOk(size, frames, off, submitted[flushed..], d) && i < |frames|
    requires frames[i].head < size && frames[i].tail < size
    requires de <= d && frames[i].epoch < de + FRAME_COUNT
    ensures (if Counted(de, frames[i]) then Distance(size, frames[i].head, frames[i].tail) else 0)
         >= Occurrences(submitted[flushed..], frames[i].epoch)
  {
    var u, f := submitted[flushed..], frames[i];
    if f.epoch > d {
      assert FrameOk(size, off, u, f);
      UpToMonotone(u, f.epoch - 1, f.epoch);
      DistanceInvertsWrap(size, off, UpTo(u, f.epoch - 1), UpTo(u, f.epoch));
    } else {
      UpToNone(u, f.epoch);
    }
  }

  lemma AllCounted(size: nat, frames: seq<Frame>, off: nat, w: nat, submitted: seq<Entry>, flushed: nat, d: nat)
    requires flushed <= |submitted| && EntriesOk(w, submitted, flushed, d)
    requires FramesOk(size, frames, off, submitted[flushed..], d)
    ensures |submitted[flushed..]| <= Remaining(submitted[flushed..], frames, |frames|)
  {
    CoverageCounts(submitted[flushed..], frames);
  }

  lemma {:induction false} CoverageCounts(u: seq<Entry>, frames: seq<Frame>)
    requires forall k | 0 <= k < |u| :: u[k].epoch > 0 && HasFrame(frames, u[k].epoch)
    ensures |u| <= Remaining(u, frames, |frames|)
    decreases |u|
  {
    if |u| == 0 {
    } else {
      var front, last := u[..|u| - 1], u[|u| - 1];
      CoverageCounts(front, frames);
      assert HasFrame(frames, last.epoch);
      var m :| 0 <= m < |frames| && frames[m].epoch == last.epoch;
      RemainingGrows(u, frames, |frames|, m);
    }
  }

  lemma {:induction false} RemainingGrows(u: seq<Entry>, frames: seq<Frame>, i: nat, m: nat)
    requires |u| > 0 && u[|u| - 1].epoch > 0 && i <= |frames| && m < |frames| && frames[m].epoch == u[|u| - 1].epoch
    ensures Remaining(u, frames, i) >= Remaining(u[..|u| - 1], frames, i) + if m < i then 1 else 0
    decreases i
  {
    if i == 0 {
    } else {
      RemainingGrows(u, frames, i - 1, m);
    }
  }

  // ================================================================ steps of others

  /** The flusher moves `n` entries of epoch `d + 1` out of frame `i`. */
  lemma AdvanceKeeps(c: Config, w: nat, x: Writer, d: nat, i: nat, n: nat, y: Writer)
    requires WriterOk(c, w, x, d)
    requires i < FRAME_COUNT && x.frames[i].epoch == d + 1
    requires n <= UpTo(x.Unflushed(), d + 1)
    requires y == WithFrame(x, i, x.frames[i].(head := WrapOffset(c.bufferSize, x.flushedOff + n))).(
                    flushed := x.flushed + n, flushedOff := WrapOffset(c.bufferSize, x.flushedOff + n))
    ensures WriterOk(c, w, y, d)
  {
    hide BufferOk, EntriesOk, FramesOk, OrderOk, CircularRead, UpTo, Remaining;
    var u := x.Unflushed();
    FrontOfUnflushed(w, x, d);
    assert y.Unflushed() == u[n..];
    BufferAfterAdvance(c.bufferSize, x.buffer, x.flushedOff, x.lastTail, u, x.staged, n);
    EntriesAfterAdvance(w, x.submitted, x.flushed, d, n);
    FramesAfterAdvance(c.bufferSize, x.frames, x.flushedOff, u, d, i, n, x.active, x.pc, x.submitted);
    OrderKept(x.frames, x.active, x.pc, x.pc, x.submitted, d, i, y.frames[i]);
    if x.Publishing() {
      ReusedIsDurable(x.frames, x.active, x.pc, x.submitted, d);
    }
    if x.pc.CheckSpace? {
      RemainingShrinks(u, n, x.frames, y.frames, x.pc.i);
    }
  }

  lemma EntriesAfterAdvance(w: nat, submitted: seq<Entry>, flushed: nat, d: nat, n: nat)
    requires EntriesOk(w, submitted, flushed, d) && flushed + n <= |submitted|
    ensures EntriesOk(w, submitted, flushed + n, d)
  {
  }

  lemma BufferAfterAdvance(size: nat, buffer: seq<byte>, off: nat, lastTail: nat, u: seq<Entry>, staged: seq<byte>,
                           n: nat)
    requires BufferOk(size, buffer, off, lastTail, u, staged) && n <= |u|
    ensures off < size && |u| < size
    ensures BufferOk(size, buffer, WrapOffset(size, off + n), lastTail, u[n..], staged)
    ensures CircularRead(buffer, off, n) == Data(u[..n])
  {
    var rest := |u| - n + |staged|;
    ReadSplits(buffer, off, n, rest);
    SplitData(u, staged, n, CircularRead(buffer, off, n), CircularRead(buffer, WrapOffset(size, off + n), rest));
  }

  lemma SplitData(u: seq<Entry>, staged: seq<byte>, n: nat, front: seq<byte>, rest: seq<byte>)
    requires n <= |u| && |front| == n && front + rest == Data(u) + staged
    ensures front == Data(u[..n]) && rest == Data(u[n..]) + staged
  {
    var all := Data(u) + staged;
    assert front == all[..n] && rest == all[n..];
  }

  lemma FramesAfterAdvance(size: nat, frames: seq<Frame>, off: nat, u: seq<Entry>, d: nat, i: nat, n: nat,
                           active: nat, pc: WriterPc, submitted: seq<Entry>)
    requires FramesOk(size, frames, off, u, d) && off < size && |u| < size
    requires OrderOk(frames, active, pc, submitted, d)
    requires i < |frames| && frames[i].epoch == d + 1
    requires n <= |u| && forall k | 0 <= k < n :: u[k].epoch == d + 1
    requires UpTo(u, d) == 0
    ensures FramesOk(size, frames[i := frames[i].(head := WrapOffset(size, off + n))], WrapOffset(size, off + n), u[n..], d)
  {
    var off' := WrapOffset(size, off + n);
    var after := frames[i := frames[i].(head := off')];
    forall j | 0 <= j < |after| && after[j].epoch > d ensures FrameOk(size, off', u[n..], after[j]) {
      if j != i {
        LiveFramesDistinct(frames, active, pc, submitted, d, i, j);
      }
      FrameAfterAdvance(size, off, u, d, n, frames[j], after[j]);
    }
    forall k | 0 <= k < |u[n..]| ensures HasFrame(after, u[n..][k].epoch) {
      assert HasFrame(frames, u[n + k].epoch);
      var m :| 0 <= m < |frames| && frames[m].epoch == u[n + k].epoch;
      assert after[m].epoch == u[n..][k].epoch;
    }
  }

  lemma FrameAfterAdvance(size: nat, off: nat, u: seq<Entry>, d: nat, n: nat, f: Frame, g: Frame)
    requires off < size && |u| < size && f.epoch > d && FrameOk(size, off, u, f)
    requires n <= |u| && forall k | 0 <= k < n :: u[k].epoch == d + 1
    requires UpTo(u, d) == 0
    requires g == if f.epoch == d + 1 then f.(head := WrapOffset(size, off + n)) else f
    ensures FrameOk(size, WrapOffset(size, off + n), u[n..], g)
  {
    hide UpTo;
    UpToAfterAdvance(u, d, n, f.epoch);
    DistanceInvertsWrap(size, off, n, UpTo(u, f.epoch));
    if f.epoch - 1 > d {
      UpToAfterAdvance(u, d, n, f.epoch - 1);
      DistanceInvertsWrap(size, off, n, UpTo(u, f.epoch - 1));
    } else {
      UpToAfterDrop(u, n, d);
    }
  }

  lemma UpToAfterAdvance(u: seq<Entry>, d: nat, n: nat, e: nat)
    requires n <= |u| && e > d && forall k | 0 <= k < n :: u[k].epoch == d + 1
    ensures UpTo(u, e) == n + UpTo(u[n..], e)
  {
    assert u == u[..n] + u[n..];
    UpToConcat(u[..n], u[n..], e);
    UpToAll(u[..n], e);
  }

  lemma UpToAfterDrop(u: seq<Entry>, n: nat, e: nat)
    requires n <= |u|
    ensures UpTo(u[n..], e) <= UpTo(u, e)
  {
    assert u == u[..n] + u[n..];
    UpToConcat(u[..n], u[n..], e);
  }

  lemma {:induction false} RemainingShrinks(u: seq<Entry>, n: nat, frames: seq<Frame>, frames': seq<Frame>, i: nat)
    requires n <= |u| && i <= |frames| == |frames'|
    requires forall k | 0 <= k < |frames| :: frames[k].epoch == frames'[k].epoch
    ensures Remaining(u[n..], frames', i) <= Remaining(u, frames, i)
    decreases i
  {
    if i == 0 {
    } else {
      RemainingShrinks(u, n, frames, frames', i - 1);
      var e := frames[i - 1].epoch;
      if e > 0 {
        assert u == u[..n] + u[n..];
        UpToConcat(u[..n], u[n..], e);
        UpToConcat(u[..n], u[n..], e - 1);
        UpToMonotone(u[..n], e - 1, e);
      }
    }
  }

  /** The durable epoch moves on once nothing of the next epoch is left. */
  lemma DurableKeeps(c: Config, w: nat, x: Writer, d: nat)
    requires WriterOk(c, w, x, d) && UpTo(x.Unflushed(), d + 1) == 0
    requires x.InFlight() ==> x.pc.e > d + 1
    ensures WriterOk(c, w, x, d + 1)
  {
    hide BufferOk, EntriesOk, FramesOk, OrderOk;
    EntriesAfterDurable(w, x.submitted, x.flushed, d);
    FramesAfterDurable(c.bufferSize, x.frames, x.flushedOff, x.Unflushed(), d);
    OrderAfterDurable(x.frames, x.active, x.pc, x.submitted, d);
  }

  lemma EntriesAfterDurable(w: nat, submitted: seq<Entry>, flushed: nat, d: nat)
    requires EntriesOk(w, submitted, flushed, d) && flushed <= |submitted| && UpTo(submitted[flushed..], d + 1) == 0
    ensures EntriesOk(w, submitted, flushed, d + 1)
  {
    var u := submitted[flushed..];
    UpToIsBoundary(u, d + 1);
    assert forall i | flushed <= i < |submitted| :: submitted[i] == u[i - flushed];
  }

  lemma FramesAfterDurable(size: nat, frames: seq<Frame>, off: nat, u: seq<Entry>, d: nat)
    requires FramesOk(size, frames, off, u, d)
    ensures FramesOk(size, frames, off, u, d + 1)
  {
  }

  lemma OrderAfterDurable(frames: seq<Frame>, active: nat, pc: WriterPc, submitted: seq<Entry>, d: nat)
    requires OrderOk(frames, active, pc, submitted, d)
    requires pc.StoreHead? || pc.StoreTail? || pc.StoreEpoch? || pc.Publish? ==> pc.e > d + 1
    ensures OrderOk(frames, active, pc, submitted, d + 1)
  {
  }

  lemma FreshWriterOk(c: Config, w: nat, buffer: seq<byte>, d: nat)
    requires c.Valid() && |buffer| == c.bufferSize
    ensures WriterOk(c, w, FreshWriter(buffer), d)
  {
  }
}
