/** The steps of writers and of advance-stable-epoch callers keep the pipeline invariant. */
module WriterSteps {
  import opened Base
  import opened Circular
  import opened LogStream
  import opened Pipeline
  import opened WriterInvariant
  import opened RingInvariant
  import opened LogInvariant
  import opened CursorInvariant
  import opened StoreInvariant
  import opened PipelineInvariant

  /** What a writer may change under the flusher's eyes: it appends entries, and frames of the
      target epoch neither disappear nor, once that epoch is stable, appear. */
  ghost predicate Harmless(fl: Flusher, x: Writer, y: Writer)
    requires |x.frames| == |y.frames| == FRAME_COUNT
  {
    var closed := Working(fl.pc) && fl.stablePass;
    && y.flushed == x.flushed && y.flushedOff == x.flushedOff
    && |x.submitted| <= |y.submitted| && y.submitted[..|x.submitted|] == x.submitted
    && (closed ==> forall i | |x.submitted| <= i < |y.submitted| :: y.submitted[i].epoch > fl.target)
    && (Working(fl.pc) ==> forall j | 0 <= j < FRAME_COUNT && x.frames[j].epoch == fl.target :: y.frames[j].epoch == fl.target)
    && (closed ==> forall j | 0 <= j < FRAME_COUNT && y.frames[j].epoch == fl.target :: x.frames[j].epoch == fl.target)
  }

  lemma HarmlessPass(c: Config, fl: Flusher, w: nat, x: Writer, y: Writer, slot: Slot)
    requires FlusherShape(c, fl.pc) && WriterShape(c, x) && WriterShape(c, y) && |slot.nv| == c.segmentSize
    requires PassOk(c, fl, w, x) && Harmless(fl, x, y)
    requires fl.pc.Advance? && fl.pc.w == w ==> CopiedOk(c, fl, x, slot)
    ensures PassOk(c, fl, w, y)
    ensures fl.pc.Advance? && fl.pc.w == w ==> CopiedOk(c, fl, y, slot)
  {
    hide UpTo;
    var u, more := x.Unflushed(), y.submitted[|x.submitted|..];
    assert y.Unflushed() == u + more;
    UpToConcat(u, more, fl.target);
    if Working(fl.pc) && fl.stablePass {
      assert forall i | 0 <= i < |more| :: more[i] == y.submitted[|x.submitted| + i];
      UpToNone(more, fl.target);
    }
  }

  lemma WriterStepKeeps(c: Config, s: State, w: nat, y: Writer)
    requires Inv(c, s) && w < |s.writers|
    requires WriterOk(c, w, y, s.durable)
    requires Harmless(s.flusher, s.writers[w], y)
    requires y.InFlight() ==> y.pc.e > s.stable
    ensures Inv(c, WithWriter(s, w, y))
  {
    hide RingOk, LogOk, StoreOk, ReadersOk, ConcludeOk, PassOk, CopiedOk, WriterOk, RingShape;
    var x, s' := s.writers[w], WithWriter(s, w, y);
    ShapeOf(c, w, y, s.durable);
    FlushAfterWriter(c, s.flusher, s.writers, s.ring, w, y);
    assert StreamOk(s'.writers, s'.prior, s'.segs, s'.durable) by {
      assert y.submitted[..y.flushed] == x.submitted[..x.flushed];
    }
  }

  lemma ShapeOf(c: Config, w: nat, y: Writer, d: nat)
    requires WriterOk(c, w, y, d)
    ensures WriterShape(c, y)
  {
  }

  lemma FlushAfterWriter(c: Config, fl: Flusher, writers: seq<Writer>, r: Ring, w: nat, y: Writer)
    requires FlushOk(c, fl, writers, r) && w < |writers| && WriterShape(c, y) && |writers[w].frames| == FRAME_COUNT
    requires |y.frames| == FRAME_COUNT && Harmless(fl, writers[w], y)
    ensures FlushOk(c, fl, writers[w := y], r)
    ensures fl.pc.Advance? && fl.pc.w == w ==> y.flushed + fl.pc.copied <= |y.submitted|
  {
    hide PassOk;
    HarmlessPass(c, fl, w, writers[w], y, r.slots[CurSlot(c, r)]);
  }

  // ================================================================ steps

  lemma StageStepKeeps(c: Config, s: State, w: nat, data: seq<byte>)
    requires Inv(c, s) && CanStage(c, s, w, data)
    ensures Inv(c, DoStage(c, s, w, data))
  {
    hide RingOk, LogOk, StoreOk, ReadersOk, ConcludeOk, FlushOk, StreamOk, EpochsOk, WriterOk, CircularWrite;
    var x := s.writers[w];
    var y := DoStage(c, s, w, data).writers[w];
    StageKeeps(c, w, x, s.durable, data, y);
    WriterStepKeeps(c, s, w, y);
  }

  lemma BeginWriteStepKeeps(c: Config, s: State, w: nat, e: nat)
    requires Inv(c, s) && CanBeginWrite(c, s, w, e)
    ensures Inv(c, DoBeginWrite(c, s, w, e))
  {
    hide RingOk, LogOk, StoreOk, ReadersOk, ConcludeOk, FlushOk, StreamOk, WriterOk;
    var x := s.writers[w];
    var y := DoBeginWrite(c, s, w, e).writers[w];
    BeginWriteKeeps(c, w, x, s.durable, e, y);
    WriterStepKeeps(c, s, w, y);
  }

  lemma WriteStepKeeps(c: Config, s: State, w: nat)
    requires Inv(c, s) && CanWrite(c, s, w)
    ensures Inv(c, DoWrite(c, s, w))
  {
    hide RingOk, LogOk, StoreOk, ReadersOk, ConcludeOk, FlushOk, StreamOk, WriterOk;
    var x := s.writers[w];
    var y := DoWrite(c, s, w).writers[w];
    var d := s.durable;
    match x.pc
    case StoreHead(e) => StoreOffsetKeeps(c, w, x, d, y); WriterStepKeeps(c, s, w, y);
    case StoreTail(e) => StoreOffsetKeeps(c, w, x, d, y); WriterStepKeeps(c, s, w, y);
    case StoreEpoch(e) =>
      StoreEpochKeeps(c, w, x, d, y);
      ReusedEpoch(c, w, x, d);
      WriterStepKeeps(c, s, w, y);
    case Publish(e) =>
      PublishKeeps(c, w, x, d, e, y);
      assert y.submitted[..|x.submitted|] == x.submitted;
      WriterStepKeeps(c, s, w, y);
    case _ =>
  }

  lemma ReusedEpoch(c: Config, w: nat, x: Writer, d: nat)
    requires WriterOk(c, w, x, d) && x.Publishing()
    ensures x.frames[x.active].epoch <= d
  {
    hide BufferOk, EntriesOk, FramesOk, OrderOk, PcOk;
    ReusedIsDurable(x.frames, x.active, x.pc, x.submitted, d);
  }

  lemma TagStepKeeps(c: Config, s: State, w: nat, i: nat, e: nat, v0: nat, v1: nat)
    requires Inv(c, s) && CanTag(c, s, w, i, e)
    ensures Inv(c, DoTag(c, s, w, i, e, v0, v1))
  {
    hide RingOk, LogOk, StoreOk, ReadersOk, ConcludeOk, FlushOk, StreamOk, EpochsOk, WriterOk;
    var x := s.writers[w];
    TagKeeps(c, w, x, s.durable, i, x.frames[i].(tag0 := v0), StoreTag1(i, v1));
    WriterStepKeeps(c, s, w, DoTag(c, s, w, i, e, v0, v1).writers[w]);
  }

  lemma TagSecondStepKeeps(c: Config, s: State, w: nat)
    requires Inv(c, s) && CanTagSecond(c, s, w)
    ensures Inv(c, DoTagSecond(c, s, w))
  {
    hide RingOk, LogOk, StoreOk, ReadersOk, ConcludeOk, FlushOk, StreamOk, EpochsOk, WriterOk;
    var x := s.writers[w];
    TagKeeps(c, w, x, s.durable, x.pc.i, x.frames[x.pc.i].(tag1 := x.pc.value), Idle);
    WriterStepKeeps(c, s, w, DoTagSecond(c, s, w).writers[w]);
  }

  lemma BeginCheckStepKeeps(c: Config, s: State, w: nat)
    requires Inv(c, s) && CanBeginCheck(c, s, w)
    ensures Inv(c, DoBeginCheck(c, s, w))
  {
    hide RingOk, LogOk, StoreOk, ReadersOk, ConcludeOk, FlushOk, StreamOk, EpochsOk, WriterOk;
    BeginCheckKeeps(c, w, s.writers[w], s.durable);
    WriterStepKeeps(c, s, w, DoBeginCheck(c, s, w).writers[w]);
  }

  lemma CheckFrameStepKeeps(c: Config, s: State, w: nat)
    requires Inv(c, s) && CanCheckFrame(c, s, w)
    ensures Inv(c, DoCheckFrame(c, s, w))
  {
    hide RingOk, LogOk, StoreOk, ReadersOk, ConcludeOk, FlushOk, StreamOk, EpochsOk, WriterOk;
    CheckFrameKeeps(c, w, s.writers[w], s.durable);
    WriterStepKeeps(c, s, w, CheckedFrame(c, s.writers[w]));
  }

  // ---------------------------------------------------------------- advancing the stable epoch

  lemma AdvanceLoadStepKeeps(c: Config, s: State, t: nat)
    requires Inv(c, s) && CanAdvanceLoad(c, s, t)
    ensures Inv(c, DoAdvanceLoad(s, t))
  {
    hide RingOk, LogOk, StoreOk, ReadersOk, ConcludeOk, FlushOk, StreamOk, WriterOk;
  }

  /** A stale compare-and-swap fails; a successful one moves from DE to DE + 1. */
  lemma AdvanceCasStepKeeps(c: Config, s: State, t: nat)
    requires Inv(c, s) && CanAdvanceCas(c, s, t)
    ensures Inv(c, DoAdvanceCas(s, t))
    ensures DoAdvanceCas(s, t).stable >= s.advancing[t] + 1
  {
    hide RingOk, LogOk, StoreOk, ReadersOk, ConcludeOk, FlushOk, StreamOk, WriterOk;
  }
}
