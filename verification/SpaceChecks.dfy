/** The space check of a writer, step by step: what it decides when nothing interferes, and what its
    verdict means while the flusher takes bytes away. */
module SpaceChecks {
  import opened Base
  import opened Circular
  import opened LogStream
  import opened Pipeline
  import opened WriterInvariant
  import opened RingInvariant
  import opened LogInvariant
  import opened CursorInvariant
  import opened StoreInvariant
  import opened PipelineInvariant
  import opened PipelineRuns
  import opened WriterCalls
  import opened TagPasses
  import FlusherCalls
  import FlusherSteps
  import TagRuns

  // ================================================================ without interference

  /** `n` more frames are looked at. */
  ghost predicate ChecksTo(c: Config, x: Writer, n: nat, y: Writer)
    decreases n
  {
    if n == 0 then x == y
    else WriterShape(c, x) && x.pc.CheckSpace? && ChecksTo(c, CheckedFrame(c, x), n - 1, y)
  }

  /** The verdict of nvwal_has_enough_writer_space. */
  predicate Enough(c: Config, x: Writer, de: nat)
    requires WriterShape(c, x)
  {
    2 * Consumed(c.bufferSize, x.frames, de, FRAME_COUNT) <= c.bufferSize
  }

  /** The check adds up the counted frames and compares with half the buffer. */
  lemma {:induction false} ChecksUndisturbed(c: Config, x: Writer, de: nat, i: nat) returns (y: Writer)
    requires WriterShape(c, x) && i < FRAME_COUNT && x.pc == CheckSpace(de, i, Consumed(c.bufferSize, x.frames, de, i))
    ensures ChecksTo(c, x, FRAME_COUNT - i, y) && y.pc.Idle? && y.frames == x.frames
    ensures y.checked <==> Enough(c, x, de)
    ensures y == x.(pc := Idle, checked := y.checked, sinceCheck := |x.staged|,
                    checkSum := Consumed(c.bufferSize, x.frames, de, FRAME_COUNT))
    decreases FRAME_COUNT - i
  {
    hide Consumed;
    var z := CheckedFrame(c, x);
    assert Consumed(c.bufferSize, x.frames, de, i + 1)
        == Consumed(c.bufferSize, x.frames, de, i)
         + (if Counted(de, x.frames[i]) then Distance(c.bufferSize, x.frames[i].head, x.frames[i].tail) else 0) by {
      OneMoreFrame(c.bufferSize, x.frames, de, i);
    }
    if i + 1 == FRAME_COUNT {
      y := z;
      assert ChecksTo(c, z, 0, y);
    } else {
      y := ChecksUndisturbed(c, z, de, i + 1);
    }
  }

  lemma OneMoreFrame(size: nat, frames: seq<Frame>, de: nat, i: nat)
    requires i < |frames| && forall k | 0 <= k < |frames| :: frames[k].head < size && frames[k].tail < size
    ensures Consumed(size, frames, de, i + 1)
         == Consumed(size, frames, de, i)
          + (if Counted(de, frames[i]) then Distance(size, frames[i].head, frames[i].tail) else 0)
  {
  }

  /** From a call to its end: yes if and only if at most half of the buffer is unflushed. */
  lemma CheckDecides(c: Config, s: State, w: nat) returns (y: Writer)
    requires Inv(c, s) && CanBeginCheck(c, s, w)
    ensures w < |DoBeginCheck(c, s, w).writers| && ChecksTo(c, DoBeginCheck(c, s, w).writers[w], FRAME_COUNT, y)
    ensures y.pc.Idle? && s.writers[w].flushed <= |s.writers[w].submitted|
    ensures y.checked <==> 2 * |s.writers[w].Unflushed()| <= c.bufferSize
  {
    hide RingOk, LogOk, StoreOk, ReadersOk, StreamOk, ConcludeOk, FlushOk, EpochsOk, WriterOk, Consumed;
    var x := DoBeginCheck(c, s, w).writers[w];
    assert Consumed(c.bufferSize, x.frames, s.durable, 0) == 0 by { NothingYet(c.bufferSize, x.frames, s.durable); }
    y := ChecksUndisturbed(c, x, s.durable, 0);
    SpaceCheckOfWriter(c, w, s.writers[w], s.durable);
  }

  lemma NothingYet(size: nat, frames: seq<Frame>, de: nat)
    requires forall k | 0 <= k < |frames| :: frames[k].head < size && frames[k].tail < size
    ensures Consumed(size, frames, de, 0) == 0
  {
  }

  // ================================================================ with interference

  /** Since then heads may have moved towards their tails. */
  ghost predicate Shrunk(size: nat, before: seq<Frame>, now: seq<Frame>) {
    && |before| == |now| == FRAME_COUNT
    && forall k | 0 <= k < FRAME_COUNT ::
         && before[k].head < size && before[k].tail < size && now[k].head < size
         && now[k].epoch == before[k].epoch && now[k].tail == before[k].tail
         && Distance(size, now[k].head, now[k].tail) <= Distance(size, before[k].head, before[k].tail)
  }

  /** The sum so far is at most what it would have been at the start. */
  ghost predicate SumOk(size: nat, before: seq<Frame>, x: Writer, de: nat) {
    && Shrunk(size, before, x.frames)
    && (x.pc.CheckSpace? ==>
          x.pc.de == de && x.pc.i < FRAME_COUNT && x.pc.sum <= Consumed(size, before, de, x.pc.i))
  }

  lemma FrameChecked(c: Config, before: seq<Frame>, x: Writer, de: nat)
    requires WriterShape(c, x) && x.pc.CheckSpace? && SumOk(c.bufferSize, before, x, de)
    ensures var y := CheckedFrame(c, x);
            && SumOk(c.bufferSize, before, y, de)
            && (y.pc.Idle? ==>
                  && y.checkSum <= Consumed(c.bufferSize, before, de, FRAME_COUNT)
                  && (y.checked <==> 2 * y.checkSum <= c.bufferSize))
  {
    OneMoreFrame(c.bufferSize, before, de, x.pc.i);
  }

  /** The flusher advances the head of a frame. */
  lemma HeadAdvanced(size: nat, before: seq<Frame>, now: seq<Frame>, i: nat, n: nat)
    requires Shrunk(size, before, now) && i < FRAME_COUNT && n <= Distance(size, now[i].head, now[i].tail)
    ensures Shrunk(size, before, now[i := now[i].(head := WrapOffset(size, now[i].head + n))])
  {
    FlusherCalls.Onward(size, now[i].head, now[i].tail, n);
  }

  /** No step but the writer's own check and the flusher's advance changes a writer in its check. */
  lemma WriterInCheck(c: Config, s: State, step: Step, s': State, w: nat)
    requires Inv(c, s) && Next(c, s, step, s') && w < |s.writers| && s.writers[w].pc.CheckSpace?
    requires w < |s'.writers| && s'.writers[w].pc != Idle && step != CheckFrameStep(w)
    requires !(step.FlushStep? && s.flusher.pc.Advance? && s.flusher.pc.w == w)
    ensures s'.writers[w] == s.writers[w]
  {
    hide Inv, Shape, DoFlush, DoRestart, CheckedFrame, StoredNext, Began, CircularWrite;
    if step.FlushStep? {
      if s.flusher.pc.Advance? { AdvanceElsewhere(c, s, w); } else { TagRuns.FlusherFrame(c, s); }
    } else if step.RestartStep? {
      RestartIdles(c, s, step.buffers, w);
      assert false;
    } else if !OfClients(step) && !step.BreakStep? {
      OtherFrame(c, s, step, s');
    }
  }

  lemma AdvanceElsewhere(c: Config, s: State, w: nat)
    requires CanFlush(c, s) && s.flusher.pc.Advance? && w < |s.writers| && s.flusher.pc.w != w
    ensures DoFlush(c, s).writers[w] == s.writers[w]
  {
    hide RingShape, WriterShape;
  }

  lemma RestartIdles(c: Config, s: State, buffers: seq<seq<byte>>, w: nat)
    requires CanRestart(c, s, buffers) && w < |DoRestart(c, s, buffers).writers|
    ensures DoRestart(c, s, buffers).writers[w].pc == Idle
  {
    hide Shape, Stored, Truncated, ReopenedRing, NewRing;
  }

  lemma AdvancesInCheck(c: Config, s: State, w: nat, before: seq<Frame>, de: nat)
    requires Inv(c, s) && CanFlush(c, s) && s.flusher.pc.Advance? && s.flusher.pc.w == w
    requires w < |s.writers| && SumOk(c.bufferSize, before, s.writers[w], de)
    ensures w < |DoFlush(c, s).writers| && SumOk(c.bufferSize, before, DoFlush(c, s).writers[w], de)
  {
    hide RingOk, LogOk, StoreOk, ReadersOk, StreamOk, ConcludeOk, FlushOk, WriterOk, RingShape, Shrunk, Consumed;
    var Advance(_, i, head, copied) := s.flusher.pc;
    var x := s.writers[w];
    FlusherSteps.AdvanceFacts(c, s.flusher, s.writers, s.ring, s.durable);
    FlusherSteps.FrameDistance(c, w, x, s.durable, i);
    HeadAdvanced(c.bufferSize, before, x.frames, i, copied);
  }

  /** While a check runs, in any interleaving. */
  lemma {:induction false} CheckOverRun(c: Config, states: seq<State>, steps: seq<Step>, i: nat, m: nat, w: nat)
    requires IsRun(c, states, steps) && i < m < |states| && steps[i] == BeginCheckStep(w)
    requires forall q | i < q <= m :: w < |states[q].writers| && states[q].writers[w].pc.CheckSpace?
    ensures w < |states[i].writers|
    ensures SumOk(c.bufferSize, states[i].writers[w].frames, states[m].writers[w], states[i].durable)
    decreases m
  {
    hide Inv, Admissible, RingShape, Next, SumOk;
    RunKeeps(c, states, steps, m - 1);
    assert Allowed(c, states[m - 1], steps[m - 1], states[m]);
    if m == i + 1 {
      CheckStarts(c, states[i], states[m], w);
    } else {
      CheckOverRun(c, states, steps, i, m - 1, w);
      CheckGoesOn(c, states[m - 1], steps[m - 1], states[m], w, states[i].writers[w].frames, states[i].durable);
    }
  }

  lemma CheckStarts(c: Config, s: State, s': State, w: nat)
    requires Inv(c, s) && Next(c, s, BeginCheckStep(w), s')
    ensures w < |s.writers| && w < |s'.writers|
    ensures SumOk(c.bufferSize, s.writers[w].frames, s'.writers[w], s.durable)
  {
    hide RingOk, LogOk, StoreOk, ReadersOk, StreamOk, ConcludeOk, FlushOk, EpochsOk, WriterOk;
  }

  lemma CheckGoesOn(c: Config, s: State, step: Step, s': State, w: nat, before: seq<Frame>, de: nat)
    requires Inv(c, s) && Next(c, s, step, s') && w < |s.writers| && s.writers[w].pc.CheckSpace?
    requires SumOk(c.bufferSize, before, s.writers[w], de) && w < |s'.writers| && s'.writers[w].pc.CheckSpace?
    ensures SumOk(c.bufferSize, before, s'.writers[w], de)
  {
    hide Inv, SumOk, DoFlush, DoRestart, CheckedFrame, RingShape;
    if step == CheckFrameStep(w) {
      FrameChecked(c, before, s.writers[w], de);
    } else if step.FlushStep? && s.flusher.pc.Advance? && s.flusher.pc.w == w {
      AdvancesInCheck(c, s, w, before, de);
    } else {
      WriterInCheck(c, s, step, s', w);
    }
  }

  /** What a verdict means, whatever the flusher did during the check: no, that more than half of the
      buffer was unflushed when the check began; yes, that at most half of it is now. */
  lemma VerdictMeans(c: Config, states: seq<State>, steps: seq<Step>, i: nat, m: nat, w: nat)
    requires IsRun(c, states, steps) && i < m < |steps| && steps[i] == BeginCheckStep(w)
    requires steps[m] == CheckFrameStep(w)
    requires forall q | i < q <= m :: w < |states[q].writers| && states[q].writers[w].pc.CheckSpace?
    requires w < |states[m + 1].writers| && states[m + 1].writers[w].pc.Idle?
    ensures w < |states[i].writers| && states[i].writers[w].flushed <= |states[i].writers[w].submitted|
    ensures states[m + 1].writers[w].flushed <= |states[m + 1].writers[w].submitted|
    ensures var x, y := states[i].writers[w], states[m + 1].writers[w];
            if y.checked then 2 * |y.Unflushed()| <= c.bufferSize else 2 * |x.Unflushed()| > c.bufferSize
  {
    hide Inv, Admissible, RingShape, Next, SumOk, Consumed;
    RunKeeps(c, states, steps, i);
    RunKeeps(c, states, steps, m);
    RunKeeps(c, states, steps, m + 1);
    CheckOverRun(c, states, steps, i, m, w);
    assert Allowed(c, states[m], steps[m], states[m + 1]);
    var x, z, y := states[i].writers[w], states[m].writers[w], states[m + 1].writers[w];
    LastFrame(c, states[m], states[m + 1], w);
    FrameChecked(c, x.frames, z, states[i].durable);
    WriterHere(c, states[i], w);
    WriterHere(c, states[m + 1], w);
    SpaceCheckOfWriter(c, w, x, states[i].durable);
  }

  lemma LastFrame(c: Config, s: State, s': State, w: nat)
    requires Next(c, s, CheckFrameStep(w), s') && w < |s'.writers| && s'.writers[w].pc.Idle?
    ensures w < |s.writers| && WriterShape(c, s.writers[w]) && s.writers[w].pc.CheckSpace?
    ensures s'.writers[w] == CheckedFrame(c, s.writers[w]) && s'.writers[w].sinceCheck == |s'.writers[w].staged|
  {
    hide RingShape, AdvanceShape;
  }

  lemma WriterHere(c: Config, s: State, w: nat)
    requires Inv(c, s) && w < |s.writers|
    ensures WriterOk(c, w, s.writers[w], s.durable) && WriterShape(c, s.writers[w])
    ensures var x := s.writers[w];
            x.checked ==> 2 * x.checkSum <= c.bufferSize && |x.Unflushed()| + |x.staged| <= x.checkSum + x.sinceCheck
  {
    hide RingOk, LogOk, StoreOk, ReadersOk, StreamOk, ConcludeOk, FlushOk, EpochsOk;
  }
}
