/** Safety of the pieces of the pipeline in every state and across every step of every run:
    segments and their recycling, readers, writers' buffers and frames, stable and durable epoch. */
module PipelineSafety {
  import opened Base
  import opened Circular
  import opened LogStream
  import opened Restart
  import opened Pipeline
  import opened WriterInvariant
  import opened RingInvariant
  import opened LogInvariant
  import opened EpochRanges
  import opened CursorInvariant
  import opened StoreInvariant
  import opened PipelineInvariant
  import opened PipelineRuns
  import WriterCalls
  import MdsLayout

  // ================================================================ segments

  /** Every segment up to the current one is on disk in full, or still in its slot with its bytes. */
  lemma NoSegmentLost(c: Config, states: seq<State>, steps: seq<Step>, i: nat, d: nat)
    requires IsRun(c, states, steps) && i < |states| && 1 <= d <= states[i].ring.cur
    ensures var r, segs := states[i].ring, states[i].segs;
            && c.Valid() && RingShape(c, r) && |segs| == r.cur
            && if d <= r.lastSynced then d in r.disk && r.disk[d] == Data(segs[d - 1])
               else r.slots[SlotOf(c.segmentCount, d)].dsid == d && Holds(r.slots[SlotOf(c.segmentCount, d)].nv, segs[d - 1])
  {
    hide Inv, IsRun;
    RunKeeps(c, states, steps, i);
    SegmentIsSomewhere(c, states[i], d);
  }

  lemma SegmentIsSomewhere(c: Config, s: State, d: nat)
    requires Inv(c, s) && 1 <= d <= s.ring.cur
    ensures var r, segs := s.ring, s.segs;
            && c.Valid() && RingShape(c, r) && |segs| == r.cur
            && if d <= r.lastSynced then d in r.disk && r.disk[d] == Data(segs[d - 1])
               else r.slots[SlotOf(c.segmentCount, d)].dsid == d && Holds(r.slots[SlotOf(c.segmentCount, d)].nv, segs[d - 1])
  {
    hide SlotOk, TurnOk, SyncOk, ReadersOk, WritersOk, StreamOk, StoreOk, ConcludeOk, FlushOk, EpochsOk, MediaOk, Tiled,
         HeadOk;
    if d <= s.ring.lastSynced {
      assert OnDiskOk(s.ring, s.segs, d);
    } else {
      InRing(c, s.ring, TurnOf(s.flusher.pc), s.fsyncer, d);
      assert Shows(s.ring, s.segs, SlotOf(c.segmentCount, d));
    }
  }

  /** What one step may do to the ring. */
  ghost predicate RingMoves(c: Config, s: State, s': State)
    requires c.Valid() && RingShape(c, s.ring) && RingShape(c, s'.ring) && CursorsShape(s.cursors)
  {
    var r, r' := s.ring, s'.ring;
    && r.lastSynced <= r'.lastSynced <= r.lastSynced + 1
    && r.cur <= r'.cur <= r.cur + 1
    && forall j | 0 <= j < |r.slots| && r'.slots[j].dsid != r.slots[j].dsid :: Recycled(c, s, s', j)
  }

  /** A slot changes hands only after its segment was synced and while no reader holds it, and it
      then carries the segment one cycle later. */
  ghost predicate Recycled(c: Config, s: State, s': State, j: nat)
    requires c.Valid() && RingShape(c, s.ring) && RingShape(c, s'.ring) && CursorsShape(s.cursors)
    requires j < |s.ring.slots|
  {
    && s.ring.slots[j].dsid <= s.ring.lastSynced
    && s'.ring.slots[j].dsid == s.ring.slots[j].dsid + c.segmentCount == s.ring.cur + 1
    && Holders(c.segmentCount, s.cursors, j) == {}
  }

  lemma SegmentsMoveOn(c: Config, s: State, step: Step, s': State)
    requires Inv(c, s) && Inv(c, s') && Next(c, s, step, s') && !step.RestartStep?
    ensures c.Valid() && RingShape(c, s.ring) && RingShape(c, s'.ring) && CursorsShape(s.cursors)
    ensures RingMoves(c, s, s')
  {
    hide LogOk, StoreOk, WritersOk, StreamOk, ConcludeOk, FlushOk, EpochsOk, RingOk, ReadersOk, Turned, Synced;
    if step.FlushStep? && s.flusher.pc.Turning? {
      TurnMoves(c, s.ring, s.flusher.pc.turn, s.fsyncer, s.cursors);
    } else if step.SyncStep? {
      SyncMoves(c, s.ring, TurnOf(s.flusher.pc), s.fsyncer);
    } else {
      if step.FlushStep? { FlushFrame(c, s); } else { OtherFrame(c, s, step, s'); }
    }
  }

  /** No slot changes its number. */
  predicate SameNumbers(r: Ring, r': Ring) {
    && r'.cur == r.cur && r'.lastSynced == r.lastSynced && |r'.slots| == |r.slots|
    && forall j | 0 <= j < |r.slots| :: r'.slots[j].dsid == r.slots[j].dsid
  }

  /** What the flusher leaves alone. */
  lemma FlushFrame(c: Config, s: State)
    requires CanFlush(c, s)
    ensures var s' := DoFlush(c, s);
            && s'.cursors == s.cursors && s'.fsyncer == s.fsyncer && s'.stable == s.stable
            && (!s.flusher.pc.Announce? ==> s'.durable == s.durable)
            && (!s.flusher.pc.Turning? ==> SameNumbers(s.ring, s'.ring))
  {
    hide Shape, Turned, CanTurn, NewRecord, DoCopy, DoAdvance, DoPersist, MdsLayout.PageNo, MdsLayout.RecordSlot;
    match s.flusher.pc
    case Copy(w, i, head, dist) => CopyFrame(c, s, w, i, head, dist);
    case Advance(w, i, head, copied) => AdvanceFrame(c, s, w, i, head, copied);
    case Persist(rec, onDisk, dsid) => PersistFrame(c, s, rec, onDisk, dsid);
    case _ =>
  }

  /** Only the ring, a writer, the flusher's place and the log change, and no slot its number. */
  predicate SegmentWork(s: State, s': State) {
    && s'.cursors == s.cursors && s'.fsyncer == s.fsyncer && s'.stable == s.stable && s'.durable == s.durable
    && SameNumbers(s.ring, s'.ring)
  }

  lemma CopyFrame(c: Config, s: State, w: nat, i: nat, head: nat, dist: nat)
    requires Shape(c, s) && s.flusher.pc == Copy(w, i, head, dist)
    ensures SegmentWork(s, DoCopy(c, s, w, i, head, dist))
  {
    hide CircularRead, Splice, WriterShape, AdvanceShape;
    ShapeOfWriter(c, s, w);
  }

  lemma AdvanceFrame(c: Config, s: State, w: nat, i: nat, head: nat, copied: nat)
    requires Shape(c, s) && s.flusher.pc == Advance(w, i, head, copied)
    ensures SegmentWork(s, DoAdvance(c, s, w, i, head, copied))
  {
  }

  lemma PersistFrame(c: Config, s: State, rec: Record, onDisk: nat, dsid: nat)
    requires Shape(c, s) && s.flusher.pc == Persist(rec, onDisk, dsid)
    ensures SegmentWork(s, DoPersist(c, s, rec, onDisk, dsid))
  {
    hide Splice, WriterShape, AdvanceShape;
  }

  lemma ShapeOfWriter(c: Config, s: State, w: nat)
    requires Shape(c, s) && w < |s.writers|
    ensures |s.writers[w].buffer| == c.bufferSize
  {
  }

  lemma ClientFrame(c: Config, s: State, step: Step, s': State)
    requires Next(c, s, step, s') && OfClients(step)
    ensures s'.ring == s.ring && s'.cursors == s.cursors
    ensures s'.durable == s.durable && (!step.AdvanceCasStep? ==> s'.stable == s.stable)
  {
    hide WriterShape, FlusherShape, AdvanceShape, CheckedFrame, Published, CircularWrite, RingShape;
    match step
    case StageStep(w, data) => assert |s.writers[w].buffer| == c.bufferSize by { ShapeOfWriter(c, s, w); }
    case _ =>
  }

  /** What writers, advance calls and cursors leave alone. */
  lemma OtherFrame(c: Config, s: State, step: Step, s': State)
    requires Next(c, s, step, s') && !step.FlushStep? && !step.SyncStep? && !step.RestartStep?
    ensures SameNumbers(s.ring, s'.ring)
    ensures s'.durable == s.durable && (!step.AdvanceCasStep? ==> s'.stable == s.stable)
  {
    if OfClients(step) {
      hide DoStage, DoBeginWrite, DoWrite, DoTag, DoTagSecond, DoBeginCheck, DoCheckFrame;
      ClientFrame(c, s, step, s');
    } else {
      hide WriterShape, FlusherShape, AdvanceShape, SlotOf, DoStage, DoBeginWrite, DoWrite, DoTag, DoTagSecond,
           DoBeginCheck, DoCheckFrame, DoFlush, DoRestart;
    }
  }

  lemma TurnMoves(c: Config, r: Ring, turn: Turn, f: Fsyncer, cursors: map<nat, Cursor>)
    requires RingOk(c, r, turn, f) && ReadersOk(c, r, turn, cursors)
    ensures var r' := Turned(c, r, turn).0;
            && r'.lastSynced == r.lastSynced && r.cur <= r'.cur <= r.cur + 1 && |r'.slots| == |r.slots|
            && forall j | 0 <= j < |r.slots| && r'.slots[j].dsid != r.slots[j].dsid ::
                 && r.slots[j].dsid <= r.lastSynced
                 && r'.slots[j].dsid == r.slots[j].dsid + c.segmentCount == r.cur + 1
                 && Holders(c.segmentCount, cursors, j) == {}
  {
    hide SlotOk, SyncOk;
    NextOccupant(c, r, turn, f);
    assert PinOk(c, r, turn, cursors, NextSlot(c, r));
  }

  lemma SyncMoves(c: Config, r: Ring, turn: Turn, f: Fsyncer)
    requires RingOk(c, r, turn, f)
    ensures var r' := Synced(c, r, f).0;
            && r.lastSynced <= r'.lastSynced <= r.lastSynced + 1 && r'.cur == r.cur && |r'.slots| == |r.slots|
            && forall j | 0 <= j < |r.slots| :: r'.slots[j].dsid == r.slots[j].dsid
  {
  }

  // ================================================================ readers

  /** The pin count is -1 exactly while the flusher recycles the slot; otherwise it is the number
      of readers of the slot. */
  lemma PinCounts(c: Config, s: State, j: nat)
    requires Inv(c, s) && j < |s.ring.slots|
    ensures CursorsShape(s.cursors) && c.Valid() && RingShape(c, s.ring)
    ensures var pins, turn := s.ring.slots[j].pins, TurnOf(s.flusher.pc);
            && (pins == -1 <==> Locked(turn) && j == NextSlot(c, s.ring))
            && (pins != -1 ==> pins == |Holders(c.segmentCount, s.cursors, j)|)
            && (pins == -1 ==> Holders(c.segmentCount, s.cursors, j) == {})
  {
    hide RingOk, LogOk, StoreOk, WritersOk, StreamOk, ConcludeOk, FlushOk, EpochsOk;
    assert PinOk(c, s.ring, TurnOf(s.flusher.pc), s.cursors, j);
  }

  /** What an open cursor looks at is its segment. */
  lemma ReaderSeesItsSegment(c: Config, s: State, k: nat)
    requires Inv(c, s) && k in s.cursors && (s.cursors[k].OnNv? || s.cursors[k].OnDisk?)
    ensures c.Valid() && RingShape(c, s.ring) && 1 <= s.cursors[k].dsid <= |s.segs|
    ensures var d := s.cursors[k].dsid;
            match s.cursors[k]
            case OnNv(_) =>
              var x := s.ring.slots[SlotOf(c.segmentCount, d)];
              x.dsid == d && x.pins > 0 && Holds(x.nv, s.segs[d - 1])
            case _ => d in s.ring.disk && s.ring.disk[d] == Data(s.segs[d - 1])
  {
    hide RingOk, WritersOk, StreamOk, StoreOk, ConcludeOk, FlushOk, EpochsOk, MediaOk, Tiled, HeadOk;
    var d := s.cursors[k].dsid;
    assert CursorOk(c, s.ring, s.cursors[k]);
    if s.cursors[k].OnNv? {
      var j := SlotOf(c.segmentCount, d);
      assert PinOk(c, s.ring, TurnOf(s.flusher.pc), s.cursors, j);
      assert k in Holders(c.segmentCount, s.cursors, j);
      assert Shows(s.ring, s.segs, j);
    } else {
      assert OnDiskOk(s.ring, s.segs, d);
    }
  }

  /** From open to close, through any steps of anyone else. */
  lemma {:induction false} OpenUntilClosed(c: Config, states: seq<State>, steps: seq<Step>, i: nat, j: nat, k: nat)
    requires IsRun(c, states, steps) && i <= j < |states|
    requires k in states[i].cursors && states[i].cursors[k].OnNv?
    requires forall m | i <= m < j :: steps[m] != ReleaseStep(k) && !steps[m].RestartStep?
    ensures k in states[j].cursors && states[j].cursors[k] == states[i].cursors[k]
    ensures c.Valid() && RingShape(c, states[j].ring) && 1 <= states[j].cursors[k].dsid <= |states[j].segs|
    ensures var d := states[i].cursors[k].dsid;
            var x := states[j].ring.slots[SlotOf(c.segmentCount, d)];
            x.dsid == d && x.pins > 0 && Holds(x.nv, states[j].segs[d - 1])
    decreases j
  {
    hide Inv, Next, Admissible;
    RunKeeps(c, states, steps, j);
    if i == j {
    } else {
      OpenUntilClosed(c, states, steps, i, j - 1, k);
      assert Allowed(c, states[j - 1], steps[j - 1], states[j]);
      assert steps[j - 1] != ReleaseStep(k);
      StaysOpen(c, states[j - 1], steps[j - 1], states[j], k);
    }
    ReaderSeesItsSegment(c, states[j], k);
  }

  lemma StaysOpen(c: Config, s: State, step: Step, s': State, k: nat)
    requires Next(c, s, step, s') && step != ReleaseStep(k) && !step.RestartStep?
    requires k in s.cursors && s.cursors[k].OnNv?
    ensures k in s'.cursors && s'.cursors[k] == s.cursors[k]
  {
    hide Shape, DoFlush;
    if step.FlushStep? {
      FlushFrame(c, s);
    } else {
      OthersKeepOpen(c, s, step, s', k);
    }
  }

  lemma OthersKeepOpen(c: Config, s: State, step: Step, s': State, k: nat)
    requires Next(c, s, step, s') && step != ReleaseStep(k) && !step.RestartStep? && !step.FlushStep?
    requires k in s.cursors && s.cursors[k].OnNv?
    ensures k in s'.cursors && s'.cursors[k] == s.cursors[k]
  {
    if OfClients(step) {
      ClientFrame(c, s, step, s');
    } else {
      hide Shape, Synced;
    }
  }

  // ================================================================ writers

  /** The log holds a writer's stream up to the flushed point, and its buffer exactly the rest,
      followed by the bytes the client staged; nothing is lost, repeated, reordered or overwritten. */
  lemma StreamRefinement(c: Config, states: seq<State>, steps: seq<Step>, i: nat, w: nat)
    requires IsRun(c, states, steps) && i < |states| && w < |states[i].writers|
    ensures var s := states[i];
            var x := s.writers[w];
            && |s.prior| == |s.writers| && c.Valid() && WriterShape(c, x)
            && var u := x.Unflushed();
            && |u| + |x.staged| < c.bufferSize
            && Data(OfWriter(Flat(s.segs), w)) + CircularRead(x.buffer, x.flushedOff, |u|) == Data(s.prior[w] + x.submitted)
            && CircularRead(x.buffer, x.lastTail, |x.staged|) == x.staged
  {
    hide Inv, IsRun;
    RunKeeps(c, states, steps, i);
    StreamHere(c, states[i], w);
  }

  lemma StreamHere(c: Config, s: State, w: nat)
    requires Inv(c, s) && w < |s.writers|
    ensures var x := s.writers[w];
            && |s.prior| == |s.writers| && c.Valid() && WriterShape(c, x)
            && var u := x.Unflushed();
            && |u| + |x.staged| < c.bufferSize
            && Data(OfWriter(Flat(s.segs), w)) + CircularRead(x.buffer, x.flushedOff, |u|) == Data(s.prior[w] + x.submitted)
            && CircularRead(x.buffer, x.lastTail, |x.staged|) == x.staged
  {
    hide RingOk, ReadersOk, LogOk, StoreOk, ConcludeOk, FlushOk, EpochsOk, FramesOk, OrderOk, PcOk, EntriesOk,
         CircularRead;
    var x := s.writers[w];
    var u := x.Unflushed();
    assert WriterOk(c, w, x, s.durable);
    ReadSplits(x.buffer, x.flushedOff, |u|, |x.staged|);
    var all := CircularRead(x.buffer, x.flushedOff, |u| + |x.staged|);
    assert all[..|u|] == Data(u) && all[|u|..] == x.staged;
    assert s.prior[w] + x.submitted == (s.prior[w] + x.submitted[..x.flushed]) + u;
  }

  /** The log is sorted by epoch at all times. */
  lemma LogIsSorted(c: Config, states: seq<State>, steps: seq<Step>, i: nat)
    requires IsRun(c, states, steps) && i < |states|
    ensures SortedByEpoch(Flat(states[i].segs))
  {
    hide IsRun, RingOk, ReadersOk, LogOk, StoreOk, ConcludeOk, FlushOk, EpochsOk, WriterOk;
    RunKeeps(c, states, steps, i);
  }

  /** Between the first and the last of the three publishing stores the frame still carries an
      epoch that is durable, so the flusher, which looks for the next one, does not touch it. */
  lemma HalfPublishedFrameIsInvisible(c: Config, s: State, w: nat)
    requires Inv(c, s) && w < |s.writers| && s.writers[w].Publishing()
    ensures var x, pc := s.writers[w], s.flusher.pc;
            && |x.frames| == FRAME_COUNT && x.active < FRAME_COUNT
            && x.frames[x.active].epoch <= s.durable
            && (Working(pc) ==> x.frames[x.active].epoch != s.flusher.target)
            && ((pc.Found? || pc.LoadTail? || pc.Copy? || pc.Advance? || pc.Turning?) && pc.w == w ==> pc.i != x.active)
  {
    hide RingOk, ReadersOk, LogOk, StoreOk, ConcludeOk, StreamOk, FramesOk, BufferOk, PcOk;
    assert WriterOk(c, w, s.writers[w], s.durable);
    assert PassOk(c, s.flusher, w, s.writers[w]);
  }

  // ================================================================ stable and durable epoch

  /** Whatever stale value an advance call works with: stable is durable or the one after, and
      both only move forward. */
  lemma EpochsMoveOn(c: Config, s: State, step: Step, s': State)
    requires Inv(c, s) && Inv(c, s') && Next(c, s, step, s')
    ensures s.durable <= s.stable <= s.durable + 1
    ensures s.durable <= s'.durable <= s.durable + 1
    ensures !step.RestartStep? ==> s.stable <= s'.stable <= s.stable + 1
    ensures s.durable <= s.cbDurable <= s.durable + 1
  {
    hide RingOk, ReadersOk, LogOk, StoreOk, StreamOk, WritersOk, FlushOk, Turned, Synced;
    match step
    case FlushStep =>
      FlushFrame(c, s);
      if s.flusher.pc.Announce? { RecordEpoch(c, s); }
    case RestartStep(_) =>
    case SyncStep =>
    case _ => OtherFrame(c, s, step, s');
  }

  // ================================================================ assertions in the code

  /** The assertions of the flusher's segment turn and of its persist loop. */
  lemma FlusherAssertionsHold(c: Config, s: State)
    requires Inv(c, s)
    ensures c.Valid() && RingShape(c, s.ring)
    ensures var cur := s.ring.slots[CurSlot(c, s.ring)];
            && cur.dsid == s.ring.cur > 0
            && cur.written <= c.segmentSize
            && (s.flusher.pc.Turning? && s.flusher.pc.turn.Request? ==>
                  cur.written == c.segmentSize && !cur.requested && !cur.error && !cur.completed)
    ensures s.flusher.pc.Persist? && s.flusher.pc.onDisk < s.flusher.pc.dsid <= s.flusher.pc.rec.toSeg ==>
              PersistFrom(s.flusher.pc.rec, s.flusher.pc.dsid) <= PersistTo(c, s.flusher.pc.rec, s.flusher.pc.dsid)
    ensures s.flusher.pc.Persist? && s.flusher.pc.onDisk < s.flusher.pc.dsid <= s.flusher.pc.rec.toSeg ==>
              s.ring.slots[SlotOf(c.segmentCount, s.flusher.pc.dsid)].dsid == s.flusher.pc.dsid
  {
    hide ReadersOk, LogOk, StoreOk, StreamOk, WritersOk, FlushOk, EpochsOk;
    assert SlotOk(c, s.ring, TurnOf(s.flusher.pc), s.fsyncer, CurSlot(c, s.ring));
  }

  /** The assertions of the write call, at its last store. */
  lemma WriterAssertionsHold(c: Config, s: State, w: nat)
    requires Inv(c, s) && w < |s.writers| && s.writers[w].pc.Publish?
    ensures var x := s.writers[w];
            && c.Valid() && WriterShape(c, x)
            && var f := x.frames[x.active];
            && f.epoch == x.pc.e && s.stable < x.pc.e < s.stable + FRAME_COUNT
            && f.tail == x.lastTail
            && Distance(c.bufferSize, f.head, f.tail) + |x.staged| < c.bufferSize
  {
    hide RingOk, ReadersOk, LogOk, StoreOk, ConcludeOk, StreamOk, FlushOk;
    var x := s.writers[w];
    assert WriterOk(c, w, x, s.durable);
    WriterCalls.AssertionsHold(c, w, x, s.durable);
  }
}
