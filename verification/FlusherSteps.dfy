/** The steps of the flusher keep the pipeline invariant. */
module FlusherSteps {
  import opened Base
  import opened Circular
  import opened LogStream
  import opened Restart
  import opened Pipeline
  import opened WriterInvariant
  import opened RingInvariant
  import opened LogInvariant
  import opened EpochRanges
  import opened CursorInvariant
  import opened StoreInvariant
  import opened PipelineInvariant
  import Mds
  import MdsLayout

  // ================================================================ looking at writers

  /** No frame of the next epoch: nothing of it is unflushed. */
  lemma NoFrameNothingLeft(c: Config, w: nat, x: Writer, d: nat)
    requires WriterOk(c, w, x, d)
    requires forall j | 0 <= j < FRAME_COUNT :: x.frames[j].epoch != d + 1
    ensures UpTo(x.Unflushed(), d + 1) == 0
  {
    var u := x.Unflushed();
    forall k | 0 <= k < |u| ensures u[k].epoch > d + 1 {
      assert HasFrame(x.frames, u[k].epoch);
      assert u[k] == x.submitted[x.flushed + k];
    }
    UpToNone(u, d + 1);
  }

  /** The frame of the next epoch delimits exactly what is unflushed of it. */
  lemma FrameDistance(c: Config, w: nat, x: Writer, d: nat, i: nat)
    requires WriterOk(c, w, x, d) && i < FRAME_COUNT && x.frames[i].epoch == d + 1
    ensures x.frames[i].head == x.flushedOff
    ensures Distance(c.bufferSize, x.frames[i].head, x.frames[i].tail) == UpTo(x.Unflushed(), d + 1)
    ensures UpTo(x.Unflushed(), d + 1) <= |x.Unflushed()| < c.bufferSize
  {
    hide BufferOk, EntriesOk, OrderOk, PcOk;
    var u := x.Unflushed();
    FrontOfUnflushed(w, x, d);
    assert FrameOk(c.bufferSize, x.flushedOff, u, x.frames[i]);
    DistanceInvertsWrap(c.bufferSize, x.flushedOff, 0, UpTo(u, d + 1));
  }

  /** Moves of the flusher that change nothing but its own state. */
  lemma MoveKeeps(c: Config, s: State, fl: Flusher)
    requires Inv(c, s)
    requires fl.headDsid == s.flusher.headDsid && fl.headOff == s.flusher.headOff
    requires TurnOf(s.flusher.pc) == TurnOf(fl.pc)
    requires !Concluding(s.flusher.pc) && !Concluding(fl.pc) && !fl.pc.Advance?
    requires FlusherShape(c, fl.pc)
    requires Working(fl.pc) ==> fl.target == s.durable + 1
    requires Working(fl.pc) && fl.stablePass ==> s.stable == s.durable + 1
    requires forall w | 0 <= w < |s.writers| :: WriterShape(c, s.writers[w]) && PassOk(c, fl, w, s.writers[w])
    ensures Inv(c, s.(flusher := fl))
  {
    hide RingOk, LogOk, StoreOk, ReadersOk, StreamOk, WriterOk, PassOk, RingShape, WriterShape;
    StillAtRest(c, s.store, s.cbDurable, s.mds, s.flusher.pc, fl.pc);
  }

  lemma BeginPassKeeps(c: Config, s: State)
    requires Inv(c, s) && s.flusher.pc.Start?
    ensures Inv(c, DoBeginPass(s))
  {
    hide RingOk, LogOk, StoreOk, ReadersOk, StreamOk, WriterOk, ConcludeOk;
    MoveKeeps(c, s, DoBeginPass(s).flusher);
  }

  lemma SearchKeeps(c: Config, s: State, w: nat, i: nat)
    requires Inv(c, s) && s.flusher.pc == Search(w, i)
    ensures Inv(c, DoSearch(c, s, w, i))
  {
    hide RingOk, LogOk, StoreOk, ReadersOk, StreamOk, WriterOk, ConcludeOk;
    var x, fl := s.writers[w], DoSearch(c, s, w, i).flusher;
    assert PassOk(c, s.flusher, w, x);
    if fl.pc.NextWriter? && fl.stablePass {
      NoFrameNothingLeft(c, w, x, s.durable);
    }
    forall v | 0 <= v < |s.writers| ensures PassOk(c, fl, v, s.writers[v]) {
      assert PassOk(c, s.flusher, v, s.writers[v]);
    }
    MoveKeeps(c, s, fl);
  }

  /** Looking at a frame of the target epoch: its epoch, then its tags. */
  lemma FoundKeeps(c: Config, s: State, w: nat, i: nat, fl: Flusher)
    requires Inv(c, s)
    requires (s.flusher.pc == Found(w, i) || s.flusher.pc == LoadTag0(w, i) || s.flusher.pc == LoadTag1(w, i))
    requires fl == s.flusher.(pc := fl.pc, tag0 := fl.tag0, tag1 := fl.tag1)
    requires fl.pc == LoadTag0(w, i) || fl.pc == LoadTag1(w, i) || fl.pc == LoadTail(w, i)
    ensures Inv(c, s.(flusher := fl))
  {
    hide RingOk, LogOk, StoreOk, ReadersOk, StreamOk, WriterOk, ConcludeOk;
    forall v | 0 <= v < |s.writers| ensures PassOk(c, fl, v, s.writers[v]) {
      assert PassOk(c, s.flusher, v, s.writers[v]);
    }
    MoveKeeps(c, s, fl);
  }

  lemma LoadTailKeeps(c: Config, s: State, w: nat, i: nat)
    requires Inv(c, s) && s.flusher.pc == LoadTail(w, i)
    ensures Inv(c, DoLoadTail(c, s, w, i))
  {
    hide RingOk, LogOk, StoreOk, ReadersOk, StreamOk, WriterOk, ConcludeOk;
    var fl := DoLoadTail(c, s, w, i).flusher;
    assert PassOk(c, s.flusher, w, s.writers[w]);
    FrameDistance(c, w, s.writers[w], s.durable, i);
    forall v | 0 <= v < |s.writers| ensures PassOk(c, fl, v, s.writers[v]) {
      assert PassOk(c, s.flusher, v, s.writers[v]);
    }
    MoveKeeps(c, s, fl);
  }

  lemma NextWriterKeeps(c: Config, s: State, pc: FlusherPc)
    requires Inv(c, s) && s.flusher.pc.NextWriter?
    requires var w := s.flusher.pc.w;
             || (w + 1 < c.writerCount && pc == Search(w + 1, 0))
             || (pc.Conclude? && (s.flusher.stablePass ==> w + 1 == c.writerCount))
    ensures Inv(c, WithPc(s, pc))
  {
    hide RingOk, LogOk, StoreOk, ReadersOk, StreamOk, WriterOk, ConcludeOk;
    var fl := s.flusher.(pc := pc);
    forall v | 0 <= v < |s.writers| ensures PassOk(c, fl, v, s.writers[v]) {
      assert PassOk(c, s.flusher, v, s.writers[v]);
    }
    MoveKeeps(c, s, fl);
  }

  lemma RestKeeps(c: Config, s: State, pc: FlusherPc)
    requires Inv(c, s) && (s.flusher.pc.Start? || (s.flusher.pc.Conclude? && !s.flusher.stablePass))
    requires pc.Start? || pc == Halted(NoTurn)
    ensures Inv(c, WithPc(s, pc))
  {
    hide RingOk, LogOk, StoreOk, ReadersOk, StreamOk, WriterOk, ConcludeOk;
    MoveKeeps(c, s, s.flusher.(pc := pc));
  }

  // ================================================================ moving bytes

  lemma CopyStepKeeps(c: Config, s: State, w: nat, i: nat, head: nat, dist: nat)
    requires Inv(c, s) && s.flusher.pc == Copy(w, i, head, dist)
    ensures Inv(c, DoCopy(c, s, w, i, head, dist))
  {
    hide RingOk, LogOk, StoreOk, ReadersOk, StreamOk, WriterOk, CopiedOk, CircularRead;
    var s' := DoCopy(c, s, w, i, head, dist);
    var x, copied := s.writers[w], Copied(c, s.ring, dist);
    var bytes := CircularRead(x.buffer, head, copied);
    assert PassOk(c, s.flusher, w, x);
    RoomLeft(c, s.ring, s.fsyncer);
    FrontBytes(c, w, x, s.durable, copied);
    RingAfterCopy(c, s.ring, s.fsyncer, s.segs, s.mds, s.durable, s.flusher.headDsid, s.flusher.headOff, s.cursors,
                  bytes, s'.ring);
    StillAtRest(c, s.store, s.cbDurable, s.mds, s.flusher.pc, s'.flusher.pc);
    CopiedIsCopied(c, s'.flusher, x, s'.ring.slots[CurSlot(c, s.ring)], s.ring.slots[CurSlot(c, s.ring)], dist, bytes);
    forall v | 0 <= v < |s.writers| ensures PassOk(c, s'.flusher, v, s.writers[v]) {
      assert PassOk(c, s.flusher, v, s.writers[v]);
    }
  }

  /** Outside a segment turn the current segment is never full. */
  lemma RoomLeft(c: Config, r: Ring, f: Fsyncer)
    requires RingOk(c, r, NoTurn, f)
    ensures r.slots[CurSlot(c, r)].written < c.segmentSize
    ensures r.slots[CurSlot(c, r)].dsid == r.cur
  {
  }

  lemma FrontBytes(c: Config, w: nat, x: Writer, d: nat, n: nat)
    requires WriterOk(c, w, x, d) && n <= UpTo(x.Unflushed(), d + 1)
    ensures CircularRead(x.buffer, x.flushedOff, n) == Data(x.Unflushed()[..n])
  {
    hide EntriesOk, FramesOk, OrderOk, PcOk;
    BufferAfterAdvance(c.bufferSize, x.buffer, x.flushedOff, x.lastTail, x.Unflushed(), x.staged, n);
  }

  lemma RingAfterCopy(c: Config, r: Ring, f: Fsyncer, segs: seq<seq<Entry>>, mds: map<nat, Record>, durable: nat,
                      headDsid: nat, headOff: nat, cursors: map<nat, Cursor>, bytes: seq<byte>, r': Ring)
    requires RingOk(c, r, NoTurn, f) && LogOk(c, r, f, segs, mds, durable, headDsid, headOff, 0)
    requires ReadersOk(c, r, NoTurn, cursors)
    requires c.Valid() && RingShape(c, r) && r.slots[CurSlot(c, r)].written + |bytes| <= c.segmentSize
    requires var j := CurSlot(c, r); var x := r.slots[j]; r' == SetSlot(r, j, x.(nv := Splice(x.nv, x.written, bytes)))
    ensures RingOk(c, r', NoTurn, f) && LogOk(c, r', f, segs, mds, durable, headDsid, headOff, 0)
    ensures ReadersOk(c, r', NoTurn, cursors)
  {
    hide VisibleOk, DiskPending, MediaOk, Tiled, HeadOk, SlotOk, TurnOk, SyncOk, PinOk, CursorOk;
    LogInvariant.CopyKeeps(c, r, segs, f, headDsid, headOff, bytes, r');
    LogInvariant.CopyKeeps(c, r, segs, f, 0, 0, bytes, r');
    FlagsKept(c, r, r', NoTurn, f);
    ReadersKept(c, r, r', NoTurn, NoTurn, cursors);
  }

  lemma CopiedIsCopied(c: Config, fl: Flusher, x: Writer, after: Slot, before: Slot, dist: nat, bytes: seq<byte>)
    requires WriterShape(c, x) && fl.pc.Advance? && |before.nv| == c.segmentSize
    requires before.written + |bytes| <= c.segmentSize
    requires after == before.(nv := Splice(before.nv, before.written, bytes))
    requires fl.pc.copied == |bytes| == Min(c.segmentSize - before.written, dist)
    requires dist <= |x.Unflushed()| && bytes == Data(x.Unflushed()[..|bytes|])
    requires fl.stablePass ==> dist == UpTo(x.Unflushed(), fl.target)
    ensures CopiedOk(c, fl, x, after)
  {
    var u := x.Unflushed();
    forall k | 0 <= k < |bytes| ensures after.nv[after.written + k] == u[k].data {
      assert Data(u[..|bytes|])[k] == u[..|bytes|][k].data;
    }
  }

  // ---------------------------------------------------------------- into the log

  lemma AdvanceStepKeeps(c: Config, s: State, w: nat, i: nat, head: nat, copied: nat)
    requires Inv(c, s) && s.flusher.pc == Advance(w, i, head, copied)
    ensures Inv(c, DoAdvance(c, s, w, i, head, copied))
  {
    hide RingOk, LogOk, StoreOk, ReadersOk, StreamOk, WriterOk, FlushOk;
    AdvanceRingPart(c, s, w, i, head, copied);
    AdvanceWriterPart(c, s, w, i, head, copied);
    AdvanceFlushPart(c, s, w, i, head, copied);
    StillAtRest(c, s.store, s.cbDurable, s.mds, s.flusher.pc, DoAdvance(c, s, w, i, head, copied).flusher.pc);
  }

  /** What the step does to ring and log. */
  lemma AdvanceEffects(c: Config, s: State, w: nat, i: nat, head: nat, copied: nat)
    requires Shape(c, s) && s.flusher.pc == Advance(w, i, head, copied)
    ensures var s', j, x := DoAdvance(c, s, w, i, head, copied), CurSlot(c, s.ring), s.writers[w];
            var written := s.ring.slots[j].written + copied;
            && s' == s.(writers := s'.writers, ring := s'.ring, segs := s'.segs, flusher := s.flusher.(pc := s'.flusher.pc))
            && s'.ring == SetSlot(s.ring, j, s.ring.slots[j].(written := written))
            && |s.segs| == s.ring.cur && x.flushed + copied <= |x.submitted|
            && s'.segs == s.segs[|s.segs| - 1 := s.segs[|s.segs| - 1] + x.submitted[x.flushed..x.flushed + copied]]
            && TurnOf(s'.flusher.pc) == if written == c.segmentSize then Request else NoTurn
  {
    hide WriterShape;
  }

  lemma AdvanceRingPart(c: Config, s: State, w: nat, i: nat, head: nat, copied: nat)
    requires Inv(c, s) && s.flusher.pc == Advance(w, i, head, copied)
    ensures var s' := DoAdvance(c, s, w, i, head, copied);
            && RingOk(c, s'.ring, TurnOf(s'.flusher.pc), s'.fsyncer)
            && LogOk(c, s'.ring, s'.fsyncer, s'.segs, s'.mds, s'.durable, s'.flusher.headDsid, s'.flusher.headOff, 0)
            && ReadersOk(c, s'.ring, TurnOf(s'.flusher.pc), s'.cursors)
  {
    hide RingOk, LogOk, StoreOk, ReadersOk, StreamOk, WriterOk, FlushOk, ConcludeOk, RingShape, WriterShape, DoAdvance;
    var s' := DoAdvance(c, s, w, i, head, copied);
    var x := s.writers[w];
    AdvanceFacts(c, s.flusher, s.writers, s.ring, s.durable);
    AdvanceEffects(c, s, w, i, head, copied);
    MovedEntries(c, w, x, s.durable, copied);
    RingAfterAdvance(c, s.ring, s.fsyncer, s.segs, s.mds, s.durable, s.flusher.headDsid, s.flusher.headOff, s.cursors,
                     x.submitted[x.flushed..x.flushed + copied], s'.ring, s'.segs, TurnOf(s'.flusher.pc));
  }

  lemma AdvanceWriterPart(c: Config, s: State, w: nat, i: nat, head: nat, copied: nat)
    requires Inv(c, s) && s.flusher.pc == Advance(w, i, head, copied)
    ensures var s' := DoAdvance(c, s, w, i, head, copied);
            && WriterOk(c, w, s'.writers[w], s'.durable)
            && StreamOk(s'.writers, s'.prior, s'.segs, s'.durable)
  {
    hide RingOk, LogOk, StoreOk, ReadersOk, StreamOk, WriterOk, FlushOk, ConcludeOk, CopiedOk;
    var s' := DoAdvance(c, s, w, i, head, copied);
    var x, y := s.writers[w], s'.writers[w];
    AdvanceFacts(c, s.flusher, s.writers, s.ring, s.durable);
    MovedEntries(c, w, x, s.durable, copied);
    AdvanceKeeps(c, w, x, s.durable, i, copied, y);
    StreamAfterAdvance(s.writers, s.prior, s.segs, s.durable, w, y, x.submitted[x.flushed..x.flushed + copied],
                       s'.segs);
  }

  lemma AdvanceFlushPart(c: Config, s: State, w: nat, i: nat, head: nat, copied: nat)
    requires Inv(c, s) && s.flusher.pc == Advance(w, i, head, copied)
    ensures var s' := DoAdvance(c, s, w, i, head, copied);
            FlushOk(c, s'.flusher, s'.writers, s'.ring)
  {
    hide RingOk, LogOk, StoreOk, ReadersOk, StreamOk, WriterOk, FlushOk, ConcludeOk, CopiedOk;
    var s' := DoAdvance(c, s, w, i, head, copied);
    var x, y := s.writers[w], s'.writers[w];
    AdvanceFacts(c, s.flusher, s.writers, s.ring, s.durable);
    LeftAfterAdvance(c, w, x, s.durable, copied, y);
    FlushAfterAdvance(c, s.flusher, s.writers, s.ring, y, s'.ring, s'.flusher);
  }

  lemma AdvanceFacts(c: Config, fl: Flusher, writers: seq<Writer>, r: Ring, d: nat)
    requires FlushOk(c, fl, writers, r) && fl.pc.Advance? && fl.target == d + 1
    ensures var x, n := writers[fl.pc.w], fl.pc.copied;
            && x.frames[fl.pc.i].epoch == d + 1 && fl.pc.head == x.flushedOff && n <= UpTo(x.Unflushed(), d + 1)
            && CopiedOk(c, fl, x, r.slots[CurSlot(c, r)])
  {
    assert PassOk(c, fl, fl.pc.w, writers[fl.pc.w]);
  }

  lemma FlushAfterAdvance(c: Config, fl: Flusher, writers: seq<Writer>, r: Ring, y: Writer, r': Ring, fl': Flusher)
    requires FlushOk(c, fl, writers, r) && fl.pc.Advance? && RingShape(c, r') && WriterShape(c, y)
    requires y.frames[fl.pc.i].epoch == fl.target
    requires UpTo(y.Unflushed(), fl.target) == UpTo(writers[fl.pc.w].Unflushed(), fl.target) - fl.pc.copied
    requires var full := r.slots[CurSlot(c, r)].written + fl.pc.copied == c.segmentSize;
             fl' == fl.(pc := if full then Turning(fl.pc.w, fl.pc.i, Request) else NextWriter(fl.pc.w))
    ensures FlushOk(c, fl', writers[fl.pc.w := y], r')
  {
    var writers' := writers[fl.pc.w := y];
    forall v | 0 <= v < |writers'| ensures PassOk(c, fl', v, writers'[v]) {
      assert PassOk(c, fl, v, writers[v]);
    }
  }

  lemma MovedEntries(c: Config, w: nat, x: Writer, d: nat, n: nat)
    requires WriterOk(c, w, x, d) && n <= UpTo(x.Unflushed(), d + 1)
    ensures x.flushed + n <= |x.submitted|
    ensures var more := x.submitted[x.flushed..x.flushed + n];
            && more == x.Unflushed()[..n]
            && forall k | 0 <= k < n :: more[k].epoch == d + 1 && more[k].writer == w
  {
    hide BufferOk, FramesOk, OrderOk, PcOk;
    FrontOfUnflushed(w, x, d);
    assert x.submitted[x.flushed..x.flushed + n] == x.Unflushed()[..n];
  }

  lemma LeftAfterAdvance(c: Config, w: nat, x: Writer, d: nat, n: nat, y: Writer)
    requires WriterOk(c, w, x, d) && n <= UpTo(x.Unflushed(), d + 1)
    requires y.submitted == x.submitted && y.flushed == x.flushed + n <= |x.submitted|
    ensures UpTo(y.Unflushed(), d + 1) == UpTo(x.Unflushed(), d + 1) - n
  {
    hide BufferOk, FramesOk, OrderOk, PcOk;
    var u := x.Unflushed();
    FrontOfUnflushed(w, x, d);
    assert y.Unflushed() == u[n..];
    UpToAfterAdvance(u, d, n, d + 1);
  }

  lemma RingAfterAdvance(c: Config, r: Ring, f: Fsyncer, segs: seq<seq<Entry>>, mds: map<nat, Record>, durable: nat,
                         headDsid: nat, headOff: nat, cursors: map<nat, Cursor>, more: seq<Entry>,
                         r': Ring, segs': seq<seq<Entry>>, turn': Turn)
    requires RingOk(c, r, NoTurn, f) && LogOk(c, r, f, segs, mds, durable, headDsid, headOff, 0)
    requires ReadersOk(c, r, NoTurn, cursors)
    requires c.Valid() && RingShape(c, r) && |segs| == r.cur
    requires var j := CurSlot(c, r);
             && r.slots[j].written + |more| <= c.segmentSize
             && (forall k | 0 <= k < |more| :: r.slots[j].nv[r.slots[j].written + k] == more[k].data)
             && r' == SetSlot(r, j, r.slots[j].(written := r.slots[j].written + |more|))
             && turn' == if r.slots[j].written + |more| == c.segmentSize then Request else NoTurn
    requires forall k | 0 <= k < |more| :: more[k].epoch == durable + 1
    requires segs' == segs[r.cur - 1 := segs[r.cur - 1] + more]
    ensures RingOk(c, r', turn', f) && LogOk(c, r', f, segs', mds, durable, headDsid, headOff, 0)
    ensures ReadersOk(c, r', turn', cursors)
  {
    hide VisibleOk, DiskPending, MediaOk, Tiled, HeadOk, SlotOk, TurnOk, SyncOk, PinOk, CursorOk, Extends;
    HeadWithin(c, r, f, segs, mds, durable, headDsid, headOff);
    AppendKeeps(c, r, segs, f, headDsid, headOff, more, r', segs');
    AppendKeeps(c, r, segs, f, 0, 0, more, r', segs');
    FillKeeps(c, r, f, |more|, r', turn');
    ReadersKept(c, r, r', NoTurn, turn', cursors);
    AppendExtends(segs, more, durable + 1);
    TiledExtends(c.segmentSize, segs, segs', mds, durable, durable + 1);
    HeadExtends(segs, segs', durable, headDsid, headOff);
  }

  lemma AppendExtends(segs: seq<seq<Entry>>, more: seq<Entry>, e: nat)
    requires |segs| > 0 && forall k | 0 <= k < |more| :: more[k].epoch == e
    ensures Extends(segs, segs[|segs| - 1 := segs[|segs| - 1] + more], e)
  {
  }

  /** The head of the epoch being written lies within the log. */
  lemma HeadWithin(c: Config, r: Ring, f: Fsyncer, segs: seq<seq<Entry>>, mds: map<nat, Record>, durable: nat,
                   headDsid: nat, headOff: nat)
    requires c.Valid() && RingShape(c, r) && SegsOk(c, r, segs)
    requires Tiled(c.segmentSize, segs, mds, durable) && (durable > 0 ==> durable in mds)
    requires headDsid == EndSeg(mds, durable) && headOff == EndOff(mds, durable)
    ensures 1 <= headDsid <= r.cur == |segs| && headOff < c.segmentSize
    ensures headOff <= |segs[headDsid - 1]|
  {
    if durable > 0 {
      assert RecordOk(c.segmentSize, segs, mds, durable);
    }
  }

  lemma StreamAfterAdvance(writers: seq<Writer>, prior: seq<seq<Entry>>, segs: seq<seq<Entry>>, durable: nat, w: nat,
                           y: Writer, more: seq<Entry>, segs': seq<seq<Entry>>)
    requires StreamOk(writers, prior, segs, durable) && w < |writers| && |segs| > 0
    requires y.submitted == writers[w].submitted && y.flushed == writers[w].flushed + |more| <= |y.submitted|
    requires writers[w].flushed <= |y.submitted| && more == y.submitted[writers[w].flushed..y.flushed]
    requires forall k | 0 <= k < |more| :: more[k].epoch == durable + 1 && more[k].writer == w
    requires segs' == segs[|segs| - 1 := segs[|segs| - 1] + more]
    ensures StreamOk(writers[w := y], prior, segs', durable)
  {
    hide Flat, OfWriter, SortedByEpoch;
    FlatAppend(segs, more);
    SortedAppend(Flat(segs), more, durable + 1);
    var writers' := writers[w := y];
    forall v | 0 <= v < |writers'|
      ensures writers'[v].flushed <= |writers'[v].submitted|
      ensures OfWriter(Flat(segs'), v) == prior[v] + writers'[v].submitted[..writers'[v].flushed]
    {
      OfWriterConcat(Flat(segs), more, v);
      OfWriterAllOrNone(more, w, v);
      if v == w {
        MoreOf(prior[w], y.submitted, writers[w].flushed, y.flushed);
      }
    }
  }

  lemma SortedAppend(log: seq<Entry>, more: seq<Entry>, e: nat)
    requires SortedByEpoch(log) && (forall i | 0 <= i < |log| :: log[i].epoch <= e)
    requires forall k | 0 <= k < |more| :: more[k].epoch == e
    ensures SortedByEpoch(log + more) && forall i | 0 <= i < |log + more| :: (log + more)[i].epoch <= e
  {
  }

  lemma MoreOf(prior: seq<Entry>, submitted: seq<Entry>, m: nat, n: nat)
    requires m <= n <= |submitted|
    ensures prior + submitted[..m] + submitted[m..n] == prior + submitted[..n]
  {
  }

  // ================================================================ turning to the next segment

  lemma TurnStepKeeps(c: Config, s: State, w: nat, i: nat, turn: Turn)
    requires Inv(c, s) && s.flusher.pc == Turning(w, i, turn) && CanTurn(c, s.ring, turn)
    requires turn.Lock? ==> !(s.fsyncer.Bump? && s.fsyncer.j == NextSlot(c, s.ring))
    ensures Inv(c, DoTurn(c, s, w, i, turn))
  {
    hide RingOk, LogOk, StoreOk, ReadersOk, StreamOk, WriterOk, Turned, PassOk;
    var s' := DoTurn(c, s, w, i, turn);
    TurnedShape(c, s.ring, turn);
    TurnKeeps(c, s.ring, turn, s.fsyncer);
    LogAfterTurn(c, s.ring, turn, s.fsyncer, s.segs, s.mds, s.durable, s.flusher.headDsid, s.flusher.headOff);
    ReadersAfterTurn(c, s.ring, turn, s.fsyncer, s.cursors);
    StreamAfterTurn(s.writers, s.prior, s.segs, s.durable);
    StillAtRest(c, s.store, s.cbDurable, s.mds, s.flusher.pc, s'.flusher.pc);
    forall v | 0 <= v < |s'.writers| ensures PassOk(c, s'.flusher, v, s'.writers[v]) {
      PassAfterTurn(c, s.flusher, s'.flusher.pc, v, s.writers[v]);
    }
  }

  /** The fsyncer failed on the segment the turn waits for. */
  lemma FailKeeps(c: Config, s: State)
    requires Inv(c, s) && s.flusher.pc.Turning? && s.flusher.pc.turn.Wait?
    ensures Inv(c, DoHalt(s))
  {
    hide RingOk, LogOk, StoreOk, ReadersOk, StreamOk, WriterOk, ConcludeOk;
    MoveKeeps(c, s, s.flusher.(pc := Halted(s.flusher.pc.turn)));
  }

  lemma TurnedShape(c: Config, r: Ring, turn: Turn)
    requires c.Valid() && RingShape(c, r)
    ensures var (r', turn') := Turned(c, r, turn);
            && RingShape(c, r')
            && r'.cur == (if turn.Unlock? then r.cur + 1 else r.cur)
            && (turn.Unlock? ==> turn'.NoTurn?) && (!turn.Unlock? && !turn.NoTurn? ==> !turn'.NoTurn?)
  {
  }

  lemma StreamAfterTurn(writers: seq<Writer>, prior: seq<seq<Entry>>, segs: seq<seq<Entry>>, durable: nat)
    requires StreamOk(writers, prior, segs, durable)
    ensures StreamOk(writers, prior, segs + [[]], durable)
  {
    FlatNewSegment(segs);
  }

  lemma PassAfterTurn(c: Config, fl: Flusher, pc: FlusherPc, w: nat, x: Writer)
    requires FlusherShape(c, fl.pc) && FlusherShape(c, pc) && WriterShape(c, x) && PassOk(c, fl, w, x) && fl.pc.Turning?
    requires (pc.Turning? || pc.LoadTail?) && pc.w == fl.pc.w && pc.i == fl.pc.i
    ensures PassOk(c, fl.(pc := pc), w, x)
  {
  }

  lemma LogAfterTurn(c: Config, r: Ring, turn: Turn, f: Fsyncer, segs: seq<seq<Entry>>, mds: map<nat, Record>,
                     durable: nat,
                     headDsid: nat, headOff: nat)
    requires RingOk(c, r, turn, f) && LogOk(c, r, f, segs, mds, durable, headDsid, headOff, 0)
    requires c.Valid() && RingShape(c, r) && !turn.NoTurn?
    ensures var r' := Turned(c, r, turn).0;
            var segs' := if turn.Unlock? then segs + [[]] else segs;
            LogOk(c, r', f, segs', mds, durable, headDsid, headOff, 0)
  {
    hide VisibleOk, DiskPending, MediaOk, Tiled, HeadOk, SyncOk, SlotOk;
    var r' := Turned(c, r, turn).0;
    if turn.Unlock? {
      LogAfterUnlock(c, r, f, segs, mds, durable, headDsid, headOff);
    } else if turn.SetDsid? {
      NextOccupant(c, r, turn, f);
      RenumberKeeps(c, r, segs, f, headDsid, headOff, r');
      RenumberKeeps(c, r, segs, f, 0, 0, r');
    } else {
      ImagesKept(r, r', segs, f, headDsid, headOff);
      ImagesKept(r, r', segs, f, 0, 0);
    }
  }

  lemma LogAfterUnlock(c: Config, r: Ring, f: Fsyncer, segs: seq<seq<Entry>>, mds: map<nat, Record>, durable: nat,
                       headDsid: nat, headOff: nat)
    requires RingOk(c, r, Unlock, f) && LogOk(c, r, f, segs, mds, durable, headDsid, headOff, 0)
    requires c.Valid() && RingShape(c, r)
    ensures LogOk(c, Turned(c, r, Unlock).0, f, segs + [[]], mds, durable, headDsid, headOff, 0)
  {
    hide VisibleOk, DiskPending, MediaOk, Tiled, HeadOk, SyncOk, SlotOk;
    var r' := Turned(c, r, Unlock).0;
    NextOccupant(c, r, Unlock, f);
    UnlockKeeps(c, r, segs, f, headDsid, headOff, r');
    UnlockKeeps(c, r, segs, f, 0, 0, r');
    NewSegmentExtends(segs, durable + 1);
    HeadWithin(c, r, f, segs, mds, durable, headDsid, headOff);
    TiledExtends(c.segmentSize, segs, segs + [[]], mds, durable, durable + 1);
    HeadExtends(segs, segs + [[]], durable, headDsid, headOff);
  }

  lemma NewSegmentExtends(segs: seq<seq<Entry>>, e: nat)
    requires |segs| > 0
    ensures Extends(segs, segs + [[]], e)
  {
  }

  lemma ReadersAfterTurn(c: Config, r: Ring, turn: Turn, f: Fsyncer, cursors: map<nat, Cursor>)
    requires RingOk(c, r, turn, f) && ReadersOk(c, r, turn, cursors) && CanTurn(c, r, turn)
    ensures var (r', turn') := Turned(c, r, turn); ReadersOk(c, r', turn', cursors)
  {
    hide RingOk, PinOk, CursorOk;
    var (r', turn') := Turned(c, r, turn);
    match turn
    case Lock => LockReaders(c, r, cursors);
    case SetDsid => SetDsidReaders(c, r, cursors);
    case Unlock => UnlockReaders(c, r, cursors);
    case _ => ReadersKept(c, r, r', turn, turn', cursors);
  }

  // ================================================================ concluding the epoch

  lemma ConcludeKeeps(c: Config, s: State)
    requires Inv(c, s) && s.flusher.pc.Conclude? && s.flusher.stablePass
    ensures Inv(c, DoConclude(c, s))
  {
    hide RingOk, LogOk, StoreOk, ReadersOk, StreamOk, WriterOk;
    var s' := DoConclude(c, s);
    var rec := NewRecord(c, s.ring, s.flusher);
    RoomLeft(c, s.ring, s.fsyncer);
    RecordFits(c, s.ring, s.fsyncer, s.segs, s.mds, s.durable, s.flusher);
    RestInSlots(c, s.ring, s.fsyncer);
    StillAtRest(c, s.store, s.cbDurable, s.mds, s.flusher.pc, s'.flusher.pc);
    forall v | 0 <= v < |s.writers| ensures PassOk(c, s'.flusher, v, s.writers[v]) {
      assert PassOk(c, s.flusher, v, s.writers[v]);
    }
  }

  /** What is not on disk when the persist loop begins is in its slot. */
  lemma RestInSlots(c: Config, r: Ring, f: Fsyncer)
    requires RingOk(c, r, NoTurn, f)
    ensures InSlots(c, r, r.lastSynced)
  {
    hide SlotOk, TurnOk, SyncOk;
    forall d: nat | r.lastSynced < d <= r.cur ensures r.slots[SlotOf(c.segmentCount, d)].dsid == d {
      InRing(c, r, NoTurn, f, d);
    }
  }

  /** Offsets survive the truncation to 32 bits, and the range is well-formed. */
  lemma RecordFits(c: Config, r: Ring, f: Fsyncer, segs: seq<seq<Entry>>, mds: map<nat, Record>, durable: nat,
                   fl: Flusher)
    requires LogOk(c, r, f, segs, mds, durable, fl.headDsid, fl.headOff, 0)
    requires c.Valid() && RingShape(c, r) && fl.target == durable + 1
    requires r.slots[CurSlot(c, r)].written < c.segmentSize && r.slots[CurSlot(c, r)].dsid == r.cur
    ensures var rec := NewRecord(c, r, fl);
            && 1 <= rec.fromSeg <= rec.toSeg == r.cur
            && rec.fromOff == fl.headOff < c.segmentSize && rec.toOff == r.slots[CurSlot(c, r)].written
            && (rec.fromSeg == rec.toSeg ==> rec.fromOff <= rec.toOff)
            && |segs| == r.cur && rec.toOff == |segs[r.cur - 1]|
            && RangeOk(c.segmentSize, segs, rec)
            && LogOk(c, r, f, segs, mds, durable, fl.headDsid, fl.headOff, rec.fromSeg)
  {
    HeadWithin(c, r, f, segs, mds, durable, fl.headDsid, fl.headOff);
    Low32Is(fl.headOff);
    Low32Is(r.slots[CurSlot(c, r)].written);
    MediaWeaken(r, segs, fl.headDsid, fl.headOff, fl.headDsid, 0);
  }

  lemma PersistKeeps(c: Config, s: State, rec: Record, onDisk: nat, d: nat)
    requires Inv(c, s) && s.flusher.pc == Persist(rec, onDisk, d)
    ensures Inv(c, DoPersist(c, s, rec, onDisk, d))
  {
    hide RingOk, LogOk, StoreOk, ReadersOk, StreamOk, WriterOk;
    var s' := DoPersist(c, s, rec, onDisk, d);
    RoomLeft(c, s.ring, s.fsyncer);
    RingAfterPersist(c, s.ring, s.fsyncer, s.segs, s.mds, s.durable, s.flusher, s.cursors, s'.ring);
    StillAtRest(c, s.store, s.cbDurable, s.mds, s.flusher.pc, s'.flusher.pc);
    assert FlushOk(c, s'.flusher, s'.writers, s'.ring) by {
      PassConcluding(c, s.flusher, s'.flusher.pc, s.writers);
    }
  }

  lemma PassConcluding(c: Config, fl: Flusher, pc: FlusherPc, writers: seq<Writer>)
    requires FlusherShape(c, fl.pc) && FlusherShape(c, pc) && Concluding(fl.pc) && Concluding(pc)
    requires forall w | 0 <= w < |writers| :: WriterShape(c, writers[w]) && PassOk(c, fl, w, writers[w])
    ensures forall w | 0 <= w < |writers| :: PassOk(c, fl.(pc := pc), w, writers[w])
  {
  }

  lemma RingAfterPersist(c: Config, r: Ring, f: Fsyncer, segs: seq<seq<Entry>>, mds: map<nat, Record>, durable: nat,
                         fl: Flusher,
                         cursors: map<nat, Cursor>, r': Ring)
    requires fl.pc.Persist? && FlusherShape(c, fl.pc) && fl.target == durable + 1
    requires RingOk(c, r, NoTurn, f) && LogOk(c, r, f, segs, mds, durable, fl.headDsid, fl.headOff, fl.pc.dsid)
    requires ReadersOk(c, r, NoTurn, cursors) && ConcludeOk(c, r, mds, fl)
    requires c.Valid() && RingShape(c, r)
    requires var rec, d := fl.pc.rec, fl.pc.dsid;
             if d > rec.toSeg || d <= fl.pc.onDisk then r' == r
             else var j := SlotOf(c.segmentCount, d);
               r' == SetSlot(r, j, Flushed(r.slots[j], PersistFrom(rec, d), PersistTo(c, rec, d)))
    ensures RingOk(c, r', NoTurn, f) && ReadersOk(c, r', NoTurn, cursors)
    ensures var d' := if fl.pc.dsid > fl.pc.rec.toSeg then r.cur + 1 else fl.pc.dsid + 1;
            LogOk(c, r', f, segs, mds, durable, fl.headDsid, fl.headOff, d')
  {
    hide VisibleOk, DiskPending, MediaOk, Tiled, HeadOk, SlotOk, SyncOk, PinOk, CursorOk;
    var Persist(rec, onDisk, d) := fl.pc;
    RoomLeft(c, r, f);
    MediaZero(r, segs);
    RecordFits(c, r, f, segs, mds, durable, fl);
    if d <= rec.toSeg {
      PersistExtends(c, r, segs, NoTurn, f, rec, onDisk, d, r');
      if d > onDisk {
        var j := SlotOf(c.segmentCount, d);
        SyncMediaKeeps(c, r, segs, f, fl.headDsid, fl.headOff, j, r'.slots[j].media, r');
        FlagsKept(c, r, r', NoTurn, f);
        ReadersKept(c, r, r', NoTurn, NoTurn, cursors);
      }
    }
  }

  lemma MediaZero(r: Ring, segs: seq<seq<Entry>>)
    requires |segs| == r.cur
    ensures MediaOk(r, segs, 0, 0)
  {
  }

  // ---------------------------------------------------------------- writing the record

  /** A step of the metadata store: the pages change and the record may be added. */
  lemma StoreStepKeeps(c: Config, s: State, m: Metadata, mds: map<nat, Record>, pc: FlusherPc)
    requires Inv(c, s) && Concluding(s.flusher.pc) && !s.flusher.pc.Persist? && !s.flusher.pc.Announce?
    requires Concluding(pc) && !pc.Persist? && !pc.Announce? && pc.rec == s.flusher.pc.rec
    requires |m.page| == c.pageCap && m.paged <= s.cbDurable
    requires mds == s.mds || mds == s.mds[s.durable + 1 := s.flusher.pc.rec]
    requires pc.BumpDurable? ==> s.durable + 1 in mds && mds[s.durable + 1] == pc.rec
    requires StoreOk(c, m, s.cbDurable, mds, pc)
    ensures Inv(c, WithPc(s.(store := m, mds := mds), pc))
  {
    hide RingOk, ReadersOk, StreamOk, StoreOk, WriterOk;
    var s' := WithPc(s.(store := m, mds := mds), pc);
    assert pc.rec.epoch > 0;
    var headDsid, headOff := s.flusher.headDsid, s.flusher.headOff;
    assert LogOk(c, s.ring, s.fsyncer, s.segs, mds, s.durable, headDsid, headOff, s.ring.cur + 1) by {
      hide SegsOk, VisibleOk, DiskPending, MediaOk, HeadOk;
      TiledSameRecords(c.segmentSize, s.segs, s.mds, s.durable, s'.mds);
    }
    assert FlushOk(c, s'.flusher, s'.writers, s'.ring) by {
      hide LogOk, ConcludeOk;
      PassConcluding(c, s.flusher, pc, s.writers);
    }
  }

  lemma AllocPageKeeps(c: Config, s: State, rec: Record)
    requires Inv(c, s) && s.flusher.pc == AllocPage(rec) && rec.epoch == s.durable + 1
    ensures Inv(c, DoAllocPage(c, s, rec))
  {
    hide RingOk, LogOk, StoreOk, ReadersOk, StreamOk, WriterOk, FlushOk, MdsLayout.PageNo;
    var s' := DoAllocPage(c, s, rec);
    AllocKeeps(c, s, rec);
    StoreStepKeeps(c, s, s'.store, s.mds, s'.flusher.pc);
  }

  lemma SetPagedKeeps(c: Config, s: State, rec: Record)
    requires Inv(c, s) && s.flusher.pc == SetPaged(rec)
    ensures Inv(c, WithPc(s.(store := s.store.(paged := s.cbDurable)), TakePage(rec)))
  {
    hide RingOk, LogOk, ReadersOk, StreamOk, WriterOk, FlushOk, MdsLayout.PageNo, Mds.Holds;
    StoreStepKeeps(c, s, s.store.(paged := s.cbDurable), s.mds, TakePage(rec));
  }

  lemma TakePageKeeps(c: Config, s: State, rec: Record)
    requires Inv(c, s) && s.flusher.pc == TakePage(rec) && rec.epoch == s.durable + 1
    ensures Inv(c, WithPc(s.(store := s.store.(bufPage := MdsLayout.PageNo(c.pageCap, rec.epoch))), WriteRecord(rec)))
  {
    hide RingOk, LogOk, StoreOk, ReadersOk, StreamOk, WriterOk, FlushOk, MdsLayout.PageNo;
    var m := s.store.(bufPage := MdsLayout.PageNo(c.pageCap, rec.epoch));
    TakeKeeps(c, s.store, s.cbDurable, s.mds, rec, m);
    StoreStepKeeps(c, s, m, s.mds, WriteRecord(rec));
  }

  lemma WriteRecordKeeps(c: Config, s: State, rec: Record)
    requires Inv(c, s) && s.flusher.pc == WriteRecord(rec) && rec.epoch == s.durable + 1
    ensures Inv(c, DoWriteRecord(c, s, rec))
  {
    hide RingOk, LogOk, StoreOk, ReadersOk, StreamOk, WriterOk, FlushOk, MdsLayout.RecordSlot;
    var s' := DoWriteRecord(c, s, rec);
    RecordKeeps(c, s.store, s.cbDurable, s.mds, rec, s'.store);
    StoreStepKeeps(c, s, s'.store, s'.mds, BumpDurable(rec));
  }

  lemma TiledSameRecords(size: nat, segs: seq<seq<Entry>>, mds: map<nat, Record>, n: nat, mds': map<nat, Record>)
    requires Tiled(size, segs, mds, n)
    requires forall e | e in mds && e <= n :: e in mds' && mds'[e] == mds[e]
    ensures Tiled(size, segs, mds', n)
  {
    forall x: nat | 1 <= x <= n ensures RecordOk(size, segs, mds', x) && Chained(mds', x) {
      assert RecordOk(size, segs, mds, x) && Chained(mds, x);
    }
  }

  lemma BumpDurableKeeps(c: Config, s: State, rec: Record)
    requires Inv(c, s) && s.flusher.pc == BumpDurable(rec) && rec.epoch == s.durable + 1
    ensures Inv(c, WithPc(s.(cbDurable := rec.epoch), Announce(rec)))
  {
    hide RingOk, LogOk, StoreOk, ReadersOk, StreamOk, WriterOk;
    var s' := WithPc(s.(cbDurable := rec.epoch), Announce(rec));
    BumpKeepsStore(c, s.store, s.cbDurable, s.mds, rec);
    forall v | 0 <= v < |s.writers| ensures PassOk(c, s'.flusher, v, s.writers[v]) {
      assert PassOk(c, s.flusher, v, s.writers[v]);
    }
  }

  lemma AnnounceKeeps(c: Config, s: State, rec: Record)
    requires Inv(c, s) && s.flusher.pc == Announce(rec)
    ensures Inv(c, DoAnnounce(c, s, rec))
  {
    hide RingOk, LogOk, StoreOk, ReadersOk, WriterOk, PassOk;
    var s' := DoAnnounce(c, s, rec);
    RoomLeft(c, s.ring, s.fsyncer);
    LogAfterAnnounce(c, s.ring, s.fsyncer, s.segs, s.mds, s.durable, s.flusher);
    StillAtRest(c, s.store, s.cbDurable, s.mds, s.flusher.pc, Start);
    forall w | 0 <= w < |s'.writers|
      ensures WriterOk(c, w, s'.writers[w], s'.durable) && PassOk(c, s'.flusher, w, s'.writers[w])
    {
      PassDone(c, s.flusher, s'.flusher, w, s.writers[w]);
      DurableKeeps(c, w, s.writers[w], s.durable);
    }
  }

  lemma PassDone(c: Config, fl: Flusher, fl': Flusher, w: nat, x: Writer)
    requires FlusherShape(c, fl.pc) && WriterShape(c, x) && PassOk(c, fl, w, x)
    requires fl.pc.Announce? && fl.stablePass && w < c.writerCount && fl'.pc.Start?
    ensures UpTo(x.Unflushed(), fl.target) == 0
    ensures PassOk(c, fl', w, x)
  {
  }

  lemma LogAfterAnnounce(c: Config, r: Ring, f: Fsyncer, segs: seq<seq<Entry>>, mds: map<nat, Record>, durable: nat,
                         fl: Flusher)
    requires LogOk(c, r, f, segs, mds, durable, fl.headDsid, fl.headOff, r.cur + 1)
    requires fl.pc.Announce? && fl.target == durable + 1 && ConcludeOk(c, r, mds, fl)
    requires c.Valid() && RingShape(c, r)
    requires r.slots[CurSlot(c, r)].written < c.segmentSize && r.slots[CurSlot(c, r)].dsid == r.cur
    ensures LogOk(c, r, f, segs, mds, durable + 1, r.cur, r.slots[CurSlot(c, r)].written, 0)
  {
    hide VisibleOk, DiskPending, MediaOk, Tiled, HeadOk;
    var rec := fl.pc.rec;
    MediaZero(r, segs);
    RecordFits(c, r, f, segs, mds, durable, fl);
    assert mds[durable + 1 := rec] == mds;
    TiledNext(c.segmentSize, segs, mds, durable, rec);
    MediaWeaken(r, segs, r.cur + 1, 0, r.cur, rec.toOff);
  }
}
