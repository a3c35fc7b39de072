/** The conditions the pipeline needs and the source does not enforce: for each, that the
    invariant survives the step exactly under the condition, and what goes wrong without it. */
module PipelineRaces {
  import opened Base
  import opened LogStream
  import opened Restart
  import opened Pipeline
  import opened WriterInvariant
  import opened RingInvariant
  import opened LogInvariant
  import opened EpochRanges
  import opened CursorInvariant
  import opened StoreInvariant
  import opened PipelineInvariant
  import opened PipelineRuns
  import opened Undisturbed
  import FlusherSteps
  import FsyncerSteps
  import RestartSteps
  import Mds
  import MdsCrash
  import MdsLayout

  // ================================================================ stopping in the middle of a stable pass

  /** Leaving the traversal early is harmless exactly if the pass is not a stable one, or the
      writers it skips have nothing of the target epoch left. */
  lemma BreakExactly(c: Config, s: State)
    requires Inv(c, s) && CanBreak(c, s)
    ensures Inv(c, DoBreak(s)) <==>
            (s.flusher.stablePass ==>
               forall v | s.flusher.pc.w < v < |s.writers| ::
                 s.writers[v].flushed <= |s.writers[v].submitted| && UpTo(s.writers[v].Unflushed(), s.flusher.target) == 0)
  {
    hide RingOk, LogOk, StoreOk, ReadersOk, StreamOk, WriterOk, ConcludeOk;
    var fl := s.flusher.(pc := Conclude);
    if forall v | 0 <= v < |s.writers| :: PassOk(c, fl, v, s.writers[v]) {
      FlusherSteps.MoveKeeps(c, s, fl);
    }
    forall v | 0 <= v < |s.writers|
      ensures PassOk(c, fl, v, s.writers[v]) <==> (fl.stablePass ==> UpTo(s.writers[v].Unflushed(), fl.target) == 0)
      ensures fl.stablePass && v <= s.flusher.pc.w ==> UpTo(s.writers[v].Unflushed(), fl.target) == 0
    {
      assert PassOk(c, s.flusher, v, s.writers[v]);
    }
  }

  /** Otherwise the flusher goes on to make the epoch durable without those bytes. */
  lemma BreakLosesBytes(c: Config, s: State, v: nat) returns (n: nat, t: State)
    requires Inv(c, s) && CanBreak(c, s) && s.flusher.stablePass
    requires s.flusher.pc.w < v < |s.writers| && s.writers[v].flushed <= |s.writers[v].submitted|
    requires UpTo(s.writers[v].Unflushed(), s.flusher.target) > 0
    ensures FlushesTo(c, DoBreak(s), n, t)
    ensures t.durable == s.flusher.target == s.durable + 1
    ensures t.writers == s.writers && UpTo(t.writers[v].Unflushed(), t.durable) > 0
  {
    hide Inv, Shape, UpTo, CanFlush, DoFlush;
    var rec, s1 := BreakConcludes(c, s);
    assert FlushesTo(c, DoBreak(s), 1, s1);
    var k, s2 := PersistsAll(c, s1, rec, s.ring.lastSynced, rec.fromSeg);
    var m, s3 := Finishes(c, s2, rec);
    FlushesOn(c, s1, k, s2, m, s3);
    FlushesOn(c, DoBreak(s), 1, s1, k + m, s3);
    n, t := 1 + k + m, s3;
  }

  lemma BreakConcludes(c: Config, s: State) returns (rec: Record, t: State)
    requires Inv(c, s) && CanBreak(c, s) && s.flusher.stablePass
    ensures CanFlush(c, DoBreak(s)) && t == DoFlush(c, DoBreak(s)) && Shape(c, t)
    ensures t == WithPc(s, Persist(rec, s.ring.lastSynced, rec.fromSeg)) && rec.fromSeg <= rec.toSeg
    ensures rec.epoch == s.flusher.target == s.durable + 1 && s.cbDurable <= rec.epoch
  {
    hide RingOk, LogOk, StoreOk, ReadersOk, StreamOk, WriterOk, WriterShape, PassOk;
    FlusherSteps.RoomLeft(c, s.ring, s.fsyncer);
    FlusherSteps.RecordFits(c, s.ring, s.fsyncer, s.segs, s.mds, s.durable, s.flusher);
    rec, t := NewRecord(c, s.ring, s.flusher), DoFlush(c, DoBreak(s));
  }

  /** The rest of the persist loop. */
  lemma {:induction false} PersistsAll(c: Config, s: State, rec: Record, onDisk: nat, d: nat) returns (n: nat, t: State)
    requires Shape(c, s) && s.flusher.pc == Persist(rec, onDisk, d) && d <= rec.toSeg + 1
    ensures FlushesTo(c, s, n, t) && Shape(c, t)
    ensures t.flusher == s.flusher.(pc := AllocPage(rec)) && t.writers == s.writers && t.cbDurable == s.cbDurable
    decreases rec.toSeg + 1 - d
  {
    hide Shape, DoFlush, CanFlush;
    var s1 := PersistsOnce(c, s, rec, onDisk, d);
    if d == rec.toSeg + 1 {
      n, t := 1, s1;
    } else {
      var m, s2 := PersistsAll(c, s1, rec, onDisk, d + 1);
      n, t := m + 1, s2;
    }
  }

  lemma PersistsOnce(c: Config, s: State, rec: Record, onDisk: nat, d: nat) returns (t: State)
    requires Shape(c, s) && s.flusher.pc == Persist(rec, onDisk, d)
    ensures CanFlush(c, s) && t == DoFlush(c, s) && Shape(c, t)
    ensures t.flusher == s.flusher.(pc := if d > rec.toSeg then AllocPage(rec) else Persist(rec, onDisk, d + 1))
    ensures t.writers == s.writers && t.cbDurable == s.cbDurable
  {
    hide WriterShape, SlotOf, RingShape, Flushed, SetSlot;
    t := DoFlush(c, s);
    if onDisk < d <= rec.toSeg {
      PersistedShape(c, s.ring, SlotOf(c.segmentCount, d), PersistFrom(rec, d), PersistTo(c, rec, d));
    }
  }

  lemma PersistedShape(c: Config, r: Ring, j: nat, from: nat, to: nat)
    requires RingShape(c, r) && j < c.segmentCount && from <= to <= c.segmentSize
    ensures |r.slots[j].nv| == |r.slots[j].media| == c.segmentSize
    ensures var r' := SetSlot(r, j, Flushed(r.slots[j], from, to)); RingShape(c, r') && r'.cur == r.cur
  {
  }

  /** Writing the record takes three steps, or five with a page turn, and announcing it one. */
  lemma Finishes(c: Config, s: State, rec: Record) returns (n: nat, t: State)
    requires Shape(c, s) && s.flusher.pc == AllocPage(rec) && s.cbDurable <= rec.epoch
    ensures FlushesTo(c, s, n, t) && t.durable == rec.epoch && t.writers == s.writers
  {
    hide Shape, DoFlush, CanFlush;
    var s1 := TakesPage(c, s, rec);
    assert FlushesTo(c, s, 1, s1);
    if s1.flusher.pc.WriteRecord? {
      var s4 := StoresRecord(c, s1, rec);
      FlushesOn(c, s, 1, s1, 3, s4);
      n, t := 4, s4;
    } else {
      var s2 := TakesPage(c, s1, rec);
      var s3 := TakesPage(c, s2, rec);
      assert FlushesTo(c, s1, 2, s3);
      var s6 := StoresRecord(c, s3, rec);
      FlushesOn(c, s1, 2, s3, 3, s6);
      FlushesOn(c, s, 1, s1, 5, s6);
      n, t := 6, s6;
    }
  }

  /** The record, the durable epoch in the control block, the durable epoch for everyone. */
  lemma StoresRecord(c: Config, s: State, rec: Record) returns (t: State)
    requires Shape(c, s) && s.flusher.pc == WriteRecord(rec) && s.cbDurable <= rec.epoch
    ensures FlushesTo(c, s, 3, t) && t.durable == rec.epoch && t.writers == s.writers
  {
    hide WriterShape, RingShape, SlotOf, MdsLayout.RecordSlot;
    var s1 := DoFlush(c, s);
    var s2 := DoFlush(c, s1);
    t := DoFlush(c, s2);
    assert FlushesTo(c, s2, 1, t);
    assert FlushesTo(c, s1, 2, t);
  }

  // ================================================================ the pair of fsync flags

  /** The flusher, recycling a segment, clears "completed" before "requested". In between, the
      fsyncer must not look at that segment. */
  predicate BetweenClears(c: Config, s: State)
    requires c.Valid() && RingShape(c, s.ring) && FsyncerShape(c, s.fsyncer)
  {
    && s.fsyncer.CheckRequest? && s.fsyncer.j == NextSlot(c, s.ring)
    && s.flusher.pc.Turning? && Resetting(s.flusher.pc.turn)
    && s.ring.slots[s.fsyncer.j].requested
  }

  lemma FlagPairExactly(c: Config, s: State)
    requires Inv(c, s) && CanSync(c, s)
    ensures Inv(c, DoSync(c, s)) <==> !BetweenClears(c, s)
  {
    hide LogOk, StoreOk, ReadersOk, StreamOk, WritersOk, FlushOk, ConcludeOk, EpochsOk;
    if Admissible(c, s, SyncStep) {
      FsyncerSteps.SyncStepKeeps(c, s);
    } else if !BetweenClears(c, s) {
      NotRequested(c, s);
    } else {
      assert SyncOk(c, s.ring, s.fsyncer) && TurnOk(c, s.ring, s.flusher.pc.turn);
      assert !SyncOk(c, s.ring, LoadDsid(s.fsyncer.j));
    }
  }

  lemma NotRequested(c: Config, s: State)
    requires Inv(c, s) && s.fsyncer.CheckRequest? && !s.ring.slots[s.fsyncer.j].requested
    ensures Inv(c, s.(fsyncer := Poll))
  {
    hide ReadersOk, StreamOk, StoreOk, WritersOk, FlushOk, ConcludeOk, EpochsOk, VisibleOk, MediaOk, Tiled, HeadOk,
         SlotOk, TurnOk;
    SameSyncPhase(c, s.ring, s.ring, TurnOf(s.flusher.pc), s.fsyncer, Poll);
    FsyncerSteps.RingStepKeeps(c, s, s.ring, Poll, s.cursors);
  }

  /** Otherwise the fsyncer records as synced a segment nothing was written to yet. */
  lemma FlagRaceSyncsUnwritten(c: Config, s: State) returns (t: State)
    requires Inv(c, s) && BetweenClears(c, s)
    ensures SyncsTo(c, s, 6, t)
    ensures t.ring.lastSynced == t.ring.cur + 1 == |t.segs| + 1
  {
    hide LogOk, StoreOk, ReadersOk, StreamOk, WriterOk, ConcludeOk, EpochsOk, SlotOk, PassOk, WriterShape;
    var j, d := s.fsyncer.j, s.ring.cur + 1;
    assert s.ring.slots[j].dsid == d;
    var s1 := DoSync(c, s);
    var s2 := DoSync(c, s1);
    var s3 := DoSync(c, s2);
    var s4 := DoSync(c, s3);
    var s5 := DoSync(c, s4);
    t := DoSync(c, s5);
    assert SyncsTo(c, s5, 1, t);
    assert SyncsTo(c, s4, 2, t);
    assert SyncsTo(c, s3, 3, t);
    assert SyncsTo(c, s2, 4, t);
    assert SyncsTo(c, s1, 5, t);
  }

  // ================================================================ recycling before the progress is recorded

  /** The fsyncer marks a segment completed before it advances the last synced DSID. In between,
      the flusher must not take that segment. */
  predicate BetweenProgressStores(c: Config, s: State)
    requires c.Valid() && RingShape(c, s.ring)
  {
    && s.flusher.pc.Turning? && s.flusher.pc.turn.Lock?
    && s.fsyncer.Bump? && s.fsyncer.j == NextSlot(c, s.ring)
  }

  lemma LockExactly(c: Config, s: State)
    requires Inv(c, s) && CanFlush(c, s) && s.flusher.pc.Turning? && s.flusher.pc.turn.Lock?
    ensures Inv(c, DoFlush(c, s)) <==> !BetweenProgressStores(c, s)
  {
    hide LogOk, StoreOk, ReadersOk, StreamOk, WritersOk, FlushOk, ConcludeOk, EpochsOk, SlotOk;
    if BetweenProgressStores(c, s) {
      NextOccupant(c, s.ring, Lock, s.fsyncer);
      assert !TurnOk(c, DoFlush(c, s).ring, SetDsid);
    } else {
      FlusherSteps.TurnStepKeeps(c, s, s.flusher.pc.w, s.flusher.pc.i, Lock);
    }
  }

  /** Otherwise a cursor that loaded the last synced DSID before can end up reading a segment that
      is not the one it opened: the flusher recycles the slot, the cursor pins it, sees no sync
      progress and does not look at the DSID. */
  lemma RecyclingRaceMisleadsReader(c: Config, s: State, k: nat) returns (t: State, u: State)
    requires Inv(c, s) && CanFlush(c, s) && BetweenProgressStores(c, s)
    requires k in s.cursors && s.cursors[k] == Loaded(s.ring.lastSynced + 1, s.ring.lastSynced)
    ensures FlushesTo(c, s, 6, t)
    ensures ReadsTo(c, t, k, 3, u)
    ensures RingShape(c, u.ring) && k in u.cursors && u.cursors[k] == OnNv(s.ring.lastSynced + 1)
    ensures u.ring.slots[SlotOf(c.segmentCount, s.ring.lastSynced + 1)].dsid == s.ring.lastSynced + 1 + c.segmentCount
  {
    hide LogOk, StoreOk, ReadersOk, StreamOk, WriterOk, ConcludeOk, EpochsOk, SlotOk, PassOk, WriterShape, SlotOf;
    var d, next := s.ring.lastSynced + 1, NextSlot(c, s.ring);
    NextOccupant(c, s.ring, Lock, s.fsyncer);
    assert SlotOf(c.segmentCount, d) == next && s.ring.slots[next].dsid == d;
    t := TurnsToEnd(c, s);
    u := OpensOnNv(c, t, k);
  }

  /** From the lock on, a turn runs through unhindered. */
  lemma TurnsToEnd(c: Config, s: State) returns (t: State)
    requires Shape(c, s) && CanFlush(c, s) && s.flusher.pc.Turning? && s.flusher.pc.turn.Lock?
    ensures FlushesTo(c, s, 6, t) && Shape(c, t)
    ensures t.cursors == s.cursors && t.ring.cur == s.ring.cur + 1 && t.ring.lastSynced == s.ring.lastSynced
    ensures t.ring.slots[NextSlot(c, s.ring)].dsid == s.ring.cur + 1 && t.ring.slots[NextSlot(c, s.ring)].pins == 0
  {
    hide WriterShape, SlotOf, FlusherShape, AdvanceShape, FsyncerShape, DoFlush;
    var s1 := TurnsOnce(c, s);
    var s2 := TurnsOnce(c, s1);
    assert FlushesTo(c, s1, 1, s2);
    assert FlushesTo(c, s, 2, s2);
    t := TurnsFreed(c, s2);
    FlushesOn(c, s, 2, s2, 4, t);
  }

  lemma TurnsFreed(c: Config, s: State) returns (t: State)
    requires Shape(c, s) && s.flusher.pc.Turning? && s.flusher.pc.turn.ClearCompleted?
    ensures FlushesTo(c, s, 4, t) && Shape(c, t)
    ensures t.cursors == s.cursors && t.ring.cur == s.ring.cur + 1 && t.ring.lastSynced == s.ring.lastSynced
    ensures var j := NextSlot(c, s.ring); t.ring.slots[j].dsid == s.ring.slots[j].dsid && t.ring.slots[j].pins == 0
  {
    hide WriterShape, SlotOf, FlusherShape, AdvanceShape, FsyncerShape, DoFlush, CanFlush;
    var s1 := TurnsOnce(c, s);
    var s2 := TurnsOnce(c, s1);
    var s3 := TurnsOnce(c, s2);
    t := TurnsOnce(c, s3);
    assert FlushesTo(c, s3, 1, t);
    assert FlushesTo(c, s2, 2, t);
    assert FlushesTo(c, s1, 3, t);
  }

  lemma TurnsOnce(c: Config, s: State) returns (t: State)
    requires Shape(c, s) && s.flusher.pc.Turning? && CanTurn(c, s.ring, s.flusher.pc.turn)
    ensures CanFlush(c, s) && t == DoFlush(c, s) && Shape(c, t)
    ensures t.cursors == s.cursors && t.ring == Turned(c, s.ring, s.flusher.pc.turn).0
    ensures t.flusher.pc == if s.flusher.pc.turn.Unlock? then LoadTail(s.flusher.pc.w, s.flusher.pc.i)
                            else s.flusher.pc.(turn := Turned(c, s.ring, s.flusher.pc.turn).1)
  {
    hide WriterShape, SlotOf, Turned;
    FlusherSteps.TurnedShape(c, s.ring, s.flusher.pc.turn);
    t := DoFlush(c, s);
  }

  /** With the slot free and no sync progress, three steps open it. */
  lemma OpensOnNv(c: Config, s: State, k: nat) returns (t: State)
    requires Shape(c, s) && k in s.cursors && s.cursors[k].Loaded? && s.cursors[k].synced == s.ring.lastSynced
    requires s.ring.slots[SlotOf(c.segmentCount, s.cursors[k].dsid)].pins == 0
    ensures ReadsTo(c, s, k, 3, t) && Shape(c, t)
    ensures k in t.cursors && t.cursors[k] == OnNv(s.cursors[k].dsid)
    ensures forall j | 0 <= j < |s.ring.slots| :: |t.ring.slots| == |s.ring.slots| && t.ring.slots[j].dsid == s.ring.slots[j].dsid
  {
    hide WriterShape, SlotOf;
    var s1 := DoRead(c, s, k);
    var s2 := DoRead(c, s1, k);
    t := DoRead(c, s2, k);
    assert ReadsTo(c, s2, k, 1, t);
    assert ReadsTo(c, s1, k, 2, t);
  }

  // ================================================================ restart

  /** A restart re-establishes the invariant exactly if the segment it resumes in is not synced yet,
      the last durable epoch did not cross a segment boundary, and the metadata store is not in the
      middle of a page turn. */
  lemma RestartExactly(c: Config, s: State, buffers: seq<seq<byte>>)
    requires Inv(c, s) && CanRestart(c, s, buffers) && s.ring.lastSynced + c.segmentCount < TWO32
    ensures var rec := ResumeRecord(c, s);
            Inv(c, DoRestart(c, s, buffers)) <==>
            s.ring.lastSynced < rec.toSeg && rec.fromSeg == rec.toSeg && MdsCrash.Sound(c.pageCap, ImageOf(s))
  {
    hide ReadersOk, StreamOk, StoreOk, WriterOk, FlushOk, ConcludeOk, SlotOk, TurnOk, SyncOk, VisibleOk, MediaOk, Tiled,
         HeadOk, Stored, MdsCrash.Sound, MdsLayout.PageNo;
    if Admissible(c, s, RestartStep(buffers)) {
      RestartSteps.RestartKeeps(c, s, buffers);
    }
    var s' := DoRestart(c, s, buffers);
    if Inv(c, s') {
      UnsoundDoesNotReopen(c, s, s'.mds);
    }
  }

  /** When it is: from the append of a full page to the store that makes the next epoch durable. */
  lemma PageTurnWindow(c: Config, s: State)
    requires Inv(c, s)
    ensures var pc := s.flusher.pc;
            MdsCrash.Sound(c.pageCap, ImageOf(s)) <==>
            !(pc.SetPaged? || pc.TakePage? ||
              ((pc.WriteRecord? || pc.BumpDurable?) && s.cbDurable > 0 && s.cbDurable % c.pageCap == 0))
  {
    hide RingOk, LogOk, StoreOk, ReadersOk, StreamOk, WriterOk, FlushOk, ConcludeOk, MdsCrash.Sound;
    SoundExactly(c, s);
  }

  /** At the end of that window a restart loses the record of a durable epoch: for the first epoch of
      the page before, the store returns the record of an epoch that is not durable. */
  lemma PageTurnLosesRecord(c: Config, s: State, buffers: seq<seq<byte>>)
    requires Inv(c, s) && CanRestart(c, s, buffers)
    requires s.flusher.pc.BumpDurable? && s.cbDurable > 0 && s.cbDurable % c.pageCap == 0
    ensures c.pageCap <= s.cbDurable
    ensures var s', e := DoRestart(c, s, buffers), s.cbDurable - c.pageCap + 1;
            && 1 <= e <= s'.durable && e in s.mds && s.mds[e].epoch == e
            && s'.mds[e] == s.flusher.pc.rec && s'.mds[e].epoch == s'.durable + 1
  {
    hide RingOk, LogOk, ReadersOk, StreamOk, WriterOk, FlushOk, Phase, MdsLayout.PageNo, MdsLayout.RecordSlot;
    var cap, n, log := c.pageCap, s.cbDurable, Recorded(s.mds, s.cbDurable);
    RecordEpoch(c, s);
    FirstOfLastPage(cap, s.store, log, s.flusher.pc.rec);
    assert Stored(c, Reopened(c, s), n - cap + 1) == s.flusher.pc.rec;
  }

  lemma FirstOfLastPage(cap: nat, m: Metadata, log: seq<Record>, rec: Record)
    requires Phase(cap, m, log, BumpDurable(rec)) && |log| > 0 && |log| % cap == 0
    ensures cap <= |log| && log[|log| - cap].epoch == |log| - cap + 1
    ensures MdsLayout.PageNo(cap, |log| - cap + 1) == MdsLayout.PageNo(cap, |log|)
    ensures m.page[MdsLayout.RecordSlot(cap, |log| - cap + 1)] == rec
  {
    hide MdsLayout.PageNo, MdsLayout.RecordSlot, MdsLayout.PageStart;
    var n := |log|;
    var p := MdsLayout.PageNo(cap, n + 1);
    MdsLayout.PageBounds(cap, n + 1);
    StartOfPage(cap, n + 1);
    Mds.FirstPage(cap);
    MdsLayout.NextStart(cap, p - 1);
    MdsLayout.PageIs(cap, n, p - 1);
    MdsLayout.PageIs(cap, n - cap + 1, p - 1);
    MdsLayout.PageBounds(cap, n - cap + 1);
  }

  /** If it did cross a boundary, the next epoch is recorded to start inside the durable one. */
  lemma RestartOverlaps(c: Config, s: State, buffers: seq<seq<byte>>)
    requires Inv(c, s) && CanRestart(c, s, buffers) && s.cbDurable > 0 && s.ring.lastSynced + c.segmentCount < TWO32
    requires s.cbDurable in s.mds && s.mds[s.cbDurable].fromSeg < s.mds[s.cbDurable].toSeg
    ensures var s', rec := DoRestart(c, s, buffers), s.mds[s.cbDurable];
            var d, o := rec.fromSeg, c.segmentSize - 1;
            && InRange(rec, d, o)
            && Before(s'.flusher.headDsid, s'.flusher.headOff, rec.toSeg, rec.toOff)
            && !Before(d, o, s'.flusher.headDsid, s'.flusher.headOff)
  {
    hide RingOk, ReadersOk, StreamOk, WriterOk, FlushOk, ConcludeOk, LogOk, StoreOk;
    RestartSteps.RestartPoint(c, s);
    RestartSteps.RestartRecord(c, s.ring, s.fsyncer, s.segs, s.mds, s.cbDurable);
    LatestSurvives(c, s);
  }

  /** If the segment was synced already, no slot carries it any more, and the bytes appended after
      the restart go to a slot with another number. */
  lemma RestartLosesCurrentSegment(c: Config, s: State, buffers: seq<seq<byte>>)
    requires Inv(c, s) && CanRestart(c, s, buffers) && s.cbDurable > 0 && s.ring.lastSynced + c.segmentCount < TWO32
    requires s.cbDurable in s.mds && s.mds[s.cbDurable].toSeg <= s.ring.lastSynced
    ensures var r := DoRestart(c, s, buffers).ring;
            |r.slots| == c.segmentCount && forall j | 0 <= j < |r.slots| :: r.slots[j].dsid > r.cur
  {
    hide RingOk, ReadersOk, StreamOk, WriterOk, FlushOk, ConcludeOk, LogOk, StoreOk, RestartDsid;
    LatestSurvives(c, s);
    forall j | 0 <= j < c.segmentCount ensures RestartDsid(c.segmentCount, s.ring.lastSynced, j) > s.ring.lastSynced {
      RestartDsidInRange(c.segmentCount, s.ring.lastSynced, j);
    }
  }
}
