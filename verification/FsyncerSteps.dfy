/** The steps of the fsyncer and of cursors, and evictions, keep the pipeline invariant. */
module FsyncerSteps {
  import opened Base
  import opened Restart
  import opened Pipeline
  import opened RingInvariant
  import opened LogInvariant
  import opened EpochRanges
  import opened CursorInvariant
  import opened WriterInvariant
  import opened StoreInvariant
  import opened PipelineInvariant

  /** What the flusher relies on in the current segment while others work on the ring. */
  predicate SameCurrent(c: Config, r: Ring, r': Ring)
    requires c.Valid() && RingShape(c, r) && RingShape(c, r')
  {
    && r'.cur == r.cur && r'.lastSynced >= r.lastSynced
    && (forall j | 0 <= j < |r.slots| :: r'.slots[j].dsid == r.slots[j].dsid)
    && var x, y := r.slots[CurSlot(c, r)], r'.slots[CurSlot(c, r)];
    x.dsid == y.dsid && x.written == y.written && x.nv == y.nv
  }

  /** A step that only touches the ring, the fsyncer and the cursors. */
  lemma RingStepKeeps(c: Config, s: State, r: Ring, f: Fsyncer, cursors: map<nat, Cursor>)
    requires Inv(c, s) && RingShape(c, r) && SameCurrent(c, s.ring, r)
    requires RingOk(c, r, TurnOf(s.flusher.pc), f)
    requires LogOk(c, r, f, s.segs, s.mds, s.durable, s.flusher.headDsid, s.flusher.headOff, Progress(s.ring, s.flusher.pc))
    requires ReadersOk(c, r, TurnOf(s.flusher.pc), cursors)
    ensures Inv(c, s.(ring := r, fsyncer := f, cursors := cursors))
  {
    hide LogOk, StoreOk, StreamOk, WriterOk, PassOk, SlotOk, TurnOk, SyncOk, PinOk, CursorOk, WriterShape;
  }

  // ================================================================ the fsyncer

  lemma SyncStepKeeps(c: Config, s: State)
    requires Inv(c, s) && CanSync(c, s) && Admissible(c, s, SyncStep)
    ensures Inv(c, DoSync(c, s))
  {
    hide RingOk, LogOk, StoreOk, ReadersOk, StreamOk, WriterOk, FlushOk, ConcludeOk, EpochsOk;
    var s' := DoSync(c, s);
    SyncLog(c, s.ring, TurnOf(s.flusher.pc), s.fsyncer, s'.ring, s'.fsyncer, s.segs, s.mds, s.durable, s.flusher.headDsid,
            s.flusher.headOff, Progress(s.ring, s.flusher.pc));
    SyncReaders(c, s.ring, TurnOf(s.flusher.pc), s.fsyncer, s'.ring, s'.fsyncer, s.cursors);
    RingStepKeeps(c, s, s'.ring, s'.fsyncer, s.cursors);
  }

  lemma SyncLog(c: Config, r: Ring, turn: Turn, f: Fsyncer, r': Ring, f': Fsyncer, segs: seq<seq<Entry>>,
                mds: map<nat, Record>, durable: nat, headDsid: nat, headOff: nat, progress: nat)
    requires RingOk(c, r, turn, f) && LogOk(c, r, f, segs, mds, durable, headDsid, headOff, progress) && !f.Stopped?
    requires c.Valid() && RingShape(c, r) && FsyncerShape(c, f) && (r', f') == Synced(c, r, f)
    requires f.Poll? ==> !r.slots[r.lastSynced % c.segmentCount].completed
    requires !(f.CheckRequest? && Resetting(turn) && f.j == NextSlot(c, r))
    ensures RingOk(c, r', turn, f') && LogOk(c, r', f', segs, mds, durable, headDsid, headOff, progress)
    ensures RingShape(c, r') && SameCurrent(c, r, r')
  {
    hide VisibleOk, MediaOk, Tiled, HeadOk, SlotOk, TurnOk, SyncOk;
    SyncKeeps(c, r, turn, f, r', f');
    SyncImages(c, r, turn, f, r', f', segs, headDsid, headOff);
    SyncImages(c, r, turn, f, r', f', segs, progress, 0);
    if f.Bump? { BumpsNext(c, r, turn, f.j, f.d); }
  }

  lemma BumpsNext(c: Config, r: Ring, turn: Turn, j: nat, d: nat)
    requires RingOk(c, r, turn, Bump(j, d))
    ensures d == r.lastSynced + 1
  {
  }

  lemma SyncImages(c: Config, r: Ring, turn: Turn, f: Fsyncer, r': Ring, f': Fsyncer, segs: seq<seq<Entry>>, d: nat,
                   o: nat)
    requires RingOk(c, r, turn, f) && SegsOk(c, r, segs)
    requires (r', f') == Synced(c, r, f)
    requires VisibleOk(r, segs) && DiskPending(r, f, segs) && MediaOk(r, segs, d, o)
    ensures VisibleOk(r', segs) && DiskPending(r', f', segs) && MediaOk(r', segs, d, o)
  {
    hide VisibleOk, MediaOk, SlotOk, TurnOk, SyncOk, SegsOk;
    match f
    case WriteDisk(j, e) => WriteDiskKeeps(c, r, segs, turn, j, e, d, o);
    case Bump(j, e) => BumpKeeps(c, r, segs, turn, j, e, d, o);
    case _ => ImagesKept(r, r', segs, f, d, o);
  }

  lemma SyncReaders(c: Config, r: Ring, turn: Turn, f: Fsyncer, r': Ring, f': Fsyncer, cursors: map<nat, Cursor>)
    requires RingOk(c, r, turn, f) && ReadersOk(c, r, turn, cursors) && (r', f') == Synced(c, r, f)
    ensures ReadersOk(c, r', turn, cursors)
  {
    hide PinOk, CursorOk, SlotOk, TurnOk;
    ReadersKept(c, r, r', turn, turn, cursors);
  }

  /** A failed write leaves an error flag and possibly a torn file of the segment not yet recorded. */
  lemma SyncFailStepKeeps(c: Config, s: State, partial: seq<byte>)
    requires Inv(c, s) && CanSyncFail(c, s)
    ensures Inv(c, DoSyncFail(c, s, partial))
  {
    hide RingOk, LogOk, StoreOk, ReadersOk, StreamOk, WriterOk, FlushOk, ConcludeOk, EpochsOk;
    var s' := DoSyncFail(c, s, partial);
    FailLog(c, s.ring, TurnOf(s.flusher.pc), s.fsyncer, s'.ring, s.segs, s.mds, s.durable, s.flusher.headDsid,
            s.flusher.headOff, Progress(s.ring, s.flusher.pc), partial, s.cursors);
    RingStepKeeps(c, s, s'.ring, Stopped, s.cursors);
  }

  lemma FailLog(c: Config, r: Ring, turn: Turn, f: Fsyncer, r': Ring, segs: seq<seq<Entry>>, mds: map<nat, Record>,
                durable: nat, headDsid: nat, headOff: nat, progress: nat, partial: seq<byte>, cursors: map<nat, Cursor>)
    requires RingOk(c, r, turn, f) && LogOk(c, r, f, segs, mds, durable, headDsid, headOff, progress)
    requires ReadersOk(c, r, turn, cursors)
    requires c.Valid() && RingShape(c, r) && FsyncerShape(c, f) && f.WriteDisk?
    requires r' == SetSlot(r, f.j, r.slots[f.j].(error := true)).(disk := r.disk[f.d := partial])
    ensures RingOk(c, r', turn, Stopped) && LogOk(c, r', Stopped, segs, mds, durable, headDsid, headOff, progress)
    ensures ReadersOk(c, r', turn, cursors)
    ensures RingShape(c, r') && SameCurrent(c, r, r')
  {
    hide VisibleOk, MediaOk, Tiled, HeadOk, SlotOk, TurnOk, SyncOk, PinOk, CursorOk;
    SyncStopKeeps(c, r, turn, f);
    DiskIsElsewhere(c, SetSlot(r, f.j, r.slots[f.j].(error := true)), turn, Stopped, r'.disk);
    DiskFailKeeps(c, r, segs, turn, f.j, f.d, headDsid, headOff, partial, r');
    DiskFailKeeps(c, r, segs, turn, f.j, f.d, progress, 0, partial, r');
    ReadersKept(c, r, r', turn, turn, cursors);
  }

  lemma SyncStopStepKeeps(c: Config, s: State)
    requires Inv(c, s) && CanSyncStop(c, s)
    ensures Inv(c, s.(fsyncer := Stopped))
  {
    hide ReadersOk, StreamOk, StoreOk, WriterOk, FlushOk, ConcludeOk, EpochsOk, VisibleOk, MediaOk, Tiled, HeadOk,
         SlotOk, TurnOk;
    SyncStopKeeps(c, s.ring, TurnOf(s.flusher.pc), s.fsyncer);
    RingStepKeeps(c, s, s.ring, Stopped, s.cursors);
  }

  // ================================================================ cursors

  /** A cursor step: pins and cursors change, nothing else. */
  lemma PinsKeep(c: Config, s: State, r: Ring, cursors: map<nat, Cursor>)
    requires Inv(c, s) && RingShape(c, r) && r.cur == s.ring.cur && r.lastSynced == s.ring.lastSynced
    requires r.disk == s.ring.disk
    requires forall j | 0 <= j < |r.slots| :: r.slots[j] == s.ring.slots[j].(pins := r.slots[j].pins)
    requires ReadersOk(c, r, TurnOf(s.flusher.pc), cursors)
    ensures Inv(c, s.(ring := r, cursors := cursors))
  {
    hide ReadersOk, StreamOk, StoreOk, WriterOk, FlushOk, ConcludeOk, EpochsOk, VisibleOk, MediaOk, DiskPending, Tiled,
         HeadOk, SlotOk, TurnOk, SyncOk;
    FlagsKept(c, s.ring, r, TurnOf(s.flusher.pc), s.fsyncer);
    ImagesKept(s.ring, r, s.segs, s.fsyncer, s.flusher.headDsid, s.flusher.headOff);
    ImagesKept(s.ring, r, s.segs, s.fsyncer, Progress(s.ring, s.flusher.pc), 0);
    RingStepKeeps(c, s, r, s.fsyncer, cursors);
  }

  lemma OpenStepKeeps(c: Config, s: State, k: nat, dsid: nat)
    requires Inv(c, s) && CanOpen(c, s, k, dsid)
    ensures Inv(c, DoOpen(s, k, dsid))
  {
    hide RingOk, LogOk, StoreOk, StreamOk, WriterOk, FlushOk, ConcludeOk, EpochsOk, PinOk;
    var s' := DoOpen(s, k, dsid);
    MoveReaders(c, s.ring, TurnOf(s.flusher.pc), s.cursors, k, s'.cursors[k]);
    PinsKeep(c, s, s.ring, s'.cursors);
  }

  lemma ReadStepKeeps(c: Config, s: State, k: nat)
    requires Inv(c, s) && CanRead(c, s, k)
    ensures Inv(c, DoRead(c, s, k))
  {
    hide RingOk, LogOk, StoreOk, StreamOk, WriterOk, FlushOk, ConcludeOk, EpochsOk, PinOk;
    var s' := DoRead(c, s, k);
    var turn, x := TurnOf(s.flusher.pc), s.cursors[k];
    assert CursorOk(c, s.ring, x);
    if x.Pinned? || x.Verify? {
      OpenedReaders(c, s.ring, turn, s.fsyncer, s.cursors, k, s'.cursors[k]);
    } else if s'.cursors[k].Pinned? {
      PinReaders(c, s.ring, turn, s.cursors, k, x.dsid, x.synced);
    } else {
      MoveReaders(c, s.ring, turn, s.cursors, k, s'.cursors[k]);
    }
    PinsKeep(c, s, s'.ring, s'.cursors);
  }

  lemma ReleaseStepKeeps(c: Config, s: State, k: nat)
    requires Inv(c, s) && CanRelease(c, s, k)
    ensures Inv(c, DoRelease(c, s, k))
  {
    hide RingOk, LogOk, StoreOk, StreamOk, WriterOk, FlushOk, ConcludeOk, EpochsOk, PinOk;
    var s' := DoRelease(c, s, k);
    ReleaseReaders(c, s.ring, TurnOf(s.flusher.pc), s.cursors, k);
    PinsKeep(c, s, s'.ring, s'.cursors);
  }

  // ================================================================ the memory

  lemma EvictStepKeeps(c: Config, s: State, j: nat, k: nat)
    requires Inv(c, s) && CanEvict(c, s, j, k)
    ensures Inv(c, DoEvict(c, s, j, k))
  {
    hide StreamOk, StoreOk, WriterOk, FlushOk, ConcludeOk, EpochsOk, VisibleOk, MediaOk, DiskPending, Tiled, HeadOk,
         SlotOk, TurnOk, SyncOk, PinOk, CursorOk;
    var r := DoEvict(c, s, j, k).ring;
    var turn := TurnOf(s.flusher.pc);
    FlagsKept(c, s.ring, r, turn, s.fsyncer);
    SyncMediaKeeps(c, s.ring, s.segs, s.fsyncer, s.flusher.headDsid, s.flusher.headOff, j, r.slots[j].media, r);
    SyncMediaKeeps(c, s.ring, s.segs, s.fsyncer, Progress(s.ring, s.flusher.pc), 0, j, r.slots[j].media, r);
    ReadersKept(c, s.ring, r, turn, turn, s.cursors);
    RingStepKeeps(c, s, r, s.fsyncer, s.cursors);
  }
}
