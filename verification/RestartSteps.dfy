/** Start-up: a new log satisfies the pipeline invariant, and so does a log reopened after a crash
    at any point. */
module RestartSteps {
  import opened Base
  import opened LogStream
  import opened Restart
  import opened Pipeline
  import opened WriterInvariant
  import opened RingInvariant
  import opened LogInvariant
  import opened EpochRanges
  import opened CursorInvariant
  import opened StoreInvariant
  import opened PipelineInvariant
  import FlusherSteps
  import MdsCrash
  import MdsLayout

  // ================================================================ what a crash leaves

  /** The durable epoch in the control block is one whose bytes are safe and whose record is there,
      wherever the flusher was. */
  lemma RestartPoint(c: Config, s: State)
    requires Inv(c, s)
    ensures LogOk(c, s.ring, s.fsyncer, s.segs, s.mds, s.cbDurable, EndSeg(s.mds, s.cbDurable), EndOff(s.mds, s.cbDurable), 0)
    ensures s.durable <= s.cbDurable
  {
    hide RingOk, ReadersOk, StreamOk, StoreOk, WriterOk, FlushOk, VisibleOk, DiskPending, MediaOk, Tiled, HeadOk;
    FlusherSteps.MediaZero(s.ring, s.segs);
    if s.flusher.pc.Announce? {
      FlusherSteps.RoomLeft(c, s.ring, s.fsyncer);
      FlusherSteps.LogAfterAnnounce(c, s.ring, s.fsyncer, s.segs, s.mds, s.durable, s.flusher);
    }
  }

  /** The record a restart finds is well placed. */
  lemma RestartRecord(c: Config, r: Ring, f: Fsyncer, segs: seq<seq<Entry>>, mds: map<nat, Record>, n: nat)
    requires LogOk(c, r, f, segs, mds, n, EndSeg(mds, n), EndOff(mds, n), 0) && n > 0
    ensures n in mds && RangeOk(c.segmentSize, segs, mds[n]) && mds[n].epoch == n && |segs| == r.cur
  {
    assert RecordOk(c.segmentSize, segs, mds, n);
  }

  /** So a crash at any point can be recovered from. */
  lemma RestartEnabled(c: Config, s: State, buffers: seq<seq<byte>>)
    requires Inv(c, s) && |buffers| == c.writerCount
    requires forall w | 0 <= w < |buffers| :: |buffers[w]| == c.bufferSize
    ensures CanRestart(c, s, buffers)
  {
    hide RingOk, ReadersOk, StreamOk, WriterOk, FlushOk, LogOk, StoreOk, ConcludeOk;
    RestartPoint(c, s);
    if s.cbDurable > 0 {
      RestartRecord(c, s.ring, s.fsyncer, s.segs, s.mds, s.cbDurable);
      LatestSurvives(c, s);
    }
  }

  // ================================================================ the reopened ring

  lemma ReopenedShape(c: Config, r: Ring, rec: Record)
    requires c.Valid() && RingShape(c, r) && r.lastSynced + c.segmentCount < TWO32
    requires 1 <= rec.toSeg && rec.toOff < c.segmentSize
    ensures RingShape(c, ReopenedRing(c, r, rec))
  {
    forall j | 0 <= j < c.segmentCount ensures RestartDsid(c.segmentCount, r.lastSynced, j) >= 1 {
      RestartDsidInRange(c.segmentCount, r.lastSynced, j);
    }
  }

  lemma ReopenedRingOk(c: Config, r: Ring, rec: Record)
    requires c.Valid() && RingShape(c, r) && r.lastSynced + c.segmentCount < TWO32
    requires r.lastSynced < rec.toSeg <= r.lastSynced + c.segmentCount && rec.toOff < c.segmentSize
    ensures RingOk(c, ReopenedRing(c, r, rec), NoTurn, Poll)
  {
    hide RestartDsid, SlotOf;
    ReopenedShape(c, r, rec);
    var r' := ReopenedRing(c, r, rec);
    forall j | 0 <= j < |r'.slots| ensures SlotOk(c, r', NoTurn, Poll, j) {
      RestartDsidInRange(c.segmentCount, r.lastSynced, j);
    }
    RestartDsidIsUnique(c.segmentCount, r.lastSynced, SlotOf(c.segmentCount, rec.toSeg));
  }

  // ================================================================ the reopened log

  /** Slots in use come back with the bytes the media kept for them. */
  lemma ReopenedSlotShows(c: Config, r: Ring, turn: Turn, f: Fsyncer, segs: seq<seq<Entry>>, rec: Record, j: nat)
    requires RingOk(c, r, turn, f) && r.lastSynced + c.segmentCount < TWO32
    requires r.lastSynced < rec.toSeg <= r.cur == |segs| && rec.toOff <= |segs[rec.toSeg - 1]|
    requires MediaOk(r, segs, rec.toSeg, rec.toOff)
    requires forall i | 0 <= i < |segs| :: |segs[i]| <= c.segmentSize
    requires j < c.segmentCount
    ensures var x := ReopenedRing(c, r, rec).slots[j];
            1 <= x.dsid <= rec.toSeg ==> Holds(x.nv, Truncated(segs, rec)[x.dsid - 1])
  {
    hide RestartDsid, SlotOf, MediaOk, SlotOk, TurnOk, SyncOk;
    var x := ReopenedRing(c, r, rec).slots[j];
    var segs': seq<seq<Entry>> := Truncated(segs, rec);
    RestartDsidInRange(c.segmentCount, r.lastSynced, j);
    if x.dsid <= rec.toSeg {
      InRing(c, r, turn, f, x.dsid);
      forall k: nat | k < |segs'[x.dsid - 1]| ensures x.nv[k] == segs'[x.dsid - 1][k].data {
        MediaHas(r, segs, rec.toSeg, rec.toOff, j, k);
      }
    }
  }

  lemma MediaHas(r: Ring, segs: seq<seq<Entry>>, d: nat, o: nat, j: nat, k: nat)
    requires MediaOk(r, segs, d, o) && Due(r, segs, d, o, j, k)
    ensures Persisted(r, segs, j, k)
  {
  }

  lemma ReopenedVisible(c: Config, r: Ring, turn: Turn, f: Fsyncer, segs: seq<seq<Entry>>, rec: Record)
    requires RingOk(c, r, turn, f) && SegsOk(c, r, segs) && r.lastSynced + c.segmentCount < TWO32
    requires r.lastSynced < rec.toSeg <= r.cur && rec.toOff < c.segmentSize && rec.toOff <= |segs[rec.toSeg - 1]|
    requires VisibleOk(r, segs) && MediaOk(r, segs, rec.toSeg, rec.toOff)
    ensures VisibleOk(ReopenedRing(c, r, rec), Truncated(segs, rec))
    ensures SegsOk(c, ReopenedRing(c, r, rec), Truncated(segs, rec))
  {
    hide RestartDsid, SlotOf, MediaOk, SlotOk, TurnOk, SyncOk;
    var r', segs' := ReopenedRing(c, r, rec), Truncated(segs, rec);
    ReopenedShape(c, r, rec);
    forall j | 0 <= j < |r'.slots| ensures Shows(r', segs', j) {
      ReopenedSlotShows(c, r, turn, f, segs, rec, j);
    }
    forall d | 1 <= d <= r'.lastSynced ensures OnDiskOk(r', segs', d) {
      assert OnDiskOk(r, segs, d);
      assert segs'[d - 1] == segs[d - 1];
    }
    RestartDsidIsUnique(c.segmentCount, r.lastSynced, SlotOf(c.segmentCount, rec.toSeg));
  }

  /** Right after a restart the visible image and the media agree. */
  lemma ReopenedMedia(c: Config, r: Ring, segs: seq<seq<Entry>>, d: nat, o: nat)
    requires VisibleOk(r, segs)
    requires forall j | 0 <= j < |r.slots| :: r.slots[j].media == r.slots[j].nv
    ensures MediaOk(r, segs, d, o)
  {
    forall j: nat, k: nat | Due(r, segs, d, o, j, k) ensures Persisted(r, segs, j, k) {
      assert Shows(r, segs, j);
    }
  }

  lemma ReopenedLogOk(c: Config, r: Ring, turn: Turn, f: Fsyncer, segs: seq<seq<Entry>>, mds: map<nat, Record>, n: nat,
                      rec: Record, r': Ring, segs': seq<seq<Entry>>, mds': map<nat, Record>)
    requires c.Valid() && RingShape(c, r) && r.lastSynced + c.segmentCount < TWO32
    requires 1 <= rec.toSeg <= |segs| && rec.toOff <= |segs[rec.toSeg - 1]|
    requires r' == ReopenedRing(c, r, rec) && segs' == Truncated(segs, rec)
    requires RingOk(c, r, turn, f) && LogOk(c, r, f, segs, mds, n, EndSeg(mds, n), EndOff(mds, n), 0)
    requires n > 0 && n in mds && rec == mds[n] && r.lastSynced < rec.toSeg
    requires forall e | 1 <= e <= n && e in mds :: e in mds' && mds'[e] == mds[e]
    ensures RingShape(c, r') && RingOk(c, r', NoTurn, Poll)
    ensures LogOk(c, r', Poll, segs', mds', n, rec.toSeg, rec.toOff, 0)
  {
    hide VisibleOk, MediaOk, Tiled, HeadOk, SlotOk, TurnOk, SyncOk, ReopenedSlot;
    RestartRecord(c, r, f, segs, mds, n);
    ReopenedRingOk(c, r, rec);
    ReopenedVisible(c, r, turn, f, segs, rec);
    assert forall j | 0 <= j < |r'.slots| :: r'.slots[j].media == r'.slots[j].nv by {
      ReopenedImages(c, r, rec);
    }
    ReopenedMedia(c, r', segs', rec.toSeg, rec.toOff);
    ReopenedMedia(c, r', segs', 0, 0);
    TiledTruncated(c.segmentSize, segs, mds, n, segs', mds');
  }

  lemma ReopenedImages(c: Config, r: Ring, rec: Record)
    requires c.Valid() && RingShape(c, r)
    ensures var r' := ReopenedRing(c, r, rec);
            forall j | 0 <= j < |r'.slots| :: r'.slots[j].media == r'.slots[j].nv && r'.slots[j].pins == 0
  {
  }

  // ================================================================ the stream

  lemma {:induction false} FlatPrefix(segs: seq<seq<Entry>>, n: nat)
    requires n <= |segs|
    ensures Flat(segs[..n]) <= Flat(segs)
  {
    if n < |segs| {
      FlatPrefix(segs[..|segs| - 1], n);
      assert segs[..|segs| - 1][..n] == segs[..n];
    } else {
      assert segs[..n] == segs;
    }
  }

  lemma TruncatedIsPrefix(segs: seq<seq<Entry>>, rec: Record)
    requires 1 <= rec.toSeg <= |segs| && rec.toOff <= |segs[rec.toSeg - 1]|
    ensures Flat(Truncated(segs, rec)) <= Flat(segs)
  {
    hide Flat;
    var k := rec.toSeg - 1;
    FlatPrefix(segs, k + 1);
    assert segs[..k + 1] == segs[..k] + [segs[k]];
    FlatSnoc(segs[..k], segs[k]);
    FlatSnoc(segs[..k], segs[k][..rec.toOff]);
  }

  lemma StreamOfPrefix(writers: seq<Writer>, prior: seq<seq<Entry>>, segs: seq<seq<Entry>>, durable: nat,
                       writers': seq<Writer>, prior': seq<seq<Entry>>, segs': seq<seq<Entry>>, durable': nat)
    requires StreamOk(writers, prior, segs, durable) && Flat(segs') <= Flat(segs) && durable <= durable'
    requires |writers'| == |prior'|
    requires forall w | 0 <= w < |writers'| :: writers'[w].flushed == 0 && prior'[w] == OfWriter(Flat(segs'), w)
    ensures StreamOk(writers', prior', segs', durable')
  {
    var a, b := Flat(segs'), Flat(segs);
    assert forall i | 0 <= i < |a| :: a[i] == b[i];
    assert forall w | 0 <= w < |writers'| :: writers'[w].submitted[..0] == [];
  }

  // ================================================================ restart and start

  /** Everything about a freshly started instance except the log itself. */
  lemma FreshKeeps(c: Config, s: State, buffers: seq<seq<byte>>)
    requires c.Valid() && |buffers| == |s.writers| == |s.prior| == c.writerCount
    requires forall w | 0 <= w < |buffers| :: |buffers[w]| == c.bufferSize && s.writers[w] == FreshWriter(buffers[w])
    requires s.flusher.pc.Start? && s.flusher.headDsid >= 1 && s.fsyncer.Poll? && s.cursors == map[]
    requires s.advancing == map[]
    requires s.stable == s.durable == s.cbDurable
    requires RingShape(c, s.ring) && (forall j | 0 <= j < |s.ring.slots| :: s.ring.slots[j].pins == 0)
    requires RingOk(c, s.ring, NoTurn, Poll)
    requires LogOk(c, s.ring, Poll, s.segs, s.mds, s.durable, s.flusher.headDsid, s.flusher.headOff, 0)
    requires StoreOk(c, s.store, s.cbDurable, s.mds, Start) && |s.store.page| == c.pageCap
    requires s.store.paged <= s.cbDurable
    requires StreamOk(s.writers, s.prior, s.segs, s.durable)
    ensures Inv(c, s)
  {
    hide RingOk, VisibleOk, MediaOk, Tiled, HeadOk, StreamOk, StoreOk, WriterOk;
    forall w | 0 <= w < |s.writers| ensures WriterOk(c, w, s.writers[w], s.durable) && WriterShape(c, s.writers[w]) {
      FreshWriterOk(c, w, buffers[w], s.durable);
    }
  }

  lemma NewRingOk(c: Config, disk: map<nat, seq<byte>>, mds: map<nat, Record>)
    requires c.Valid()
    ensures var r := NewRing(c, 0, disk);
            RingShape(c, r) && RingOk(c, r, NoTurn, Poll) && LogOk(c, r, Poll, [[]], mds, 0, 1, 0, 0)
  {
    var r := NewRing(c, 0, disk);
    hide SlotOf;
    forall j | 0 <= j < |r.slots| ensures SlotOf(c.segmentCount, j + 1) == j && SlotOk(c, r, NoTurn, Poll, j) {
      DivModUnique(c.segmentCount, j, 0, j);
      SlotOfIs(c.segmentCount, j + 1);
    }
    assert SlotOf(c.segmentCount, 1) == 0;
  }

  lemma SlotOfIs(n: nat, dsid: nat)
    requires n > 0 && dsid > 0
    ensures SlotOf(n, dsid) == (dsid - 1) % n
  {
  }

  /** A new log satisfies the invariant. */
  lemma InitKeeps(c: Config, buffers: seq<seq<byte>>)
    requires c.Valid() && |buffers| == c.writerCount
    requires forall w | 0 <= w < |buffers| :: |buffers[w]| == c.bufferSize
    ensures Inv(c, Init(c, buffers))
  {
    hide RingOk, LogOk, StoreOk, WriterOk;
    NewRingOk(c, map[], map[]);
    NewStore(c);
    FreshKeeps(c, Init(c, buffers), buffers);
  }

  /** What the metadata store returns after a restart, if its image is sound: every record, as written. */
  lemma ReopenedRecords(c: Config, s: State, mds: map<nat, Record>)
    requires StoreOk(c, s.store, s.cbDurable, s.mds, s.flusher.pc) && s.store.paged <= s.cbDurable
    requires c.Valid() && |s.store.page| == c.pageCap && MdsCrash.Sound(c.pageCap, ImageOf(s))
    requires mds == map e: nat | 1 <= e <= s.cbDurable :: Stored(c, Reopened(c, s), e)
    ensures forall e | 1 <= e <= s.cbDurable :: e in s.mds && mds[e] == s.mds[e]
    ensures StoreOk(c, Reopened(c, s), s.cbDurable, mds, Start)
  {
    hide Phase, Stored, MdsCrash.Sound;
    SoundReopens(c, s);
    forall e | 1 <= e <= s.cbDurable ensures e in s.mds && mds[e] == s.mds[e] {
      StoreReturns(c, Reopened(c, s), s.cbDurable, s.mds, Start, e);
    }
    assert Recorded(mds, s.cbDurable) == Recorded(s.mds, s.cbDurable);
  }

  /** So does a log reopened after a crash between any two steps. */
  lemma RestartKeeps(c: Config, s: State, buffers: seq<seq<byte>>)
    requires Inv(c, s) && CanRestart(c, s, buffers) && Admissible(c, s, RestartStep(buffers))
    ensures Inv(c, DoRestart(c, s, buffers))
  {
    hide RingOk, LogOk, StoreOk, WriterOk, ReadersOk, StreamOk, FlushOk, ConcludeOk, ReopenedSlot, Stored,
         MdsCrash.Sound, MdsLayout.PageNo;
    var s' := DoRestart(c, s, buffers);
    RestartPoint(c, s);
    ReopenedRecords(c, s, s'.mds);
    if s.cbDurable > 0 {
      var rec := ResumeRecord(c, s);
      LatestSurvives(c, s);
      ReopenedLogOk(c, s.ring, TurnOf(s.flusher.pc), s.fsyncer, s.segs, s.mds, s.cbDurable, rec, s'.ring, s'.segs,
                    s'.mds);
      ReopenedImages(c, s.ring, rec);
      TruncatedIsPrefix(s.segs, rec);
    } else {
      NewRingOk(c, s.ring.disk, s'.mds);
    }
    StreamOfPrefix(s.writers, s.prior, s.segs, s.durable, s'.writers, s'.prior, s'.segs, s'.durable);
    FreshKeeps(c, s', buffers);
  }
}
