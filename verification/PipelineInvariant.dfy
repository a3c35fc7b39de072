/** The invariant of the whole pipeline. */
module PipelineInvariant {
  import opened Base
  import opened LogStream
  import opened Restart
  import opened Pipeline
  import opened WriterInvariant
  import opened RingInvariant
  import opened LogInvariant
  import opened EpochRanges
  import opened CursorInvariant
  import opened StoreInvariant

  // ================================================================ flusher phases

  /** In the middle of a pass over the writers or of concluding an epoch. */
  predicate Working(pc: FlusherPc) {
    !pc.Start? && !pc.Halted?
  }

  /** All writers were visited and the record of the epoch is on its way. */
  predicate Concluding(pc: FlusherPc) {
    || pc.Persist? || pc.AllocPage? || pc.SetPaged? || pc.TakePage?
    || pc.WriteRecord? || pc.BumpDurable? || pc.Announce?
  }

  /** How many writers the current pass is done with. */
  function Visited(c: Config, pc: FlusherPc): nat {
    match pc
    case Search(w, _) => w
    case Found(w, _) => w
    case LoadTag0(w, _) => w
    case LoadTag1(w, _) => w
    case LoadTail(w, _) => w
    case Copy(w, _, _, _) => w
    case Advance(w, _, _, _) => w
    case Turning(w, _, _) => w
    case NextWriter(w) => w + 1
    case Start => 0
    case Halted(_) => 0
    case _ => c.writerCount
  }

  // ================================================================ parts

  ghost predicate WritersOk(c: Config, writers: seq<Writer>, durable: nat) {
    |writers| == c.writerCount && forall w | 0 <= w < |writers| :: WriterOk(c, w, writers[w], durable)
  }

  /** Stable and durable epoch, and everyone's private copies of them. */
  ghost predicate EpochsOk(s: State) {
    && (s.stable == s.durable || s.stable == s.durable + 1)
    && (forall t | t in s.advancing :: s.advancing[t] <= s.durable)
    && s.cbDurable == (if s.flusher.pc.Announce? then s.durable + 1 else s.durable)
    && (Working(s.flusher.pc) ==> s.flusher.target == s.durable + 1)
    && (Working(s.flusher.pc) && s.flusher.stablePass ==> s.stable == s.durable + 1)
    && (Concluding(s.flusher.pc) ==> s.flusher.stablePass)
    && (forall w | 0 <= w < |s.writers| && s.writers[w].InFlight() :: s.writers[w].pc.e > s.stable)
  }

  /** What the flusher knows about one writer. In a stable pass the writers already visited have
      nothing of the target epoch left. */
  ghost predicate PassOk(c: Config, fl: Flusher, w: nat, x: Writer)
    requires FlusherShape(c, fl.pc) && WriterShape(c, x)
  {
    var u := x.Unflushed();
    && (Working(fl.pc) && fl.stablePass && w < Visited(c, fl.pc) ==> UpTo(u, fl.target) == 0)
    && match fl.pc
       case Search(v, i) => v == w && fl.stablePass ==> forall j | 0 <= j < i :: x.frames[j].epoch != fl.target
       case Found(v, i) => v == w ==> x.frames[i].epoch == fl.target
       case LoadTag0(v, i) => v == w ==> x.frames[i].epoch == fl.target
       case LoadTag1(v, i) => v == w ==> x.frames[i].epoch == fl.target
       case LoadTail(v, i) => v == w ==> x.frames[i].epoch == fl.target
       case Turning(v, i, _) => v == w ==> x.frames[i].epoch == fl.target
       case Copy(v, i, head, dist) =>
         v == w ==> && x.frames[i].epoch == fl.target
                    && head == x.flushedOff
                    && 0 < dist <= UpTo(u, fl.target)
                    && (fl.stablePass ==> dist == UpTo(u, fl.target))
       case Advance(v, i, head, copied) =>
         v == w ==> && x.frames[i].epoch == fl.target
                    && head == x.flushedOff
                    && 0 < copied <= UpTo(u, fl.target)
       case _ => true
  }

  /** Bytes already copied but not yet accounted for. */
  ghost predicate CopiedOk(c: Config, fl: Flusher, x: Writer, slot: Slot)
    requires fl.pc.Advance? && WriterShape(c, x) && |slot.nv| == c.segmentSize
  {
    var u, n := x.Unflushed(), fl.pc.copied;
    && n <= |u|
    && slot.written + n <= c.segmentSize
    && (forall k | 0 <= k < n :: slot.nv[slot.written + k] == u[k].data)
    && (fl.stablePass && slot.written + n < c.segmentSize ==> n == UpTo(u, fl.target))
  }

  ghost predicate FlushOk(c: Config, fl: Flusher, writers: seq<Writer>, r: Ring) {
    && c.Valid() && |writers| == c.writerCount && FlusherShape(c, fl.pc) && RingShape(c, r)
    && (forall w | 0 <= w < |writers| :: WriterShape(c, writers[w]) && PassOk(c, fl, w, writers[w]))
    && (fl.pc.Advance? ==> CopiedOk(c, fl, writers[fl.pc.w], r.slots[CurSlot(c, r)]))
  }

  /** How far the persist loop has come: all segments before this one are done. */
  function Progress(r: Ring, pc: FlusherPc): nat {
    if pc.Persist? then pc.dsid else if Concluding(pc) then r.cur + 1 else 0
  }

  /** The log is where it should be, and the records of the durable epochs tile it up to the head. */
  ghost predicate LogOk(c: Config, r: Ring, f: Fsyncer, segs: seq<seq<Entry>>, mds: map<nat, Record>,
                        durable: nat, headDsid: nat, headOff: nat, progress: nat) {
    && c.Valid() && RingShape(c, r)
    && SegsOk(c, r, segs) && VisibleOk(r, segs) && DiskPending(r, f, segs)
    && MediaOk(r, segs, headDsid, headOff) && MediaOk(r, segs, progress, 0)
    && Tiled(c.segmentSize, segs, mds, durable)
    && HeadOk(segs, durable, headDsid, headOff)
    && headDsid == EndSeg(mds, durable) && headOff == EndOff(mds, durable)
    && (durable > 0 ==> durable in mds)
  }

  /** Every segment after `onDisk` is in its slot. */
  ghost predicate InSlots(c: Config, r: Ring, onDisk: nat)
    requires c.Valid() && RingShape(c, r)
  {
    forall d: nat | onDisk < d <= r.cur :: r.slots[SlotOf(c.segmentCount, d)].dsid == d
  }

  /** The record under way describes the log as it is; and the segments the persist loop does not
      find on disk stay in their slots, whatever the fsyncer does meanwhile. */
  ghost predicate ConcludeOk(c: Config, r: Ring, mds: map<nat, Record>, fl: Flusher) {
    && c.Valid() && RingShape(c, r)
    && (Concluding(fl.pc) ==> fl.pc.rec == NewRecord(c, r, fl))
    && (fl.pc.Persist? ==> fl.pc.onDisk <= r.lastSynced && fl.pc.rec.fromSeg <= fl.pc.dsid <= r.cur + 1)
    && (fl.pc.Persist? ==> InSlots(c, r, fl.pc.onDisk))
    && (fl.pc.BumpDurable? || fl.pc.Announce? ==> fl.target in mds && mds[fl.target] == fl.pc.rec)
  }

  /** The log holds, of each writer, what it held at start-up and then exactly what was flushed;
      and it is sorted by epoch. */
  ghost predicate StreamOk(writers: seq<Writer>, prior: seq<seq<Entry>>, segs: seq<seq<Entry>>, durable: nat) {
    && |writers| == |prior|
    && (forall w | 0 <= w < |writers| ::
          && writers[w].flushed <= |writers[w].submitted|
          && OfWriter(Flat(segs), w) == prior[w] + writers[w].submitted[..writers[w].flushed])
    && SortedByEpoch(Flat(segs))
    && (forall i | 0 <= i < |Flat(segs)| :: Flat(segs)[i].epoch <= durable + 1)
  }

  ghost predicate Inv(c: Config, s: State) {
    && Shape(c, s)
    && WritersOk(c, s.writers, s.durable)
    && EpochsOk(s)
    && RingOk(c, s.ring, TurnOf(s.flusher.pc), s.fsyncer)
    && LogOk(c, s.ring, s.fsyncer, s.segs, s.mds, s.durable, s.flusher.headDsid, s.flusher.headOff,
             Progress(s.ring, s.flusher.pc))
    && StoreOk(c, s.store, s.cbDurable, s.mds, s.flusher.pc)
    && ConcludeOk(c, s.ring, s.mds, s.flusher)
    && FlushOk(c, s.flusher, s.writers, s.ring)
    && StreamOk(s.writers, s.prior, s.segs, s.durable)
    && ReadersOk(c, s.ring, TurnOf(s.flusher.pc), s.cursors)
  }
}
