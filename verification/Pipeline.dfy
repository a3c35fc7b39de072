/** The writer / flusher / fsyncer / reader pipeline as a step system (src/nvwal_api.c,
    src/nvwal_impl_cursor.c, src/nvwal_impl_pin.c, src/nvwal_impl_init.c).

    Any number of writers, of concurrent advance-stable-epoch calls and of cursors, one flusher
    and one fsyncer. Memory is sequentially consistent. One step is one access to a location
    another thread may touch, together with the private work around it; a memcpy, a persist of
    one segment and a write of one segment to disk are one step each. A crash may strike between
    any two steps. Epochs are unbounded here; EpochArithmetic.UnwrappedEpochs says why. */
module Pipeline {
  import opened Base
  import opened Circular
  import opened LogStream
  import opened Restart
  import Mds
  import MdsCrash
  import MdsLayout

  // ================================================================ state

  datatype Frame = Frame(head: nat, tail: nat, epoch: nat, tag0: nat, tag1: nat)

  /** Where a writer thread is inside one of its calls. */
  datatype WriterPc =
    | Idle
    | StoreHead(e: nat)     // publishing a frame: three stores, in this order
    | StoreTail(e: nat)
    | StoreEpoch(e: nat)
    | Publish(e: nat)       // about to store the new tail of the active frame
    | StoreTag1(i: nat, value: nat)
    | CheckSpace(de: nat, i: nat, sum: nat)

  datatype Writer = Writer(
    buffer: seq<byte>,
    frames: seq<Frame>,
    active: nat,
    lastTail: nat,
    pc: WriterPc,
    staged: seq<byte>,       // bytes the client put at the tail and has not announced yet
    // Bookkeeping that exists in no memory location:
    submitted: seq<Entry>,   // everything announced since start-up
    flushed: nat,            // how much of it the flusher has moved into the log
    flushedOff: nat,         // buffer offset of the first unflushed byte
    checked: bool,           // the last space check said yes ...
    checkSum: nat,           // ... after adding up to this ...
    sinceCheck: nat          // ... and this many bytes were staged since
  )
  {
    function Unflushed(): seq<Entry>
      requires flushed <= |submitted|
    {
      submitted[flushed..]
    }

    /** Inside a write call, whose epoch is `pc.e`. */
    predicate InFlight() {
      pc.StoreHead? || pc.StoreTail? || pc.StoreEpoch? || pc.Publish?
    }

    predicate Publishing() {
      pc.StoreHead? || pc.StoreTail? || pc.StoreEpoch?
    }
  }

  /** One NV segment. `nv` is what loads see, `media` what survives a crash. */
  datatype Slot = Slot(dsid: nat, written: nat, requested: bool, completed: bool, error: bool, pins: int,
                       nv: seq<byte>, media: seq<byte>)

  datatype Ring = Ring(slots: seq<Slot>, cur: nat, lastSynced: nat, disk: map<nat, seq<byte>>)

  /** Progress of the flusher through a segment turn. */
  datatype Turn = NoTurn | Request | Wait | Lock | SetDsid | ClearCompleted | ClearError | ClearRequested | Unlock

  datatype FlusherPc =
    | Start
    | Search(w: nat, i: nat)
    | Found(w: nat, i: nat)
    | LoadTag0(w: nat, i: nat)
    | LoadTag1(w: nat, i: nat)
    | LoadTail(w: nat, i: nat)
    | Copy(w: nat, i: nat, head: nat, dist: nat)
    | Advance(w: nat, i: nat, head: nat, copied: nat)
    | Turning(w: nat, i: nat, turn: Turn)
    | NextWriter(w: nat)
    | Conclude
    | Persist(rec: Record, onDisk: nat, dsid: nat)
    | AllocPage(rec: Record)      // mds_write_epoch: take or use the buffered page, or append it to the file,
    | SetPaged(rec: Record)       // record that, and
    | TakePage(rec: Record)       // take the buffer for the next page;
    | WriteRecord(rec: Record)    // then store the record and move the durable epoch
    | BumpDurable(rec: Record)
    | Announce(rec: Record)
    | Halted(turn: Turn)    // stopped, possibly waiting for a segment the fsyncer failed on

  datatype Flusher = Flusher(pc: FlusherPc, target: nat, stablePass: bool, headDsid: nat, headOff: nat,
                             tag0: nat, tag1: nat)

  datatype Fsyncer =
    | Poll
    | CheckRequest(j: nat)
    | LoadDsid(j: nat)
    | ResetError(j: nat, d: nat)
    | WriteDisk(j: nat, d: nat)
    | Mark(j: nat, d: nat)
    | Bump(j: nat, d: nat)
    | Stopped

  /** A cursor opening, reading or releasing segment `dsid`. */
  datatype Cursor =
    | Loaded(dsid: nat, synced: nat)
    | Pinning(dsid: nat, synced: nat, seen: nat)
    | Pinned(dsid: nat, synced: nat)
    | Verify(dsid: nat)
    | Mismatch(dsid: nat)
    | OnNv(dsid: nat)
    | OnDisk(dsid: nat)
  {
    predicate Holds() {
      Pinned? || Verify? || Mismatch? || OnNv?
    }
  }

  /** The metadata store: the page file, the page buffered in NVRAM, the paged epoch in the control
      block, and which page the buffer holds, which is not persistent. A buffer that holds a page is
      dirty whenever a write begins, so there is no dirty flag here. */
  datatype Metadata = Metadata(file: seq<Record>, page: seq<Record>, paged: nat, bufPage: nat)

  datatype State = State(
    writers: seq<Writer>,
    ring: Ring,
    flusher: Flusher,
    fsyncer: Fsyncer,
    cursors: map<nat, Cursor>,
    durable: nat,
    stable: nat,
    advancing: map<nat, nat>,   // advance calls in progress: the durable epoch each one loaded
    cbDurable: nat,             // durable epoch in the control block
    store: Metadata,
    // Bookkeeping:
    mds: map<nat, Record>,      // the records written, or read back at start-up
    segs: seq<seq<Entry>>,      // the log: segs[d-1] is what was written to segment d
    prior: seq<seq<Entry>>,     // per writer: what the log held at start-up
    boot: nat                   // the durable epoch at start-up
  )

  // ---------------------------------------------------------------- shape

  predicate WriterShape(c: Config, x: Writer) {
    && |x.buffer| == c.bufferSize
    && |x.frames| == FRAME_COUNT
    && x.active < FRAME_COUNT
    && x.lastTail < c.bufferSize
    && x.flushedOff < c.bufferSize
    && |x.staged| < c.bufferSize
    && (x.checked ==> |x.staged| <= x.sinceCheck)
    && x.flushed <= |x.submitted|
    && (forall i | 0 <= i < FRAME_COUNT :: x.frames[i].head < c.bufferSize && x.frames[i].tail < c.bufferSize)
    && (x.pc.StoreTag1? ==> x.pc.i < FRAME_COUNT)
    && (x.pc.CheckSpace? ==> x.pc.i < FRAME_COUNT)
  }

  predicate RingShape(c: Config, r: Ring) {
    && |r.slots| == c.segmentCount
    && r.cur >= 1
    && forall j | 0 <= j < |r.slots| ::
         && |r.slots[j].nv| == |r.slots[j].media| == c.segmentSize
         && r.slots[j].written <= c.segmentSize
         && r.slots[j].dsid >= 1
  }

  predicate FlusherShape(c: Config, pc: FlusherPc) {
    match pc
    case Search(w, i) => w < c.writerCount && i < FRAME_COUNT
    case Found(w, i) => w < c.writerCount && i < FRAME_COUNT
    case LoadTag0(w, i) => w < c.writerCount && i < FRAME_COUNT
    case LoadTag1(w, i) => w < c.writerCount && i < FRAME_COUNT
    case LoadTail(w, i) => w < c.writerCount && i < FRAME_COUNT
    case Copy(w, i, head, dist) => w < c.writerCount && i < FRAME_COUNT && head < c.bufferSize && dist < c.bufferSize
    case Advance(w, i, head, copied) => w < c.writerCount && i < FRAME_COUNT && head < c.bufferSize && copied < c.bufferSize
    case Turning(w, i, turn) => w < c.writerCount && i < FRAME_COUNT && !turn.NoTurn?
    case NextWriter(w) => w < c.writerCount
    case Persist(rec, _, dsid) =>
      && 1 <= rec.fromSeg <= dsid
      && rec.fromOff <= c.segmentSize && rec.toOff <= c.segmentSize
      && (rec.fromSeg == rec.toSeg ==> rec.fromOff <= rec.toOff)
      && rec.epoch > 0
    case AllocPage(rec) => rec.epoch > 0
    case SetPaged(rec) => rec.epoch > 0
    case TakePage(rec) => rec.epoch > 0
    case WriteRecord(rec) => rec.epoch > 0
    case Halted(turn) => turn.NoTurn? || turn.Wait?
    case _ => true
  }

  /** Between the copy and the bookkeeping for it: the bytes fit and were there. */
  predicate AdvanceShape(c: Config, s: State)
    requires c.Valid() && |s.writers| == c.writerCount
    requires RingShape(c, s.ring) && FlusherShape(c, s.flusher.pc)
  {
    s.flusher.pc.Advance? ==>
      && s.ring.slots[CurSlot(c, s.ring)].written + s.flusher.pc.copied <= c.segmentSize
      && s.writers[s.flusher.pc.w].flushed + s.flusher.pc.copied <= |s.writers[s.flusher.pc.w].submitted|
  }

  predicate FsyncerShape(c: Config, f: Fsyncer) {
    match f
    case Poll => true
    case Stopped => true
    case CheckRequest(j) => j < c.segmentCount
    case LoadDsid(j) => j < c.segmentCount
    case ResetError(j, _) => j < c.segmentCount
    case WriteDisk(j, _) => j < c.segmentCount
    case Mark(j, _) => j < c.segmentCount
    case Bump(j, _) => j < c.segmentCount
  }

  ghost predicate Shape(c: Config, s: State) {
    && c.Valid()
    && |s.writers| == |s.prior| == c.writerCount
    && (forall w | 0 <= w < |s.writers| :: WriterShape(c, s.writers[w]))
    && RingShape(c, s.ring)
    && FlusherShape(c, s.flusher.pc)
    && AdvanceShape(c, s)
    && s.flusher.headDsid >= 1
    && FsyncerShape(c, s.fsyncer)
    && (forall k | k in s.cursors :: s.cursors[k].dsid >= 1)
    && |s.segs| == s.ring.cur
    && |s.store.page| == c.pageCap
    && s.store.paged <= s.cbDurable
  }

  /** What a power failure leaves of the metadata store. */
  function ImageOf(s: State): Mds.Image {
    Mds.Image(s.store.file, s.store.page, s.cbDurable, s.store.paged)
  }

  /** What a reader of the metadata store gets for epoch `e`. */
  function Stored(c: Config, m: Metadata, e: nat): Record
    requires c.pageCap > 0 && |m.page| == c.pageCap
  {
    Mds.ReadBack(c.pageCap, m.file, m.page, m.bufPage, e)
  }

  // ---------------------------------------------------------------- access

  function CurSlot(c: Config, r: Ring): nat
    requires RingShape(c, r) && c.segmentCount > 0
  {
    SlotOf(c.segmentCount, r.cur)
  }

  function NextSlot(c: Config, r: Ring): nat
    requires RingShape(c, r) && c.segmentCount > 0
  {
    SlotOf(c.segmentCount, r.cur + 1)
  }

  function SetSlot(r: Ring, j: nat, x: Slot): Ring
    requires j < |r.slots|
  {
    r.(slots := r.slots[j := x])
  }

  function WithWriter(s: State, w: nat, x: Writer): State
    requires w < |s.writers|
  {
    s.(writers := s.writers[w := x])
  }

  function WithFrame(x: Writer, i: nat, f: Frame): Writer
    requires i < |x.frames|
  {
    x.(frames := x.frames[i := f])
  }

  function WithPc(s: State, pc: FlusherPc): State {
    s.(flusher := s.flusher.(pc := pc))
  }

  /** Overwrites part of a segment image. */
  function Splice(image: seq<byte>, at: nat, bytes: seq<byte>): (r: seq<byte>)
    requires at + |bytes| <= |image|
    ensures |r| == |image|
    ensures forall k | 0 <= k < |image| :: r[k] == if at <= k < at + |bytes| then bytes[k - at] else image[k]
  {
    image[..at] + bytes + image[at + |bytes|..]
  }

  function WrapFrame(i: nat): nat
    requires i < 2 * FRAME_COUNT
  {
    if i < FRAME_COUNT then i else i - FRAME_COUNT
  }

  // ================================================================ writer steps

  ghost predicate CanStage(c: Config, s: State, w: nat, data: seq<byte>) {
    && Shape(c, s) && w < |s.writers|
    && var x := s.writers[w];
    && x.pc.Idle? && x.checked
    && 2 * (x.sinceCheck + |data|) < c.bufferSize
  }

  /** The client stores bytes behind the tail (nvwal_circular_dest_memcpy or plain stores),
      fewer than half a buffer after a positive space check. */
  function DoStage(c: Config, s: State, w: nat, data: seq<byte>): State
    requires CanStage(c, s, w, data)
  {
    var x := s.writers[w];
    var at := WrapOffset(c.bufferSize, x.lastTail + |x.staged|);
    WithWriter(s, w, x.(buffer := CircularWrite(x.buffer, at, data), staged := x.staged + data,
                        sinceCheck := x.sinceCheck + |data|))
  }

  /** The client contract of nvwal_on_wal_write: the epoch is after SE, does not decrease, and
      stays inside the window the space check looks at. */
  ghost predicate CanBeginWrite(c: Config, s: State, w: nat, e: nat) {
    && Shape(c, s) && w < |s.writers|
    && var x := s.writers[w];
    && x.pc.Idle?
    && s.stable < e < s.durable + FRAME_COUNT
    && x.frames[x.active].epoch <= e
  }

  function DoBeginWrite(c: Config, s: State, w: nat, e: nat): State
    requires CanBeginWrite(c, s, w, e)
  {
    WithWriter(s, w, Began(s.writers[w], e))
  }

  /** Use the active frame, take it if it was never used, or move on to the next one. */
  function Began(x: Writer, e: nat): Writer
    requires |x.frames| == FRAME_COUNT && x.active < FRAME_COUNT
  {
    if x.frames[x.active].epoch == e then x.(pc := Publish(e))
    else if x.frames[x.active].epoch == 0 then x.(pc := StoreHead(e))
    else x.(active := WrapFrame(x.active + 1), pc := StoreHead(e))
  }

  ghost predicate CanWrite(c: Config, s: State, w: nat) {
    Shape(c, s) && w < |s.writers| && s.writers[w].InFlight()
  }

  /** The four stores of a write call. */
  function DoWrite(c: Config, s: State, w: nat): State
    requires CanWrite(c, s, w)
  {
    WithWriter(s, w, StoredNext(c, w, s.writers[w]))
  }

  function StoredNext(c: Config, w: nat, x: Writer): Writer
    requires c.Valid() && WriterShape(c, x)
  {
    var f := x.frames[x.active];
    match x.pc
    case StoreHead(e) => WithFrame(x, x.active, f.(head := x.lastTail)).(pc := StoreTail(e))
    case StoreTail(e) => WithFrame(x, x.active, f.(tail := x.lastTail)).(pc := StoreEpoch(e))
    case StoreEpoch(e) => WithFrame(x, x.active, f.(epoch := e)).(pc := Publish(e))
    case Publish(e) => Published(c, w, x, e)
    case _ => x
  }

  /** The announced bytes as log entries. */
  function Tagged(bytes: seq<byte>, e: nat, w: nat): (r: seq<Entry>)
    ensures |r| == |bytes|
    ensures forall i | 0 <= i < |r| :: r[i] == Entry(bytes[i], e, w)
  {
    seq(|bytes|, i requires 0 <= i < |bytes| => Entry(bytes[i], e, w))
  }

  function Published(c: Config, w: nat, x: Writer, e: nat): Writer
    requires c.Valid() && WriterShape(c, x)
  {
    var f := x.frames[x.active];
    var tail := WrapOffset(c.bufferSize, f.tail + |x.staged|);
    WithFrame(x, x.active, f.(tail := tail)).(
      lastTail := tail,
      submitted := x.submitted + Tagged(x.staged, e, w),
      staged := [],
      pc := Idle)
  }

  /** nvwal_tag_epoch: find the frame, then two stores. Without a frame nothing happens. */
  ghost predicate CanTag(c: Config, s: State, w: nat, i: nat, e: nat) {
    && Shape(c, s) && w < |s.writers| && s.writers[w].pc.Idle?
    && i < FRAME_COUNT && e > 0 && s.writers[w].frames[i].epoch == e
    && forall k | 0 <= k < i :: s.writers[w].frames[k].epoch != e
  }

  function DoTag(c: Config, s: State, w: nat, i: nat, e: nat, v0: nat, v1: nat): State
    requires CanTag(c, s, w, i, e)
  {
    var x := s.writers[w];
    WithWriter(s, w, WithFrame(x, i, x.frames[i].(tag0 := v0)).(pc := StoreTag1(i, v1)))
  }

  ghost predicate CanTagSecond(c: Config, s: State, w: nat) {
    Shape(c, s) && w < |s.writers| && s.writers[w].pc.StoreTag1?
  }

  function DoTagSecond(c: Config, s: State, w: nat): State
    requires CanTagSecond(c, s, w)
  {
    var x := s.writers[w];
    WithWriter(s, w, WithFrame(x, x.pc.i, x.frames[x.pc.i].(tag1 := x.pc.value)).(pc := Idle))
  }

  ghost predicate CanBeginCheck(c: Config, s: State, w: nat) {
    Shape(c, s) && w < |s.writers| && s.writers[w].pc.Idle?
  }

  function DoBeginCheck(c: Config, s: State, w: nat): State
    requires CanBeginCheck(c, s, w)
  {
    WithWriter(s, w, s.writers[w].(pc := CheckSpace(s.durable, 0, 0), checked := false))
  }

  /** The frames nvwal_has_enough_writer_space counts. */
  predicate Counted(de: nat, f: Frame) {
    f.epoch != 0 && f.epoch > de && f.epoch < de + FRAME_COUNT
  }

  ghost predicate CanCheckFrame(c: Config, s: State, w: nat) {
    Shape(c, s) && w < |s.writers| && s.writers[w].pc.CheckSpace?
  }

  function DoCheckFrame(c: Config, s: State, w: nat): State
    requires CanCheckFrame(c, s, w)
  {
    WithWriter(s, w, CheckedFrame(c, s.writers[w]))
  }

  function CheckedFrame(c: Config, x: Writer): Writer
    requires WriterShape(c, x) && x.pc.CheckSpace?
  {
    var CheckSpace(de, i, sum) := x.pc;
    var f := x.frames[i];
    var sum' := sum + if Counted(de, f) then Distance(c.bufferSize, f.head, f.tail) else 0;
    if i + 1 < FRAME_COUNT then x.(pc := CheckSpace(de, i + 1, sum'))
    else x.(pc := Idle, checked := 2 * sum' <= c.bufferSize, checkSum := sum', sinceCheck := |x.staged|)
  }

  // ================================================================ advancing the stable epoch

  ghost predicate CanAdvanceLoad(c: Config, s: State, t: nat) {
    Shape(c, s) && t !in s.advancing
  }

  /** nvwal_advance_stable_epoch(DE + 1); with any other argument it returns without effect. */
  function DoAdvanceLoad(s: State, t: nat): State {
    s.(advancing := s.advancing[t := s.durable])
  }

  /** The caller's promise takes effect with the compare-and-swap: no write call for the new
      stable epoch or an earlier one is still running. */
  ghost predicate CanAdvanceCas(c: Config, s: State, t: nat) {
    && Shape(c, s) && t in s.advancing
    && (s.stable == s.advancing[t] ==>
          forall w | 0 <= w < |s.writers| && s.writers[w].InFlight() :: s.writers[w].pc.e > s.advancing[t] + 1)
  }

  function DoAdvanceCas(s: State, t: nat): State
    requires t in s.advancing
  {
    s.(stable := if s.stable == s.advancing[t] then s.advancing[t] + 1 else s.stable,
       advancing := s.advancing - {t})
  }

  // ================================================================ flusher steps

  ghost predicate CanFlush(c: Config, s: State) {
    && Shape(c, s)
    && match s.flusher.pc
       case Halted(_) => false
       case Turning(w, i, turn) => CanTurn(c, s.ring, turn)
       case _ => true
  }

  function DoFlush(c: Config, s: State): State
    requires CanFlush(c, s)
  {
    match s.flusher.pc
    case Start => DoBeginPass(s)
    case Search(w, i) => DoSearch(c, s, w, i)
    case Found(w, i) => DoFound(c, s, w, i)
    case LoadTag0(w, i) => DoLoadTag0(c, s, w, i)
    case LoadTag1(w, i) => DoLoadTag1(c, s, w, i)
    case LoadTail(w, i) => DoLoadTail(c, s, w, i)
    case Copy(w, i, head, dist) => DoCopy(c, s, w, i, head, dist)
    case Advance(w, i, head, copied) => DoAdvance(c, s, w, i, head, copied)
    case Turning(w, i, turn) => DoTurn(c, s, w, i, turn)
    case NextWriter(w) => WithPc(s, if w + 1 < c.writerCount then Search(w + 1, 0) else Conclude)
    case Conclude => DoConclude(c, s)
    case Persist(rec, onDisk, dsid) => DoPersist(c, s, rec, onDisk, dsid)
    case AllocPage(rec) => DoAllocPage(c, s, rec)
    case SetPaged(rec) => WithPc(s.(store := s.store.(paged := s.cbDurable)), TakePage(rec))
    case TakePage(rec) =>
      WithPc(s.(store := s.store.(bufPage := MdsLayout.PageNo(c.pageCap, rec.epoch))), WriteRecord(rec))
    case WriteRecord(rec) => DoWriteRecord(c, s, rec)
    case BumpDurable(rec) => WithPc(s.(cbDurable := rec.epoch), Announce(rec))
    case Announce(rec) => DoAnnounce(c, s, rec)
    case Halted(_) => s
  }

  function DoBeginPass(s: State): State {
    s.(flusher := s.flusher.(pc := Search(0, 0), target := s.durable + 1, stablePass := s.durable + 1 == s.stable))
  }

  function DoSearch(c: Config, s: State, w: nat, i: nat): State
    requires Shape(c, s) && w < |s.writers| && i < FRAME_COUNT
  {
    WithPc(s,
      if s.writers[w].frames[i].epoch == s.flusher.target then Found(w, i)
      else if i + 1 < FRAME_COUNT then Search(w, i + 1)
      else NextWriter(w))
  }

  /** The epoch is loaded once more; writers do not take a frame away from the target epoch. */
  function DoFound(c: Config, s: State, w: nat, i: nat): State
    requires Shape(c, s) && w < |s.writers| && i < FRAME_COUNT
  {
    WithPc(s, if s.flusher.stablePass then LoadTag0(w, i) else LoadTail(w, i))
  }

  /** In a stable pass the tags are picked up; a zero tag leaves the previous value. */
  function DoLoadTag0(c: Config, s: State, w: nat, i: nat): State
    requires Shape(c, s) && w < |s.writers| && i < FRAME_COUNT
  {
    s.(flusher := s.flusher.(pc := LoadTag1(w, i), tag0 := Kept(s.flusher.tag0, s.writers[w].frames[i].tag0)))
  }

  function DoLoadTag1(c: Config, s: State, w: nat, i: nat): State
    requires Shape(c, s) && w < |s.writers| && i < FRAME_COUNT
  {
    s.(flusher := s.flusher.(pc := LoadTail(w, i), tag1 := Kept(s.flusher.tag1, s.writers[w].frames[i].tag1)))
  }

  function Kept(before: nat, tag: nat): nat {
    if tag != 0 then tag else before
  }

  function DoLoadTail(c: Config, s: State, w: nat, i: nat): State
    requires Shape(c, s) && w < |s.writers| && i < FRAME_COUNT
  {
    var f := s.writers[w].frames[i];
    var dist := Distance(c.bufferSize, f.head, f.tail);
    WithPc(s, if dist == 0 then NextWriter(w) else Copy(w, i, f.head, dist))
  }

  /** How much of `dist` fits into the current segment. */
  function Copied(c: Config, r: Ring, dist: nat): nat
    requires RingShape(c, r) && c.segmentCount > 0
  {
    Min(c.segmentSize - r.slots[CurSlot(c, r)].written, dist)
  }

  function DoCopy(c: Config, s: State, w: nat, i: nat, head: nat, dist: nat): State
    requires Shape(c, s) && w < |s.writers| && head < c.bufferSize && dist < c.bufferSize
  {
    var j := CurSlot(c, s.ring);
    var x := s.ring.slots[j];
    var copied := Copied(c, s.ring, dist);
    var y := x.(nv := Splice(x.nv, x.written, CircularRead(s.writers[w].buffer, head, copied)));
    WithPc(s.(ring := SetSlot(s.ring, j, y)), Advance(w, i, head, copied))
  }

  /** Stores the new head of the frame and accounts for the bytes; this is where they enter the log. */
  function DoAdvance(c: Config, s: State, w: nat, i: nat, head: nat, copied: nat): State
    requires Shape(c, s) && s.flusher.pc == Advance(w, i, head, copied)
  {
    var j := CurSlot(c, s.ring);
    var slot := s.ring.slots[j];
    var slot' := slot.(written := slot.written + copied);
    var x := s.writers[w];
    var newHead := WrapOffset(c.bufferSize, head + copied);
    var x' := WithFrame(x, i, x.frames[i].(head := newHead)).(flushed := x.flushed + copied, flushedOff := newHead);
    var last := |s.segs| - 1;
    WithPc(
      WithWriter(s, w, x').(
        ring := SetSlot(s.ring, j, slot'),
        segs := s.segs[last := s.segs[last] + x.submitted[x.flushed..x.flushed + copied]]),
      if slot'.written == c.segmentSize then Turning(w, i, Request) else NextWriter(w))
  }

  // ---------------------------------------------------------------- segment turn

  /** The two places where a turn has to wait. */
  predicate CanTurn(c: Config, r: Ring, turn: Turn)
    requires RingShape(c, r) && c.segmentCount > 0
  {
    var next := r.slots[NextSlot(c, r)];
    match turn
    case NoTurn => false
    case Wait => !(next.requested && !next.completed)
    case Lock => next.pins == 0
    case _ => true
  }

  function DoTurn(c: Config, s: State, w: nat, i: nat, turn: Turn): State
    requires Shape(c, s) && CanTurn(c, s.ring, turn)
  {
    var (r, turn') := Turned(c, s.ring, turn);
    WithPc(
      s.(ring := r, segs := if turn.Unlock? then s.segs + [[]] else s.segs),
      if turn.Unlock? then LoadTail(w, i) else Turning(w, i, turn'))
  }

  function Turned(c: Config, r: Ring, turn: Turn): (Ring, Turn)
    requires RingShape(c, r) && c.segmentCount > 0
  {
    var cur, next := CurSlot(c, r), NextSlot(c, r);
    var x := r.slots[next];
    match turn
    case NoTurn => (r, NoTurn)
    case Request => (SetSlot(r, cur, r.slots[cur].(requested := true)), Wait)
    case Wait => (r, Lock)
    case Lock => (SetSlot(r, next, x.(pins := -1)), SetDsid)
    case SetDsid => (SetSlot(r, next, x.(dsid := r.cur + 1, written := 0)), ClearCompleted)
    case ClearCompleted => (SetSlot(r, next, x.(completed := false)), ClearError)
    case ClearError => (SetSlot(r, next, x.(error := false)), ClearRequested)
    case ClearRequested => (SetSlot(r, next, x.(requested := false)), Unlock)
    case Unlock => (SetSlot(r, next, x.(pins := 0)).(cur := r.cur + 1), NoTurn)
  }

  /** "Completed" is cleared, "requested" is not yet. */
  predicate Resetting(turn: Turn) {
    turn.ClearError? || turn.ClearRequested?
  }

  /** The flusher gives up when the fsyncer failed on the segment it waits for. */
  ghost predicate CanFail(c: Config, s: State) {
    && Shape(c, s)
    && s.flusher.pc.Turning? && s.flusher.pc.turn.Wait?
    && var x := s.ring.slots[NextSlot(c, s.ring)];
    x.requested && !x.completed && x.error
  }

  ghost predicate CanHalt(c: Config, s: State) {
    Shape(c, s) && s.flusher.pc.Start?
  }

  /** The segment turn the flusher is in, if any. */
  function TurnOf(pc: FlusherPc): Turn {
    if pc.Turning? || pc.Halted? then pc.turn else NoTurn
  }

  function DoHalt(s: State): State {
    WithPc(s, Halted(TurnOf(s.flusher.pc)))
  }

  /** A stop request ends the traversal of the writers early. */
  ghost predicate CanBreak(c: Config, s: State) {
    Shape(c, s) && s.flusher.pc.NextWriter?
  }

  function DoBreak(s: State): State {
    WithPc(s, Conclude)
  }

  // ---------------------------------------------------------------- concluding a stable epoch

  /** The record of the target epoch, from its head to the end of the log; offsets are 32-bit. */
  function NewRecord(c: Config, r: Ring, fl: Flusher): Record
    requires c.Valid() && RingShape(c, r)
  {
    var cur := r.slots[CurSlot(c, r)];
    Record(fl.target, fl.headDsid, Low32(fl.headOff), cur.dsid, Low32(cur.written), fl.tag0, fl.tag1)
  }

  function DoConclude(c: Config, s: State): State
    requires Shape(c, s)
  {
    var rec := NewRecord(c, s.ring, s.flusher);
    if s.flusher.stablePass && s.flusher.target != s.durable
    then WithPc(s, Persist(rec, s.ring.lastSynced, rec.fromSeg))
    else WithPc(s, Start)
  }

  /** The part of segment `dsid` that belongs to the record. */
  function PersistFrom(rec: Record, dsid: nat): nat {
    if dsid == rec.fromSeg then rec.fromOff else 0
  }

  function PersistTo(c: Config, rec: Record, dsid: nat): nat {
    if dsid == rec.toSeg then rec.toOff else c.segmentSize
  }

  function Flushed(x: Slot, from: nat, to: nat): Slot
    requires from <= to <= |x.nv| == |x.media|
  {
    x.(media := Splice(x.media, from, x.nv[from..to]))
  }

  function DoPersist(c: Config, s: State, rec: Record, onDisk: nat, dsid: nat): State
    requires Shape(c, s) && s.flusher.pc == Persist(rec, onDisk, dsid)
  {
    if dsid > rec.toSeg then WithPc(s, AllocPage(rec))
    else if dsid <= onDisk then WithPc(s, Persist(rec, onDisk, dsid + 1))
    else
      var j := SlotOf(c.segmentCount, dsid);
      var y := Flushed(s.ring.slots[j], PersistFrom(rec, dsid), PersistTo(c, rec, dsid));
      WithPc(s.(ring := SetSlot(s.ring, j, y)), Persist(rec, onDisk, dsid + 1))
  }

  /** An unused buffer is taken, the buffered page used, a full one appended to the file first. */
  function DoAllocPage(c: Config, s: State, rec: Record): State
    requires Shape(c, s) && rec.epoch > 0
  {
    var p, m := MdsLayout.PageNo(c.pageCap, rec.epoch), s.store;
    if m.bufPage == 0 || m.bufPage == p then WithPc(s.(store := m.(bufPage := p)), WriteRecord(rec))
    else WithPc(s.(store := m.(file := m.file + m.page)), SetPaged(rec))
  }

  function DoWriteRecord(c: Config, s: State, rec: Record): State
    requires Shape(c, s) && rec.epoch > 0
  {
    var page := s.store.page[MdsLayout.RecordSlot(c.pageCap, rec.epoch) := rec];
    WithPc(s.(store := s.store.(page := page), mds := s.mds[rec.epoch := rec]), BumpDurable(rec))
  }

  function DoAnnounce(c: Config, s: State, rec: Record): State
    requires Shape(c, s)
  {
    var cur := s.ring.slots[CurSlot(c, s.ring)];
    s.(durable := rec.epoch, flusher := s.flusher.(pc := Start, headDsid := cur.dsid, headOff := cur.written))
  }

  // ================================================================ fsyncer steps

  ghost predicate CanSync(c: Config, s: State) {
    && Shape(c, s)
    && !s.fsyncer.Stopped?
    && (s.fsyncer.Poll? ==> !s.ring.slots[s.ring.lastSynced % c.segmentCount].completed)
  }

  function DoSync(c: Config, s: State): State
    requires CanSync(c, s)
  {
    var (r, f) := Synced(c, s.ring, s.fsyncer);
    s.(ring := r, fsyncer := f)
  }

  function Synced(c: Config, r: Ring, f: Fsyncer): (Ring, Fsyncer)
    requires c.Valid() && RingShape(c, r) && FsyncerShape(c, f)
  {
    match f
    case Poll => (r, CheckRequest(r.lastSynced % c.segmentCount))
    case CheckRequest(j) => (r, if r.slots[j].requested then LoadDsid(j) else Poll)
    case LoadDsid(j) => (r, ResetError(j, r.slots[j].dsid))
    case ResetError(j, d) => (SetSlot(r, j, r.slots[j].(error := false)), WriteDisk(j, d))
    case WriteDisk(j, d) => (r.(disk := r.disk[d := r.slots[j].nv]), Mark(j, d))
    case Mark(j, d) => (SetSlot(r, j, r.slots[j].(completed := true)), Bump(j, d))
    case Bump(j, d) => (r.(lastSynced := d), Poll)
    case Stopped => (r, f)
  }

  ghost predicate CanSyncFail(c: Config, s: State) {
    Shape(c, s) && s.fsyncer.WriteDisk?
  }

  /** Opening or writing the file fails, or a stop request interrupts it part-way. */
  function DoSyncFail(c: Config, s: State, partial: seq<byte>): State
    requires CanSyncFail(c, s)
  {
    var WriteDisk(j, d) := s.fsyncer;
    var r := SetSlot(s.ring, j, s.ring.slots[j].(error := true));
    s.(ring := r.(disk := r.disk[d := partial]), fsyncer := Stopped)
  }

  ghost predicate CanSyncStop(c: Config, s: State) {
    Shape(c, s) && s.fsyncer.Poll?
  }

  // ================================================================ cursor steps

  /** A cursor only opens segments that durable records mention; those are never beyond the current one. */
  ghost predicate CanOpen(c: Config, s: State, k: nat, dsid: nat) {
    Shape(c, s) && k !in s.cursors && 1 <= dsid <= s.ring.cur
  }

  function DoOpen(s: State, k: nat, dsid: nat): State {
    var synced := s.ring.lastSynced;
    s.(cursors := s.cursors[k := if synced != 0 && dsid <= synced then OnDisk(dsid) else Loaded(dsid, synced)])
  }

  ghost predicate CanRead(c: Config, s: State, k: nat) {
    && Shape(c, s) && k in s.cursors
    && (s.cursors[k].Loaded? || s.cursors[k].Pinning? || s.cursors[k].Pinned? || s.cursors[k].Verify?)
  }

  function AddPins(c: Config, r: Ring, dsid: nat, delta: int): Ring
    requires RingShape(c, r) && c.segmentCount > 0 && dsid >= 1
  {
    var j := SlotOf(c.segmentCount, dsid);
    SetSlot(r, j, r.slots[j].(pins := r.slots[j].pins + delta))
  }

  /** One step of opening a segment that is still on NV. */
  function DoRead(c: Config, s: State, k: nat): State
    requires CanRead(c, s, k)
  {
    var cur := s.cursors[k];
    var slot := s.ring.slots[SlotOf(c.segmentCount, cur.dsid)];
    match cur
    case Loaded(d, synced) =>
      s.(cursors := s.cursors[k := if slot.pins < 0 then cur else Pinning(d, synced, slot.pins)])
    case Pinning(d, synced, seen) =>
      if slot.pins == seen
      then s.(ring := AddPins(c, s.ring, d, 1), cursors := s.cursors[k := Pinned(d, synced)])
      else s.(cursors := s.cursors[k := Loaded(d, synced)])
    case Pinned(d, synced) =>
      s.(cursors := s.cursors[k := if s.ring.lastSynced == synced then OnNv(d) else Verify(d)])
    case Verify(d) =>
      s.(cursors := s.cursors[k := if slot.dsid == d then OnNv(d) else Mismatch(d)])
    case _ => s
  }

  ghost predicate CanRelease(c: Config, s: State, k: nat) {
    && Shape(c, s) && k in s.cursors
    && (s.cursors[k].OnNv? || s.cursors[k].Mismatch? || s.cursors[k].OnDisk?)
  }

  /** Closing a segment, or unpinning a recycled one before trying again. */
  function DoRelease(c: Config, s: State, k: nat): State
    requires CanRelease(c, s, k)
  {
    var cur := s.cursors[k];
    s.(ring := if cur.OnDisk? then s.ring else AddPins(c, s.ring, cur.dsid, -1), cursors := s.cursors - {k})
  }

  // ================================================================ memory and crashes

  ghost predicate CanEvict(c: Config, s: State, j: nat, k: nat) {
    Shape(c, s) && j < |s.ring.slots| && k < c.segmentSize
  }

  /** A cache line may reach the media at any time, asked or not. */
  function DoEvict(c: Config, s: State, j: nat, k: nat): State
    requires CanEvict(c, s, j, k)
  {
    var x := s.ring.slots[j];
    s.(ring := SetSlot(s.ring, j, x.(media := x.media[k := x.nv[k]])))
  }

  function FreshWriter(buffer: seq<byte>): Writer {
    Writer(buffer, seq(FRAME_COUNT, _ => Frame(0, 0, 0, 0, 0)), 0, 0, Idle, [], [], 0, 0, false, 0, 0)
  }

  function FreshSlot(c: Config, j: nat): Slot {
    var zeros := seq(c.segmentSize, _ => 0);
    Slot(j + 1, 0, false, false, false, 0, zeros, zeros)
  }

  /** Segment `j` when an existing log is reopened; `rec` is the record of the durable epoch. */
  function ReopenedSlot(c: Config, was: Slot, j: nat, lastSynced: nat, rec: Record): Slot
    requires 0 < c.segmentCount && j < c.segmentCount
  {
    var dsid := RestartDsid(c.segmentCount, lastSynced, j);
    if dsid > rec.toSeg then Slot(dsid, 0, false, false, false, 0, was.media, was.media)
    else if dsid == rec.toSeg then Slot(dsid, rec.toOff, false, false, false, 0, was.media, was.media)
    else Slot(dsid, c.segmentSize, true, false, false, 0, was.media, was.media)
  }

  function NewRing(c: Config, lastSynced: nat, disk: map<nat, seq<byte>>): Ring {
    Ring(seq(c.segmentCount, j requires 0 <= j => FreshSlot(c, j)), 1, lastSynced, disk)
  }

  function ReopenedRing(c: Config, r: Ring, rec: Record): Ring
    requires c.Valid() && RingShape(c, r)
  {
    Ring(seq(c.segmentCount, j requires 0 <= j < c.segmentCount => ReopenedSlot(c, r.slots[j], j, r.lastSynced, rec)),
         rec.toSeg, r.lastSynced, r.disk)
  }

  /** The log up to the end of a record. */
  function Truncated(segs: seq<seq<Entry>>, rec: Record): seq<seq<Entry>>
    requires 1 <= rec.toSeg <= |segs| && rec.toOff <= |segs[rec.toSeg - 1]|
  {
    segs[..rec.toSeg - 1] + [segs[rec.toSeg - 1][..rec.toOff]]
  }

  /** The metadata store as recovery opens it: the buffer is taken to hold the page of the durable
      epoch. The paged epoch never runs ahead here, so there is no rollback to complete. */
  function Reopened(c: Config, s: State): Metadata
    requires c.pageCap > 0
  {
    s.store.(bufPage := MdsLayout.PageNo(c.pageCap, s.cbDurable))
  }

  /** The record of the durable epoch, as start-up reads it. */
  function ResumeRecord(c: Config, s: State): Record
    requires c.pageCap > 0 && |s.store.page| == c.pageCap
  {
    if s.cbDurable == 0 then Record(0, 1, 0, 1, 0, 0, 0) else Stored(c, Reopened(c, s), s.cbDurable)
  }

  ghost predicate CanRestart(c: Config, s: State, buffers: seq<seq<byte>>) {
    && Shape(c, s)
    && |buffers| == c.writerCount
    && (forall w | 0 <= w < |buffers| :: |buffers[w]| == c.bufferSize)
    && (s.cbDurable > 0 ==>
          var rec := ResumeRecord(c, s);
          1 <= rec.toSeg <= |s.segs| && rec.toOff <= |s.segs[rec.toSeg - 1]|)
  }

  /** A crash followed by nvwal_init: everything but the media, the disk, the persistent part of the
      metadata store and the control block is lost and rebuilt. */
  function DoRestart(c: Config, s: State, buffers: seq<seq<byte>>): State
    requires CanRestart(c, s, buffers)
  {
    var rec := ResumeRecord(c, s);
    var segs := if s.cbDurable == 0 then [[]] else Truncated(s.segs, rec);
    State(
      seq(c.writerCount, w requires 0 <= w < |buffers| => FreshWriter(buffers[w])),
      if s.cbDurable == 0 then NewRing(c, s.ring.lastSynced, s.ring.disk) else ReopenedRing(c, s.ring, rec),
      Flusher(Start, 0, false, rec.fromSeg, rec.toOff, 0, 0),
      Poll, map[], s.cbDurable, s.cbDurable, map[], s.cbDurable, Reopened(c, s),
      map e: nat | 1 <= e <= s.cbDurable :: Stored(c, Reopened(c, s), e),
      segs,
      seq(c.writerCount, w requires 0 <= w => OfWriter(Flat(segs), w)),
      s.cbDurable)
  }

  /** A new, empty log. */
  function Init(c: Config, buffers: seq<seq<byte>>): State
    requires c.Valid() && |buffers| == c.writerCount
  {
    State(
      seq(c.writerCount, w requires 0 <= w < |buffers| => FreshWriter(buffers[w])),
      NewRing(c, 0, map[]),
      Flusher(Start, 0, false, 1, 0, 0, 0),
      Poll, map[], 0, 0, map[], 0, Metadata([], seq(c.pageCap, _ => Mds.BLANK), 0, 0), map[], [[]],
      seq(c.writerCount, _ => []), 0)
  }

  // ================================================================ the system

  datatype Step =
    | StageStep(w: nat, data: seq<byte>)
    | BeginWriteStep(w: nat, epoch: nat)
    | WriteStep(w: nat)
    | TagStep(w: nat, i: nat, epoch: nat, v0: nat, v1: nat)
    | TagSecondStep(w: nat)
    | BeginCheckStep(w: nat)
    | CheckFrameStep(w: nat)
    | AdvanceLoadStep(t: nat)
    | AdvanceCasStep(t: nat)
    | FlushStep
    | FlushFailStep
    | FlushHaltStep
    | BreakStep
    | SyncStep
    | SyncFailStep(partial: seq<byte>)
    | SyncStopStep
    | OpenStep(k: nat, dsid: nat)
    | ReadStep(k: nat)
    | ReleaseStep(k: nat)
    | EvictStep(j: nat, k: nat)
    | RestartStep(buffers: seq<seq<byte>>)

  ghost predicate Next(c: Config, s: State, step: Step, s': State) {
    match step
    case StageStep(w, data) => CanStage(c, s, w, data) && s' == DoStage(c, s, w, data)
    case BeginWriteStep(w, e) => CanBeginWrite(c, s, w, e) && s' == DoBeginWrite(c, s, w, e)
    case WriteStep(w) => CanWrite(c, s, w) && s' == DoWrite(c, s, w)
    case TagStep(w, i, e, v0, v1) => CanTag(c, s, w, i, e) && s' == DoTag(c, s, w, i, e, v0, v1)
    case TagSecondStep(w) => CanTagSecond(c, s, w) && s' == DoTagSecond(c, s, w)
    case BeginCheckStep(w) => CanBeginCheck(c, s, w) && s' == DoBeginCheck(c, s, w)
    case CheckFrameStep(w) => CanCheckFrame(c, s, w) && s' == DoCheckFrame(c, s, w)
    case AdvanceLoadStep(t) => CanAdvanceLoad(c, s, t) && s' == DoAdvanceLoad(s, t)
    case AdvanceCasStep(t) => CanAdvanceCas(c, s, t) && s' == DoAdvanceCas(s, t)
    case FlushStep => CanFlush(c, s) && s' == DoFlush(c, s)
    case FlushFailStep => CanFail(c, s) && s' == DoHalt(s)
    case FlushHaltStep => CanHalt(c, s) && s' == DoHalt(s)
    case BreakStep => CanBreak(c, s) && s' == DoBreak(s)
    case SyncStep => CanSync(c, s) && s' == DoSync(c, s)
    case SyncFailStep(partial) => CanSyncFail(c, s) && s' == DoSyncFail(c, s, partial)
    case SyncStopStep => CanSyncStop(c, s) && s' == s.(fsyncer := Stopped)
    case OpenStep(k, dsid) => CanOpen(c, s, k, dsid) && s' == DoOpen(s, k, dsid)
    case ReadStep(k) => CanRead(c, s, k) && s' == DoRead(c, s, k)
    case ReleaseStep(k) => CanRelease(c, s, k) && s' == DoRelease(c, s, k)
    case EvictStep(j, k) => CanEvict(c, s, j, k) && s' == DoEvict(c, s, j, k)
    case RestartStep(buffers) => CanRestart(c, s, buffers) && s' == DoRestart(c, s, buffers)
  }

  /** What the source relies on without enforcing it; each clause has a lemma in PipelineRaces
      that shows what happens without it.
      - a stop request does not cut short the traversal of a stable pass;
      - the fsyncer does not look at a segment while the flusher resets its flags;
      - the flusher does not recycle a segment between the fsyncer's two progress stores;
      - a restart finds the last durable epoch within one segment, that segment not yet synced,
        DSIDs that fit in 32 bits, and no page of the metadata store appended ahead of its turn. */
  predicate Admissible(c: Config, s: State, step: Step)
    requires c.Valid() && RingShape(c, s.ring) && |s.store.page| == c.pageCap
  {
    match step
    case BreakStep =>
      s.flusher.pc.NextWriter? && s.flusher.stablePass ==> s.flusher.pc.w + 1 == c.writerCount
    case SyncStep =>
      !(&& s.fsyncer.CheckRequest?
        && s.flusher.pc.Turning? && Resetting(s.flusher.pc.turn)
        && s.fsyncer.j == NextSlot(c, s.ring))
    case FlushStep =>
      !(&& s.flusher.pc.Turning? && s.flusher.pc.turn.Lock?
        && s.fsyncer.Bump? && s.fsyncer.j == NextSlot(c, s.ring))
    case RestartStep(_) =>
      var rec := ResumeRecord(c, s);
      && s.ring.lastSynced < rec.toSeg
      && s.ring.lastSynced + c.segmentCount < TWO32
      && rec.fromSeg == rec.toSeg
      && MdsCrash.Sound(c.pageCap, ImageOf(s))
    case _ => true
  }
}
