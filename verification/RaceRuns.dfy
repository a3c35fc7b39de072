/** Concrete runs into the situations PipelineRaces is about: each condition the source does not
    enforce can fail in a run that is admissible up to that point. */
module RaceRuns {
  import opened Base
  import opened Circular
  import opened LogStream
  import opened Restart
  import opened Pipeline
  import opened WriterInvariant
  import opened RingInvariant
  import opened LogInvariant
  import opened CursorInvariant
  import opened StoreInvariant
  import opened PipelineInvariant
  import opened PipelineRuns
  import opened PipelineRaces
  import opened RunBuilding
  import opened CursorChunks
  import opened CursorRoundTrip
  import PipelineTheorems
  import Mds

  /** A metadata store with pages of two records, before the first one. */
  const EMPTY_STORE: Metadata := Metadata([], [Mds.BLANK, Mds.BLANK], 0, 0)

  /** After the record of epoch 1. */
  function FirstRecord(rec: Record): Metadata {
    Metadata([], [rec, Mds.BLANK], 0, 1)
  }

  // ================================================================ two one-byte segments

  /** One writer, two NV segments of one byte each. */
  const TINY: Config := Config(1, 5, 1, 2, 2)

  /** The writer that wrote bytes 7 and 8 in epoch 1, after `n` of them were flushed. */
  function TinyWriter(n: nat): Writer {
    var unused := Frame(0, 0, 0, 0, 0);
    Writer([7, 8, 0, 0, 0], [Frame(n, 2, 1, 0, 0), unused, unused, unused, unused], 0, 2, Idle, [],
           [Entry(7, 1, 0), Entry(8, 1, 0)], n, n, true, 0, 2)
  }

  function TinyState(flushed: nat, ring: Ring, pc: FlusherPc, f: Fsyncer, segs: seq<seq<Entry>>): State {
    State([TinyWriter(flushed)], ring, Flusher(pc, 1, false, 1, 0, 0, 0), f, map[], 0, 0, map[], 0, EMPTY_STORE, map[],
          segs, [[]], 0)
  }

  const SEVEN: seq<Entry> := [Entry(7, 1, 0)]
  const EIGHT: seq<Entry> := [Entry(8, 1, 0)]

  lemma TinyWritten()
    ensures var s := TinyState(0, NewRing(TINY, 0, map[]), Start, Poll, [[]]);
            Ready(TINY, s.(flusher := Flusher(Start, 0, false, 1, 0, 0, 0)))
  {
    hide Ready, NewRing;
    var buffers: seq<seq<byte>> := [[0, 0, 0, 0, 0]];
    var s := Init(TINY, buffers);
    InitReady(TINY, buffers);
    Writes(TINY, s, 0, [7, 8], 1);
    assert Wrote(TINY, 0, s.writers[0], [7, 8], 1) == TinyWriter(0);
    assert WithWriter(s, 0, TinyWriter(0)).writers == [TinyWriter(0)];
    assert s.prior == [[]] && s.store == EMPTY_STORE;
  }

  lemma TinyNewRing()
    ensures NewRing(TINY, 0, map[]) == Ring([SlotA(0, false, false, [0]), SlotB(0, false, false, 0, [0])], 1, 0, map[])
  {
    var r := NewRing(TINY, 0, map[]);
    var zeros: seq<byte> := seq(TINY.segmentSize, _ => 0);
    assert zeros == [0];
    assert r.slots == [FreshSlot(TINY, 0), FreshSlot(TINY, 1)];
  }

  /** Copying the byte at offset `n` into an empty segment. */
  lemma TinyCopy(n: nat, b: byte)
    requires n < 2 && b == TinyWriter(0).buffer[n]
    ensures CircularRead(TinyWriter(0).buffer, n, 1) == [b] && Splice([0], 0, [b]) == [b]
    ensures TinyWriter(n).submitted[n..n + 1] == [TinyWriter(0).submitted[n]]
  {
  }

  /** The slots as the run goes on. */
  function SlotA(written: nat, requested: bool, completed: bool, nv: seq<byte>): Slot {
    Slot(1, written, requested, completed, false, 0, nv, [0])
  }

  function SlotB(written: nat, requested: bool, completed: bool, pins: int, nv: seq<byte>): Slot {
    Slot(2, written, requested, completed, false, pins, nv, [0])
  }

  /** The first byte fills segment 1. */
  lemma TinyFull()
    ensures Ready(TINY, TinyState(1, Ring([SlotA(1, false, false, [7]), SlotB(0, false, false, 0, [0])], 1, 0, map[]),
                                  Turning(0, 0, Request), Poll, [SEVEN]))
  {
    hide Ready, Shape;
    TinyWritten();
    var r := Ring([SlotA(0, false, false, [0]), SlotB(0, false, false, 0, [0])], 1, 0, map[]);
    TinyNewRing();
    TinyCopy(0, 7);
    var s := TinyState(0, r, Start, Poll, [[]]);
    FlushTo(TINY, s.(flusher := Flusher(Start, 0, false, 1, 0, 0, 0)), WithPc(s, Search(0, 0)));
    FlushTo(TINY, WithPc(s, Search(0, 0)), WithPc(s, Found(0, 0)));
    FlushTo(TINY, WithPc(s, Found(0, 0)), WithPc(s, LoadTail(0, 0)));
    FlushTo(TINY, WithPc(s, LoadTail(0, 0)), WithPc(s, Copy(0, 0, 0, 2)));
    var r1 := Ring([SlotA(0, false, false, [7]), SlotB(0, false, false, 0, [0])], 1, 0, map[]);
    assert r.slots[0 := SlotA(0, false, false, [7])] == r1.slots;
    FlushTo(TINY, WithPc(s, Copy(0, 0, 0, 2)), TinyState(0, r1, Advance(0, 0, 0, 1), Poll, [[]]));
    var r2 := Ring([SlotA(1, false, false, [7]), SlotB(0, false, false, 0, [0])], 1, 0, map[]);
    var none: seq<Entry> := [];
    assert none + SEVEN == SEVEN && [none][0 := SEVEN] == [SEVEN];
    TinyAdvance(r1, 0, [[]], r2, [SEVEN]);
  }

  /** Accounting for one copied byte, which fills the segment. */
  lemma TinyAdvance(r: Ring, n: nat, segs: seq<seq<Entry>>, r': Ring, segs': seq<seq<Entry>>)
    requires n < 2 && RingShape(TINY, r) && r.cur == |segs| > 0
    requires var j := SlotOf(2, r.cur);
             r.slots[j].written == 0 && r' == SetSlot(r, j, r.slots[j].(written := 1))
    requires segs' == segs[|segs| - 1 := segs[|segs| - 1] + [TinyWriter(0).submitted[n]]]
    requires Ready(TINY, TinyState(n, r, Advance(0, 0, n, 1), Poll, segs))
    ensures Ready(TINY, TinyState(n + 1, r', Turning(0, 0, Request), Poll, segs'))
  {
    hide Ready, Shape, SlotOf, RingShape;
    var s, t := TinyState(n, r, Advance(0, 0, n, 1), Poll, segs), TinyState(n + 1, r', Turning(0, 0, Request), Poll, segs');
    var x := TinyWriter(n);
    assert x.frames[0 := x.frames[0].(head := n + 1)] == TinyWriter(n + 1).frames;
    assert WithWriter(s, 0, TinyWriter(n + 1)).writers == [TinyWriter(n + 1)];
    assert x.submitted[n..n + 1] == [TinyWriter(0).submitted[n]];
    FlushTo(TINY, s, t);
  }

  lemma TinyLocked()
    ensures Ready(TINY, TinyState(1, Ring([SlotA(1, true, false, [7]), SlotB(0, false, false, -1, [0])], 1, 0, map[]),
                                  Turning(0, 0, SetDsid), Poll, [SEVEN]))
  {
    hide Ready, Shape;
    TinyFull();
    var a0, a, b := SlotA(1, false, false, [7]), SlotA(1, true, false, [7]), SlotB(0, false, false, 0, [0]);
    var r0, r1 := Ring([a0, b], 1, 0, map[]), Ring([a, b], 1, 0, map[]);
    var r2 := Ring([a, SlotB(0, false, false, -1, [0])], 1, 0, map[]);
    assert r0.slots[0 := a] == r1.slots && r1.slots[1 := r2.slots[1]] == r2.slots;
    var s := TinyState(1, r1, Turning(0, 0, Wait), Poll, [SEVEN]);
    TurnTo(TINY, TinyState(1, r0, Turning(0, 0, Request), Poll, [SEVEN]), Request, r1, s);
    TurnTo(TINY, s, Wait, r1, WithPc(s, Turning(0, 0, Lock)));
    TurnTo(TINY, WithPc(s, Turning(0, 0, Lock)), Lock, r2, TinyState(1, r2, Turning(0, 0, SetDsid), Poll, [SEVEN]));
  }

  /** The turn to segment 2. */
  lemma TinyTurn()
    ensures Ready(TINY, TinyState(1, Ring([SlotA(1, true, false, [7]), SlotB(0, false, false, 0, [0])], 2, 0, map[]),
                                  LoadTail(0, 0), Poll, [SEVEN, []]))
  {
    hide Ready, Shape;
    TinyLocked();
    var a, b := SlotA(1, true, false, [7]), SlotB(0, false, false, 0, [0]);
    var r := Ring([a, SlotB(0, false, false, -1, [0])], 1, 0, map[]);
    assert r.slots[1 := r.slots[1]] == r.slots;
    var s := TinyState(1, r, Turning(0, 0, SetDsid), Poll, [SEVEN]);
    TurnTo(TINY, s, SetDsid, r, WithPc(s, Turning(0, 0, ClearCompleted)));
    TurnTo(TINY, WithPc(s, Turning(0, 0, ClearCompleted)), ClearCompleted, r, WithPc(s, Turning(0, 0, ClearError)));
    TurnTo(TINY, WithPc(s, Turning(0, 0, ClearError)), ClearError, r, WithPc(s, Turning(0, 0, ClearRequested)));
    TurnTo(TINY, WithPc(s, Turning(0, 0, ClearRequested)), ClearRequested, r, WithPc(s, Turning(0, 0, Unlock)));
    var r' := Ring([a, b], 2, 0, map[]);
    assert r.slots[1 := b] == r'.slots;
    assert [SEVEN] + [[]] == [SEVEN, []];
    FlushTo(TINY, WithPc(s, Turning(0, 0, Unlock)), TinyState(1, r', LoadTail(0, 0), Poll, [SEVEN, []]));
  }

  /** The second byte fills segment 2. */
  lemma TinySecond()
    ensures Ready(TINY, TinyState(2, Ring([SlotA(1, true, false, [7]), SlotB(1, false, false, 0, [8])], 2, 0, map[]),
                                  Turning(0, 0, Request), Poll, [SEVEN, EIGHT]))
  {
    hide Ready, Shape;
    TinyTurn();
    var a := SlotA(1, true, false, [7]);
    var r0, r1 := Ring([a, SlotB(0, false, false, 0, [0])], 2, 0, map[]), Ring([a, SlotB(0, false, false, 0, [8])], 2, 0, map[]);
    var r2 := Ring([a, SlotB(1, false, false, 0, [8])], 2, 0, map[]);
    assert r0.slots[1 := r1.slots[1]] == r1.slots && r1.slots[1 := r2.slots[1]] == r2.slots;
    var s := TinyState(1, r0, LoadTail(0, 0), Poll, [SEVEN, []]);
    FlushTo(TINY, s, WithPc(s, Copy(0, 0, 1, 1)));
    TinyCopy(1, 8);
    FlushTo(TINY, WithPc(s, Copy(0, 0, 1, 1)), TinyState(1, r1, Advance(0, 0, 1, 1), Poll, [SEVEN, []]));
    var none: seq<Entry> := [];
    assert none + EIGHT == EIGHT && [SEVEN, none][1 := EIGHT] == [SEVEN, EIGHT];
    TinyAdvance(r1, 1, [SEVEN, []], r2, [SEVEN, EIGHT]);
  }

  /** The turn to segment 3 needs the slot of segment 1. */
  lemma TinyFullAgain()
    ensures Ready(TINY, TinyState(2, Ring([SlotA(1, true, false, [7]), SlotB(1, true, false, 0, [8])], 2, 0, map[]),
                                  Turning(0, 0, Wait), Poll, [SEVEN, EIGHT]))
  {
    hide Ready, Shape;
    TinySecond();
    var a := SlotA(1, true, false, [7]);
    var r, r' := Ring([a, SlotB(1, false, false, 0, [8])], 2, 0, map[]), Ring([a, SlotB(1, true, false, 0, [8])], 2, 0, map[]);
    assert r.slots[1 := r'.slots[1]] == r'.slots;
    TurnTo(TINY, TinyState(2, r, Turning(0, 0, Request), Poll, [SEVEN, EIGHT]), Request, r',
           TinyState(2, r', Turning(0, 0, Wait), Poll, [SEVEN, EIGHT]));
  }

  // ================================================================ the races

  /** The fsyncer writes segment 1 to disk and marks it, but has not recorded it yet. */
  lemma TinyMarked()
    ensures Ready(TINY, TinyState(2, Ring([SlotA(1, true, true, [7]), SlotB(1, true, false, 0, [8])], 2, 0, map[1 := [7]]),
                                  Turning(0, 0, Wait), Bump(0, 1), [SEVEN, EIGHT]))
  {
    hide Ready, Shape;
    TinyFullAgain();
    var a, b := SlotA(1, true, false, [7]), SlotB(1, true, false, 0, [8]);
    var r := Ring([a, b], 2, 0, map[]);
    var s := TinyState(2, r, Turning(0, 0, Wait), Poll, [SEVEN, EIGHT]);
    assert r.slots[0 := a] == r.slots;
    SyncTo(TINY, s, s.(fsyncer := CheckRequest(0)));
    SyncTo(TINY, s.(fsyncer := CheckRequest(0)), s.(fsyncer := LoadDsid(0)));
    SyncTo(TINY, s.(fsyncer := LoadDsid(0)), s.(fsyncer := ResetError(0, 1)));
    SyncTo(TINY, s.(fsyncer := ResetError(0, 1)), s.(fsyncer := WriteDisk(0, 1)));
    var r1 := Ring([a, b], 2, 0, map[1 := [7]]);
    var r2 := Ring([SlotA(1, true, true, [7]), b], 2, 0, map[1 := [7]]);
    assert r1.slots[0 := r2.slots[0]] == r2.slots;
    SyncTo(TINY, s.(fsyncer := WriteDisk(0, 1)), s.(ring := r1, fsyncer := Mark(0, 1)));
    SyncTo(TINY, s.(ring := r1, fsyncer := Mark(0, 1)), s.(ring := r2, fsyncer := Bump(0, 1)));
  }

  /** There the flusher can go on, so that it is about to take a slot between the fsyncer's two
      progress stores, while a cursor waits to open the segment in it. */
  lemma RecyclingRaceHappens() returns (s: State)
    ensures Reachable(TINY, s) && Inv(TINY, s) && CanFlush(TINY, s)
    ensures BetweenProgressStores(TINY, s)
    ensures 0 in s.cursors && s.cursors[0] == Loaded(s.ring.lastSynced + 1, s.ring.lastSynced)
  {
    hide Ready, Inv, Reachable, Shape;
    TinyMarked();
    var r := Ring([SlotA(1, true, true, [7]), SlotB(1, true, false, 0, [8])], 2, 0, map[1 := [7]]);
    var t := TinyState(2, r, Turning(0, 0, Wait), Bump(0, 1), [SEVEN, EIGHT]);
    TurnTo(TINY, t, Wait, r, WithPc(t, Turning(0, 0, Lock)));
    t := WithPc(t, Turning(0, 0, Lock));
    s := t.(cursors := map[0 := Loaded(1, 0)]);
    Opens(TINY, t, 0, 1);
    ReadyIs(TINY, s);
    ReadyShape(TINY, s);
  }

  /** Recording segment 1 lets the flusher take its slot. */
  lemma TinyRetaken()
    ensures var a := Slot(3, 0, true, true, false, -1, [7], [0]);
            Ready(TINY, TinyState(2, Ring([a, SlotB(1, true, false, 0, [8])], 2, 1, map[1 := [7]]),
                                  Turning(0, 0, ClearCompleted), Poll, [SEVEN, EIGHT]))
  {
    hide Ready, Shape;
    TinyMarked();
    var a, b := SlotA(1, true, true, [7]), SlotB(1, true, false, 0, [8]);
    var disk := map[1 := [7]];
    var r0, r := Ring([a, b], 2, 0, disk), Ring([a, b], 2, 1, disk);
    var s := TinyState(2, r, Turning(0, 0, Wait), Poll, [SEVEN, EIGHT]);
    SyncTo(TINY, TinyState(2, r0, Turning(0, 0, Wait), Bump(0, 1), [SEVEN, EIGHT]), s);
    TurnTo(TINY, s, Wait, r, WithPc(s, Turning(0, 0, Lock)));
    var r1 := Ring([a.(pins := -1), b], 2, 1, disk);
    var r2 := Ring([Slot(3, 0, true, true, false, -1, [7], [0]), b], 2, 1, disk);
    assert r.slots[0 := r1.slots[0]] == r1.slots && r1.slots[0 := r2.slots[0]] == r2.slots;
    TurnTo(TINY, WithPc(s, Turning(0, 0, Lock)), Lock, r1, WithPc(s.(ring := r1), Turning(0, 0, SetDsid)));
    TurnTo(TINY, WithPc(s.(ring := r1), Turning(0, 0, SetDsid)), SetDsid, r2,
           WithPc(s.(ring := r2), Turning(0, 0, ClearCompleted)));
  }

  /** It resets the flags of the slot but for the last one. */
  lemma TinyCleared()
    ensures var a := Slot(3, 0, true, false, false, -1, [7], [0]);
            Ready(TINY, TinyState(2, Ring([a, SlotB(1, true, false, 0, [8])], 2, 1, map[1 := [7]]),
                                  Turning(0, 0, ClearRequested), Poll, [SEVEN, EIGHT]))
  {
    hide Ready, Shape;
    TinyRetaken();
    var b, disk := SlotB(1, true, false, 0, [8]), map[1 := [7]];
    var r := Ring([Slot(3, 0, true, true, false, -1, [7], [0]), b], 2, 1, disk);
    var r' := Ring([Slot(3, 0, true, false, false, -1, [7], [0]), b], 2, 1, disk);
    assert r.slots[0 := r'.slots[0]] == r'.slots && r'.slots[0 := r'.slots[0]] == r'.slots;
    var s := TinyState(2, r, Turning(0, 0, ClearCompleted), Poll, [SEVEN, EIGHT]);
    TurnTo(TINY, s, ClearCompleted, r', WithPc(s.(ring := r'), Turning(0, 0, ClearError)));
    TurnTo(TINY, WithPc(s.(ring := r'), Turning(0, 0, ClearError)), ClearError, r',
           WithPc(s.(ring := r'), Turning(0, 0, ClearRequested)));
  }

  /** The fsyncer catches up. */
  lemma TinySynced()
    ensures var a, done := Slot(3, 0, true, false, false, -1, [7], [0]), SlotB(1, true, true, 0, [8]);
            Ready(TINY, TinyState(2, Ring([a, done], 2, 2, map[1 := [7], 2 := [8]]),
                                  Turning(0, 0, ClearRequested), Poll, [SEVEN, EIGHT]))
  {
    hide Ready, Shape;
    TinyCleared();
    var a := Slot(3, 0, true, false, false, -1, [7], [0]);
    var b, done := SlotB(1, true, false, 0, [8]), SlotB(1, true, true, 0, [8]);
    var r, r' := Ring([a, b], 2, 1, map[1 := [7]]), Ring([a, done], 2, 2, map[1 := [7], 2 := [8]]);
    assert r.slots[1 := done] == r'.slots && map[1 := [7]][2 := [8]] == r'.disk;
    var t := TinyState(2, r, Turning(0, 0, ClearRequested), Poll, [SEVEN, EIGHT]);
    SyncsSegment(TINY, t, 1, 2, t.(ring := r'));
  }

  /** Then it looks at the slot whose flags are being reset. */
  lemma FlagRaceHappens() returns (s: State)
    ensures Reachable(TINY, s) && Inv(TINY, s)
    ensures BetweenClears(TINY, s)
  {
    hide Ready, Inv, Reachable, Shape;
    TinySynced();
    var a, done := Slot(3, 0, true, false, false, -1, [7], [0]), SlotB(1, true, true, 0, [8]);
    var t := TinyState(2, Ring([a, done], 2, 2, map[1 := [7], 2 := [8]]), Turning(0, 0, ClearRequested), Poll, [SEVEN, EIGHT]);
    s := t.(fsyncer := CheckRequest(0));
    SyncTo(TINY, t, s);
    ReadyIs(TINY, s);
  }

  // ================================================================ a failing disk

  /** The turn to segment 3 waits for segment 1. The fsyncer begins to write it and fails, with nothing in
      the file; the flusher learns of it and gives up. */
  lemma FailureHappens() returns (s: State)
    ensures Reachable(TINY, s) && Inv(TINY, s)
    ensures s.flusher.pc == Halted(Wait) && s.fsyncer.Stopped? && s.ring.disk == map[1 := []]
    ensures |s.ring.slots| == 2 && s.ring.slots[0].error && s.ring.slots[0].dsid == 1 && s.ring.lastSynced == 0
  {
    hide Ready, Inv, Reachable, Shape;
    TinyFullAgain();
    var a, b := SlotA(1, true, false, [7]), SlotB(1, true, false, 0, [8]);
    var r := Ring([a, b], 2, 0, map[]);
    var t := TinyState(2, r, Turning(0, 0, Wait), Poll, [SEVEN, EIGHT]);
    PicksUp(TINY, t, 0, 1);
    var r' := Ring([a.(error := true), b], 2, 0, map[1 := []]);
    assert r.slots[0 := a.(error := true)] == r'.slots;
    SyncFails(TINY, t.(fsyncer := WriteDisk(0, 1)), [], 0, 1);
    GivesUp(TINY, t.(ring := r', fsyncer := Stopped));
    s := WithPc(t.(ring := r', fsyncer := Stopped), Halted(Wait));
    ReadyIs(TINY, s);
  }

  /** Both threads stop on request. */
  lemma StopHappens() returns (s: State)
    ensures Reachable(TINY, s) && Inv(TINY, s) && s.flusher.pc == Halted(NoTurn) && s.fsyncer.Stopped?
  {
    hide Ready, Inv, Reachable;
    var t := Init(TINY, [[0, 0, 0, 0, 0]]);
    InitReady(TINY, [[0, 0, 0, 0, 0]]);
    StopsBoth(TINY, t);
    s := WithPc(t.(fsyncer := Stopped), Halted(NoTurn));
    ReadyIs(TINY, s);
  }

  // ================================================================ an epoch over three segments

  function TinyIdle(pc: FlusherPc): State {
    var a := Slot(3, 0, false, false, false, 0, [7], [0]);
    TinyState(2, Ring([a, SlotB(1, true, false, 0, [8])], 3, 1, map[1 := [7]]), pc, Poll, [SEVEN, EIGHT, []])
  }

  /** The turn to segment 3 ends. */
  lemma TinyThird()
    ensures Ready(TINY, TinyIdle(LoadTail(0, 0)))
  {
    hide Ready, Shape;
    TinyCleared();
    var b, disk := SlotB(1, true, false, 0, [8]), map[1 := [7]];
    var r0 := Ring([Slot(3, 0, true, false, false, -1, [7], [0]), b], 2, 1, disk);
    var r1 := Ring([Slot(3, 0, false, false, false, -1, [7], [0]), b], 2, 1, disk);
    var r2 := Ring([Slot(3, 0, false, false, false, 0, [7], [0]), b], 3, 1, disk);
    assert r0.slots[0 := r1.slots[0]] == r1.slots && r1.slots[0 := r2.slots[0]] == r2.slots;
    var s := TinyState(2, r0, Turning(0, 0, ClearRequested), Poll, [SEVEN, EIGHT]);
    TurnTo(TINY, s, ClearRequested, r1, WithPc(s.(ring := r1), Turning(0, 0, Unlock)));
    assert [SEVEN, EIGHT] + [[]] == [SEVEN, EIGHT, []];
    FlushTo(TINY, WithPc(s.(ring := r1), Turning(0, 0, Unlock)),
            TinyState(2, r2, LoadTail(0, 0), Poll, [SEVEN, EIGHT, []]));
  }

  /** The state in the stable pass over epoch 1. */
  function TinyStable(media: seq<byte>, pc: FlusherPc): State {
    var a := Slot(3, 0, false, false, false, 0, [7], [0]);
    var b := Slot(2, 1, true, false, false, 0, [8], media);
    TinyState(2, Ring([a, b], 3, 1, map[1 := [7]]), pc, Poll, [SEVEN, EIGHT, []]).(
      stable := 1, flusher := Flusher(pc, 1, true, 1, 0, 0, 0))
  }

  function TinyDurable(): State {
    TinyStable([8], Start).(store := FirstRecord(TINY_RECORD), mds := map[1 := TINY_RECORD], cbDurable := 1, durable := 1,
                            flusher := Flusher(Start, 1, true, 3, 0, 0, 0))
  }

  const TINY_RECORD: Record := Record(1, 1, 0, 3, 0, 0, 0)

  lemma TinyPassOver()
    ensures Ready(TINY, TinyIdle(Start))
  {
    hide Ready, Shape;
    TinyThird();
    FlushTo(TINY, TinyIdle(LoadTail(0, 0)), TinyIdle(NextWriter(0)));
    FlushTo(TINY, TinyIdle(NextWriter(0)), TinyIdle(Conclude));
    FlushTo(TINY, TinyIdle(Conclude), TinyIdle(Start));
  }

  lemma TinyStablePass()
    ensures Ready(TINY, TinyStable([0], LoadTag0(0, 0)))
  {
    hide Ready, Shape;
    TinyPassOver();
    Stabilizes(TINY, TinyIdle(Start));
    FlushTo(TINY, TinyIdle(Start).(stable := 1), TinyStable([0], Search(0, 0)));
    FlushTo(TINY, TinyStable([0], Search(0, 0)), TinyStable([0], Found(0, 0)));
    FlushTo(TINY, TinyStable([0], Found(0, 0)), TinyStable([0], LoadTag0(0, 0)));
  }

  lemma TinyConcluding()
    ensures Ready(TINY, TinyStable([0], Persist(TINY_RECORD, 1, 1)))
  {
    hide Ready, Shape;
    TinyStablePass();
    FlushTo(TINY, TinyStable([0], LoadTag0(0, 0)), TinyStable([0], LoadTag1(0, 0)));
    FlushTo(TINY, TinyStable([0], LoadTag1(0, 0)), TinyStable([0], LoadTail(0, 0)));
    FlushTo(TINY, TinyStable([0], LoadTail(0, 0)), TinyStable([0], NextWriter(0)));
    FlushTo(TINY, TinyStable([0], NextWriter(0)), TinyStable([0], Conclude));
    FlushTo(TINY, TinyStable([0], Conclude), TinyStable([0], Persist(TINY_RECORD, 1, 1)));
  }

  lemma TinyPersisted()
    ensures Ready(TINY, TinyStable([8], AllocPage(TINY_RECORD)))
  {
    hide Ready, Shape;
    TinyConcluding();
    FlushTo(TINY, TinyStable([0], Persist(TINY_RECORD, 1, 1)), TinyStable([0], Persist(TINY_RECORD, 1, 2)));
    var r, r' := TinyStable([0], Start).ring, TinyStable([8], Start).ring;
    assert Splice([0], 0, [8][0..1]) == [8] && r.slots[1 := r'.slots[1]] == r'.slots;
    FlushTo(TINY, TinyStable([0], Persist(TINY_RECORD, 1, 2)), TinyStable([8], Persist(TINY_RECORD, 1, 3)));
    assert Splice([0], 0, [7][0..0]) == [0] && r'.slots[0 := r'.slots[0]] == r'.slots;
    FlushTo(TINY, TinyStable([8], Persist(TINY_RECORD, 1, 3)), TinyStable([8], Persist(TINY_RECORD, 1, 4)));
    FlushTo(TINY, TinyStable([8], Persist(TINY_RECORD, 1, 4)), TinyStable([8], AllocPage(TINY_RECORD)));
  }

  /** Epoch 1 becomes durable. It starts in segment 1 and ends at the start of segment 3. A cursor skips
      segment 2 and with it half of the epoch; and a restart now would make epoch 2 start where
      epoch 1 does. */
  lemma BoundaryEpochHappens() returns (s: State)
    ensures Reachable(TINY, s) && Inv(TINY, s)
    ensures s.cbDurable == s.durable == 1 && 1 in s.mds && s.mds[1] == Record(1, 1, 0, 3, 0, 0, 0)
    ensures s.ring.lastSynced == 1
    ensures HasRecords(s.mds, s.durable) && Seen(TINY, s).Valid() && Seen(TINY, s).Placed(s.mds[1])
    ensures Data(OfEpoch(Flat(s.segs), 1)) == [7, 8] && Yielded(Seen(TINY, s), s.mds[1]) == [7]
    ensures forall buffers | CanRestart(TINY, s, buffers) ::
              DoRestart(TINY, s, buffers).flusher.headDsid == 1 && DoRestart(TINY, s, buffers).flusher.headOff == 0
  {
    hide Ready, Shape, Inv, Reachable, DoRestart;
    TinyPersisted();
    s := TinyDurable();
    Announces(TINY, TinyStable([8], AllocPage(TINY_RECORD)), TINY_RECORD, s);
    ReadyIs(TINY, s);
    SeenIsValid(TINY, s);
    TinyYields(s);
    forall buffers | CanRestart(TINY, s, buffers)
      ensures DoRestart(TINY, s, buffers).flusher.headDsid == 1 && DoRestart(TINY, s, buffers).flusher.headOff == 0
    {
      ResumesAt(TINY, s, buffers);
    }
  }

  lemma ResumesAt(c: Config, s: State, buffers: seq<seq<byte>>)
    requires Inv(c, s) && CanRestart(c, s, buffers) && s.cbDurable > 0
    ensures s.cbDurable in s.mds
    ensures var s', rec := DoRestart(c, s, buffers), s.mds[s.cbDurable];
            s'.flusher.headDsid == rec.fromSeg && s'.flusher.headOff == rec.toOff
  {
    hide RingOk, LogOk, StoreOk, ReadersOk, StreamOk, WriterOk, FlushOk, ConcludeOk, Stored, Truncated, ReopenedRing;
    LatestSurvives(c, s);
  }

  lemma TinyLog(segs: seq<seq<Entry>>)
    requires segs == [SEVEN, EIGHT, []]
    ensures Data(OfEpoch(Flat(segs), 1)) == [7, 8]
  {
    hide Flat, OfEpoch;
    FlatSnoc([], SEVEN);
    FlatSnoc([SEVEN], EIGHT);
    FlatSnoc([SEVEN, EIGHT], []);
    PipelineTheorems.FlatNothing();
    assert [] + [SEVEN] == [SEVEN] && [SEVEN] + [EIGHT] == [SEVEN, EIGHT] && [SEVEN, EIGHT] + [[]] == segs;
    assert Flat(segs) == [Entry(7, 1, 0), Entry(8, 1, 0)];
    OfEpochAll(Flat(segs), 1);
  }

  lemma TinyYields(s: State)
    requires s == TinyDurable() && HasRecords(s.mds, s.durable) && Seen(TINY, s).Valid()
    ensures Seen(TINY, s).Placed(TINY_RECORD)
    ensures Data(OfEpoch(Flat(s.segs), 1)) == [7, 8] && Yielded(Seen(TINY, s), TINY_RECORD) == [7]
  {
    hide Snapshot.Valid, Flat, OfEpoch;
    TinyLog(s.segs);
    var w := Seen(TINY, s);
    assert w.records[0] == TINY_RECORD;
    RecordFacts(w, 1);
    FirstPiece(w, TINY_RECORD);
    assert w.segs[0] == Data(SEVEN) == [7];
  }

  /** An epoch that ends at a segment boundary yields its first piece. */
  lemma FirstPiece(w: Snapshot, rec: Record)
    requires w.Valid() && w.Placed(rec) && rec.fromSeg < rec.toSeg && rec.toOff == 0
    ensures Yielded(w, rec) == w.segs[rec.fromSeg - 1][rec.fromOff..w.size]
  {
    assert FirstPieces(w, rec, 0) == [];
  }

  // ================================================================ two writers

  /** Two writers, two NV segments of two bytes each. */
  const PAIR: Config := Config(2, 3, 2, 2, 2)

  /** Writer `w` after it wrote byte `b` in epoch `e`, and after `n` bytes of it were flushed. */
  function PairWriter(w: nat, b: byte, e: nat, n: nat): Writer {
    var unused := Frame(0, 0, 0, 0, 0);
    Writer([b, 0, 0], [Frame(n, 1, e, 0, 0), unused, unused, unused, unused], 0, 1, Idle, [], [Entry(b, e, w)], n, n, true, 0, 1)
  }

  function PairFresh(): Writer {
    FreshWriter([0, 0, 0])
  }

  function PairRing(): Ring {
    Ring([Slot(1, 0, false, false, false, 0, [0, 0], [0, 0]), Slot(2, 0, false, false, false, 0, [0, 0], [0, 0])], 1, 0, map[])
  }

  function PairState(writers: seq<Writer>, ring: Ring, pc: FlusherPc, segs: seq<seq<Entry>>): State {
    State(writers, ring, Flusher(pc, 1, true, 1, 0, 0, 0), Poll, map[], 0, 1, map[], 0, EMPTY_STORE, map[], segs, [[], []], 0)
  }

  lemma PairWrote(w: nat, b: byte, e: nat)
    requires e >= 1
    ensures Wrote(PAIR, w, PairFresh(), [b], e) == PairWriter(w, b, e, 0)
  {
    assert CircularWrite([0, 0, 0], 0, [b]) == [b, 0, 0];
    assert PairFresh().frames[0 := Frame(0, 1, e, 0, 0)] == PairWriter(w, b, e, 0).frames;
    assert Tagged([b], e, w) == [Entry(b, e, w)];
  }

  lemma PairInit()
    ensures var s := PairState([PairFresh(), PairFresh()], PairRing(), Start, [[]]);
            Ready(PAIR, s.(stable := 0, flusher := Flusher(Start, 0, false, 1, 0, 0, 0)))
  {
    hide Ready;
    var buffers: seq<seq<byte>> := [[0, 0, 0], [0, 0, 0]];
    InitReady(PAIR, buffers);
    var s := Init(PAIR, buffers);
    var zeros: seq<byte> := seq(PAIR.segmentSize, _ => 0);
    assert zeros == [0, 0];
    assert s.ring.slots == PairRing().slots;
    assert s.writers == [PairFresh(), PairFresh()] && s.prior == [[], []] && s.store == EMPTY_STORE;
  }

  /** The second writer has a byte of the stable epoch, the first has none; the flusher is done with
      the first when a stop request may end its pass. */
  lemma BreakHappens() returns (s: State)
    ensures Reachable(PAIR, s) && Inv(PAIR, s) && CanBreak(PAIR, s) && s.flusher.stablePass
    ensures s.flusher.headDsid == s.ring.cur && s.flusher.pc.w < 1 < |s.writers|
    ensures s.writers[1].flushed <= |s.writers[1].submitted| && UpTo(s.writers[1].Unflushed(), s.flusher.target) > 0
  {
    hide Ready, Shape, Inv, Reachable;
    PairInit();
    var idle := Flusher(Start, 0, false, 1, 0, 0, 0);
    var s0 := PairState([PairFresh(), PairFresh()], PairRing(), Start, [[]]).(stable := 0, flusher := idle);
    PairWrote(1, 7, 1);
    Writes(PAIR, s0, 1, [7], 1);
    var writers := [PairFresh(), PairWriter(1, 7, 1, 0)];
    assert s0.writers[1 := writers[1]] == writers;
    Stabilizes(PAIR, s0.(writers := writers));
    s := PairState(writers, PairRing(), NextWriter(0), [[]]);
    FlushTo(PAIR, s.(flusher := idle), WithPc(s, Search(0, 0)));
    Skips(PAIR, WithPc(s, Search(0, 0)), 0);
    ReadyIs(PAIR, s);
    ShapeOf(PAIR, s);
    assert writers[1].Unflushed() == [Entry(7, 1, 1)];
  }

  // ================================================================ a durable epoch in a synced segment

  /** Writer 0 wrote byte 7 in epoch 1, writer 1 byte 8 in epoch 2. */
  function PairWriters(n: nat, m: nat): seq<Writer> {
    [PairWriter(0, 7, 1, n), PairWriter(1, 8, 2, m)]
  }

  function PairSlot(written: nat, requested: bool, completed: bool, nv: seq<byte>, media: seq<byte>): Slot {
    Slot(1, written, requested, completed, false, 0, nv, media)
  }

  function PairOn(x: Slot): Ring {
    Ring([x, PairRing().slots[1]], 1, 0, map[])
  }

  const OF_ZERO: seq<Entry> := [Entry(7, 1, 0)]
  const OF_BOTH: seq<Entry> := [Entry(7, 1, 0), Entry(8, 2, 1)]
  const PAIR_RECORD: Record := Record(1, 1, 0, 1, 1, 0, 0)

  lemma PairBothWrote()
    ensures var s := PairState(PairWriters(0, 0), PairRing(), Start, [[]]);
            Ready(PAIR, s.(flusher := Flusher(Start, 0, false, 1, 0, 0, 0)))
  {
    hide Ready;
    PairInit();
    var idle := Flusher(Start, 0, false, 1, 0, 0, 0);
    var s0 := PairState([PairFresh(), PairFresh()], PairRing(), Start, [[]]).(stable := 0, flusher := idle);
    PairWrote(0, 7, 1);
    Writes(PAIR, s0, 0, [7], 1);
    var s1 := s0.(writers := [PairWriter(0, 7, 1, 0), PairFresh()]);
    assert s0.writers[0 := PairWriter(0, 7, 1, 0)] == s1.writers;
    PairWrote(1, 8, 2);
    Writes(PAIR, s1, 1, [8], 2);
    assert s1.writers[1 := PairWriter(1, 8, 2, 0)] == PairWriters(0, 0);
    Stabilizes(PAIR, s0.(writers := PairWriters(0, 0)));
  }

  lemma PairFound()
    ensures Ready(PAIR, PairState(PairWriters(0, 0), PairRing(), Copy(0, 0, 0, 1), [[]]))
  {
    hide Ready, Shape;
    PairBothWrote();
    var s := PairState(PairWriters(0, 0), PairRing(), Start, [[]]);
    FlushTo(PAIR, s.(flusher := Flusher(Start, 0, false, 1, 0, 0, 0)), WithPc(s, Search(0, 0)));
    FlushTo(PAIR, WithPc(s, Search(0, 0)), WithPc(s, Found(0, 0)));
    FlushTo(PAIR, WithPc(s, Found(0, 0)), WithPc(s, LoadTag0(0, 0)));
    FlushTo(PAIR, WithPc(s, LoadTag0(0, 0)), WithPc(s, LoadTag1(0, 0)));
    FlushTo(PAIR, WithPc(s, LoadTag1(0, 0)), WithPc(s, LoadTail(0, 0)));
    FlushTo(PAIR, WithPc(s, LoadTail(0, 0)), WithPc(s, Copy(0, 0, 0, 1)));
  }

  /** The first pass copies byte 7. */
  lemma PairCopied()
    ensures Ready(PAIR, PairState(PairWriters(1, 0), PairOn(PairSlot(1, false, false, [7, 0], [0, 0])), NextWriter(0), [OF_ZERO]))
  {
    hide Ready, Shape;
    PairFound();
    var s := PairState(PairWriters(0, 0), PairRing(), Copy(0, 0, 0, 1), [[]]);
    var r, r' := PairOn(PairSlot(0, false, false, [7, 0], [0, 0])), PairOn(PairSlot(1, false, false, [7, 0], [0, 0]));
    assert CircularRead([7, 0, 0], 0, 1) == [7] && Splice([0, 0], 0, [7]) == [7, 0];
    assert PairRing().slots[0 := r.slots[0]] == r.slots && r.slots[0 := r'.slots[0]] == r'.slots;
    FlushTo(PAIR, s, WithPc(s.(ring := r), Advance(0, 0, 0, 1)));
    var x := PairWriter(0, 7, 1, 0);
    assert x.frames[0 := Frame(1, 1, 1, 0, 0)] == PairWriter(0, 7, 1, 1).frames && x.submitted[0..1] == OF_ZERO;
    assert PairWriters(0, 0)[0 := PairWriter(0, 7, 1, 1)] == PairWriters(1, 0);
    var none: seq<Entry> := [];
    assert none + OF_ZERO == OF_ZERO && [none][0 := OF_ZERO] == [OF_ZERO];
    FlushTo(PAIR, WithPc(s.(ring := r), Advance(0, 0, 0, 1)),
            PairState(PairWriters(1, 0), r', NextWriter(0), [OF_ZERO]));
  }

  lemma PairConcluding()
    ensures Ready(PAIR, PairState(PairWriters(1, 0), PairOn(PairSlot(1, false, false, [7, 0], [0, 0])),
                                  Persist(PAIR_RECORD, 0, 1), [OF_ZERO]))
  {
    hide Ready, Shape;
    PairCopied();
    var s := PairState(PairWriters(1, 0), PairOn(PairSlot(1, false, false, [7, 0], [0, 0])), NextWriter(0), [OF_ZERO]);
    FlushTo(PAIR, s, WithPc(s, Search(1, 0)));
    Skips(PAIR, WithPc(s, Search(1, 0)), 1);
    FlushTo(PAIR, WithPc(s, NextWriter(1)), WithPc(s, Conclude));
    FlushTo(PAIR, WithPc(s, Conclude), WithPc(s, Persist(PAIR_RECORD, 0, 1)));
  }

  lemma PairPersisted()
    ensures Ready(PAIR, PairState(PairWriters(1, 0), PairOn(PairSlot(1, false, false, [7, 0], [7, 0])),
                                  AllocPage(PAIR_RECORD), [OF_ZERO]))
  {
    hide Ready, Shape;
    PairConcluding();
    var r, r' := PairOn(PairSlot(1, false, false, [7, 0], [0, 0])), PairOn(PairSlot(1, false, false, [7, 0], [7, 0]));
    var s := PairState(PairWriters(1, 0), r, Persist(PAIR_RECORD, 0, 1), [OF_ZERO]);
    assert Splice([0, 0], 0, [7, 0][0..1]) == [7, 0] && r.slots[0 := r'.slots[0]] == r'.slots;
    FlushTo(PAIR, s, WithPc(s.(ring := r'), Persist(PAIR_RECORD, 0, 2)));
    FlushTo(PAIR, WithPc(s.(ring := r'), Persist(PAIR_RECORD, 0, 2)), WithPc(s.(ring := r'), AllocPage(PAIR_RECORD)));
  }

  /** Epoch 1 becomes durable, ending in the middle of segment 1. */
  lemma PairConcluded()
    ensures Ready(PAIR, PairNext(0, PairSlot(1, false, false, [7, 0], [7, 0]), Start, [OF_ZERO]).(
                          flusher := Flusher(Start, 1, true, 1, 1, 0, 0)))
  {
    hide Ready, Shape;
    PairPersisted();
    var x := PairSlot(1, false, false, [7, 0], [7, 0]);
    Announces(PAIR, PairState(PairWriters(1, 0), PairOn(x), AllocPage(PAIR_RECORD), [OF_ZERO]), PAIR_RECORD,
              PairNext(0, x, Start, [OF_ZERO]).(flusher := Flusher(Start, 1, true, 1, 1, 0, 0)));
  }

  /** The next pass, after `m` bytes of writer 1 were flushed. */
  function PairNext(m: nat, x: Slot, pc: FlusherPc, segs: seq<seq<Entry>>): State {
    PairState(PairWriters(1, m), PairOn(x), pc, segs).(
      store := FirstRecord(PAIR_RECORD), mds := map[1 := PAIR_RECORD], cbDurable := 1, durable := 1,
      flusher := Flusher(pc, 2, false, 1, 1, 0, 0))
  }

  /** The next pass fills segment 1 with byte 8 of epoch 2 and hands it to the fsyncer. */
  lemma PairFilled()
    ensures Ready(PAIR, PairNext(1, PairSlot(2, true, false, [7, 8], [7, 0]), Turning(1, 0, Wait), [OF_BOTH]))
  {
    hide Ready, Shape;
    PairConcluded();
    var x0, x1 := PairSlot(1, false, false, [7, 0], [7, 0]), PairSlot(1, false, false, [7, 8], [7, 0]);
    var x2, x3 := PairSlot(2, false, false, [7, 8], [7, 0]), PairSlot(2, true, false, [7, 8], [7, 0]);
    var s := PairNext(0, x0, Start, [OF_ZERO]);
    FlushTo(PAIR, s.(flusher := Flusher(Start, 1, true, 1, 1, 0, 0)), WithPc(s, Search(0, 0)));
    Skips(PAIR, WithPc(s, Search(0, 0)), 0);
    FlushTo(PAIR, WithPc(s, NextWriter(0)), WithPc(s, Search(1, 0)));
    FlushTo(PAIR, WithPc(s, Search(1, 0)), WithPc(s, Found(1, 0)));
    FlushTo(PAIR, WithPc(s, Found(1, 0)), WithPc(s, LoadTail(1, 0)));
    FlushTo(PAIR, WithPc(s, LoadTail(1, 0)), WithPc(s, Copy(1, 0, 0, 1)));
    PairSecondCopy(x0, x1, x2, x3);
  }

  lemma PairSecondCopy(x0: Slot, x1: Slot, x2: Slot, x3: Slot)
    requires x0 == PairSlot(1, false, false, [7, 0], [7, 0]) && x1 == PairSlot(1, false, false, [7, 8], [7, 0])
    requires x2 == PairSlot(2, false, false, [7, 8], [7, 0]) && x3 == PairSlot(2, true, false, [7, 8], [7, 0])
    requires Ready(PAIR, PairNext(0, x0, Copy(1, 0, 0, 1), [OF_ZERO]))
    ensures Ready(PAIR, PairNext(1, x3, Turning(1, 0, Wait), [OF_BOTH]))
  {
    hide Ready, Shape;
    assert CircularRead([8, 0, 0], 0, 1) == [8] && Splice([7, 0], 1, [8]) == [7, 8];
    assert PairOn(x0).slots[0 := x1] == PairOn(x1).slots;
    FlushTo(PAIR, PairNext(0, x0, Copy(1, 0, 0, 1), [OF_ZERO]), PairNext(0, x1, Advance(1, 0, 0, 1), [OF_ZERO]));
    PairSecondAdvance(x1, x2);
    assert PairOn(x2).slots[0 := x3] == PairOn(x3).slots;
    TurnTo(PAIR, PairNext(1, x2, Turning(1, 0, Request), [OF_BOTH]), Request, PairOn(x3),
           PairNext(1, x3, Turning(1, 0, Wait), [OF_BOTH]));
  }

  lemma PairSecondAdvance(x: Slot, x': Slot)
    requires x == PairSlot(1, false, false, [7, 8], [7, 0]) && x' == PairSlot(2, false, false, [7, 8], [7, 0])
    requires Ready(PAIR, PairNext(0, x, Advance(1, 0, 0, 1), [OF_ZERO]))
    ensures Ready(PAIR, PairNext(1, x', Turning(1, 0, Request), [OF_BOTH]))
  {
    hide Ready, Shape;
    var y := PairWriter(1, 8, 2, 0);
    assert PairOn(x).slots[0 := x'] == PairOn(x').slots;
    assert y.frames[0 := Frame(1, 1, 2, 0, 0)] == PairWriter(1, 8, 2, 1).frames && y.submitted[0..1] == [Entry(8, 2, 1)];
    assert PairWriters(1, 0)[1 := PairWriter(1, 8, 2, 1)] == PairWriters(1, 1);
    assert OF_ZERO + [Entry(8, 2, 1)] == OF_BOTH && [OF_ZERO][0 := OF_BOTH] == [OF_BOTH];
    FlushTo(PAIR, PairNext(0, x, Advance(1, 0, 0, 1), [OF_ZERO]), PairNext(1, x', Turning(1, 0, Request), [OF_BOTH]));
  }

  /** The segment in which epoch 1 ended is synced before epoch 2 is durable: a restart now finds no
      slot for it. */
  lemma SyncedResumeHappens() returns (s: State)
    ensures Reachable(PAIR, s) && Inv(PAIR, s)
    ensures s.cbDurable == 1 && 1 in s.mds && s.mds[1].toSeg <= s.ring.lastSynced
  {
    hide Ready, Shape, Inv, Reachable;
    PairFilled();
    var x, x' := PairSlot(2, true, false, [7, 8], [7, 0]), PairSlot(2, true, true, [7, 8], [7, 0]);
    var t := PairNext(1, x, Turning(1, 0, Wait), [OF_BOTH]);
    s := t.(ring := PairOn(x').(lastSynced := 1, disk := map[1 := [7, 8]]));
    assert PairOn(x).slots[0 := x'] == PairOn(x').slots;
    SyncsSegment(PAIR, t, 0, 1, s);
    ReadyIs(PAIR, s);
  }
}
