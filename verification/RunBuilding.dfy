/** Building blocks for concrete runs. */
module RunBuilding {
  import opened Base
  import opened Circular
  import opened LogStream
  import opened Restart
  import opened Pipeline
  import opened PipelineInvariant
  import opened PipelineRuns
  import opened PipelineRaces
  import MdsLayout

  // ================================================================ building runs

  ghost predicate Reachable(c: Config, s: State) {
    exists states: seq<State>, steps: seq<Step> :: IsRun(c, states, steps) && states[|steps|] == s
  }

  lemma Begins(c: Config, buffers: seq<seq<byte>>)
    requires c.Valid() && |buffers| == c.writerCount && forall w | 0 <= w < |buffers| :: |buffers[w]| == c.bufferSize
    ensures Reachable(c, Init(c, buffers)) && Inv(c, Init(c, buffers))
  {
    hide Inv, Init;
    var states, steps := [Init(c, buffers)], [];
    assert IsInitial(c, states[0]);
    assert IsRun(c, states, steps) && states[|steps|] == Init(c, buffers);
    RunKeeps(c, states, steps, 0);
  }

  /** One more step. */
  lemma Go(c: Config, s: State, step: Step, s': State)
    requires Reachable(c, s) && Allowed(c, s, step, s')
    ensures Reachable(c, s') && Inv(c, s')
  {
    hide Inv, Allowed, IsInitial;
    var states: seq<State>, steps: seq<Step> :| IsRun(c, states, steps) && states[|steps|] == s;
    var states', steps' := states + [s'], steps + [step];
    forall i | 0 <= i < |steps'| ensures Allowed(c, states'[i], steps'[i], states'[i + 1]) {
      if i < |steps| { assert Allowed(c, states[i], steps[i], states[i + 1]); }
    }
    assert IsRun(c, states', steps') && states'[|steps'|] == s';
    RunKeeps(c, states', steps', |steps'|);
  }

  /** What it takes to ask whether a step is admissible. */
  ghost predicate Sized(c: Config, s: State) {
    c.Valid() && RingShape(c, s.ring) && |s.store.page| == c.pageCap
  }

  lemma ShapeOf(c: Config, s: State)
    requires Inv(c, s)
    ensures Shape(c, s) && Sized(c, s)
  {
  }

  ghost predicate Ready(c: Config, s: State) {
    Reachable(c, s) && Inv(c, s)
  }

  lemma InitReady(c: Config, buffers: seq<seq<byte>>)
    requires c.Valid() && |buffers| == c.writerCount && forall w | 0 <= w < |buffers| :: |buffers[w]| == c.bufferSize
    ensures Ready(c, Init(c, buffers))
  {
    hide Inv, Reachable;
    Begins(c, buffers);
  }

  lemma Flushes(c: Config, s: State)
    requires Ready(c, s) && CanFlush(c, s) && Admissible(c, s, FlushStep)
    ensures Ready(c, DoFlush(c, s))
  {
    hide Inv, Reachable, Shape, DoFlush, Admissible;
    ShapeOf(c, s);
    Go(c, s, FlushStep, DoFlush(c, s));
  }

  lemma Syncs(c: Config, s: State)
    requires Ready(c, s) && CanSync(c, s) && Admissible(c, s, SyncStep)
    ensures Ready(c, DoSync(c, s))
  {
    hide Inv, Reachable, Shape, DoSync, Admissible;
    ShapeOf(c, s);
    Go(c, s, SyncStep, DoSync(c, s));
  }

  /** A writer step that leaves the writer as `y`. */
  lemma Acts(c: Config, s: State, step: Step, w: nat, y: Writer)
    requires Ready(c, s) && w < |s.writers| && Next(c, s, step, WithWriter(s, w, y))
    requires !step.FlushStep? && !step.SyncStep? && !step.BreakStep? && !step.RestartStep?
    ensures Ready(c, WithWriter(s, w, y))
  {
    hide Inv, Reachable, Shape, Next;
    ShapeOf(c, s);
    Go(c, s, step, WithWriter(s, w, y));
  }

  // ================================================================ a writer's first write

  ghost predicate IsFresh(c: Config, x: Writer) {
    x == FreshWriter(x.buffer) && |x.buffer| == c.bufferSize
  }

  lemma ReadyShape(c: Config, s: State)
    requires Ready(c, s)
    ensures Shape(c, s) && Sized(c, s)
  {
    hide Reachable;
    ShapeOf(c, s);
  }

  /** The same for a writer that was at `x` in a state that differs from `s` in this writer only. */
  lemma ActsFrom(c: Config, s: State, w: nat, x: Writer, step: Step, y: Writer)
    requires w < |s.writers| && Ready(c, WithWriter(s, w, x))
    requires Shape(c, WithWriter(s, w, x)) ==> Next(c, WithWriter(s, w, x), step, WithWriter(s, w, y))
    requires !step.FlushStep? && !step.SyncStep? && !step.BreakStep? && !step.RestartStep?
    ensures Ready(c, WithWriter(s, w, y))
  {
    hide Ready, Shape, Next;
    ReadyShape(c, WithWriter(s, w, x));
    assert WithWriter(WithWriter(s, w, x), w, y) == WithWriter(s, w, y);
    Acts(c, WithWriter(s, w, x), step, w, y);
  }

  /** The space check of an unused writer. */
  lemma Checks(c: Config, s: State, w: nat)
    requires Ready(c, s) && w < |s.writers| && IsFresh(c, s.writers[w])
    ensures Ready(c, WithWriter(s, w, s.writers[w].(checked := true)))
  {
    hide Ready, Shape, RingShape, WriterShape;
    var x := s.writers[w];
    assert WithWriter(s, w, x) == s;
    ActsFrom(c, s, w, x, BeginCheckStep(w), x.(pc := CheckSpace(s.durable, 0, 0)));
    for i := 0 to 4
      invariant Ready(c, WithWriter(s, w, x.(pc := CheckSpace(s.durable, i, 0))))
    {
      ActsFrom(c, s, w, x.(pc := CheckSpace(s.durable, i, 0)), CheckFrameStep(w),
               x.(pc := CheckSpace(s.durable, i + 1, 0)));
    }
    ActsFrom(c, s, w, x.(pc := CheckSpace(s.durable, 4, 0)), CheckFrameStep(w), x.(checked := true));
  }

  /** A fresh writer after it wrote `data` in epoch `e`. */
  function Wrote(c: Config, w: nat, x: Writer, data: seq<byte>, e: nat): Writer
    requires |x.frames| == FRAME_COUNT && |data| < c.bufferSize == |x.buffer|
  {
    x.(buffer := CircularWrite(x.buffer, 0, data),
       frames := x.frames[0 := Frame(0, |data|, e, 0, 0)],
       lastTail := |data|, submitted := Tagged(data, e, w), checked := true, sinceCheck := |data|)
  }

  lemma Writes(c: Config, s: State, w: nat, data: seq<byte>, e: nat)
    requires Ready(c, s) && w < |s.writers| && IsFresh(c, s.writers[w])
    requires s.stable < e < s.durable + FRAME_COUNT && 2 * |data| < c.bufferSize
    ensures Ready(c, WithWriter(s, w, Wrote(c, w, s.writers[w], data, e)))
  {
    hide Ready, Shape, RingShape, WriterShape, CircularWrite;
    var x := s.writers[w];
    Checks(c, s, w);
    var x0 := x.(checked := true);
    var x1 := x0.(buffer := CircularWrite(x.buffer, 0, data), staged := data, sinceCheck := |data|);
    assert x0.staged + data == data;
    ActsFrom(c, s, w, x0, StageStep(w, data), x1);
    ActsFrom(c, s, w, x1, BeginWriteStep(w, e), x1.(pc := StoreHead(e)));
    Publishes(c, s, w, x1, e);
    assert [] + Tagged(data, e, w) == Tagged(data, e, w);
  }

  /** The four stores of a write into an unused frame. */
  lemma Publishes(c: Config, s: State, w: nat, x: Writer, e: nat)
    requires w < |s.writers| && Ready(c, WithWriter(s, w, x.(pc := StoreHead(e)))) && |x.staged| < c.bufferSize
    requires x.frames == FreshWriter([]).frames && x.active == 0 && x.lastTail == 0
    ensures Ready(c, WithWriter(s, w, x.(frames := x.frames[0 := Frame(0, |x.staged|, e, 0, 0)], lastTail := |x.staged|,
                                         submitted := x.submitted + Tagged(x.staged, e, w), staged := [], pc := Idle)))
  {
    hide Ready, Shape, RingShape, WriterShape;
    var f := x.frames;
    assert f[0 := Frame(0, 0, 0, 0, 0)] == f;
    ActsFrom(c, s, w, x.(pc := StoreHead(e)), WriteStep(w), x.(pc := StoreTail(e)));
    ActsFrom(c, s, w, x.(pc := StoreTail(e)), WriteStep(w), x.(pc := StoreEpoch(e)));
    var y := x.(frames := f[0 := Frame(0, 0, e, 0, 0)], pc := Publish(e));
    ActsFrom(c, s, w, x.(pc := StoreEpoch(e)), WriteStep(w), y);
    var n := |x.staged|;
    assert f[0 := Frame(0, 0, e, 0, 0)][0 := Frame(0, n, e, 0, 0)] == f[0 := Frame(0, n, e, 0, 0)];
    ActsFrom(c, s, w, y, WriteStep(w), x.(frames := f[0 := Frame(0, n, e, 0, 0)], lastTail := n,
                                          submitted := x.submitted + Tagged(x.staged, e, w), staged := [], pc := Idle));
  }

  /** One advance call, without interference. */
  lemma Stabilizes(c: Config, s: State)
    requires Ready(c, s) && s.stable == s.durable && s.advancing == map[]
    requires forall w | 0 <= w < |s.writers| :: !s.writers[w].InFlight()
    ensures Ready(c, s.(stable := s.durable + 1))
  {
    hide Inv, Reachable, Shape, DoFlush;
    var t := s.(advancing := map[0 := s.durable]);
    ShapeOf(c, s);
    Go(c, s, AdvanceLoadStep(0), t);
    ShapeOf(c, t);
    assert t.advancing - {0} == map[];
    Go(c, t, AdvanceCasStep(0), s.(stable := s.durable + 1));
  }

  lemma FlushTo(c: Config, s: State, t: State)
    requires Ready(c, s) && Sized(c, s) && Admissible(c, s, FlushStep)
    requires Shape(c, s) ==> CanFlush(c, s) && DoFlush(c, s) == t
    ensures Ready(c, t)
  {
    hide Ready, Shape, DoFlush, CanFlush, Admissible;
    ReadyShape(c, s);
    Flushes(c, s);
  }

  lemma SyncTo(c: Config, s: State, t: State)
    requires Ready(c, s) && Sized(c, s) && Admissible(c, s, SyncStep)
    requires Shape(c, s) ==> CanSync(c, s) && DoSync(c, s) == t
    ensures Ready(c, t)
  {
    hide Ready, Shape, DoSync, CanSync, Admissible;
    ReadyShape(c, s);
    Syncs(c, s);
  }

  /** A cursor begins to open a segment that is not on disk. */
  lemma Opens(c: Config, s: State, k: nat, d: nat)
    requires Ready(c, s) && k !in s.cursors && s.ring.lastSynced < d <= s.ring.cur
    ensures Ready(c, s.(cursors := s.cursors[k := Loaded(d, s.ring.lastSynced)]))
  {
    hide Inv, Reachable, Shape;
    ShapeOf(c, s);
    Go(c, s, OpenStep(k, d), s.(cursors := s.cursors[k := Loaded(d, s.ring.lastSynced)]));
  }

  /** A write of the fsyncer fails and leaves `partial` in the file. */
  lemma SyncFails(c: Config, s: State, partial: seq<byte>, j: nat, d: nat)
    requires Ready(c, s) && s.fsyncer == WriteDisk(j, d) && j < |s.ring.slots|
    ensures var r := SetSlot(s.ring, j, s.ring.slots[j].(error := true));
            Ready(c, s.(ring := r.(disk := r.disk[d := partial]), fsyncer := Stopped))
  {
    hide Inv, Reachable, Shape;
    ShapeOf(c, s);
    var r := SetSlot(s.ring, j, s.ring.slots[j].(error := true));
    Go(c, s, SyncFailStep(partial), s.(ring := r.(disk := r.disk[d := partial]), fsyncer := Stopped));
  }

  /** The flusher gives up. */
  lemma GivesUp(c: Config, s: State)
    requires Ready(c, s) && Sized(c, s) && s.flusher.pc.Turning? && s.flusher.pc.turn.Wait?
    requires var x := s.ring.slots[NextSlot(c, s.ring)]; x.requested && !x.completed && x.error
    ensures Ready(c, WithPc(s, Halted(Wait)))
  {
    hide Inv, Reachable, Shape, RingShape;
    ShapeOf(c, s);
    Go(c, s, FlushFailStep, WithPc(s, Halted(Wait)));
  }

  /** Flusher and fsyncer stop when they are asked to, between two rounds. */
  lemma StopsBoth(c: Config, s: State)
    requires Ready(c, s) && s.flusher.pc.Start? && s.fsyncer.Poll?
    ensures Ready(c, WithPc(s.(fsyncer := Stopped), Halted(NoTurn)))
  {
    hide Inv, Reachable, Shape, RingShape;
    ShapeOf(c, s);
    var t := s.(fsyncer := Stopped);
    Go(c, s, SyncStopStep, t);
    ShapeOf(c, t);
    Go(c, t, FlushHaltStep, WithPc(t, Halted(NoTurn)));
  }

  lemma ReadyIs(c: Config, s: State)
    requires Ready(c, s)
    ensures Reachable(c, s) && Inv(c, s)
  {
  }

  /** One step of a segment turn. */
  lemma TurnTo(c: Config, s: State, turn: Turn, r: Ring, t: State)
    requires Ready(c, s) && Sized(c, s) && s.flusher.pc.Turning? && s.flusher.pc.turn == turn
    requires CanTurn(c, s.ring, turn) && !turn.Unlock? && Turned(c, s.ring, turn).0 == r
    requires turn.Lock? ==> !s.fsyncer.Bump?
    requires t == WithPc(s.(ring := r), Turning(s.flusher.pc.w, s.flusher.pc.i, Turned(c, s.ring, turn).1))
    ensures Ready(c, t)
  {
    hide Ready, Shape, Turned, CanTurn;
    FlushTo(c, s, t);
  }

  /** The flusher finds nothing at a writer. */
  lemma Skips(c: Config, s: State, w: nat)
    requires Ready(c, s) && Sized(c, s) && w < |s.writers| && s.flusher.pc == Search(w, 0)
    requires |s.writers[w].frames| == FRAME_COUNT
    requires forall i | 0 <= i < FRAME_COUNT :: s.writers[w].frames[i].epoch != s.flusher.target
    ensures Ready(c, WithPc(s, NextWriter(w)))
  {
    hide Ready, Shape, RingShape;
    assert WithPc(s, Search(w, 0)) == s;
    for i := 0 to 4
      invariant Ready(c, WithPc(s, Search(w, i)))
    {
      FlushTo(c, WithPc(s, Search(w, i)), WithPc(s, Search(w, i + 1)));
    }
    FlushTo(c, WithPc(s, Search(w, 4)), WithPc(s, NextWriter(w)));
  }

  /** The metadata store after a record that needs no page turn. */
  function WithRecord(c: Config, m: Metadata, rec: Record): Metadata
    requires c.Valid() && |m.page| == c.pageCap && rec.epoch > 0
  {
    m.(page := m.page[MdsLayout.RecordSlot(c.pageCap, rec.epoch) := rec], bufPage := MdsLayout.PageNo(c.pageCap, rec.epoch))
  }

  /** The epoch record is written and the epoch becomes durable. */
  lemma Announces(c: Config, s: State, rec: Record, t: State)
    requires Ready(c, s) && Sized(c, s) && s.flusher.pc == AllocPage(rec) && rec.epoch > 0
    requires s.store.bufPage == 0 || s.store.bufPage == MdsLayout.PageNo(c.pageCap, rec.epoch)
    requires var cur := s.ring.slots[CurSlot(c, s.ring)];
             t == s.(store := WithRecord(c, s.store, rec), mds := s.mds[rec.epoch := rec], cbDurable := rec.epoch,
                     durable := rec.epoch, flusher := s.flusher.(pc := Start, headDsid := cur.dsid, headOff := cur.written))
    ensures Ready(c, t)
  {
    hide Ready, Shape, MdsLayout.PageNo, MdsLayout.RecordSlot;
    var p := MdsLayout.PageNo(c.pageCap, rec.epoch);
    var s0 := WithPc(s.(store := s.store.(bufPage := p)), WriteRecord(rec));
    FlushTo(c, s, s0);
    var s1 := WithPc(s.(store := WithRecord(c, s.store, rec), mds := s.mds[rec.epoch := rec]), BumpDurable(rec));
    FlushTo(c, s0, s1);
    var s2 := WithPc(s1.(cbDurable := rec.epoch), Announce(rec));
    FlushTo(c, s1, s2);
    FlushTo(c, s2, t);
  }

  /** The fsyncer picks up the segment in slot `j`, without interference. */
  lemma PicksUp(c: Config, s: State, j: nat, d: nat)
    requires Ready(c, s) && Sized(c, s) && s.fsyncer.Poll?
    requires j == s.ring.lastSynced % c.segmentCount && j < |s.ring.slots| && d == s.ring.slots[j].dsid
    requires s.ring.slots[j].requested && !s.ring.slots[j].completed && !s.ring.slots[j].error
    requires !(s.flusher.pc.Turning? && Resetting(s.flusher.pc.turn) && j == NextSlot(c, s.ring))
    ensures Ready(c, s.(fsyncer := WriteDisk(j, d)))
  {
    hide Ready, Shape, RingShape;
    assert s.ring.slots[j := s.ring.slots[j]] == s.ring.slots;
    SyncTo(c, s, s.(fsyncer := CheckRequest(j)));
    SyncTo(c, s.(fsyncer := CheckRequest(j)), s.(fsyncer := LoadDsid(j)));
    SyncTo(c, s.(fsyncer := LoadDsid(j)), s.(fsyncer := ResetError(j, d)));
    SyncTo(c, s.(fsyncer := ResetError(j, d)), s.(fsyncer := WriteDisk(j, d)));
  }

  /** It syncs the segment. */
  lemma SyncsSegment(c: Config, s: State, j: nat, d: nat, t: State)
    requires Ready(c, s) && Sized(c, s) && s.fsyncer.Poll?
    requires j == s.ring.lastSynced % c.segmentCount && j < |s.ring.slots| && d == s.ring.slots[j].dsid
    requires s.ring.slots[j].requested && !s.ring.slots[j].completed && !s.ring.slots[j].error
    requires !(s.flusher.pc.Turning? && Resetting(s.flusher.pc.turn) && j == NextSlot(c, s.ring))
    requires var r := SetSlot(s.ring, j, s.ring.slots[j].(completed := true));
             t == s.(ring := r.(lastSynced := d, disk := r.disk[d := r.slots[j].nv]))
    ensures Ready(c, t)
  {
    hide Ready, Shape;
    var r := s.ring;
    PicksUp(c, s, j, d);
    var r1 := r.(disk := r.disk[d := r.slots[j].nv]);
    SyncTo(c, s.(fsyncer := WriteDisk(j, d)), s.(ring := r1, fsyncer := Mark(j, d)));
    var r2 := SetSlot(r1, j, r1.slots[j].(completed := true));
    SyncTo(c, s.(ring := r1, fsyncer := Mark(j, d)), s.(ring := r2, fsyncer := Bump(j, d)));
    SyncTo(c, s.(ring := r2, fsyncer := Bump(j, d)), t);
  }
}
