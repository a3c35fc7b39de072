/** Concrete runs of epochs without log data: into the page turn of the metadata store, and into the
    two ways an epoch gets tags that were never given for it. */
module EpochRuns {
  import opened Base
  import opened Circular
  import opened LogStream
  import opened Restart
  import opened Pipeline
  import opened StoreInvariant
  import opened PipelineInvariant
  import opened PipelineRuns
  import opened PipelineRaces
  import opened RunBuilding
  import opened TagPasses
  import opened WriterCalls
  import RestartSteps
  import Mds
  import MdsLayout

  // ================================================================ between two epochs

  /** The ring of a new log. */
  function FreshRing(c: Config): Ring {
    NewRing(c, 0, map[])
  }

  lemma FreshRingFacts(c: Config)
    requires c.Valid()
    ensures var r := FreshRing(c);
            && RingShape(c, r) && CurSlot(c, r) == 0 && SlotOf(c.segmentCount, 1) == 0
            && r.cur == 1 && r.lastSynced == 0 && r.slots[0].dsid == 1 && r.slots[0].written == 0
            && SetSlot(r, 0, Flushed(r.slots[0], 0, 0)) == r
  {
    var r := FreshRing(c);
    DivModUnique(c.segmentCount, 0, 0, 0);
    var x := r.slots[0];
    assert Splice(x.media, 0, x.nv[0..0]) == x.media;
    assert r.slots[0 := x] == r.slots;
  }

  /** One writer without any bytes, in the epoch after `n`, which is durable. */
  ghost predicate Settled(c: Config, s: State, n: nat) {
    && c.Valid() && c.writerCount == 1 && |s.writers| == 1 && s.ring == FreshRing(c)
    && s.durable == s.cbDurable == n && s.advancing == map[] && s.boot == 0
    && s.flusher.pc.Start? && s.flusher.headDsid == 1 && s.flusher.headOff == 0
    && |s.store.page| == c.pageCap && s.store.bufPage == MdsLayout.PageNo(c.pageCap, n)
    && EmptyWriter(s.writers[0])
  }

  predicate EmptyWriter(x: Writer) {
    && x.pc.Idle? && x.lastTail == 0 && x.staged == [] && |x.frames| == FRAME_COUNT && x.active < FRAME_COUNT
    && forall i | 0 <= i < FRAME_COUNT :: x.frames[i].head == x.frames[i].tail == 0
  }

  lemma StartsSettled(c: Config, buffers: seq<seq<byte>>)
    requires c.Valid() && c.writerCount == |buffers| == 1 && |buffers[0]| == c.bufferSize
    ensures Ready(c, Init(c, buffers)) && Settled(c, Init(c, buffers), 0)
  {
    hide Ready;
    InitReady(c, buffers);
  }

  // ================================================================ a stable pass

  /** The record of an empty epoch. */
  function EmptyRecord(e: nat, tag0: nat, tag1: nat): Record {
    Record(e, 1, 0, 1, 0, tag0, tag1)
  }

  /** The flusher in the stable pass over epoch `n + 1`. */
  function InPass(s: State, pc: FlusherPc, tag0: nat, tag1: nat): State {
    s.(stable := s.durable + 1, flusher := Flusher(pc, s.durable + 1, true, 1, 0, tag0, tag1))
  }

  /** It looks for the frame of the epoch. */
  lemma Searches(c: Config, s: State, n: nat)
    requires Settled(c, s, n) && s.stable == n && Ready(c, s)
    ensures var i := FrameOf(s.writers[0].frames, n + 1);
            Ready(c, InPass(s, if i < FRAME_COUNT then Found(0, i) else NextWriter(0), s.flusher.tag0, s.flusher.tag1))
  {
    hide Ready, Shape, RingShape, FreshRing, FrameOf;
    assert RingShape(c, s.ring) by { FreshRingFacts(c); }
    Stabilizes(c, s);
    var i := FrameOf(s.writers[0].frames, n + 1);
    var a, b := s.flusher.tag0, s.flusher.tag1;
    FlushTo(c, s.(stable := n + 1), InPass(s, Search(0, 0), a, b));
    var last := if i < FRAME_COUNT then i else FRAME_COUNT - 1;
    for k := 0 to last
      invariant Ready(c, InPass(s, Search(0, k), a, b))
    {
      FlushTo(c, InPass(s, Search(0, k), a, b), InPass(s, Search(0, k + 1), a, b));
    }
    FlushTo(c, InPass(s, Search(0, last), a, b),
            InPass(s, if i < FRAME_COUNT then Found(0, i) else NextWriter(0), a, b));
  }

  /** The tags the pass ends with. */
  function Left(s: State, n: nat, id: nat): nat
    requires |s.writers| == 1
  {
    Kept(FlusherTag(s.flusher, id), TagIn(s.writers[0].frames, n + 1, id))
  }

  /** It picks up the tags and finds nothing to copy. */
  lemma Visits(c: Config, s: State, n: nat)
    requires Settled(c, s, n) && s.stable == n && Ready(c, s)
    ensures Ready(c, InPass(s, NextWriter(0), Left(s, n, 0), Left(s, n, 1)))
  {
    hide Ready, Shape, FreshRing, FrameOf;
    Searches(c, s, n);
    if FrameOf(s.writers[0].frames, n + 1) < FRAME_COUNT { PicksUpTags(c, s, n); }
  }

  lemma PicksUpTags(c: Config, s: State, n: nat)
    requires Settled(c, s, n) && FrameOf(s.writers[0].frames, n + 1) < FRAME_COUNT
    requires Ready(c, InPass(s, Found(0, FrameOf(s.writers[0].frames, n + 1)), s.flusher.tag0, s.flusher.tag1))
    ensures Ready(c, InPass(s, NextWriter(0), Left(s, n, 0), Left(s, n, 1)))
  {
    hide Ready, Shape, RingShape, FreshRing, FrameOf;
    assert RingShape(c, s.ring) by { FreshRingFacts(c); }
    var i := FrameOf(s.writers[0].frames, n + 1);
    var a, b := s.flusher.tag0, s.flusher.tag1;
    var a', b' := Left(s, n, 0), Left(s, n, 1);
    FlushTo(c, InPass(s, Found(0, i), a, b), InPass(s, LoadTag0(0, i), a, b));
    FlushTo(c, InPass(s, LoadTag0(0, i), a, b), InPass(s, LoadTag1(0, i), a', b));
    FlushTo(c, InPass(s, LoadTag1(0, i), a', b), InPass(s, LoadTail(0, i), a', b'));
    FlushTo(c, InPass(s, LoadTail(0, i), a', b'), InPass(s, NextWriter(0), a', b'));
  }

  /** It concludes the epoch as far as the metadata store. */
  lemma Passes(c: Config, s: State, n: nat)
    requires Settled(c, s, n) && s.stable == n && Ready(c, s)
    ensures var a, b := Left(s, n, 0), Left(s, n, 1);
            Ready(c, InPass(s, AllocPage(EmptyRecord(n + 1, a, b)), a, b))
  {
    hide Ready, Shape, RingShape, FreshRing, SlotOf, Left;
    FreshRingFacts(c);
    Visits(c, s, n);
    var a, b := Left(s, n, 0), Left(s, n, 1);
    var rec := EmptyRecord(n + 1, a, b);
    FlushTo(c, InPass(s, NextWriter(0), a, b), InPass(s, Conclude, a, b));
    Low32Is(0);
    FlushTo(c, InPass(s, Conclude, a, b), InPass(s, Persist(rec, 0, 1), a, b));
    FlushTo(c, InPass(s, Persist(rec, 0, 1), a, b), InPass(s, Persist(rec, 0, 2), a, b));
    FlushTo(c, InPass(s, Persist(rec, 0, 2), a, b), InPass(s, AllocPage(rec), a, b));
  }

  /** The state after an epoch that needs no page turn. */
  function Concluded(c: Config, s: State, n: nat): State
    requires c.Valid() && |s.writers| == 1 && |s.store.page| == c.pageCap
  {
    var a, b := Left(s, n, 0), Left(s, n, 1);
    var rec := EmptyRecord(n + 1, a, b);
    s.(durable := n + 1, stable := n + 1, cbDurable := n + 1, store := WithRecord(c, s.store, rec),
       mds := s.mds[n + 1 := rec], flusher := Flusher(Start, n + 1, true, 1, 0, a, b))
  }

  lemma Concludes(c: Config, s: State, n: nat)
    requires Settled(c, s, n) && s.stable == n < c.pageCap && Ready(c, s)
    ensures Ready(c, Concluded(c, s, n)) && Settled(c, Concluded(c, s, n), n + 1)
  {
    hide Ready, Shape, RingShape, FreshRing, Left, MdsLayout.RecordSlot;
    FreshRingFacts(c);
    Passes(c, s, n);
    FirstPageOnly(c.pageCap, n);
    var a, b := Left(s, n, 0), Left(s, n, 1);
    var rec := EmptyRecord(n + 1, a, b);
    Announces(c, InPass(s, AllocPage(rec), a, b), rec, Concluded(c, s, n));
  }

  lemma FirstPageOnly(cap: nat, n: nat)
    requires n < cap
    ensures MdsLayout.PageNo(cap, n + 1) == 1 && (n > 0 ==> MdsLayout.PageNo(cap, n) == 1)
  {
    Mds.FirstPage(cap);
    MdsLayout.PageIs(cap, n + 1, 1);
    if n > 0 { MdsLayout.PageIs(cap, n, 1); }
  }

  // ================================================================ the page turn

  /** As many empty epochs as fit into a page. */
  lemma {:induction false} EmptyEpochs(c: Config, buffers: seq<seq<byte>>, n: nat) returns (s: State)
    requires c.Valid() && c.writerCount == |buffers| == 1 && |buffers[0]| == c.bufferSize && n <= c.pageCap
    ensures Ready(c, s) && Settled(c, s, n) && s.stable == n
    decreases n
  {
    hide Ready, Settled, Concluded;
    if n == 0 {
      StartsSettled(c, buffers);
      s := Init(c, buffers);
      assert s.stable == 0;
    } else {
      var s0 := EmptyEpochs(c, buffers, n - 1);
      Concludes(c, s0, n - 1);
      s := OneMore(c, s0, n - 1);
    }
  }

  lemma OneMore(c: Config, s: State, n: nat) returns (t: State)
    requires Settled(c, s, n)
    ensures t == Concluded(c, s, n) && t.stable == n + 1
  {
    t := Concluded(c, s, n);
  }

  /** With one writer and any number of records in a page: a run reaches the point before the last store
      of the write that turns the page, where a crash loses the record of epoch 1. */
  lemma PageTurnCrashHappens(c: Config, buffers: seq<seq<byte>>) returns (s: State)
    requires c.Valid() && c.writerCount == |buffers| == 1 && |buffers[0]| == c.bufferSize
    ensures Reachable(c, s) && Inv(c, s)
    ensures s.flusher.pc.BumpDurable? && s.cbDurable == c.pageCap && s.cbDurable % c.pageCap == 0
    ensures CanRestart(c, s, buffers)
    ensures 1 in DoRestart(c, s, buffers).mds && DoRestart(c, s, buffers).mds[1].epoch == c.pageCap + 1
  {
    hide Ready, Settled, Inv, Reachable, Shape, DoRestart;
    var t := EmptyEpochs(c, buffers, c.pageCap);
    s := TurnsPage(c, t);
    ReadyIs(c, s);
    RestartSteps.RestartEnabled(c, s, buffers);
    PageTurnLosesRecord(c, s, buffers);
    RestartHasRecords(c, s, buffers);
  }

  lemma RestartHasRecords(c: Config, s: State, buffers: seq<seq<byte>>)
    requires CanRestart(c, s, buffers)
    ensures DoRestart(c, s, buffers).durable == s.cbDurable
    ensures forall e | 1 <= e <= s.cbDurable :: e in DoRestart(c, s, buffers).mds
  {
    hide Shape, Stored, Truncated, ReopenedRing, NewRing;
  }

  lemma TurnsPage(c: Config, s: State) returns (t: State)
    requires Ready(c, s) && Settled(c, s, c.pageCap) && s.stable == c.pageCap
    ensures Ready(c, t) && t.flusher.pc.BumpDurable? && t.cbDurable == c.pageCap && t.cbDurable % c.pageCap == 0
  {
    hide Ready, Shape, RingShape, FreshRing, Left, MdsLayout.PageNo;
    var n := c.pageCap;
    assert RingShape(c, s.ring) by { FreshRingFacts(c); }
    Passes(c, s, n);
    var a, b := Left(s, n, 0), Left(s, n, 1);
    var rec := EmptyRecord(n + 1, a, b);
    SecondPage(n);
    t := WritesBack(c, InPass(s, AllocPage(rec), a, b), rec);
    t := StoresNext(c, t, rec);
  }

  /** The full page is appended and the buffer taken for the next one. */
  lemma WritesBack(c: Config, s: State, rec: Record) returns (t: State)
    requires Ready(c, s) && Sized(c, s) && s.flusher.pc == AllocPage(rec) && rec.epoch > 0
    requires s.store.bufPage != 0 && s.store.bufPage != MdsLayout.PageNo(c.pageCap, rec.epoch)
    ensures Ready(c, t) && Sized(c, t) && t.flusher.pc == WriteRecord(rec) && t.cbDurable == s.cbDurable
  {
    hide Ready, Shape, RingShape, MdsLayout.PageNo;
    var m := s.store;
    var m1 := m.(file := m.file + m.page);
    FlushTo(c, s, WithPc(s.(store := m1), SetPaged(rec)));
    var m2 := m1.(paged := s.cbDurable);
    FlushTo(c, WithPc(s.(store := m1), SetPaged(rec)), WithPc(s.(store := m2), TakePage(rec)));
    t := WithPc(s.(store := m2.(bufPage := MdsLayout.PageNo(c.pageCap, rec.epoch))), WriteRecord(rec));
    FlushTo(c, WithPc(s.(store := m2), TakePage(rec)), t);
  }

  lemma StoresNext(c: Config, s: State, rec: Record) returns (t: State)
    requires Ready(c, s) && Sized(c, s) && s.flusher.pc == WriteRecord(rec) && rec.epoch > 0
    ensures Ready(c, t) && t.flusher.pc.BumpDurable? && t.cbDurable == s.cbDurable
  {
    hide Ready, RingShape, WriterShape, MdsLayout.RecordSlot;
    ReadyShape(c, s);
    t := DoFlush(c, s);
    FlushTo(c, s, t);
  }

  lemma SecondPage(cap: nat)
    requires cap > 0
    ensures MdsLayout.PageNo(cap, cap) == 1 && MdsLayout.PageNo(cap, cap + 1) == 2
  {
    Mds.FirstPage(cap);
    MdsLayout.PageIs(cap, cap, 1);
    MdsLayout.FirstOfSecondPage(cap);
  }

  // ================================================================ tags

  /** The frame the writer uses for its next epoch. */
  function NextFrame(x: Writer): nat
    requires |x.frames| == FRAME_COUNT && x.active < FRAME_COUNT
  {
    if x.frames[x.active].epoch == 0 then x.active else WrapFrame(x.active + 1)
  }

  /** The writer after a write call of no bytes in epoch `e`. */
  function Opened(x: Writer, e: nat): Writer
    requires |x.frames| == FRAME_COUNT && x.active < FRAME_COUNT
  {
    var i := NextFrame(x);
    x.(frames := x.frames[i := x.frames[i].(epoch := e)], active := i)
  }

  lemma WritesNothing(c: Config, s: State, n: nat)
    requires Settled(c, s, n) && s.stable == n && Ready(c, s) && s.writers[0].frames[s.writers[0].active].epoch <= n
    ensures Ready(c, WithWriter(s, 0, Opened(s.writers[0], n + 1)))
    ensures Settled(c, WithWriter(s, 0, Opened(s.writers[0], n + 1)), n)
  {
    hide Ready, Shape, RingShape, FreshRing;
    var x, e := s.writers[0], n + 1;
    var y := x.(active := NextFrame(x));
    assert WithWriter(s, 0, x) == s;
    ActsFrom(c, s, 0, x, BeginWriteStep(0, e), y.(pc := StoreHead(e)));
    SetsUp(c, s, y, e);
    var z := Opened(x, e);
    assert z.frames[z.active := z.frames[z.active].(tail := 0)] == z.frames && z.submitted + Tagged([], e, 0) == z.submitted;
    ActsFrom(c, s, 0, z.(pc := Publish(e)), WriteStep(0), z);
  }

  /** The three stores that set up the active frame. */
  lemma SetsUp(c: Config, s: State, y: Writer, e: nat)
    requires |s.writers| == 1 && EmptyWriter(y) && Ready(c, WithWriter(s, 0, y.(pc := StoreHead(e))))
    ensures Ready(c, WithWriter(s, 0, y.(frames := y.frames[y.active := y.frames[y.active].(epoch := e)], pc := Publish(e))))
  {
    hide Ready, Shape, RingShape;
    var f := y.frames[y.active];
    assert y.frames[y.active := f.(head := 0)] == y.frames && y.frames[y.active := f.(tail := 0)] == y.frames;
    ActsFrom(c, s, 0, y.(pc := StoreHead(e)), WriteStep(0), y.(pc := StoreTail(e)));
    ActsFrom(c, s, 0, y.(pc := StoreTail(e)), WriteStep(0), y.(pc := StoreEpoch(e)));
    ActsFrom(c, s, 0, y.(pc := StoreEpoch(e)), WriteStep(0),
             y.(frames := y.frames[y.active := f.(epoch := e)], pc := Publish(e)));
  }

  /** The writer after tagging its active epoch. */
  function TaggedWith(x: Writer, v0: nat, v1: nat): Writer
    requires |x.frames| == FRAME_COUNT && x.active < FRAME_COUNT
  {
    x.(frames := x.frames[x.active := x.frames[x.active].(tag0 := v0, tag1 := v1)])
  }

  lemma GivesTags(c: Config, s: State, n: nat, v0: nat, v1: nat)
    requires Settled(c, s, n) && Ready(c, s)
    requires var x := s.writers[0]; FrameOf(x.frames, x.frames[x.active].epoch) == x.active && x.frames[x.active].epoch > 0
    ensures Ready(c, WithWriter(s, 0, TaggedWith(s.writers[0], v0, v1)))
    ensures Settled(c, WithWriter(s, 0, TaggedWith(s.writers[0], v0, v1)), n)
  {
    hide Ready, Shape, RingShape, FreshRing;
    var x := s.writers[0];
    var i, f := x.active, x.frames[x.active];
    assert WithWriter(s, 0, x) == s;
    var y := x.(frames := x.frames[i := f.(tag0 := v0)], pc := StoreTag1(i, v1));
    ActsFrom(c, s, 0, x, TagStep(0, i, f.epoch, v0, v1), y);
    assert y.frames[i := f.(tag0 := v0, tag1 := v1)] == TaggedWith(x, v0, v1).frames;
    ActsFrom(c, s, 0, y, TagSecondStep(0), TaggedWith(x, v0, v1));
  }

  /** What matters of the writer's frames: their epochs and first tags. */
  predicate FramesAre(x: Writer, active: nat, epochs: seq<nat>, tags: seq<nat>) {
    && x.active == active && |x.frames| == |epochs| == |tags| == FRAME_COUNT
    && forall i | 0 <= i < FRAME_COUNT :: x.frames[i].epoch == epochs[i] && x.frames[i].tag0 == tags[i]
  }

  /** A state between epochs `n` and `n + 1` with these frames, the flusher still having tag `left`. */
  ghost predicate Between(c: Config, s: State, n: nat, active: nat, epochs: seq<nat>, tags: seq<nat>, left: nat) {
    && Ready(c, s) && Settled(c, s, n) && s.stable == n && s.flusher.tag0 == left
    && FramesAre(s.writers[0], active, epochs, tags) && active < FRAME_COUNT
  }

  /** The records of the epochs have these tags. */
  ghost predicate TagsAre(s: State, tags: seq<nat>) {
    s.durable == |tags| && forall e | 1 <= e <= |tags| :: e in s.mds && s.mds[e].tag0 == tags[e - 1]
  }

  /** The frames of one epoch and no later one. */
  predicate OnlyAt(epochs: seq<nat>, i: nat, e: nat) {
    |epochs| == FRAME_COUNT && i < FRAME_COUNT && epochs[i] == e && forall k | 0 <= k < FRAME_COUNT && k != i :: epochs[k] < e
  }

  lemma FoundAt(x: Writer, i: nat, epochs: seq<nat>, tags: seq<nat>, e: nat)
    requires FramesAre(x, i, epochs, tags) && OnlyAt(epochs, i, e)
    ensures FrameOf(x.frames, e) == i && TagIn(x.frames, e, 0) == tags[i]
  {
    var k := FrameOf(x.frames, e);
    assert x.frames[i].epoch == e;
  }

  lemma OneWriter(c: Config, s: State, n: nat)
    requires Settled(c, s, n)
    ensures |s.writers| == 1 && s.durable == n && c.Valid() && |s.store.page| == c.pageCap
  {
  }

  lemma OpensFrame(c: Config, s: State, n: nat, active: nat, epochs: seq<nat>, tags: seq<nat>, left: nat,
                   done: seq<nat>,
                   i: nat) returns (t: State)
    requires Between(c, s, n, active, epochs, tags, left) && TagsAre(s, done)
    requires forall k | 0 <= k < FRAME_COUNT :: epochs[k] <= n
    requires i == if epochs[active] == 0 then active else WrapFrame(active + 1)
    ensures Between(c, t, n, i, epochs[i := n + 1], tags, left) && TagsAre(t, done)
    ensures OnlyAt(epochs[i := n + 1], i, n + 1)
  {
    hide Ready, Settled;
    OneWriter(c, s, n);
    WritesNothing(c, s, n);
    t := WithWriter(s, 0, Opened(s.writers[0], n + 1));
  }

  lemma TagsFrame(c: Config, s: State, n: nat, i: nat, epochs: seq<nat>, tags: seq<nat>, left: nat, done: seq<nat>,
                  tag: nat) returns (t: State)
    requires Between(c, s, n, i, epochs, tags, left) && TagsAre(s, done) && OnlyAt(epochs, i, n + 1)
    ensures Between(c, t, n, i, epochs, tags[i := tag], left) && TagsAre(t, done)
  {
    hide Ready, Settled;
    OneWriter(c, s, n);
    FoundAt(s.writers[0], i, epochs, tags, n + 1);
    GivesTags(c, s, n, tag, tag);
    t := WithWriter(s, 0, TaggedWith(s.writers[0], tag, tag));
  }

  lemma EndsEpoch(c: Config, s: State, n: nat, i: nat, epochs: seq<nat>, tags: seq<nat>, left: nat, done: seq<nat>)
    returns (t: State)
    requires Between(c, s, n, i, epochs, tags, left) && TagsAre(s, done) && OnlyAt(epochs, i, n + 1) && n < c.pageCap
    ensures Between(c, t, n + 1, i, epochs, tags, Kept(left, tags[i])) && TagsAre(t, done + [Kept(left, tags[i])])
  {
    hide Ready, Settled, TagIn, MdsLayout.PageNo, MdsLayout.RecordSlot;
    OneWriter(c, s, n);
    FoundAt(s.writers[0], i, epochs, tags, n + 1);
    Concludes(c, s, n);
    t := Concluded(c, s, n);
  }

  /** An epoch with a write call, and with a tag unless `tag` is 0. */
  lemma OneEpoch(c: Config, s: State, n: nat, active: nat, epochs: seq<nat>, tags: seq<nat>, left: nat, done: seq<nat>,
                 i: nat, tag: nat) returns (t: State)
    requires Between(c, s, n, active, epochs, tags, left) && TagsAre(s, done) && n < c.pageCap
    requires forall k | 0 <= k < FRAME_COUNT :: epochs[k] <= n
    requires i == if epochs[active] == 0 then active else WrapFrame(active + 1)
    ensures var given := if tag == 0 then tags[i] else tag;
            var stored := Kept(left, given);
            && Between(c, t, n + 1, i, epochs[i := n + 1], tags[i := given], stored)
            && TagsAre(t, done + [stored])
  {
    hide Between, TagsAre;
    Lengths(c, s, n, active, epochs, tags, left);
    t := OpensFrame(c, s, n, active, epochs, tags, left, done, i);
    if tag != 0 {
      t := TagsFrame(c, t, n, i, epochs[i := n + 1], tags, left, done, tag);
    }
    var given := if tag == 0 then tags[i] else tag;
    assert tags[i := given][i] == given && (tag == 0 ==> tags[i := given] == tags);
    t := EndsEpoch(c, t, n, i, epochs[i := n + 1], tags[i := given], left, done);
  }

  lemma Lengths(c: Config, s: State, n: nat, active: nat, epochs: seq<nat>, tags: seq<nat>, left: nat)
    requires Between(c, s, n, active, epochs, tags, left)
    ensures |epochs| == |tags| == FRAME_COUNT && active < FRAME_COUNT
  {
    hide Ready, Settled;
    OneWriter(c, s, n);
  }

  /** One writer, records for eight epochs in a page. */
  const TAGS: Config := Config(1, 2, 1, 2, 8)

  lemma NothingYet(c: Config, buffers: seq<seq<byte>>)
    requires c.Valid() && c.writerCount == |buffers| == 1 && |buffers[0]| == c.bufferSize
    ensures Between(c, Init(c, buffers), 0, 0, [0, 0, 0, 0, 0], [0, 0, 0, 0, 0], 0) && TagsAre(Init(c, buffers), [])
  {
    hide Ready;
    StartsSettled(c, buffers);
  }

  const NONE: seq<nat> := [0, 0, 0, 0, 0]

  /** What a state between epochs says about the run and the writer. */
  lemma Reached(c: Config, s: State, n: nat, active: nat, epochs: seq<nat>, tags: seq<nat>, left: nat)
    requires Between(c, s, n, active, epochs, tags, left)
    ensures Reachable(c, s) && |s.writers| == 1 && FramesAre(s.writers[0], active, epochs, tags)
  {
    hide Settled, Reachable, Inv;
    OneWriter(c, s, n);
  }

  lemma FirstEpoch() returns (s: State)
    ensures Between(TAGS, s, 1, 0, [1, 0, 0, 0, 0], [9, 0, 0, 0, 0], 9) && TagsAre(s, [9])
  {
    hide Between, TagsAre;
    NothingYet(TAGS, [[0, 0]]);
    s := OneEpoch(TAGS, Init(TAGS, [[0, 0]]), 0, 0, NONE, NONE, 0, [], 0, 9);
    assert NONE[0 := 1] == [1, 0, 0, 0, 0] && NONE[0 := 9] == [9, 0, 0, 0, 0] && [] + [9] == [9];
  }

  /** Tag epoch 1 and not epoch 2: both records have the tag. The frame of epoch 2 has none, so it was
      the flusher that carried the tag over. */
  lemma TagIsCarriedOver() returns (s: State)
    ensures Reachable(TAGS, s) && TagsAre(s, [9, 9])
    ensures |s.writers| == 1 && FramesAre(s.writers[0], 1, [1, 2, 0, 0, 0], [9, 0, 0, 0, 0])
  {
    hide Between, TagsAre, Reachable;
    s := FirstEpoch();
    s := OneEpoch(TAGS, s, 1, 0, [1, 0, 0, 0, 0], [9, 0, 0, 0, 0], 9, [9], 1, 0);
    assert [1, 0, 0, 0, 0][1 := 2] == [1, 2, 0, 0, 0] && [9, 0, 0, 0, 0][1 := 0] == [9, 0, 0, 0, 0] && [9] + [9] == [9, 9];
    Reached(TAGS, s, 2, 1, [1, 2, 0, 0, 0], [9, 0, 0, 0, 0], 9);
  }

  lemma ThreeEpochs() returns (s: State)
    ensures Between(TAGS, s, 3, 2, [1, 2, 3, 0, 0], [9, 5, 0, 0, 0], 5) && TagsAre(s, [9, 5, 5])
  {
    hide Between, TagsAre;
    s := FirstEpoch();
    s := OneEpoch(TAGS, s, 1, 0, [1, 0, 0, 0, 0], [9, 0, 0, 0, 0], 9, [9], 1, 5);
    assert [1, 0, 0, 0, 0][1 := 2] == [1, 2, 0, 0, 0] && [9, 0, 0, 0, 0][1 := 5] == [9, 5, 0, 0, 0] && [9] + [5] == [9, 5];
    s := OneEpoch(TAGS, s, 2, 1, [1, 2, 0, 0, 0], [9, 5, 0, 0, 0], 5, [9, 5], 2, 0);
    assert [1, 2, 0, 0, 0][2 := 3] == [1, 2, 3, 0, 0] && [9, 5, 0, 0, 0][2 := 0] == [9, 5, 0, 0, 0] && [9, 5] + [5] == [9, 5, 5];
  }

  lemma FiveEpochs() returns (s: State)
    ensures Between(TAGS, s, 5, 4, [1, 2, 3, 4, 5], [9, 5, 0, 0, 0], 5) && TagsAre(s, [9, 5, 5, 5, 5])
  {
    hide Between, TagsAre;
    s := ThreeEpochs();
    s := OneEpoch(TAGS, s, 3, 2, [1, 2, 3, 0, 0], [9, 5, 0, 0, 0], 5, [9, 5, 5], 3, 0);
    assert [1, 2, 3, 0, 0][3 := 4] == [1, 2, 3, 4, 0] && [9, 5, 0, 0, 0][3 := 0] == [9, 5, 0, 0, 0];
    assert [9, 5, 5] + [5] == [9, 5, 5, 5];
    s := OneEpoch(TAGS, s, 4, 3, [1, 2, 3, 4, 0], [9, 5, 0, 0, 0], 5, [9, 5, 5, 5], 4, 0);
    assert [1, 2, 3, 4, 0][4 := 5] == [1, 2, 3, 4, 5] && [9, 5, 0, 0, 0][4 := 0] == [9, 5, 0, 0, 0];
    assert [9, 5, 5, 5] + [5] == [9, 5, 5, 5, 5];
  }

  /** Tag epochs 1 and 2 and no other: epochs 3, 4 and 5 have the tag of epoch 2, and epoch 6, which
      reuses the frame of epoch 1, has that of epoch 1. */
  lemma StaleTagComesBack() returns (s: State)
    ensures Reachable(TAGS, s) && TagsAre(s, [9, 5, 5, 5, 5, 9])
    ensures |s.writers| == 1 && FramesAre(s.writers[0], 0, [6, 2, 3, 4, 5], [9, 5, 0, 0, 0])
  {
    hide Between, TagsAre, Reachable;
    s := FiveEpochs();
    s := OneEpoch(TAGS, s, 5, 4, [1, 2, 3, 4, 5], [9, 5, 0, 0, 0], 5, [9, 5, 5, 5, 5], 0, 0);
    assert [1, 2, 3, 4, 5][0 := 6] == [6, 2, 3, 4, 5] && [9, 5, 0, 0, 0][0 := 9] == [9, 5, 0, 0, 0];
    assert [9, 5, 5, 5, 5] + [9] == [9, 5, 5, 5, 5, 9];
    Reached(TAGS, s, 6, 0, [6, 2, 3, 4, 5], [9, 5, 0, 0, 0], 9);
  }
}
