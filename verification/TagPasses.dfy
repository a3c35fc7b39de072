/** Which tags the record of an epoch gets, in every run in which the tags of an epoch stay as they are
    once it is stable: the last non-zero one of its frames in writer order, or else what the flusher
    still has from the epoch before. */
module TagPasses {
  import opened Base
  import opened LogStream
  import opened Restart
  import opened Pipeline
  import opened Circular
  import opened WriterInvariant
  import opened RingInvariant
  import opened LogInvariant
  import opened CursorInvariant
  import opened StoreInvariant
  import opened PipelineInvariant
  import opened PipelineRuns
  import opened WriterCalls
  import PipelineSafety
  import PipelineTheorems
  import MdsLayout
  import MdsCrash
  import MdsRead

  // ================================================================ definitions

  /** One of the two tags, as queries number them. */
  function FrameTag(f: Frame, id: nat): nat {
    if id == 1 then f.tag1 else f.tag0
  }

  function FlusherTag(fl: Flusher, id: nat): nat {
    if id == 1 then fl.tag1 else fl.tag0
  }

  /** The tag a writer has for epoch `e`; zero without a frame. */
  function TagIn(frames: seq<Frame>, e: nat, id: nat): nat {
    var i := FrameOf(frames, e);
    if i < |frames| then FrameTag(frames[i], id) else 0
  }

  /** What the first `n` writers make of `start`: the last non-zero tag wins. */
  function Picked(writers: seq<Writer>, e: nat, id: nat, n: nat, start: nat): nat
    requires n <= |writers|
  {
    if n == 0 then start else Kept(Picked(writers, e, id, n - 1, start), TagIn(writers[n - 1].frames, e, id))
  }

  /** What the flusher has from before: the tag of the last epoch since start-up. */
  function Carried(s: State, id: nat): nat {
    if s.boot < s.durable && s.durable in s.mds then MdsRead.UserTag(s.mds[s.durable], id) else 0
  }

  /** Nobody changes the tags of an epoch that is stable and not durable. */
  predicate Quiet(s: State, step: Step) {
    match step
    case TagStep(w, i, e, v0, _) =>
      w < |s.writers| && i < |s.writers[w].frames| && e == s.stable == s.durable + 1 ==> s.writers[w].frames[i].tag0 == v0
    case TagSecondStep(w) =>
      w < |s.writers| && s.writers[w].pc.StoreTag1? && s.writers[w].pc.i < |s.writers[w].frames| ==>
        var f := s.writers[w].frames[s.writers[w].pc.i];
        f.epoch == s.stable == s.durable + 1 ==> f.tag1 == s.writers[w].pc.value
    case _ => true
  }

  ghost predicate IsQuietRun(c: Config, states: seq<State>, steps: seq<Step>) {
    IsRun(c, states, steps) && forall i | 0 <= i < |steps| :: Quiet(states[i], steps[i])
  }

  // ---------------------------------------------------------------- who wins

  /** A tag `t` comes out exactly if the last writer with a non-zero tag has it, or no writer has one
      and it was there before. */
  lemma {:induction false} PickedExactly(writers: seq<Writer>, e: nat, id: nat, n: nat, start: nat, t: nat)
    requires n <= |writers|
    ensures Picked(writers, e, id, n, start) == t <==>
            || (exists k | 0 <= k < n :: Wins(writers, e, id, n, k, t))
            || (t == start && Silent(writers, e, id, 0, n))
    decreases n
  {
    if n == 0 {
    } else {
      var m, last := n - 1, TagIn(writers[n - 1].frames, e, id);
      PickedExactly(writers, e, id, m, start, t);
      if last == 0 {
        if k :| 0 <= k < m && Wins(writers, e, id, m, k, t) {
          assert Wins(writers, e, id, n, k, t);
        }
        if k :| 0 <= k < n && Wins(writers, e, id, n, k, t) {
          assert k < m && Wins(writers, e, id, m, k, t);
        }
        assert Silent(writers, e, id, 0, n) <==> Silent(writers, e, id, 0, n - 1);
      } else {
        assert Wins(writers, e, id, n, n - 1, last);
        forall k | 0 <= k < n - 1 ensures !Silent(writers, e, id, k, n) && !Wins(writers, e, id, n, k, t) {
          assert TagIn(writers[n - 1].frames, e, id) != 0;
        }
        assert !Silent(writers, e, id, 0, n);
      }
    }
  }

  /** Writer `k` has the tag, and the writers after it have none. */
  ghost predicate Wins(writers: seq<Writer>, e: nat, id: nat, n: nat, k: nat, t: nat)
    requires k < n <= |writers|
  {
    t == TagIn(writers[k].frames, e, id) != 0 && Silent(writers, e, id, k + 1, n)
  }

  ghost predicate Silent(writers: seq<Writer>, e: nat, id: nat, from: nat, to: nat)
    requires to <= |writers|
  {
    forall k | from <= k < to :: TagIn(writers[k].frames, e, id) == 0
  }

  // ---------------------------------------------------------------- what does not matter

  /** The frames of epoch `e` stay what they are. */
  ghost predicate SameFor(frames: seq<Frame>, frames': seq<Frame>, e: nat) {
    && |frames| == |frames'|
    && forall i | 0 <= i < |frames| ::
         && (frames[i].epoch == e <==> frames'[i].epoch == e)
         && (frames[i].epoch == e ==> frames[i].tag0 == frames'[i].tag0 && frames[i].tag1 == frames'[i].tag1)
  }

  lemma SameTagIn(frames: seq<Frame>, frames': seq<Frame>, e: nat, id: nat)
    requires SameFor(frames, frames', e)
    ensures TagIn(frames', e, id) == TagIn(frames, e, id)
  {
    assert FrameOf(frames, e) == FrameOf(frames', e);
  }

  lemma {:induction false} SamePicked(writers: seq<Writer>, writers': seq<Writer>, e: nat, id: nat, n: nat, start: nat)
    requires |writers| == |writers'| && n <= |writers|
    requires forall w | 0 <= w < |writers| :: SameFor(writers[w].frames, writers'[w].frames, e)
    ensures Picked(writers', e, id, n, start) == Picked(writers, e, id, n, start)
    decreases n
  {
    if n == 0 {
    } else {
      SamePicked(writers, writers', e, id, n - 1, start);
      SameTagIn(writers[n - 1].frames, writers'[n - 1].frames, e, id);
    }
  }

  // ================================================================ the invariant

  /** How many writers contributed to the tag so far in this pass. */
  function Looked(c: Config, pc: FlusherPc, id: nat): nat {
    match pc
    case Start => 0
    case Halted(_) => 0
    case Search(w, _) => w
    case Found(w, _) => w
    case LoadTag0(w, _) => w
    case LoadTag1(w, _) => if id == 1 then w else w + 1
    case LoadTail(w, _) => w + 1
    case Copy(w, _, _, _) => w + 1
    case Advance(w, _, _, _) => w + 1
    case Turning(w, _, _) => w + 1
    case NextWriter(w) => w + 1
    case _ => c.writerCount
  }

  predicate Picking(fl: Flusher) {
    Working(fl.pc) && fl.stablePass
  }

  ghost predicate PickOk(c: Config, s: State, id: nat) {
    && s.boot <= s.durable && |s.writers| == c.writerCount && Looked(c, s.flusher.pc, id) <= c.writerCount
    && (s.flusher.pc.LoadTag0? || s.flusher.pc.LoadTag1? ==> s.flusher.stablePass)
    && (!s.flusher.pc.Halted? ==>
          FlusherTag(s.flusher, id)
          == if Picking(s.flusher) then Picked(s.writers, s.flusher.target, id, Looked(c, s.flusher.pc, id), Carried(s, id))
             else Carried(s, id))
  }

  /** Steps that leave the flusher's tags, its pass and the durable records alone. */
  predicate SamePass(c: Config, s: State, s': State, id: nat) {
    && s'.durable == s.durable && s'.boot == s.boot && Carried(s', id) == Carried(s, id)
    && FlusherTag(s'.flusher, id) == FlusherTag(s.flusher, id)
    && s'.flusher.target == s.flusher.target && s'.flusher.stablePass == s.flusher.stablePass
    && (s'.flusher.pc.LoadTag0? || s'.flusher.pc.LoadTag1? ==> s'.flusher.pc == s.flusher.pc)
    && Working(s'.flusher.pc) == Working(s.flusher.pc) && (s.flusher.pc.Halted? ==> s'.flusher.pc.Halted?)
    && Looked(c, s'.flusher.pc, id) == Looked(c, s.flusher.pc, id)
  }

  lemma SamePassKeeps(c: Config, s: State, s': State, id: nat)
    requires PickOk(c, s, id) && SamePass(c, s, s', id) && |s'.writers| == |s.writers|
    requires Picking(s.flusher) ==>
               forall w | 0 <= w < |s.writers| :: SameFor(s.writers[w].frames, s'.writers[w].frames, s.flusher.target)
    ensures PickOk(c, s', id)
  {
    hide Picked, Carried, SameFor;
    if Picking(s.flusher) {
      SamePicked(s.writers, s'.writers, s.flusher.target, id, Looked(c, s.flusher.pc, id), Carried(s, id));
    }
  }

  lemma SameForItself(frames: seq<Frame>, e: nat)
    ensures SameFor(frames, frames, e)
  {
  }

  // ================================================================ clients

  /** A step of one writer. */
  lemma WriterPicks(c: Config, s: State, w: nat, y: Writer, id: nat)
    requires PickOk(c, s, id) && w < |s.writers|
    requires Picking(s.flusher) ==> SameFor(s.writers[w].frames, y.frames, s.flusher.target)
    ensures PickOk(c, WithWriter(s, w, y), id)
  {
    hide SameFor, Picked;
    var s' := WithWriter(s, w, y);
    forall v | 0 <= v < |s.writers| && Picking(s.flusher)
      ensures SameFor(s.writers[v].frames, s'.writers[v].frames, s.flusher.target)
    {
      SameForItself(s.writers[v].frames, s.flusher.target);
    }
    SamePassKeeps(c, s, s', id);
  }

  /** In a stable pass the target is the stable epoch. */
  lemma TargetIsStable(c: Config, s: State)
    requires Inv(c, s) && Picking(s.flusher)
    ensures s.flusher.target == s.stable == s.durable + 1
  {
  }

  /** Setting up a frame concerns neither the target nor any epoch before it. */
  lemma WriteSame(c: Config, s: State, w: nat)
    requires Inv(c, s) && CanWrite(c, s, w)
    ensures SameFor(s.writers[w].frames, DoWrite(c, s, w).writers[w].frames, s.durable + 1)
         || s.stable == s.durable
  {
    hide RingOk, LogOk, StoreOk, ReadersOk, StreamOk, WriterOk, FlushOk, ConcludeOk;
    if s.writers[w].Publishing() {
      PipelineSafety.HalfPublishedFrameIsInvisible(c, s, w);
    }
  }

  lemma ClientPicks(c: Config, s: State, step: Step, s': State, id: nat)
    requires Inv(c, s) && PickOk(c, s, id) && Next(c, s, step, s') && Quiet(s, step)
    requires OfClients(step)
    ensures PickOk(c, s', id)
  {
    hide Inv, PickOk, Shape, SameFor;
    if Picking(s.flusher) { TargetIsStable(c, s); }
    if Untagging(step) {
      UntaggingFrame(c, s, step, s', s.flusher.target);
      WriterPicks(c, s, step.w, s'.writers[step.w], id);
      return;
    }
    match step
    case AdvanceLoadStep(t) => SameWritersPick(c, s, s', id);
    case AdvanceCasStep(t) => SameWritersPick(c, s, s', id);
    case WriteStep(w) =>
      WriteSame(c, s, w);
      WriterPicks(c, s, w, s'.writers[w], id);
    case TagStep(w, i, e, v0, v1) =>
      TagSame(c, s, w, i, e, v0, v1);
      WriterPicks(c, s, w, s'.writers[w], id);
    case TagSecondStep(w) =>
      TagSecondSame(c, s, w);
      WriterPicks(c, s, w, s'.writers[w], id);
  }

  lemma TagSame(c: Config, s: State, w: nat, i: nat, e: nat, v0: nat, v1: nat)
    requires CanTag(c, s, w, i, e) && Quiet(s, TagStep(w, i, e, v0, v1))
    ensures s.stable == s.durable + 1 ==>
              SameFor(s.writers[w].frames, DoTag(c, s, w, i, e, v0, v1).writers[w].frames, s.stable)
  {
    hide RingShape, FlusherShape, AdvanceShape;
  }

  lemma TagSecondSame(c: Config, s: State, w: nat)
    requires CanTagSecond(c, s, w) && Quiet(s, TagSecondStep(w))
    ensures s.stable == s.durable + 1 ==>
              SameFor(s.writers[w].frames, DoTagSecond(c, s, w).writers[w].frames, s.stable)
  {
    hide RingShape, FlusherShape, AdvanceShape;
  }

  /** Writer steps that touch neither tags nor epochs of frames. */
  predicate Untagging(step: Step) {
    step.StageStep? || step.BeginWriteStep? || step.BeginCheckStep? || step.CheckFrameStep?
  }

  lemma UntaggingFrame(c: Config, s: State, step: Step, s': State, e: nat)
    requires Next(c, s, step, s') && Untagging(step)
    ensures step.w < |s.writers| == |s'.writers| && s' == WithWriter(s, step.w, s'.writers[step.w])
    ensures s'.writers[step.w].frames == s.writers[step.w].frames && !s'.writers[step.w].pc.StoreTag1?
    ensures SameFor(s.writers[step.w].frames, s'.writers[step.w].frames, e)
  {
    hide WriterShape, RingShape, FlusherShape, AdvanceShape, CircularWrite;
    match step
    case StageStep(w, data) =>
    case BeginWriteStep(w, e) =>
    case BeginCheckStep(w) =>
    case CheckFrameStep(w) =>
  }

  lemma SameWritersPick(c: Config, s: State, s': State, id: nat)
    requires PickOk(c, s, id) && s'.writers == s.writers && SamePass(c, s, s', id)
    ensures PickOk(c, s', id)
  {
  }

  // ================================================================ the flusher

  lemma FrameCount(c: Config, s: State, w: nat)
    requires Shape(c, s) && w < |s.writers|
    ensures |s.writers[w].frames| == FRAME_COUNT
  {
  }

  /** A search that ends without a frame contributes nothing. */
  lemma NoFrameNoTag(c: Config, s: State, w: nat, i: nat, id: nat)
    requires Inv(c, s) && s.flusher.pc == Search(w, i) && s.flusher.stablePass
    requires i + 1 == FRAME_COUNT && s.writers[w].frames[i].epoch != s.flusher.target
    ensures TagIn(s.writers[w].frames, s.flusher.target, id) == 0
  {
    hide RingOk, LogOk, StoreOk, ReadersOk, StreamOk, WriterOk, ConcludeOk, EpochsOk;
    assert PassOk(c, s.flusher, w, s.writers[w]);
  }

  /** The frame found is the frame of the epoch. */
  lemma FoundTag(c: Config, s: State, w: nat, i: nat, id: nat)
    requires Inv(c, s) && (s.flusher.pc == LoadTag0(w, i) || s.flusher.pc == LoadTag1(w, i))
    ensures w < |s.writers| && i < |s.writers[w].frames|
    ensures TagIn(s.writers[w].frames, s.flusher.target, id) == FrameTag(s.writers[w].frames[i], id)
  {
    hide RingOk, LogOk, StoreOk, ReadersOk, StreamOk, ConcludeOk, BufferOk, FramesOk, EntriesOk, PcOk;
    var x := s.writers[w];
    assert PassOk(c, s.flusher, w, x) && WriterOk(c, w, x, s.durable);
    var k := FrameOf(x.frames, s.flusher.target);
    if k != i {
      LiveFramesDistinct(x.frames, x.active, x.pc, x.submitted, s.durable, i, k);
    }
  }

  lemma PassPicks(c: Config, s: State, id: nat)
    requires Inv(c, s) && PickOk(c, s, id) && CanFlush(c, s)
    requires var pc := s.flusher.pc; pc.Search? || pc.Found? || pc.LoadTag0? || pc.LoadTag1? || pc.NextWriter? || pc.Start?
    ensures PickOk(c, DoFlush(c, s), id)
  {
    hide Inv, TagIn, WriterShape, RingShape;
    match s.flusher.pc
    case Search(w, i) =>
      FrameCount(c, s, w);
      if s.flusher.stablePass && i + 1 == FRAME_COUNT && s.writers[w].frames[i].epoch != s.flusher.target {
        NoFrameNoTag(c, s, w, i, id);
      }
    case LoadTag0(w, i) => FoundTag(c, s, w, i, id);
    case LoadTag1(w, i) => FoundTag(c, s, w, i, id);
    case _ =>
  }

  lemma AdvancePicks(c: Config, s: State, id: nat)
    requires PickOk(c, s, id) && CanFlush(c, s) && s.flusher.pc.Advance?
    ensures PickOk(c, DoFlush(c, s), id)
  {
    hide PickOk, RingShape;
    var s' := DoFlush(c, s);
    var Advance(w, i, head, copied) := s.flusher.pc;
    WriterPicks(c, s, w, s'.writers[w], id);
    assert PickOk(c, s', id) by { SameWritersPick(c, WithWriter(s, w, s'.writers[w]), s', id); }
  }

  /** The tags of the record are those the pass has picked. */
  lemma ConcludingTags(c: Config, s: State, id: nat)
    requires Inv(c, s) && PickOk(c, s, id) && Concluding(s.flusher.pc)
    ensures s.flusher.pc.rec.epoch == s.durable + 1
    ensures MdsRead.UserTag(s.flusher.pc.rec, id) == FlusherTag(s.flusher, id)
         == Picked(s.writers, s.durable + 1, id, |s.writers|, Carried(s, id))
  {
    hide RingOk, LogOk, StoreOk, ReadersOk, StreamOk, WritersOk, FlushOk, Picked;
  }

  lemma AnnouncePicks(c: Config, s: State, id: nat)
    requires Inv(c, s) && PickOk(c, s, id) && s.flusher.pc.Announce?
    ensures PickOk(c, DoFlush(c, s), id)
  {
    hide RingOk, LogOk, StoreOk, ReadersOk, StreamOk, WritersOk, FlushOk, Picked;
    ConcludingTags(c, s, id);
  }

  lemma MovePicks(c: Config, s: State, id: nat)
    requires Inv(c, s) && PickOk(c, s, id) && CanFlush(c, s)
    requires var pc := s.flusher.pc;
             pc.LoadTail? || pc.Copy? || pc.Turning? || pc.Conclude? || (Concluding(pc) && !pc.Announce?)
    ensures PickOk(c, DoFlush(c, s), id)
  {
    hide Inv, PickOk, DoFlush, Picked;
    if s.flusher.pc.WriteRecord? { RecordEpoch(c, s); }
    if s.flusher.pc.Conclude? {
      RestPicks(c, s, id);
    } else {
      MoveFrame(c, s, id);
      SameWritersPick(c, s, DoFlush(c, s), id);
    }
  }

  /** The end of a pass: nothing is picked in one that is not stable. */
  lemma RestPicks(c: Config, s: State, id: nat)
    requires Inv(c, s) && PickOk(c, s, id) && CanFlush(c, s) && s.flusher.pc.Conclude?
    ensures PickOk(c, DoFlush(c, s), id)
  {
    hide RingOk, LogOk, StoreOk, ReadersOk, StreamOk, WritersOk, FlushOk, Picked, NewRecord;
  }

  lemma MoveFrame(c: Config, s: State, id: nat)
    requires CanFlush(c, s)
    requires var pc := s.flusher.pc;
             pc.LoadTail? || pc.Copy? || pc.Turning? || (Concluding(pc) && !pc.Announce?)
    requires s.flusher.pc.WriteRecord? ==> s.flusher.pc.rec.epoch == s.durable + 1
    ensures var s' := DoFlush(c, s); s'.writers == s.writers && SamePass(c, s, s', id)
  {
    hide Shape, CanTurn, DoFlush, MdsRead.UserTag;
    var pc := s.flusher.pc;
    if pc.LoadTail? || pc.Copy? || pc.Turning? || pc.Persist? {
      SegmentFrame(c, s);
    } else {
      StoreFrame(c, s, id);
    }
  }

  /** Writing the record changes the store and the place of the flusher. */
  lemma StoreFrame(c: Config, s: State, id: nat)
    requires CanFlush(c, s)
    requires var pc := s.flusher.pc; pc.AllocPage? || pc.SetPaged? || pc.TakePage? || pc.WriteRecord? || pc.BumpDurable?
    requires s.flusher.pc.WriteRecord? ==> s.flusher.pc.rec.epoch == s.durable + 1
    ensures var s' := DoFlush(c, s);
            && s'.writers == s.writers && s'.durable == s.durable && s'.boot == s.boot && Carried(s', id) == Carried(s, id)
            && s'.flusher == s.flusher.(pc := s'.flusher.pc) && Concluding(s'.flusher.pc)
  {
    hide Shape, DoAllocPage, DoWriteRecord, MdsLayout.PageNo, MdsRead.UserTag;
    match s.flusher.pc
    case AllocPage(rec) => AllocFrame(c, s, rec);
    case WriteRecord(rec) => RecordFrame(c, s, rec, id);
    case _ =>
  }

  /** Work on segments changes the place of the flusher, the ring and the log. */
  lemma SegmentFrame(c: Config, s: State)
    requires CanFlush(c, s)
    requires var pc := s.flusher.pc; pc.LoadTail? || pc.Copy? || pc.Turning? || pc.Persist?
    ensures var s', pc := DoFlush(c, s), s.flusher.pc;
            && s' == s.(ring := s'.ring, segs := s'.segs, flusher := s.flusher.(pc := s'.flusher.pc))
            && var pc' := s'.flusher.pc;
            if pc.Persist? then pc'.Persist? || pc'.AllocPage?
            else (pc'.NextWriter? || pc'.Copy? || pc'.Advance? || pc'.Turning? || pc'.LoadTail?) && pc'.w == pc.w
  {
    hide Shape, Turned, CanTurn, CircularRead, Flushed, Splice, SetSlot, Copied, Distance;
    match s.flusher.pc
    case Persist(_, _, _) =>
    case Copy(_, _, _, _) =>
    case Turning(_, _, _) =>
    case LoadTail(_, _) =>
  }

  lemma AllocFrame(c: Config, s: State, rec: Record)
    requires Shape(c, s) && s.flusher.pc == AllocPage(rec)
    ensures rec.epoch > 0
    ensures var s' := DoAllocPage(c, s, rec);
            && s' == s.(store := s'.store, flusher := s'.flusher) && s'.flusher == s.flusher.(pc := s'.flusher.pc)
            && (s'.flusher.pc == WriteRecord(rec) || s'.flusher.pc == SetPaged(rec))
  {
    hide WriterShape, RingShape, MdsLayout.PageNo;
  }

  lemma RecordFrame(c: Config, s: State, rec: Record, id: nat)
    requires Shape(c, s) && rec.epoch == s.durable + 1
    ensures var s' := DoWriteRecord(c, s, rec);
            && s' == s.(store := s'.store, mds := s'.mds, flusher := s.flusher.(pc := BumpDurable(rec)))
            && Carried(s', id) == Carried(s, id)
  {
    hide Shape, MdsLayout.RecordSlot, MdsRead.UserTag;
  }

  lemma FlushPicks(c: Config, s: State, id: nat)
    requires Inv(c, s) && PickOk(c, s, id) && CanFlush(c, s)
    ensures PickOk(c, DoFlush(c, s), id)
  {
    hide Inv, PickOk, DoFlush, Shape;
    var pc := s.flusher.pc;
    if pc.Search? || pc.Found? || pc.LoadTag0? || pc.LoadTag1? || pc.NextWriter? || pc.Start? {
      PassPicks(c, s, id);
    } else if pc.Advance? {
      AdvancePicks(c, s, id);
    } else if pc.Announce? {
      AnnouncePicks(c, s, id);
    } else {
      MovePicks(c, s, id);
    }
  }

  // ================================================================ runs

  lemma OtherFrame(c: Config, s: State, step: Step, s': State)
    requires Next(c, s, step, s') && !OfClients(step)
    requires !step.FlushStep? && !step.BreakStep? && !step.RestartStep?
    ensures s'.writers == s.writers && s'.stable == s.stable && s'.durable == s.durable && s'.mds == s.mds
    ensures s'.boot == s.boot
    ensures s'.flusher == s.flusher || s'.flusher == s.flusher.(pc := Halted(TurnOf(s.flusher.pc)))
  {
    hide Shape, Synced;
  }

  lemma OtherPicks(c: Config, s: State, step: Step, s': State, id: nat)
    requires PickOk(c, s, id) && Next(c, s, step, s') && !OfClients(step)
    requires !step.FlushStep? && !step.BreakStep? && !step.RestartStep?
    ensures PickOk(c, s', id)
  {
    hide Next, Picked;
    OtherFrame(c, s, step, s');
  }

  lemma BreakPicks(c: Config, s: State, id: nat)
    requires PickOk(c, s, id) && CanBreak(c, s) && Admissible(c, s, BreakStep)
    ensures PickOk(c, DoBreak(s), id)
  {
    hide Shape, Picked, MdsCrash.Sound;
  }

  lemma RestartPicks(c: Config, s: State, buffers: seq<seq<byte>>, id: nat)
    requires CanRestart(c, s, buffers)
    ensures PickOk(c, DoRestart(c, s, buffers), id)
  {
    hide Shape, Stored, Truncated, ReopenedRing, NewRing, Flat, OfWriter, Picked;
  }

  lemma StepPicks(c: Config, s: State, step: Step, s': State, id: nat)
    requires Inv(c, s) && PickOk(c, s, id) && Next(c, s, step, s') && Admissible(c, s, step) && Quiet(s, step)
    ensures PickOk(c, s', id)
  {
    hide Inv, PickOk, Quiet, DoFlush, DoBreak, DoRestart, Shape;
    if step.FlushStep? {
      FlushPicks(c, s, id);
    } else if step.BreakStep? {
      BreakPicks(c, s, id);
    } else if step.RestartStep? {
      RestartPicks(c, s, step.buffers, id);
    } else if OfClients(step) {
      ClientPicks(c, s, step, s', id);
    } else {
      OtherPicks(c, s, step, s', id);
    }
  }

  lemma {:induction false} RunPicks(c: Config, states: seq<State>, steps: seq<Step>, i: nat, id: nat)
    requires IsQuietRun(c, states, steps) && i < |states|
    ensures PickOk(c, states[i], id)
    decreases i
  {
    hide Inv, Next, Admissible, Quiet, RingShape, Picked;
    if i == 0 {
    } else {
      RunPicks(c, states, steps, i - 1, id);
      RunKeeps(c, states, steps, i - 1);
      assert Allowed(c, states[i - 1], steps[i - 1], states[i]);
      StepPicks(c, states[i - 1], steps[i - 1], states[i], id);
    }
  }

  // ================================================================ the tags of every record

  /** For every durable epoch of every quiet run: there was a state in which its record was concluded,
      and the tag in it is what that state's frames made of the tag of the epoch before, or of
      nothing right after start-up. So it is `t` exactly if the last writer with a non-zero tag in
      its frame had `t` there, or none had one and the epoch before has `t`. */
  lemma RecordedTags(c: Config, states: seq<State>, steps: seq<Step>, j: nat, e: nat, id: nat, t: nat) returns (i: nat)
    requires IsQuietRun(c, states, steps) && j < |states| && 1 <= e <= states[j].cbDurable
    ensures i < j && states[i].flusher.pc.BumpDurable? && e == states[i].flusher.pc.rec.epoch == states[i].durable + 1
    ensures e in states[j].mds && states[j].mds[e] == states[i].flusher.pc.rec
    ensures states[i].boot < e - 1 ==> e - 1 in states[j].mds
    ensures var before := if states[i].boot < e - 1 then MdsRead.UserTag(states[j].mds[e - 1], id) else 0;
            var writers := states[i].writers;
            && MdsRead.UserTag(states[j].mds[e], id) == Picked(writers, e, id, |writers|, before)
            && (MdsRead.UserTag(states[j].mds[e], id) == t <==>
                  || (exists k | 0 <= k < |writers| :: Wins(writers, e, id, |writers|, k, t))
                  || (t == before && Silent(writers, e, id, 0, |writers|)))
  {
    hide Inv, PickOk, Next, Admissible, Quiet, Picked, Wins, Silent, MdsRead.UserTag;
    i := PipelineTheorems.WasConcluded(c, states, steps, j, e);
    RunKeeps(c, states, steps, i);
    RunPicks(c, states, steps, i, id);
    ConcludingTags(c, states[i], id);
    if states[i].boot < e - 1 {
      DurableNow(c, states[i]);
      PipelineTheorems.DurableForGood(c, states, steps, i, j, e - 1);
    }
    PickedExactly(states[i].writers, e, id, |states[i].writers|, Carried(states[i], id), t);
  }

  lemma DurableNow(c: Config, s: State)
    requires Inv(c, s)
    ensures s.durable <= s.cbDurable && (s.durable > 0 ==> s.durable in s.mds)
  {
    hide RingOk, StoreOk, ReadersOk, StreamOk, WriterOk, FlushOk, ConcludeOk;
  }
}
