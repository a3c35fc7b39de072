/** User tags over whole runs with a tagging policy: if one fixed writer tags every epoch before it
    becomes stable, and no other writer tags, each epoch record carries exactly the tags given for
    its epoch. */
module TagRuns {
  import opened Base
  import opened Pipeline
  import opened Circular
  import opened WriterInvariant
  import opened RingInvariant
  import opened LogInvariant
  import opened CursorInvariant
  import opened StoreInvariant
  import opened PipelineInvariant
  import opened PipelineRuns
  import opened TagPasses
  import opened WriterCalls
  import PipelineSafety
  import MdsLayout
  import MdsRead

  /** The pair of tags meant for each epoch. */
  type Tags = nat -> (nat, nat)

  ghost predicate NonZero(tags: Tags) {
    forall e :: tags(e).0 > 0 && tags(e).1 > 0
  }

  function Meant(tags: Tags, e: nat, id: nat): nat {
    if id == 1 then tags(e).1 else tags(e).0
  }

  predicate Carries(f: Frame, tags: Tags) {
    f.tag0 == tags(f.epoch).0 && f.tag1 == tags(f.epoch).1
  }

  /** A frame of epoch `e` with the tags of `e`. */
  ghost predicate HasTagged(frames: seq<Frame>, tags: Tags, e: nat) {
    exists i :: 0 <= i < |frames| && frames[i].epoch == e && Carries(frames[i], tags)
  }

  /** What the client promises: only writer `v` tags, with the tags meant for the epoch, and it has
      done so when the epoch becomes stable. */
  ghost predicate Policy(s: State, step: Step, v: nat, tags: Tags) {
    match step
    case TagStep(w, i, e, v0, v1) => w == v && (v0, v1) == tags(e)
    case AdvanceCasStep(t) =>
      t in s.advancing && s.stable == s.advancing[t] ==>
        v < |s.writers| && HasTagged(s.writers[v].frames, tags, s.stable + 1)
    case _ => true
  }

  /** A run in which the client keeps the policy. */
  ghost predicate IsTaggedRun(c: Config, states: seq<State>, steps: seq<Step>, v: nat, tags: Tags) {
    && IsRun(c, states, steps) && v < c.writerCount && NonZero(tags)
    && forall i | 0 <= i < |steps| :: Policy(states[i], steps[i], v, tags)
  }

  // ================================================================ the invariant

  ghost predicate Untagged(x: Writer) {
    !x.pc.StoreTag1? && forall i | 0 <= i < |x.frames| :: x.frames[i].tag0 == 0 && x.frames[i].tag1 == 0
  }

  /** Only writer `v` tags, and its frame of the stable epoch has the tags. */
  ghost predicate TagInv(s: State, v: nat, tags: Tags) {
    && v < |s.writers|
    && (forall w | 0 <= w < |s.writers| && w != v :: Untagged(s.writers[w]))
    && (s.writers[v].pc.StoreTag1? && s.writers[v].pc.i < |s.writers[v].frames| ==>
          s.writers[v].pc.value == tags(s.writers[v].frames[s.writers[v].pc.i].epoch).1)
    && (s.stable == s.durable + 1 ==> HasTagged(s.writers[v].frames, tags, s.stable))
  }

  /** One frame of writer `w` changes, but not one that carries the tags of the stable epoch. */
  lemma FrameTagsKept(s: State, w: nat, i: nat, f: Frame, y: Writer, v: nat, tags: Tags)
    requires TagInv(s, v, tags) && w < |s.writers| && i < |s.writers[w].frames|
    requires y.frames == s.writers[w].frames[i := f]
    requires w == v && s.stable == s.durable + 1 && s.writers[v].frames[i].epoch == s.stable ==>
               Carries(s.writers[v].frames[i], tags) ==> f.epoch == s.stable && Carries(f, tags)
    requires w != v ==> f.tag0 == 0 && f.tag1 == 0 && !y.pc.StoreTag1?
    requires w == v && y.pc.StoreTag1? ==> y.pc.i == i && y.pc.value == tags(f.epoch).1
    ensures TagInv(WithWriter(s, w, y), v, tags)
  {
    var s' := WithWriter(s, w, y);
    if s.stable == s.durable + 1 {
      var frames := s.writers[v].frames;
      var k :| 0 <= k < |frames| && frames[k].epoch == s.stable && Carries(frames[k], tags);
      assert s'.writers[v].frames[k].epoch == s.stable && Carries(s'.writers[v].frames[k], tags);
    }
  }

  // ================================================================ steps

  lemma OthersUntagged(s: State, w: nat, i: nat, v: nat, tags: Tags)
    requires TagInv(s, v, tags) && w < |s.writers| && w != v && i < |s.writers[w].frames|
    ensures s.writers[w].frames[i].tag0 == 0 && s.writers[w].frames[i].tag1 == 0
  {
  }

  lemma WriteTags(c: Config, s: State, w: nat, v: nat, tags: Tags)
    requires Inv(c, s) && TagInv(s, v, tags) && CanWrite(c, s, w)
    ensures TagInv(DoWrite(c, s, w), v, tags)
  {
    hide Inv, TagInv;
    var x := s.writers[w];
    var y := DoWrite(c, s, w).writers[w];
    if x.pc.StoreEpoch? { PipelineSafety.HalfPublishedFrameIsInvisible(c, s, w); }
    if w != v { OthersUntagged(s, w, x.active, v, tags); }
    FrameTagsKept(s, w, x.active, y.frames[x.active], y, v, tags);
  }

  lemma PendingTag(s: State, w: nat, v: nat, tags: Tags)
    requires TagInv(s, v, tags) && w < |s.writers| && s.writers[w].pc.StoreTag1?
    requires s.writers[w].pc.i < |s.writers[w].frames|
    ensures w == v && s.writers[w].pc.value == tags(s.writers[w].frames[s.writers[w].pc.i].epoch).1
  {
  }

  lemma ClientTags(c: Config, s: State, step: Step, s': State, v: nat, tags: Tags)
    requires Inv(c, s) && TagInv(s, v, tags) && Next(c, s, step, s') && Policy(s, step, v, tags)
    requires OfClients(step)
    ensures TagInv(s', v, tags)
  {
    hide Inv, TagInv, WriterShape, RingShape, FlusherShape, AdvanceShape;
    if Untagging(step) {
      UntaggingFrame(c, s, step, s', 0);
      SameFramesTags(s, step.w, s'.writers[step.w], v, tags);
      return;
    }
    match step
    case WriteStep(w) => WriteTags(c, s, w, v, tags);
    case TagStep(w, i, e, v0, v1) =>
      FrameCount(c, s, w);
      FrameTagsKept(s, w, i, s'.writers[w].frames[i], s'.writers[w], v, tags);
    case TagSecondStep(w) =>
      FrameCount(c, s, w);
      var i := s.writers[w].pc.i;
      assert i < |s.writers[w].frames| by { PendingFrame(c, s, w); }
      PendingTag(s, w, v, tags);
      FrameTagsKept(s, w, i, s'.writers[w].frames[i], s'.writers[w], v, tags);
    case AdvanceLoadStep(t) => SameWritersTags(s, s', v, tags);
    case AdvanceCasStep(t) => CasTags(s, t, v, tags);
  }

  lemma PendingFrame(c: Config, s: State, w: nat)
    requires CanTagSecond(c, s, w)
    ensures s.writers[w].pc.i < FRAME_COUNT
  {
  }

  lemma SameFramesTags(s: State, w: nat, y: Writer, v: nat, tags: Tags)
    requires TagInv(s, v, tags) && w < |s.writers| && y.frames == s.writers[w].frames && !y.pc.StoreTag1?
    ensures TagInv(WithWriter(s, w, y), v, tags)
  {
    hide HasTagged;
  }

  lemma SameWritersTags(s: State, s': State, v: nat, tags: Tags)
    requires TagInv(s, v, tags) && s'.writers == s.writers
    requires s'.stable == s'.durable + 1 ==> s'.stable == s.stable == s.durable + 1
    ensures TagInv(s', v, tags)
  {
  }

  lemma CasTags(s: State, t: nat, v: nat, tags: Tags)
    requires TagInv(s, v, tags) && t in s.advancing && Policy(s, AdvanceCasStep(t), v, tags)
    ensures TagInv(DoAdvanceCas(s, t), v, tags)
  {
    hide HasTagged;
  }

  /** The flusher moves heads of frames and, in the end, the durable epoch. */
  lemma FlushTags(c: Config, s: State, v: nat, tags: Tags)
    requires Inv(c, s) && TagInv(s, v, tags) && CanFlush(c, s)
    ensures TagInv(DoFlush(c, s), v, tags)
  {
    hide Inv, TagInv, Shape, DoFlush;
    var s' := DoFlush(c, s);
    var pc := s.flusher.pc;
    if pc.Advance? {
      AdvanceTags(c, s, v, tags);
    } else {
      if Concluding(pc) { RecordEpoch(c, s); }
      EpochsNow(c, s);
      FlusherFrame(c, s);
      SameWritersTags(s, s', v, tags);
    }
  }

  lemma EpochsNow(c: Config, s: State)
    requires Inv(c, s)
    ensures s.stable <= s.durable + 1
  {
  }

  lemma FlusherFrame(c: Config, s: State)
    requires CanFlush(c, s) && !s.flusher.pc.Advance?
    ensures var s' := DoFlush(c, s);
            && s'.writers == s.writers && s'.stable == s.stable
            && s'.durable == if s.flusher.pc.Announce? then s.flusher.pc.rec.epoch else s.durable
  {
    hide Shape, Turned, CanTurn, CircularRead, Flushed, Splice, SetSlot, Copied, Distance, NewRecord, MdsLayout.PageNo,
         MdsLayout.RecordSlot, DoAllocPage, DoWriteRecord, DoPersist, DoCopy, DoTurn;
    match s.flusher.pc
    case AllocPage(rec) => AllocFrame(c, s, rec);
    case WriteRecord(rec) => WriteFrame(c, s, rec);
    case Persist(_, _, _) => SegmentFrame(c, s);
    case Copy(_, _, _, _) => SegmentFrame(c, s);
    case Turning(_, _, _) => SegmentFrame(c, s);
    case _ =>
  }

  lemma WriteFrame(c: Config, s: State, rec: Record)
    requires Shape(c, s) && s.flusher.pc == WriteRecord(rec)
    ensures rec.epoch > 0
    ensures var s' := DoWriteRecord(c, s, rec); s'.writers == s.writers && s'.stable == s.stable && s'.durable == s.durable
  {
    hide WriterShape, RingShape, MdsLayout.RecordSlot;
  }

  lemma AdvanceTags(c: Config, s: State, v: nat, tags: Tags)
    requires TagInv(s, v, tags) && CanFlush(c, s) && s.flusher.pc.Advance?
    ensures TagInv(DoFlush(c, s), v, tags)
  {
    hide TagInv, RingShape;
    var s' := DoFlush(c, s);
    var Advance(w, i, head, copied) := s.flusher.pc;
    HeadMoves(s, w, i, s'.writers[w], v, tags);
    SameWritersTags(WithWriter(s, w, s'.writers[w]), s', v, tags);
  }

  lemma HeadMoves(s: State, w: nat, i: nat, y: Writer, v: nat, tags: Tags)
    requires TagInv(s, v, tags) && w < |s.writers| && i < |s.writers[w].frames| && i < |y.frames|
    requires y.frames == s.writers[w].frames[i := s.writers[w].frames[i].(head := y.frames[i].head)]
    requires y.pc == s.writers[w].pc
    ensures TagInv(WithWriter(s, w, y), v, tags)
  {
    var s' := WithWriter(s, w, y);
    if s.stable == s.durable + 1 {
      var frames := s.writers[v].frames;
      var k :| 0 <= k < |frames| && frames[k].epoch == s.stable && Carries(frames[k], tags);
      assert s'.writers[v].frames[k].epoch == s.stable && Carries(s'.writers[v].frames[k], tags);
    }
  }

  lemma RestartTags(c: Config, s: State, buffers: seq<seq<byte>>, v: nat, tags: Tags)
    requires CanRestart(c, s, buffers) && v < c.writerCount
    ensures TagInv(DoRestart(c, s, buffers), v, tags)
  {
    hide Shape, Stored, Truncated, ReopenedRing, NewRing, HasTagged;
  }

  lemma StepTags(c: Config, s: State, step: Step, s': State, v: nat, tags: Tags)
    requires Inv(c, s) && TagInv(s, v, tags) && v < c.writerCount && Next(c, s, step, s') && Policy(s, step, v, tags)
    ensures TagInv(s', v, tags)
  {
    hide Inv, TagInv, Policy, DoFlush, DoRestart, Shape;
    if step.FlushStep? {
      FlushTags(c, s, v, tags);
    } else if step.RestartStep? {
      RestartTags(c, s, step.buffers, v, tags);
    } else if OfClients(step) {
      ClientTags(c, s, step, s', v, tags);
    } else {
      if !step.BreakStep? { OtherFrame(c, s, step, s'); }
      SameWritersTags(s, s', v, tags);
    }
  }

  // ================================================================ runs

  lemma {:induction false} RunTags(c: Config, states: seq<State>, steps: seq<Step>, v: nat, tags: Tags, i: nat)
    requires IsTaggedRun(c, states, steps, v, tags) && i < |states|
    ensures TagInv(states[i], v, tags)
    decreases i
  {
    hide Inv, Next, Admissible, Policy, RingShape;
    if i == 0 {
    } else {
      RunTags(c, states, steps, v, tags, i - 1);
      RunKeeps(c, states, steps, i - 1);
      assert Allowed(c, states[i - 1], steps[i - 1], states[i]);
      StepTags(c, states[i - 1], steps[i - 1], states[i], v, tags);
    }
  }

  /** The frame of the stable epoch is the one that carries the tags. */
  lemma StableFrameCarries(c: Config, s: State, v: nat, tags: Tags, i: nat)
    requires Inv(c, s) && TagInv(s, v, tags) && s.stable == s.durable + 1
    requires i < |s.writers[v].frames| && s.writers[v].frames[i].epoch == s.stable
    ensures Carries(s.writers[v].frames[i], tags)
  {
    hide RingOk, LogOk, StoreOk, ReadersOk, StreamOk, ConcludeOk, FlushOk, BufferOk, FramesOk, EntriesOk, PcOk;
    var x := s.writers[v];
    assert WriterOk(c, v, x, s.durable);
    var k :| 0 <= k < |x.frames| && x.frames[k].epoch == s.stable && Carries(x.frames[k], tags);
    if k != i {
      LiveFramesDistinct(x.frames, x.active, x.pc, x.submitted, s.durable, i, k);
    }
  }

  /** Tagging an epoch again with the tags it has is no change. */
  lemma PolicyIsQuiet(c: Config, s: State, step: Step, s': State, v: nat, tags: Tags)
    requires Inv(c, s) && TagInv(s, v, tags) && Next(c, s, step, s') && Policy(s, step, v, tags)
    ensures Quiet(s, step)
  {
    hide Inv, TagInv, RingShape, FlusherShape, AdvanceShape;
    match step
    case TagStep(w, i, e, v0, v1) =>
      FrameCount(c, s, w);
      if e == s.stable == s.durable + 1 { StableFrameCarries(c, s, v, tags, i); }
    case TagSecondStep(w) =>
      FrameCount(c, s, w);
      PendingFrame(c, s, w);
      PendingTag(s, w, v, tags);
      var i := s.writers[w].pc.i;
      if s.writers[w].frames[i].epoch == s.stable == s.durable + 1 { StableFrameCarries(c, s, v, tags, i); }
    case _ =>
  }

  lemma TaggedRunIsQuiet(c: Config, states: seq<State>, steps: seq<Step>, v: nat, tags: Tags)
    requires IsTaggedRun(c, states, steps, v, tags)
    ensures IsQuietRun(c, states, steps)
  {
    hide Inv, TagInv, Next, Admissible, Policy, Quiet, RingShape;
    forall i | 0 <= i < |steps| ensures Quiet(states[i], steps[i]) {
      RunTags(c, states, steps, v, tags, i);
      RunKeeps(c, states, steps, i);
      assert Allowed(c, states[i], steps[i], states[i + 1]);
      PolicyIsQuiet(c, states[i], steps[i], states[i + 1], v, tags);
    }
  }

  /** The tagging writer wins. */
  lemma TaggerWins(c: Config, s: State, v: nat, tags: Tags, id: nat)
    requires Inv(c, s) && TagInv(s, v, tags) && NonZero(tags) && s.stable == s.durable + 1
    ensures Wins(s.writers, s.stable, id, |s.writers|, v, Meant(tags, s.stable, id))
  {
    hide Inv;
    var i := FrameOf(s.writers[v].frames, s.stable);
    assert i < |s.writers[v].frames|;
    StableFrameCarries(c, s, v, tags, i);
    assert tags(s.stable).0 > 0 && tags(s.stable).1 > 0;
  }

  /** Every record of a durable epoch carries exactly the tags meant for it; in particular tags that
      grow with the epoch are stored in that order. */
  lemma StoredTagsAreExact(c: Config, states: seq<State>, steps: seq<Step>, v: nat, tags: Tags, j: nat, e: nat)
    requires IsTaggedRun(c, states, steps, v, tags) && j < |states| && 1 <= e <= states[j].cbDurable
    ensures e in states[j].mds && (states[j].mds[e].tag0, states[j].mds[e].tag1) == tags(e)
  {
    TaggedRunIsQuiet(c, states, steps, v, tags);
    StoredTagIsExact(c, states, steps, v, tags, j, e, 0);
    StoredTagIsExact(c, states, steps, v, tags, j, e, 1);
  }

  lemma StoredTagIsExact(c: Config, states: seq<State>, steps: seq<Step>, v: nat, tags: Tags, j: nat, e: nat, id: nat)
    requires IsTaggedRun(c, states, steps, v, tags) && IsQuietRun(c, states, steps)
    requires j < |states| && 1 <= e <= states[j].cbDurable
    ensures e in states[j].mds && MdsRead.UserTag(states[j].mds[e], id) == Meant(tags, e, id)
  {
    hide Inv, TagInv, IsRun, Wins, Silent, Picked;
    var i := RecordedTags(c, states, steps, j, e, id, Meant(tags, e, id));
    RunKeeps(c, states, steps, i);
    RunTags(c, states, steps, v, tags, i);
    StableWhileConcluding(c, states[i]);
    assert v < |states[i].writers| by { Tagger(states[i], v, tags); }
    TaggerWins(c, states[i], v, tags, id);
  }

  lemma Tagger(s: State, v: nat, tags: Tags)
    requires TagInv(s, v, tags)
    ensures v < |s.writers|
  {
  }

  lemma StableWhileConcluding(c: Config, s: State)
    requires Inv(c, s) && Concluding(s.flusher.pc)
    ensures s.stable == s.durable + 1
  {
  }
}
