/** Every step keeps the invariant, so every state of every run satisfies it. */
module PipelineRuns {
  import opened Base
  import opened Pipeline
  import opened PipelineInvariant
  import WriterSteps
  import FlusherSteps
  import FsyncerSteps
  import RestartSteps
  import MdsLayout

  lemma FlushStepKeeps(c: Config, s: State)
    requires Inv(c, s) && CanFlush(c, s) && Admissible(c, s, FlushStep)
    ensures Inv(c, DoFlush(c, s))
  {
    hide Inv, DoBeginPass, DoSearch, DoLoadTail, DoCopy, DoAdvance, DoTurn, DoConclude, DoPersist, DoAnnounce,
         DoAllocPage, DoWriteRecord, MdsLayout.PageNo;
    match s.flusher.pc
    case Start => FlusherSteps.BeginPassKeeps(c, s);
    case Search(w, i) => FlusherSteps.SearchKeeps(c, s, w, i);
    case Found(w, i) => FlusherSteps.FoundKeeps(c, s, w, i, DoFlush(c, s).flusher);
    case LoadTag0(w, i) => FlusherSteps.FoundKeeps(c, s, w, i, DoFlush(c, s).flusher);
    case LoadTag1(w, i) => FlusherSteps.FoundKeeps(c, s, w, i, DoFlush(c, s).flusher);
    case LoadTail(w, i) => FlusherSteps.LoadTailKeeps(c, s, w, i);
    case Copy(w, i, head, dist) => FlusherSteps.CopyStepKeeps(c, s, w, i, head, dist);
    case Advance(w, i, head, copied) => FlusherSteps.AdvanceStepKeeps(c, s, w, i, head, copied);
    case Turning(w, i, turn) => FlusherSteps.TurnStepKeeps(c, s, w, i, turn);
    case NextWriter(w) => FlusherSteps.NextWriterKeeps(c, s, if w + 1 < c.writerCount then Search(w + 1, 0) else Conclude);
    case Conclude => ConcludeStepKeeps(c, s);
    case Persist(rec, onDisk, dsid) => FlusherSteps.PersistKeeps(c, s, rec, onDisk, dsid);
    case AllocPage(rec) => RecordEpoch(c, s); FlusherSteps.AllocPageKeeps(c, s, rec);
    case SetPaged(rec) => FlusherSteps.SetPagedKeeps(c, s, rec);
    case TakePage(rec) => RecordEpoch(c, s); FlusherSteps.TakePageKeeps(c, s, rec);
    case WriteRecord(rec) => RecordEpoch(c, s); FlusherSteps.WriteRecordKeeps(c, s, rec);
    case BumpDurable(rec) => RecordEpoch(c, s); FlusherSteps.BumpDurableKeeps(c, s, rec);
    case Announce(rec) => FlusherSteps.AnnounceKeeps(c, s, rec);
    case Halted(_) =>
  }

  lemma RecordEpoch(c: Config, s: State)
    requires Inv(c, s) && Concluding(s.flusher.pc)
    ensures s.flusher.pc.rec.epoch == s.flusher.target == s.durable + 1
  {
  }

  lemma ConcludeStepKeeps(c: Config, s: State)
    requires Inv(c, s) && s.flusher.pc.Conclude?
    ensures Inv(c, DoConclude(c, s))
  {
    if s.flusher.stablePass {
      FlusherSteps.ConcludeKeeps(c, s);
    } else {
      FlusherSteps.RestKeeps(c, s, Start);
    }
  }

  lemma ClientStepKeeps(c: Config, s: State, step: Step, s': State)
    requires Inv(c, s) && Next(c, s, step, s') && OfClients(step)
    ensures Inv(c, s')
  {
    hide Inv, Shape;
    match step
    case StageStep(w, data) => WriterSteps.StageStepKeeps(c, s, w, data);
    case BeginWriteStep(w, e) => WriterSteps.BeginWriteStepKeeps(c, s, w, e);
    case WriteStep(w) => WriterSteps.WriteStepKeeps(c, s, w);
    case TagStep(w, i, e, v0, v1) => WriterSteps.TagStepKeeps(c, s, w, i, e, v0, v1);
    case TagSecondStep(w) => WriterSteps.TagSecondStepKeeps(c, s, w);
    case BeginCheckStep(w) => WriterSteps.BeginCheckStepKeeps(c, s, w);
    case CheckFrameStep(w) => WriterSteps.CheckFrameStepKeeps(c, s, w);
    case AdvanceLoadStep(t) => WriterSteps.AdvanceLoadStepKeeps(c, s, t);
    case AdvanceCasStep(t) => WriterSteps.AdvanceCasStepKeeps(c, s, t);
  }

  /** The steps of writers and of advance calls. */
  predicate OfClients(step: Step) {
    || step.StageStep? || step.BeginWriteStep? || step.WriteStep? || step.TagStep? || step.TagSecondStep?
    || step.BeginCheckStep? || step.CheckFrameStep? || step.AdvanceLoadStep? || step.AdvanceCasStep?
  }

  /** One step. */
  lemma StepKeeps(c: Config, s: State, step: Step, s': State)
    requires Inv(c, s) && Next(c, s, step, s') && Admissible(c, s, step)
    ensures Inv(c, s')
  {
    hide Inv, DoFlush, DoSync, DoRestart, DoRead;
    if OfClients(step) {
      ClientStepKeeps(c, s, step, s');
      return;
    }
    match step
    case FlushStep => FlushStepKeeps(c, s);
    case FlushFailStep => FlusherSteps.FailKeeps(c, s);
    case FlushHaltStep => FlusherSteps.RestKeeps(c, s, Halted(NoTurn));
    case BreakStep => FlusherSteps.NextWriterKeeps(c, s, Conclude);
    case SyncStep => FsyncerSteps.SyncStepKeeps(c, s);
    case SyncFailStep(partial) => FsyncerSteps.SyncFailStepKeeps(c, s, partial);
    case SyncStopStep => FsyncerSteps.SyncStopStepKeeps(c, s);
    case OpenStep(k, dsid) => FsyncerSteps.OpenStepKeeps(c, s, k, dsid);
    case ReadStep(k) => FsyncerSteps.ReadStepKeeps(c, s, k);
    case ReleaseStep(k) => FsyncerSteps.ReleaseStepKeeps(c, s, k);
    case EvictStep(j, k) => FsyncerSteps.EvictStepKeeps(c, s, j, k);
    case RestartStep(buffers) => RestartSteps.RestartKeeps(c, s, buffers);
  }

  // ================================================================ runs

  ghost predicate IsInitial(c: Config, s: State) {
    && c.Valid()
    && exists buffers: seq<seq<byte>> ::
         && |buffers| == c.writerCount
         && (forall w | 0 <= w < |buffers| :: |buffers[w]| == c.bufferSize)
         && s == Init(c, buffers)
  }

  ghost predicate Allowed(c: Config, s: State, step: Step, s': State) {
    && c.Valid() && RingShape(c, s.ring) && |s.store.page| == c.pageCap
    && Next(c, s, step, s') && Admissible(c, s, step)
  }

  /** A run from a new log: any interleaving of all threads, with any number of crashes. */
  ghost predicate IsRun(c: Config, states: seq<State>, steps: seq<Step>) {
    && |states| == |steps| + 1
    && IsInitial(c, states[0])
    && forall i | 0 <= i < |steps| :: Allowed(c, states[i], steps[i], states[i + 1])
  }

  /** The invariant holds throughout every run. */
  lemma {:induction false} RunKeeps(c: Config, states: seq<State>, steps: seq<Step>, i: nat)
    requires IsRun(c, states, steps) && i < |states|
    ensures Inv(c, states[i])
    decreases i
  {
    hide Inv, Next, Admissible, RingShape;
    if i == 0 {
      var buffers: seq<seq<byte>> :| && |buffers| == c.writerCount
                                     && (forall w | 0 <= w < |buffers| :: |buffers[w]| == c.bufferSize)
                                     && states[0] == Init(c, buffers);
      RestartSteps.InitKeeps(c, buffers);
    } else {
      RunKeeps(c, states, steps, i - 1);
      assert Allowed(c, states[i - 1], steps[i - 1], states[i]);
      StepKeeps(c, states[i - 1], steps[i - 1], states[i]);
    }
  }
}
