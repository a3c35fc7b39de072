/** What the pipeline guarantees in every state of every run. */
module PipelineTheorems {
  import opened Base
  import opened Circular
  import opened LogStream
  import opened Restart
  import opened Pipeline
  import opened WriterInvariant
  import opened RingInvariant
  import opened LogInvariant
  import opened EpochRanges
  import opened CursorInvariant
  import opened StoreInvariant
  import opened PipelineInvariant
  import opened PipelineRuns
  import RestartSteps
  import FlusherSteps
  import MdsCrash
  import MdsLayout

  // ================================================================ durability

  /** Byte `o` of segment `d` survives a power failure at this moment: it is in the segment's
      file, or on the media of the slot that still carries the segment. */
  predicate Safe(c: Config, r: Ring, d: nat, o: nat, data: byte)
    requires c.Valid() && RingShape(c, r) && d >= 1
  {
    if d <= r.lastSynced then d in r.disk && o < |r.disk[d]| && r.disk[d][o] == data
    else
      var x := r.slots[SlotOf(c.segmentCount, d)];
      x.dsid == d && o < |x.media| && x.media[o] == data
  }

  ghost predicate InLog(segs: seq<seq<Entry>>, d: nat, o: nat) {
    1 <= d <= |segs| && o < |segs[d - 1]|
  }

  ghost predicate Shaped(c: Config, s: State) {
    c.Valid() && RingShape(c, s.ring) && |s.prior| == |s.writers| && |s.store.page| == c.pageCap
  }

  /** The metadata store returns a record of epoch `e`; everything of the epoch is in the log exactly
      as submitted, lies in the range of that record and nowhere else, and every byte of it is safe. */
  ghost predicate EpochIsDurable(c: Config, s: State, e: nat)
    requires Shaped(c, s)
  {
    && e in s.mds && Stored(c, s.store, e) == s.mds[e] && s.mds[e].epoch == e
    && (forall w | 0 <= w < |s.writers| ::
          OfEpoch(OfWriter(Flat(s.segs), w), e) == OfEpoch(s.prior[w] + s.writers[w].submitted, e))
    && (forall d: nat, o: nat | InLog(s.segs, d, o) :: EpochAt(s.segs, d, o) == e <==> InRange(s.mds[e], d, o))
    && (forall d: nat, o: nat | InLog(s.segs, d, o) && EpochAt(s.segs, d, o) == e ::
          Safe(c, s.ring, d, o, s.segs[d - 1][o].data))
  }

  lemma BytesAreSafe(c: Config, r: Ring, turn: Turn, f: Fsyncer, segs: seq<seq<Entry>>, mds: map<nat, Record>, n: nat,
                     headDsid: nat, headOff: nat, d: nat, o: nat)
    requires RingOk(c, r, turn, f) && LogOk(c, r, f, segs, mds, n, headDsid, headOff, 0)
    requires InLog(segs, d, o) && EpochAt(segs, d, o) <= n
    ensures Safe(c, r, d, o, segs[d - 1][o].data)
  {
    hide SlotOk, TurnOk, SyncOk, Tiled, DiskPending;
    if d <= r.lastSynced {
      assert OnDiskOk(r, segs, d);
    } else {
      InRing(c, r, turn, f, d);
      assert Due(r, segs, headDsid, headOff, SlotOf(c.segmentCount, d), o);
    }
  }

  lemma UnflushedIsLater(c: Config, w: nat, x: Writer, d: nat)
    requires WriterOk(c, w, x, d)
    ensures x.flushed <= |x.submitted|
    ensures SortedByEpoch(x.Unflushed()) && forall k | 0 <= k < |x.Unflushed()| :: x.Unflushed()[k].epoch > d
  {
    hide FramesOk, OrderOk, PcOk, BufferOk;
    var u := x.Unflushed();
    assert forall k | 0 <= k < |u| :: u[k] == x.submitted[x.flushed + k];
  }

  /** Nothing of a durable epoch is still in a writer's buffer. */
  lemma NothingLeftBehind(c: Config, s: State, w: nat)
    requires Inv(c, s) && w < |s.writers|
    ensures s.writers[w].flushed <= |s.writers[w].submitted|
    ensures forall k | 0 <= k < |s.writers[w].Unflushed()| :: s.writers[w].Unflushed()[k].epoch > s.cbDurable
  {
    hide RingOk, ReadersOk, StreamOk, StoreOk, LogOk, WriterOk, ConcludeOk, PassOk, CopiedOk, RingShape, WriterShape;
    var x := s.writers[w];
    UnflushedIsLater(c, w, x, s.durable);
    if s.flusher.pc.Announce? {
      FlusherSteps.PassDone(c, s.flusher, s.flusher.(pc := Start), w, x);
      UpToIsBoundary(x.Unflushed(), s.durable + 1);
    }
  }

  lemma SubmittedIsLogged(c: Config, s: State, w: nat, e: nat)
    requires Inv(c, s) && w < |s.writers| && 1 <= e <= s.cbDurable
    ensures w < |s.prior|
    ensures OfEpoch(OfWriter(Flat(s.segs), w), e) == OfEpoch(s.prior[w] + s.writers[w].submitted, e)
  {
    hide RingOk, ReadersOk, LogOk, StoreOk, WriterOk, ConcludeOk, FlushOk, EpochsOk;
    var x := s.writers[w];
    NothingLeftBehind(c, s, w);
    var done, left := s.prior[w] + x.submitted[..x.flushed], x.Unflushed();
    assert s.prior[w] + x.submitted == done + left;
    OfEpochConcat(done, left, e);
    OfEpochNone(left, e);
  }

  /** The durability guarantee, for every state of every run. */
  lemma Durability(c: Config, states: seq<State>, steps: seq<Step>, i: nat, e: nat)
    requires IsRun(c, states, steps) && i < |states| && 1 <= e <= states[i].cbDurable
    ensures Shaped(c, states[i]) && EpochIsDurable(c, states[i], e)
  {
    hide Inv, IsRun;
    RunKeeps(c, states, steps, i);
    DurabilityHere(c, states[i], e);
  }

  lemma DurabilityHere(c: Config, s: State, e: nat)
    requires Inv(c, s) && 1 <= e <= s.cbDurable
    ensures Shaped(c, s) && EpochIsDurable(c, s, e)
  {
    hide RingOk, ReadersOk, WriterOk, ConcludeOk, FlushOk, EpochsOk, StreamOk, Safe, LogOk, StoreOk;
    RestartSteps.RestartPoint(c, s);
    var headDsid, headOff := EndSeg(s.mds, s.cbDurable), EndOff(s.mds, s.cbDurable);
    RecordOf(c, s.ring, s.fsyncer, s.segs, s.mds, s.cbDurable, headDsid, headOff, e);
    StoreReturns(c, s.store, s.cbDurable, s.mds, s.flusher.pc, e);
    forall w | 0 <= w < |s.writers|
      ensures OfEpoch(OfWriter(Flat(s.segs), w), e) == OfEpoch(s.prior[w] + s.writers[w].submitted, e)
    {
      SubmittedIsLogged(c, s, w, e);
    }
    forall d: nat, o: nat | InLog(s.segs, d, o) && EpochAt(s.segs, d, o) == e
      ensures Safe(c, s.ring, d, o, s.segs[d - 1][o].data)
    {
      BytesAreSafe(c, s.ring, TurnOf(s.flusher.pc), s.fsyncer, s.segs, s.mds, s.cbDurable, headDsid, headOff, d, o);
    }
  }

  lemma RecordOf(c: Config, r: Ring, f: Fsyncer, segs: seq<seq<Entry>>, mds: map<nat, Record>, n: nat,
                 headDsid: nat, headOff: nat, e: nat)
    requires LogOk(c, r, f, segs, mds, n, headDsid, headOff, 0) && 1 <= e <= n
    ensures e in mds && mds[e].epoch == e && RangeOk(c.segmentSize, segs, mds[e]) && Chained(mds, e)
    ensures forall d: nat, o: nat | InLog(segs, d, o) :: EpochAt(segs, d, o) == e <==> InRange(mds[e], d, o)
  {
    assert RecordOk(c.segmentSize, segs, mds, e) && Chained(mds, e);
  }

  /** Consecutive ranges share their boundary and never end past a segment. */
  lemma RangesTile(c: Config, states: seq<State>, steps: seq<Step>, i: nat, e: nat)
    requires IsRun(c, states, steps) && i < |states| && 1 <= e < states[i].cbDurable
    ensures var mds := states[i].mds;
            && e in mds && e + 1 in mds
            && mds[e].toSeg == mds[e + 1].fromSeg && mds[e].toOff == mds[e + 1].fromOff
            && mds[e].toOff < c.segmentSize && mds[e + 1].toOff < c.segmentSize
            && !Before(mds[e + 1].toSeg, mds[e + 1].toOff, mds[e].toSeg, mds[e].toOff)
  {
    hide Inv, IsRun, LogOk, StoreOk;
    RunKeeps(c, states, steps, i);
    var s := states[i];
    RestartSteps.RestartPoint(c, s);
    RecordOf(c, s.ring, s.fsyncer, s.segs, s.mds, s.cbDurable, EndSeg(s.mds, s.cbDurable), EndOff(s.mds, s.cbDurable),
             e);
    RecordOf(c, s.ring, s.fsyncer, s.segs, s.mds, s.cbDurable, EndSeg(s.mds, s.cbDurable), EndOff(s.mds, s.cbDurable),
             e + 1);
  }

  // ================================================================ durable means for good

  /** A step leaves the durable epochs alone: their entries, their order and their records. */
  ghost predicate Untouched(s: State, s': State, e: nat) {
    && OfEpoch(Flat(s'.segs), e) == OfEpoch(Flat(s.segs), e)
    && e in s.mds && e in s'.mds && s'.mds[e] == s.mds[e]
  }

  /** The part of the log a crash cuts off belongs to epochs after the durable one. */
  lemma CrashKeepsDurablePrefix(c: Config, s: State, buffers: seq<seq<byte>>)
    requires Inv(c, s) && CanRestart(c, s, buffers)
    ensures var s' := DoRestart(c, s, buffers);
            var kept, all := Flat(s'.segs), Flat(s.segs);
            && kept <= all
            && (forall i | 0 <= i < |kept| :: kept[i].epoch <= s.cbDurable)
            && (forall i | |kept| <= i < |all| :: all[i].epoch > s.cbDurable)
  {
    hide RingOk, ReadersOk, WriterOk, ConcludeOk, FlushOk, EpochsOk, StreamOk, LogOk, StoreOk;
    RestartSteps.RestartPoint(c, s);
    if s.cbDurable > 0 { LatestSurvives(c, s); }
    CutAtHead(c, s.ring, s.fsyncer, s.segs, s.mds, s.cbDurable, DoRestart(c, s, buffers).segs);
  }

  lemma CutAtHead(c: Config, r: Ring, f: Fsyncer, segs: seq<seq<Entry>>, mds: map<nat, Record>, n: nat,
                  segs': seq<seq<Entry>>)
    requires LogOk(c, r, f, segs, mds, n, EndSeg(mds, n), EndOff(mds, n), 0)
    requires n > 0 ==> n in mds && 1 <= mds[n].toSeg <= |segs| && mds[n].toOff <= |segs[mds[n].toSeg - 1]|
    requires segs' == if n == 0 then [[]] else Truncated(segs, mds[n])
    ensures var kept, all := Flat(segs'), Flat(segs);
            && kept <= all
            && (forall i | 0 <= i < |kept| :: kept[i].epoch <= n)
            && (forall i | |kept| <= i < |all| :: all[i].epoch > n)
  {
    hide VisibleOk, DiskPending, MediaOk, Tiled, HeadOk, Flat;
    var k, o := EndSeg(mds, n) - 1, EndOff(mds, n);
    assert segs' == segs[..k] + [segs[k][..o]];
    CutAt(segs, n, k, o);
  }

  lemma CutAt(segs: seq<seq<Entry>>, n: nat, k: nat, o: nat)
    requires k < |segs| && o <= |segs[k]| && HeadOk(segs, n, k + 1, o)
    ensures var kept, all := Flat(segs[..k] + [segs[k][..o]]), Flat(segs);
            && kept <= all
            && (forall i | 0 <= i < |kept| :: kept[i].epoch <= n)
            && (forall i | |kept| <= i < |all| :: all[i].epoch > n)
  {
    hide Flat;
    var kept: seq<seq<Entry>> := segs[..k] + [segs[k][..o]];
    var rest: seq<seq<Entry>> := [segs[k][o..]] + segs[k + 1..];
    FlatCut(segs, k, o);
    forall d: nat, i: nat | d < |kept| && i < |kept[d]| ensures 0 <= kept[d][i].epoch <= n {
      assert EpochAt(segs, d + 1, i) <= n;
    }
    EveryEntry(kept, 0, n);
    forall d: nat, i: nat | d < |rest| && i < |rest[d]| ensures n + 1 <= rest[d][i].epoch <= n + 1 {
      var at := if d == 0 then i + o else i;
      assert EpochAt(segs, k + 1 + d, at) == rest[d][i].epoch;
    }
    EveryEntry(rest, n + 1, n + 1);
  }

  /** Cutting a log in two. */
  lemma FlatCut(segs: seq<seq<Entry>>, k: nat, o: nat)
    requires k < |segs| && o <= |segs[k]|
    ensures Flat(segs) == Flat(segs[..k] + [segs[k][..o]]) + Flat([segs[k][o..]] + segs[k + 1..])
  {
    hide Flat;
    FlatSnoc(segs[..k], segs[k][..o]);
    FlatConcat([segs[k][o..]], segs[k + 1..]);
    FlatConcat(segs[..k], [segs[k]] + segs[k + 1..]);
    FlatConcat([segs[k]], segs[k + 1..]);
    assert segs == segs[..k] + ([segs[k]] + segs[k + 1..]);
    FlatSnoc([], segs[k]);
    FlatSnoc([], segs[k][o..]);
    FlatNothing();
    assert [] + [segs[k]] == [segs[k]] && [] + [segs[k][o..]] == [segs[k][o..]];
    assert segs[k] == segs[k][..o] + segs[k][o..];
  }

  lemma FlatNothing()
    ensures Flat<Entry>([]) == []
  {
  }

  lemma {:induction false} FlatConcat(a: seq<seq<Entry>>, b: seq<seq<Entry>>)
    ensures Flat(a + b) == Flat(a) + Flat(b)
    decreases |b|
  {
    if |b| == 0 {
      assert a + b == a;
    } else {
      assert (a + b)[..|a + b| - 1] == a + b[..|b| - 1];
      FlatConcat(a, b[..|b| - 1]);
    }
  }

  lemma {:induction false} EveryEntry(segs: seq<seq<Entry>>, low: nat, high: nat)
    requires forall d: nat, i: nat | d < |segs| && i < |segs[d]| :: low <= segs[d][i].epoch <= high
    ensures forall i | 0 <= i < |Flat(segs)| :: low <= Flat(segs)[i].epoch <= high
    decreases |segs|
  {
    if |segs| == 0 {
    } else {
      EveryEntry(segs[..|segs| - 1], low, high);
    }
  }

  lemma LaterEntriesDoNotMatter(a: seq<Entry>, b: seq<Entry>, n: nat, e: nat)
    requires a <= b && e <= n && forall i | |a| <= i < |b| :: b[i].epoch > n
    ensures OfEpoch(b, e) == OfEpoch(a, e)
  {
    assert b == a + b[|a|..];
    OfEpochConcat(a, b[|a|..], e);
    OfEpochNone(b[|a|..], e);
  }

  /** Steps that change neither log nor metadata. */
  predicate TouchesLog(s: State, step: Step) {
    || step.RestartStep?
    || (step.FlushStep? && var pc := s.flusher.pc; pc.Advance? || pc.Turning? || pc.WriteRecord? || pc.BumpDurable?)
  }

  lemma OtherStepsKeepLog(c: Config, s: State, step: Step, s': State)
    requires c.Valid() && Next(c, s, step, s') && !TouchesLog(s, step)
    ensures SameLog(s, s')
  {
    if step.FlushStep? {
      OtherFlushesKeepLog(c, s);
    } else if OfClients(step) {
      hide DoStage, DoBeginWrite, DoWrite, DoTag, DoTagSecond, DoBeginCheck, DoCheckFrame;
      ClientsKeepLog(c, s, step, s');
    } else {
      hide Shape, DoFlush, DoRestart, DoStage, DoBeginWrite, DoWrite, DoTag, DoTagSecond, DoBeginCheck, DoCheckFrame,
           Synced, SlotOf;
    }
  }

  lemma ClientsKeepLog(c: Config, s: State, step: Step, s': State)
    requires Next(c, s, step, s') && OfClients(step)
    ensures SameLog(s, s')
  {
    hide Shape, CheckedFrame, StoredNext, Began, CircularWrite;
  }

  /** The log, the records and the durable epoch in the control block stay. */
  predicate SameLog(s: State, s': State) {
    s'.segs == s.segs && s'.mds == s.mds && s'.cbDurable == s.cbDurable
  }

  lemma OtherFlushesKeepLog(c: Config, s: State)
    requires CanFlush(c, s) && !TouchesLog(s, FlushStep)
    ensures SameLog(s, DoFlush(c, s))
  {
    hide Shape, NewRecord, Distance, DoCopy, DoPersist, DoAllocPage, MdsLayout.PageNo;
    match s.flusher.pc
    case Copy(w, i, head, dist) => CopyKeepsLog(c, s, w, i, head, dist);
    case Persist(rec, onDisk, dsid) => PersistKeepsLog(c, s, rec, onDisk, dsid);
    case AllocPage(rec) => AllocKeepsLog(c, s, rec);
    case _ =>
  }

  lemma CopyKeepsLog(c: Config, s: State, w: nat, i: nat, head: nat, dist: nat)
    requires Shape(c, s) && s.flusher.pc == Copy(w, i, head, dist)
    ensures SameLog(s, DoCopy(c, s, w, i, head, dist))
  {
    hide Splice, CircularRead, RingShape, AdvanceShape;
  }

  lemma PersistKeepsLog(c: Config, s: State, rec: Record, onDisk: nat, dsid: nat)
    requires Shape(c, s) && s.flusher.pc == Persist(rec, onDisk, dsid)
    ensures SameLog(s, DoPersist(c, s, rec, onDisk, dsid))
  {
    hide Splice, WriterShape, AdvanceShape;
  }

  lemma AllocKeepsLog(c: Config, s: State, rec: Record)
    requires Shape(c, s) && s.flusher.pc == AllocPage(rec)
    ensures rec.epoch > 0 && SameLog(s, DoAllocPage(c, s, rec))
  {
    hide WriterShape, RingShape, AdvanceShape, MdsLayout.PageNo;
  }

  lemma AdvanceKeepsDurable(c: Config, s: State, w: nat, i: nat, head: nat, copied: nat, e: nat)
    requires Inv(c, s) && s.flusher.pc == Advance(w, i, head, copied) && 1 <= e <= s.cbDurable && e in s.mds
    ensures Untouched(s, DoAdvance(c, s, w, i, head, copied), e)
  {
    hide RingOk, ReadersOk, WriterOk, StreamOk, LogOk, StoreOk, FlushOk, ConcludeOk, Flat, OfEpoch, WriterShape;
    var x := s.writers[w];
    var more := x.submitted[x.flushed..x.flushed + copied];
    FlusherSteps.AdvanceFacts(c, s.flusher, s.writers, s.ring, s.durable);
    FlusherSteps.MovedEntries(c, w, x, s.durable, copied);
    FlatAppend(s.segs, more);
    LaterEntriesDoNotMatter(Flat(s.segs), Flat(s.segs) + more, s.durable, e);
  }

  lemma FlushKeepsDurable(c: Config, s: State, e: nat)
    requires Inv(c, s) && CanFlush(c, s) && TouchesLog(s, FlushStep) && 1 <= e <= s.cbDurable && e in s.mds
    ensures var s' := DoFlush(c, s); Untouched(s, s', e) && s.cbDurable <= s'.cbDurable <= s.cbDurable + 1
  {
    hide RingOk, ReadersOk, WritersOk, StreamOk, LogOk, StoreOk, FlushOk, Flat, OfEpoch, Turned, CanTurn, RingShape,
         WriterShape, AdvanceShape;
    match s.flusher.pc
    case Advance(w, i, head, copied) => AdvanceKeepsDurable(c, s, w, i, head, copied, e);
    case Turning(w, i, turn) => FlatNewSegment(s.segs);
    case _ =>
  }

  lemma RestartKeepsDurable(c: Config, s: State, buffers: seq<seq<byte>>, e: nat)
    requires Inv(c, s) && CanRestart(c, s, buffers) && Admissible(c, s, RestartStep(buffers))
    requires 1 <= e <= s.cbDurable && e in s.mds
    ensures Untouched(s, DoRestart(c, s, buffers), e)
  {
    hide Inv, Shape, Stored, MdsCrash.Sound;
    RecordsReadBack(c, s, buffers);
    CrashKeepsDurablePrefix(c, s, buffers);
    LaterEntriesDoNotMatter(Flat(DoRestart(c, s, buffers).segs), Flat(s.segs), s.cbDurable, e);
  }

  lemma RecordsReadBack(c: Config, s: State, buffers: seq<seq<byte>>)
    requires Inv(c, s) && CanRestart(c, s, buffers) && Admissible(c, s, RestartStep(buffers))
    ensures forall e | 1 <= e <= s.cbDurable :: e in s.mds && DoRestart(c, s, buffers).mds[e] == s.mds[e]
  {
    hide RingOk, LogOk, StoreOk, WriterOk, ReadersOk, StreamOk, FlushOk, ConcludeOk, ReopenedRing, Stored,
         MdsCrash.Sound;
    RestartSteps.ReopenedRecords(c, s, DoRestart(c, s, buffers).mds);
  }

  lemma StepKeepsDurable(c: Config, s: State, step: Step, s': State, e: nat)
    requires Inv(c, s) && Next(c, s, step, s') && 1 <= e <= s.cbDurable
    requires step.RestartStep? ==> Admissible(c, s, step)
    ensures Untouched(s, s', e) && s.cbDurable <= s'.cbDurable
  {
    hide Inv, OfEpoch, Flat, DoFlush;
    DurabilityHere(c, s, e);
    if TouchesLog(s, step) {
      match step
      case FlushStep => FlushKeepsDurable(c, s, e);
      case RestartStep(buffers) => RestartKeepsDurable(c, s, buffers, e);
    } else {
      assert c.Valid() by { ConfigOk(c, s); }
      OtherStepsKeepLog(c, s, step, s');
    }
  }

  lemma ConfigOk(c: Config, s: State)
    requires Inv(c, s)
    ensures c.Valid()
  {
  }

  /** Once durable, an epoch keeps its entries, their order and the record the metadata store returns
      for it for the rest of the run, whatever else happens, crashes included. */
  lemma {:induction false} DurableForGood(c: Config, states: seq<State>, steps: seq<Step>, i: nat, j: nat, e: nat)
    requires IsRun(c, states, steps) && i <= j < |states| && 1 <= e <= states[i].cbDurable
    ensures Untouched(states[i], states[j], e) && e <= states[i].cbDurable <= states[j].cbDurable
    ensures Shaped(c, states[j]) && Stored(c, states[j].store, e) == states[i].mds[e]
    decreases j
  {
    hide Inv, OfEpoch, Flat, Next, Admissible, Stored, RingShape;
    if i == j {
    } else {
      DurableForGood(c, states, steps, i, j - 1, e);
      RunKeeps(c, states, steps, j - 1);
      assert Allowed(c, states[j - 1], steps[j - 1], states[j]);
      StepKeepsDurable(c, states[j - 1], steps[j - 1], states[j], e);
    }
    RunKeeps(c, states, steps, j);
    RecordIsThere(c, states[j], e);
  }

  lemma RecordIsThere(c: Config, s: State, e: nat)
    requires Inv(c, s) && 1 <= e <= s.cbDurable
    ensures e in s.mds && Shaped(c, s) && Stored(c, s.store, e) == s.mds[e]
  {
    hide Inv;
    DurabilityHere(c, s, e);
  }

  /** Every record comes from the flusher concluding that epoch, at one point of the run. */
  lemma {:induction false} WasConcluded(c: Config, states: seq<State>, steps: seq<Step>, j: nat,
                                        e: nat) returns (i: nat)
    requires IsRun(c, states, steps) && j < |states| && 1 <= e <= states[j].cbDurable
    ensures i < j && states[i].flusher.pc.BumpDurable? && e == states[i].flusher.pc.rec.epoch == states[i].durable + 1
    ensures e in states[j].mds && states[j].mds[e] == states[i].flusher.pc.rec
    decreases j
  {
    hide Inv, OfEpoch, Flat, Next, Admissible, RingShape;
    if j == 0 {
      assert false;
    } else {
      var s, s' := states[j - 1], states[j];
      RunKeeps(c, states, steps, j - 1);
      assert Allowed(c, s, steps[j - 1], s');
      if e <= s.cbDurable {
        i := WasConcluded(c, states, steps, j - 1, e);
        StepKeepsDurable(c, s, steps[j - 1], s', e);
      } else {
        i := j - 1;
        BecomesDurable(c, s, steps[j - 1], s');
      }
    }
  }

  /** The one step that makes an epoch durable. */
  lemma BecomesDurable(c: Config, s: State, step: Step, s': State)
    requires Inv(c, s) && Next(c, s, step, s') && s.cbDurable < s'.cbDurable
    ensures s.flusher.pc.BumpDurable? && s'.cbDurable == s.flusher.pc.rec.epoch == s.durable + 1 == s.cbDurable + 1
    ensures s'.cbDurable in s'.mds && s'.mds[s'.cbDurable] == s.flusher.pc.rec
  {
    hide RingOk, ReadersOk, WritersOk, StreamOk, StoreOk, LogOk, FlushOk, RingShape, WriterShape, AdvanceShape, Turned,
         CanTurn, DoRestart, OfEpoch, Flat;
    if TouchesLog(s, step) {
      if step.RestartStep? { RestartDurable(c, s, step.buffers); }
    } else {
      OtherStepsKeepLog(c, s, step, s');
    }
  }

  lemma RestartDurable(c: Config, s: State, buffers: seq<seq<byte>>)
    requires CanRestart(c, s, buffers)
    ensures DoRestart(c, s, buffers).cbDurable == s.cbDurable
  {
    hide Shape, Stored, Truncated, ReopenedRing, NewRing, Flat, OfWriter;
  }
}
