/** Failing writes of the fsyncer: the flusher learns of each one it would have to wait for, and gives
    up for no other reason. */
module SyncFailures {
  import opened Base
  import opened Circular
  import opened Restart
  import opened Pipeline
  import opened WriterInvariant
  import opened RingInvariant
  import opened LogInvariant
  import opened CursorInvariant
  import opened StoreInvariant
  import opened PipelineInvariant
  import opened PipelineRuns
  import PipelineSafety
  import MdsLayout

  /** The fsyncer failed on segment `d` in slot `j`. */
  predicate Failed(s: State, j: nat, d: nat) {
    j < |s.ring.slots| && s.ring.slots[j].error && s.ring.slots[j].dsid == d
  }

  /** Then it has stopped, and the segment is neither synced nor recycled. */
  lemma FailedSlot(c: Config, s: State, j: nat, d: nat)
    requires Inv(c, s) && Failed(s, j, d)
    ensures c.Valid() && RingShape(c, s.ring) && s.fsyncer.Stopped? && s.ring.lastSynced < d <= s.ring.cur
    ensures s.ring.slots[j].requested && !s.ring.slots[j].completed && j == SlotOf(c.segmentCount, d)
    ensures TurnOf(s.flusher.pc).Lock? || Locked(TurnOf(s.flusher.pc)) ==> j != NextSlot(c, s.ring)
  {
    hide LogOk, StoreOk, ReadersOk, StreamOk, WritersOk, FlushOk, ConcludeOk, EpochsOk, SyncOk;
    var turn := TurnOf(s.flusher.pc);
    assert SlotOk(c, s.ring, turn, s.fsyncer, j);
    NextOccupant(c, s.ring, turn, s.fsyncer);
  }

  // ================================================================ the flag stays

  /** No error flag and no number of a slot changes. */
  predicate SameErrors(r: Ring, r': Ring) {
    |r'.slots| == |r.slots|
    && forall j | 0 <= j < |r.slots| :: r'.slots[j].error == r.slots[j].error && r'.slots[j].dsid == r.slots[j].dsid
  }

  lemma FlushErrors(c: Config, s: State)
    requires CanFlush(c, s) && !s.flusher.pc.Turning?
    ensures SameErrors(s.ring, DoFlush(c, s).ring)
  {
    hide Shape, DoCopy, DoAdvance, DoPersist, NewRecord, MdsLayout.PageNo, MdsLayout.RecordSlot;
    match s.flusher.pc
    case Copy(w, i, head, dist) => CopyErrors(c, s, w, i, head, dist);
    case Advance(w, i, head, copied) => AdvanceErrors(c, s, w, i, head, copied);
    case Persist(rec, onDisk, dsid) => PersistErrors(c, s, rec, onDisk, dsid);
    case _ =>
  }

  lemma CopyErrors(c: Config, s: State, w: nat, i: nat, head: nat, dist: nat)
    requires Shape(c, s) && s.flusher.pc == Copy(w, i, head, dist)
    ensures SameErrors(s.ring, DoCopy(c, s, w, i, head, dist).ring)
  {
    hide CircularRead, Splice, AdvanceShape;
  }

  lemma AdvanceErrors(c: Config, s: State, w: nat, i: nat, head: nat, copied: nat)
    requires Shape(c, s) && s.flusher.pc == Advance(w, i, head, copied)
    ensures SameErrors(s.ring, DoAdvance(c, s, w, i, head, copied).ring)
  {
  }

  lemma PersistErrors(c: Config, s: State, rec: Record, onDisk: nat, dsid: nat)
    requires Shape(c, s) && s.flusher.pc == Persist(rec, onDisk, dsid)
    ensures SameErrors(s.ring, DoPersist(c, s, rec, onDisk, dsid).ring)
  {
    hide Splice, WriterShape, AdvanceShape;
  }

  /** A turn touches error flag and number of the next slot only, and only under the lock. */
  lemma TurnErrors(c: Config, r: Ring, turn: Turn, j: nat)
    requires c.Valid() && RingShape(c, r) && j < |r.slots| && (Locked(turn) ==> j != NextSlot(c, r))
    ensures var r' := Turned(c, r, turn).0;
            |r'.slots| == |r.slots| && r'.slots[j].error == r.slots[j].error && r'.slots[j].dsid == r.slots[j].dsid
  {
    hide SlotOf;
  }

  lemma OtherErrors(c: Config, s: State, step: Step, s': State)
    requires Next(c, s, step, s')
    requires !step.FlushStep? && !step.SyncStep? && !step.SyncFailStep? && !step.RestartStep?
    ensures SameErrors(s.ring, s'.ring)
  {
    if OfClients(step) {
      hide DoStage, DoBeginWrite, DoWrite, DoTag, DoTagSecond, DoBeginCheck, DoCheckFrame;
      PipelineSafety.ClientFrame(c, s, step, s');
    } else {
      hide WriterShape, FlusherShape, AdvanceShape, SlotOf, DoStage, DoBeginWrite, DoWrite, DoTag, DoTagSecond,
           DoBeginCheck, DoCheckFrame, DoFlush, DoRestart;
    }
  }

  lemma FailureStays(c: Config, s: State, step: Step, s': State, j: nat, d: nat)
    requires Inv(c, s) && Next(c, s, step, s') && !step.RestartStep? && Failed(s, j, d)
    ensures Failed(s', j, d)
  {
    hide Inv, DoFlush, Turned, DoSync, Shape;
    FailedSlot(c, s, j, d);
    if step.FlushStep? {
      if s.flusher.pc.Turning? {
        TurnErrors(c, s.ring, s.flusher.pc.turn, j);
        TurnedRing(c, s);
      } else {
        FlushErrors(c, s);
      }
    } else {
      OtherErrors(c, s, step, s');
    }
  }

  lemma TurnedRing(c: Config, s: State)
    requires CanFlush(c, s) && s.flusher.pc.Turning?
    ensures DoFlush(c, s).ring == Turned(c, s.ring, s.flusher.pc.turn).0
  {
    hide Shape, Turned, CanTurn;
  }

  // ================================================================ over runs

  /** The step that fails sets the flag. */
  lemma FailureIsMarked(c: Config, s: State, partial: seq<byte>)
    requires CanSyncFail(c, s)
    ensures var s' := DoSyncFail(c, s, partial);
            s.fsyncer.j < |s.ring.slots| && Failed(s', s.fsyncer.j, s.ring.slots[s.fsyncer.j].dsid)
  {
  }

  /** What the fsyncer is writing is the segment in its slot. */
  lemma WritesItsSlot(c: Config, s: State)
    requires Inv(c, s) && s.fsyncer.WriteDisk?
    ensures s.fsyncer.j < |s.ring.slots| && s.ring.slots[s.fsyncer.j].dsid == s.fsyncer.d
  {
    hide LogOk, StoreOk, ReadersOk, StreamOk, WritersOk, FlushOk, ConcludeOk, EpochsOk, SlotOk, TurnOk;
  }

  /** From the failing write of segment `d` to the next restart, whenever the flusher waits for the slot
      of `d`, it can return the error. */
  lemma {:induction false} FailureIsReported(c: Config, states: seq<State>, steps: seq<Step>, i: nat, m: nat)
    requires IsRun(c, states, steps) && i < m < |states| && steps[i].SyncFailStep?
    requires forall q | i < q < m :: !steps[q].RestartStep?
    ensures states[i].fsyncer.WriteDisk? && Failed(states[m], states[i].fsyncer.j, states[i].fsyncer.d)
    ensures c.Valid() && RingShape(c, states[m].ring)
    ensures var s := states[m];
            var waits := s.flusher.pc.Turning? && s.flusher.pc.turn.Wait? && NextSlot(c, s.ring) == states[i].fsyncer.j;
            waits ==> CanFail(c, s)
    decreases m
  {
    hide Inv, Admissible, RingShape, DoSyncFail, Next, Failed;
    RunKeeps(c, states, steps, i);
    RunKeeps(c, states, steps, m);
    assert Allowed(c, states[i], steps[i], states[i + 1]);
    FailureIsNoticed(c, states[i], steps[i].partial, states[i + 1]);
    var j, d := states[i].fsyncer.j, states[i].fsyncer.d;
    if m == i + 1 {
    } else {
      FailureIsReported(c, states, steps, i, m - 1);
      RunKeeps(c, states, steps, m - 1);
      assert Allowed(c, states[m - 1], steps[m - 1], states[m]);
      FailureStays(c, states[m - 1], steps[m - 1], states[m], j, d);
    }
    FailedWait(c, states[m], j, d);
  }

  lemma FailureIsNoticed(c: Config, s: State, partial: seq<byte>, s': State)
    requires Inv(c, s) && Next(c, s, SyncFailStep(partial), s')
    ensures s.fsyncer.WriteDisk? && Failed(s', s.fsyncer.j, s.fsyncer.d)
  {
    hide Inv, DoSyncFail;
    FailureIsMarked(c, s, partial);
    WritesItsSlot(c, s);
  }

  lemma FailedWait(c: Config, s: State, j: nat, d: nat)
    requires Inv(c, s) && Failed(s, j, d)
    ensures c.Valid() && RingShape(c, s.ring)
    ensures var waits := s.flusher.pc.Turning? && s.flusher.pc.turn.Wait? && NextSlot(c, s.ring) == j;
            waits ==> CanFail(c, s)
  {
    hide Inv, Shape, SlotOf;
    FailedSlot(c, s, j, d);
    ShapeHere(c, s);
  }

  lemma ShapeHere(c: Config, s: State)
    requires Inv(c, s)
    ensures Shape(c, s)
  {
  }

  /** A flag that is set was set by a failing write of that segment. */
  lemma {:induction false} FailureWasReal(c: Config, states: seq<State>, steps: seq<Step>, m: nat, j: nat, d: nat)
    returns (i: nat)
    requires IsRun(c, states, steps) && m < |states| && Failed(states[m], j, d)
    ensures i < m && steps[i].SyncFailStep? && states[i].fsyncer == WriteDisk(j, d)
    decreases m
  {
    hide Inv, Admissible, RingShape, Next;
    if m == 0 {
      NoErrorAtFirst(c, states[0], j, d);
      assert false;
    } else {
      var s, step, s' := states[m - 1], steps[m - 1], states[m];
      RunKeeps(c, states, steps, m - 1);
      assert Allowed(c, s, step, s');
      if Failed(s, j, d) {
        i := FailureWasReal(c, states, steps, m - 1, j, d);
      } else {
        i := m - 1;
        FailureIsNew(c, s, step, s', j, d);
      }
    }
  }

  lemma NoErrorAtFirst(c: Config, s: State, j: nat, d: nat)
    requires IsInitial(c, s)
    ensures !Failed(s, j, d)
  {
  }

  /** Only a failing write sets a flag. */
  lemma FailureIsNew(c: Config, s: State, step: Step, s': State, j: nat, d: nat)
    requires Inv(c, s) && Next(c, s, step, s') && !Failed(s, j, d) && Failed(s', j, d)
    ensures step.SyncFailStep? && s.fsyncer == WriteDisk(j, d)
  {
    hide Inv, DoFlush, DoSync, DoRestart, DoSyncFail, Shape;
    if step.FlushStep? {
      if s.flusher.pc.Turning? { TurnSetsNone(c, s, j, d); } else { FlushErrors(c, s); }
    } else if step.SyncStep? {
      SyncSetsNone(c, s, j, d);
    } else if step.SyncFailStep? {
      FailSetsOne(c, s, step.partial, j, d);
      WritesItsSlot(c, s);
    } else if step.RestartStep? {
      RestartClears(c, s, step.buffers, j, d);
    } else {
      OtherErrors(c, s, step, s');
    }
  }

  lemma TurnSetsNone(c: Config, s: State, j: nat, d: nat)
    requires Inv(c, s) && CanFlush(c, s) && s.flusher.pc.Turning? && Failed(DoFlush(c, s), j, d)
    ensures Failed(s, j, d)
  {
    hide LogOk, StoreOk, ReadersOk, StreamOk, WritersOk, FlushOk, ConcludeOk, EpochsOk, SyncOk, SlotOf, CanTurn;
    var turn := s.flusher.pc.turn;
    assert SlotOk(c, s.ring, turn, s.fsyncer, NextSlot(c, s.ring));
    NextOccupant(c, s.ring, turn, s.fsyncer);
  }

  lemma SyncSetsNone(c: Config, s: State, j: nat, d: nat)
    requires CanSync(c, s) && Failed(DoSync(c, s), j, d)
    ensures Failed(s, j, d)
  {
    hide WriterShape, FlusherShape, AdvanceShape;
  }

  lemma FailSetsOne(c: Config, s: State, partial: seq<byte>, j: nat, d: nat)
    requires CanSyncFail(c, s) && !Failed(s, j, d) && Failed(DoSyncFail(c, s, partial), j, d)
    ensures s.fsyncer.j == j < |s.ring.slots| && s.ring.slots[j].dsid == d
  {
    hide WriterShape, FlusherShape, AdvanceShape;
  }

  lemma RestartClears(c: Config, s: State, buffers: seq<seq<byte>>, j: nat, d: nat)
    requires CanRestart(c, s, buffers)
    ensures !Failed(DoRestart(c, s, buffers), j, d)
  {
    hide Shape, Stored, Truncated, RestartDsid;
  }

  /** The flusher gives up while it waits only if the fsyncer failed on the segment in the slot. */
  lemma {:induction false} GivesUpOnlyThen(c: Config, states: seq<State>, steps: seq<Step>, m: nat)
    returns (d: nat, i: nat)
    requires IsRun(c, states, steps) && m < |states| && states[m].flusher.pc == Halted(Wait)
    ensures c.Valid() && RingShape(c, states[m].ring) && Failed(states[m], NextSlot(c, states[m].ring), d)
    ensures i < m && steps[i].SyncFailStep? && states[i].fsyncer == WriteDisk(NextSlot(c, states[m].ring), d)
  {
    hide Inv, Admissible, Next, IsRun;
    RunKeeps(c, states, steps, m);
    ShapeHere(c, states[m]);
    assert Gone(c, states[m]) by { StaysGone(c, states, steps, m); }
    d := states[m].ring.slots[NextSlot(c, states[m].ring)].dsid;
    i := FailureWasReal(c, states, steps, m, NextSlot(c, states[m].ring), d);
  }

  /** The slot the flusher gave up waiting for has its error flag set. */
  ghost predicate Gone(c: Config, s: State) {
    && c.Valid() && RingShape(c, s.ring)
    && (s.flusher.pc == Halted(Wait) ==> s.ring.slots[NextSlot(c, s.ring)].error)
  }

  lemma {:induction false} StaysGone(c: Config, states: seq<State>, steps: seq<Step>, m: nat)
    requires IsRun(c, states, steps) && m < |states|
    ensures Gone(c, states[m])
    decreases m
  {
    hide Inv, Admissible, Next, RingShape;
    RunKeeps(c, states, steps, m);
    ShapeHere(c, states[m]);
    if m == 0 {
    } else {
      StaysGone(c, states, steps, m - 1);
      RunKeeps(c, states, steps, m - 1);
      assert Allowed(c, states[m - 1], steps[m - 1], states[m]);
      GoneKept(c, states[m - 1], steps[m - 1], states[m]);
    }
  }

  lemma GoneKept(c: Config, s: State, step: Step, s': State)
    requires Inv(c, s) && Next(c, s, step, s') && Gone(c, s) && RingShape(c, s'.ring)
    ensures Gone(c, s')
  {
    hide Inv, Shape, DoFlush, DoSync, DoRestart, SlotOf;
    if s'.flusher.pc == Halted(Wait) {
      HaltFrame(c, s, step, s');
      if s.flusher.pc == Halted(Wait) {
        var j := NextSlot(c, s.ring);
        FailureStays(c, s, step, s', j, s.ring.slots[j].dsid);
      }
    }
  }

  /** A halted flusher stays where it is, and gives up only where it may. */
  lemma HaltFrame(c: Config, s: State, step: Step, s': State)
    requires Inv(c, s) && Next(c, s, step, s') && s'.flusher.pc == Halted(Wait)
    ensures !step.RestartStep? && s'.ring.cur == s.ring.cur
    ensures s.flusher.pc == Halted(Wait) || (step.FlushFailStep? && s'.ring == s.ring)
  {
    hide Inv, Shape, DoFlush, DoRestart, Synced;
    if step.FlushStep? {
      NeverHaltsSo(c, s);
      assert false;
    } else if step.RestartStep? {
      NeverRestartsSo(c, s, step.buffers);
      assert false;
    } else if OfClients(step) {
      ClientsDoNotHalt(c, s, step, s');
    } else if step.SyncStep? {
      SyncKeepsCur(c, s);
    }
  }

  lemma NeverHaltsSo(c: Config, s: State)
    requires CanFlush(c, s)
    ensures DoFlush(c, s).flusher.pc != Halted(Wait)
  {
    hide Shape, Turned, CanTurn, NewRecord, Distance, Splice, Flushed, CircularRead, MdsLayout.PageNo,
         MdsLayout.RecordSlot;
    match s.flusher.pc
    case Persist(_, _, _) =>
    case Turning(_, _, _) =>
    case _ =>
  }

  lemma NeverRestartsSo(c: Config, s: State, buffers: seq<seq<byte>>)
    requires CanRestart(c, s, buffers)
    ensures DoRestart(c, s, buffers).flusher.pc.Start?
  {
    hide Shape, Stored, Truncated, ReopenedRing, NewRing;
  }

  lemma ClientsDoNotHalt(c: Config, s: State, step: Step, s': State)
    requires Next(c, s, step, s') && OfClients(step)
    ensures s'.ring == s.ring && s'.flusher == s.flusher
  {
    hide Shape, CheckedFrame, StoredNext, Began, CircularWrite;
  }

  lemma SyncKeepsCur(c: Config, s: State)
    requires CanSync(c, s)
    ensures DoSync(c, s).ring.cur == s.ring.cur && DoSync(c, s).flusher == s.flusher
  {
    hide Shape;
  }
}
