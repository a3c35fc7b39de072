/** The fsyncer, left alone, syncs the next segment handed to it. */
module FsyncerProgress {
  import opened Base
  import opened Restart
  import opened Pipeline
  import opened RingInvariant
  import opened LogInvariant
  import opened EpochRanges
  import opened CursorInvariant
  import opened StoreInvariant
  import opened PipelineInvariant
  import opened Undisturbed
  import FsyncerSteps

  /** The segment after the last synced one was handed over. */
  predicate Pending(c: Config, r: Ring)
    requires c.Valid() && RingShape(c, r)
  {
    r.lastSynced < r.cur && r.slots[SlotOf(c.segmentCount, r.lastSynced + 1)].requested
  }

  function Rank(f: Fsyncer): nat {
    match f
    case Poll => 7
    case CheckRequest(_) => 6
    case LoadDsid(_) => 5
    case ResetError(_, _) => 4
    case WriteDisk(_, _) => 3
    case Mark(_, _) => 2
    case Bump(_, _) => 1
    case Stopped => 0
  }

  /** Whatever flag an earlier sync may have left, the writing begins without one, with the number the
      slot carries and nothing else touched. */
  lemma SyncStartsClean(c: Config, r: Ring, j: nat)
    requires c.Valid() && RingShape(c, r) && j < |r.slots| && r.slots[j].requested
    ensures var (r1, f1) := Synced(c, r, CheckRequest(j));
            var (r2, f2) := Synced(c, r1, f1);
            && RingShape(c, r2) && FsyncerShape(c, f2)
            && var (r3, f3) := Synced(c, r2, f2);
            && f3 == WriteDisk(j, r.slots[j].dsid) && r3 == SetSlot(r, j, r.slots[j].(error := false))
  {
  }

  /** One step on the way, as far as the ring is concerned. */
  lemma RingSyncsOn(c: Config, r: Ring, turn: Turn, f: Fsyncer)
    requires RingOk(c, r, turn, f) && !f.Stopped? && Pending(c, r)
    ensures f.Poll? ==> !r.slots[r.lastSynced % c.segmentCount].completed
    ensures !(f.CheckRequest? && Resetting(turn) && f.j == NextSlot(c, r))
    ensures var (r', f') := Synced(c, r, f);
            && RingShape(c, r')
            && if f.Bump? then f'.Poll? && r'.lastSynced == r.lastSynced + 1
               else Rank(f') == Rank(f) - 1 && Pending(c, r') && r'.lastSynced == r.lastSynced
  {
    hide SlotOf;
    var j := SlotOf(c.segmentCount, r.lastSynced + 1);
    InRing(c, r, turn, f, r.lastSynced + 1);
    assert SlotOk(c, r, turn, f, j);
    SlotAfter(c.segmentCount, r.lastSynced);
    if Resetting(turn) { NextIsLater(c, r, turn, f); }
  }

  /** One step on the way. */
  lemma SyncsOn(c: Config, s: State)
    requires Inv(c, s) && !s.fsyncer.Stopped? && c.Valid() && RingShape(c, s.ring) && Pending(c, s.ring)
    ensures CanSync(c, s) && Inv(c, DoSync(c, s))
    ensures var t := DoSync(c, s);
            && RingShape(c, t.ring) && t == s.(ring := t.ring, fsyncer := t.fsyncer)
            && if s.fsyncer.Bump? then t.fsyncer.Poll? && t.ring.lastSynced == s.ring.lastSynced + 1
               else Rank(t.fsyncer) == Rank(s.fsyncer) - 1 && Pending(c, t.ring) && t.ring.lastSynced == s.ring.lastSynced
  {
    hide RingOk, LogOk, StoreOk, ReadersOk, StreamOk, WritersOk, FlushOk, ConcludeOk, EpochsOk, SlotOf, Synced, Pending,
         RingShape, WriterShape;
    RingSyncsOn(c, s.ring, TurnOf(s.flusher.pc), s.fsyncer);
    FsyncerSteps.SyncStepKeeps(c, s);
  }

  lemma SlotAfter(n: nat, d: nat)
    requires n > 0
    ensures SlotOf(n, d + 1) == d % n
  {
  }

  /** While its flags are reset, the next slot is already numbered. */
  lemma NextIsLater(c: Config, r: Ring, turn: Turn, f: Fsyncer)
    requires RingOk(c, r, turn, f) && Resetting(turn)
    ensures r.slots[NextSlot(c, r)].dsid == r.cur + 1
  {
  }

  /** Undisturbed, at most seven steps later the segment is in its file, byte for byte, recorded as
      synced, and its slot may be recycled. Nothing else changes. */
  lemma {:induction false} SyncsUndisturbed(c: Config, s: State) returns (n: nat, t: State)
    requires Inv(c, s) && !s.fsyncer.Stopped? && c.Valid() && RingShape(c, s.ring) && Pending(c, s.ring)
    ensures SyncsTo(c, s, n, t) && n <= Rank(s.fsyncer) && Inv(c, t)
    ensures t == s.(ring := t.ring, fsyncer := Poll) && RingShape(c, t.ring)
    ensures var d := s.ring.lastSynced + 1;
            && t.ring.lastSynced == d <= |s.segs|
            && d in t.ring.disk && t.ring.disk[d] == Data(s.segs[d - 1])
            && t.ring.slots[SlotOf(c.segmentCount, d)].dsid == d && t.ring.slots[SlotOf(c.segmentCount, d)].completed
    decreases Rank(s.fsyncer)
  {
    hide Inv, SlotOf, CanSync, DoSync, RingShape;
    SyncsOn(c, s);
    var u := DoSync(c, s);
    if s.fsyncer.Bump? {
      n, t := 1, u;
      JustSynced(c, s, u);
    } else {
      var m, v := SyncsUndisturbed(c, u);
      n, t := m + 1, v;
    }
  }

  lemma JustSynced(c: Config, s: State, t: State)
    requires Inv(c, s) && Inv(c, t) && s.fsyncer.Bump? && CanSync(c, s) && t == DoSync(c, s)
    ensures RingShape(c, t.ring)
    ensures var d := t.ring.lastSynced;
            && 1 <= d <= |t.segs| && d in t.ring.disk && t.ring.disk[d] == Data(t.segs[d - 1])
            && t.ring.slots[SlotOf(c.segmentCount, d)].dsid == d && t.ring.slots[SlotOf(c.segmentCount, d)].completed
  {
    hide StoreOk, ReadersOk, StreamOk, WritersOk, FlushOk, ConcludeOk, EpochsOk, SlotOf, SlotOk, TurnOk, MediaOk, Tiled,
         HeadOk, DiskPending;
    assert SyncOk(c, s.ring, s.fsyncer);
    assert OnDiskOk(t.ring, t.segs, t.ring.lastSynced);
  }

  /** Every full segment that is not on disk is handed over. */
  lemma FullIsPending(c: Config, s: State)
    requires Inv(c, s)
    ensures Shape(c, s) && c.Valid() && RingShape(c, s.ring)
    ensures s.ring.lastSynced + 1 < s.ring.cur ==> Pending(c, s.ring)
  {
    hide LogOk, StoreOk, ReadersOk, StreamOk, WritersOk, FlushOk, ConcludeOk, EpochsOk, SyncOk, SlotOf;
    if s.ring.lastSynced + 1 < s.ring.cur {
      var d := s.ring.lastSynced + 1;
      InRing(c, s.ring, TurnOf(s.flusher.pc), s.fsyncer, d);
      assert SlotOk(c, s.ring, TurnOf(s.flusher.pc), s.fsyncer, SlotOf(c.segmentCount, d));
    }
  }
}
