/** The ring of NV segments between flusher and fsyncer: which slot holds which DSID in which
    state, at every point of a segment turn and of a sync. */
module RingInvariant {
  import opened Base
  import opened Restart
  import opened Pipeline

  // ================================================================ the invariant

  /** The full segment has been handed to the fsyncer. */
  predicate Requested(turn: Turn) {
    !turn.NoTurn? && !turn.Request?
  }

  /** The flusher holds the pin of the next slot. */
  predicate Locked(turn: Turn) {
    turn.SetDsid? || turn.ClearCompleted? || turn.ClearError? || turn.ClearRequested? || turn.Unlock?
  }

  ghost predicate SlotOk(c: Config, r: Ring, turn: Turn, f: Fsyncer, j: nat)
    requires c.Valid() && RingShape(c, r) && j < |r.slots|
  {
    var x := r.slots[j];
    && SlotOf(c.segmentCount, x.dsid) == j
    && r.cur - c.segmentCount < x.dsid <= r.cur + c.segmentCount
    && (x.error ==> f.Stopped? && r.lastSynced < x.dsid <= r.cur && x.requested && !x.completed)
    && if x.dsid <= r.lastSynced then        // on disk, waiting to be recycled
         x.written == c.segmentSize && x.requested && x.completed
       else if x.dsid < r.cur then           // full, waiting for the fsyncer
         x.written == c.segmentSize && x.requested && (x.completed <==> f == Bump(j, x.dsid))
       else if x.dsid == r.cur then          // being filled, or just full
         (x.requested <==> Requested(turn)) && (x.completed <==> f == Bump(j, x.dsid))
       else                                  // not used yet; its previous occupant is on disk
         && x.dsid <= r.lastSynced + c.segmentCount
         && x.written == 0
         && (x.completed ==> x.dsid == r.cur + 1 && turn.ClearCompleted?)
         && (x.requested ==> x.dsid == r.cur + 1 && ((turn.ClearCompleted? && x.completed) || Resetting(turn)))
  }

  ghost predicate TurnOk(c: Config, r: Ring, turn: Turn)
    requires c.Valid() && RingShape(c, r)
  {
    var cur, next := r.slots[CurSlot(c, r)], r.slots[NextSlot(c, r)];
    && cur.dsid == r.cur
    && (cur.written < c.segmentSize <==> turn.NoTurn?)
    && (turn.Lock? ==> next.requested ==> next.completed)
    && (Locked(turn) ==> r.cur + 1 <= r.lastSynced + c.segmentCount)
    && (Locked(turn) && !turn.SetDsid? ==> next.dsid == r.cur + 1)
  }

  /** From the request on, the fsyncer works on the segment after the last synced one. */
  ghost predicate SyncOk(c: Config, r: Ring, f: Fsyncer)
    requires c.Valid() && RingShape(c, r) && FsyncerShape(c, f)
  {
    match f
    case Poll => true
    case Stopped => true
    case CheckRequest(j) => j == SlotOf(c.segmentCount, r.lastSynced + 1) && !r.slots[j].completed
    case LoadDsid(j) => Syncing(c, r, j, r.lastSynced + 1) && !r.slots[j].completed
    case ResetError(j, d) => Syncing(c, r, j, d) && !r.slots[j].completed
    case WriteDisk(j, d) => Syncing(c, r, j, d) && !r.slots[j].completed
    case Mark(j, d) => Syncing(c, r, j, d) && !r.slots[j].completed
    case Bump(j, d) => Syncing(c, r, j, d) && r.slots[j].completed
  }

  ghost predicate Syncing(c: Config, r: Ring, j: nat, d: nat)
    requires c.Valid() && RingShape(c, r) && j < |r.slots|
  {
    && d == r.lastSynced + 1 <= r.cur
    && j == SlotOf(c.segmentCount, d)
    && r.slots[j].dsid == d
    && r.slots[j].requested
  }

  ghost predicate RingOk(c: Config, r: Ring, turn: Turn, f: Fsyncer) {
    && c.Valid() && RingShape(c, r) && FsyncerShape(c, f)
    && r.lastSynced <= r.cur <= r.lastSynced + c.segmentCount
    && (r.lastSynced == r.cur ==> Requested(turn))
    && (forall j | 0 <= j < |r.slots| :: SlotOk(c, r, turn, f, j))
    && TurnOk(c, r, turn)
    && SyncOk(c, r, f)
  }

  // ================================================================ consequences

  /** Whatever is not on disk is in its slot. */
  lemma InRing(c: Config, r: Ring, turn: Turn, f: Fsyncer, d: nat)
    requires RingOk(c, r, turn, f) && r.lastSynced < d <= r.cur
    ensures r.slots[SlotOf(c.segmentCount, d)].dsid == d
  {
    var j := SlotOf(c.segmentCount, d);
    assert SlotOk(c, r, turn, f, j);
    SlotHolds(c.segmentCount, r.slots[j].dsid, d);
  }

  lemma SlotHolds(n: nat, x: nat, d: nat)
    requires n > 0 && x > 0 && d > 0 && SlotOf(n, x) == SlotOf(n, d)
    ensures x == d || x >= d + n || x + n <= d
  {
    if x < d { SameSlot(n, x, d); } else if d < x { SameSlot(n, d, x); }
  }

  /** The next slot holds the segment one cycle earlier, or is already numbered. */
  lemma NextOccupant(c: Config, r: Ring, turn: Turn, f: Fsyncer)
    requires RingOk(c, r, turn, f)
    ensures NextSlot(c, r) != CurSlot(c, r)
    ensures var d := r.slots[NextSlot(c, r)].dsid; d == r.cur + 1 || d + c.segmentCount == r.cur + 1
  {
    var n, j := c.segmentCount, NextSlot(c, r);
    assert SlotOk(c, r, turn, f, j);
    var d := r.slots[j].dsid;
    if d < r.cur + 1 { SameSlot(n, d, r.cur + 1); } else if r.cur + 1 < d { SameSlot(n, r.cur + 1, d); }
    SameSlot(n, r.cur, r.cur + 1);
  }

  /** What the ring invariant looks at in a slot. */
  predicate SameFlags(x: Slot, y: Slot) {
    && x.dsid == y.dsid && x.written == y.written && x.requested == y.requested && x.completed == y.completed
    && x.error == y.error && |x.nv| == |y.nv| && |x.media| == |y.media|
  }

  lemma FlagsKept(c: Config, r: Ring, r': Ring, turn: Turn, f: Fsyncer)
    requires RingOk(c, r, turn, f)
    requires r'.cur == r.cur && r'.lastSynced == r.lastSynced && |r'.slots| == |r.slots|
    requires forall j | 0 <= j < |r.slots| :: SameFlags(r.slots[j], r'.slots[j])
    ensures RingOk(c, r', turn, f)
  {
    forall j | 0 <= j < |r'.slots| ensures SlotOk(c, r', turn, f, j) {
      assert SlotOk(c, r, turn, f, j);
    }
  }

  // ================================================================ the flusher

  lemma FillKeeps(c: Config, r: Ring, f: Fsyncer, copied: nat, r': Ring, turn': Turn)
    requires RingOk(c, r, NoTurn, f)
    requires r.slots[CurSlot(c, r)].written + copied <= c.segmentSize
    requires var j := CurSlot(c, r); r' == SetSlot(r, j, r.slots[j].(written := r.slots[j].written + copied))
    requires turn' == if r'.slots[CurSlot(c, r)].written == c.segmentSize then Request else NoTurn
    ensures RingOk(c, r', turn', f)
  {
    forall j | 0 <= j < |r'.slots| ensures SlotOk(c, r', turn', f, j) {
      assert SlotOk(c, r, NoTurn, f, j);
    }
    NextOccupant(c, r, NoTurn, f);
  }

  lemma TurnKeeps(c: Config, r: Ring, turn: Turn, f: Fsyncer)
    requires RingOk(c, r, turn, f) && CanTurn(c, r, turn)
    requires turn.Lock? ==> !(f.Bump? && f.j == NextSlot(c, r))
    ensures var (r', turn') := Turned(c, r, turn); RingOk(c, r', turn', f)
  {
    NextOccupant(c, r, turn, f);
    assert SlotOk(c, r, turn, f, NextSlot(c, r));
    match turn
    case Request => TurnRequest(c, r, f);
    case Wait => TurnWait(c, r, f);
    case Lock => TurnLock(c, r, f);
    case SetDsid => TurnSetDsid(c, r, f);
    case ClearCompleted => TurnClear(c, r, turn, f);
    case ClearError => TurnClear(c, r, turn, f);
    case ClearRequested => TurnClear(c, r, turn, f);
    case Unlock => TurnUnlock(c, r, f);
  }

  lemma TurnRequest(c: Config, r: Ring, f: Fsyncer)
    requires RingOk(c, r, Request, f)
    ensures RingOk(c, Turned(c, r, Request).0, Wait, f)
  {
    var r' := Turned(c, r, Request).0;
    forall j | 0 <= j < |r'.slots| ensures SlotOk(c, r', Wait, f, j) {
      assert SlotOk(c, r, Request, f, j);
    }
  }

  lemma TurnWait(c: Config, r: Ring, f: Fsyncer)
    requires RingOk(c, r, Wait, f) && CanTurn(c, r, Wait)
    ensures RingOk(c, r, Lock, f)
  {
    forall j | 0 <= j < |r.slots| ensures SlotOk(c, r, Lock, f, j) {
      assert SlotOk(c, r, Wait, f, j);
    }
  }

  /** Once the pin is taken the previous occupant is certainly on disk. */
  lemma TurnLock(c: Config, r: Ring, f: Fsyncer)
    requires RingOk(c, r, Lock, f)
    requires !(f.Bump? && f.j == NextSlot(c, r))
    ensures RingOk(c, Turned(c, r, Lock).0, SetDsid, f)
  {
    var r' := Turned(c, r, Lock).0;
    NextOccupant(c, r, Lock, f);
    assert SlotOk(c, r, Lock, f, NextSlot(c, r));
    forall j | 0 <= j < |r'.slots| ensures SlotOk(c, r', SetDsid, f, j) {
      assert SlotOk(c, r, Lock, f, j);
    }
  }

  lemma TurnSetDsid(c: Config, r: Ring, f: Fsyncer)
    requires RingOk(c, r, SetDsid, f)
    ensures RingOk(c, Turned(c, r, SetDsid).0, ClearCompleted, f)
  {
    var r' := Turned(c, r, SetDsid).0;
    NextOccupant(c, r, SetDsid, f);
    var next := NextSlot(c, r);
    assert SlotOk(c, r, SetDsid, f, next);
    forall j | 0 <= j < |r'.slots| ensures SlotOk(c, r', ClearCompleted, f, j) {
      assert SlotOk(c, r, SetDsid, f, j);
    }
  }

  lemma TurnClear(c: Config, r: Ring, turn: Turn, f: Fsyncer)
    requires RingOk(c, r, turn, f) && (turn.ClearCompleted? || Resetting(turn))
    ensures var (r', turn') := Turned(c, r, turn); RingOk(c, r', turn', f)
  {
    hide SlotOf, SlotOk;
    var (r', turn') := Turned(c, r, turn);
    NextOccupant(c, r, turn, f);
    assert SyncOk(c, r', f) by { ClearedElsewhere(c, r, turn, f); }
    forall j | 0 <= j < |r'.slots| ensures SlotOk(c, r', turn', f, j) {
      OnlyNextIsNumberedSo(c, r, turn, f, j);
      ClearedSlot(c, r, turn, f, j);
    }
  }

  /** The fsyncer is not working on the slot being reset. */
  lemma ClearedElsewhere(c: Config, r: Ring, turn: Turn, f: Fsyncer)
    requires RingOk(c, r, turn, f) && (turn.ClearCompleted? || Resetting(turn))
    ensures SyncOk(c, Turned(c, r, turn).0, f)
  {
  }

  lemma ClearedSlot(c: Config, r: Ring, turn: Turn, f: Fsyncer, j: nat)
    requires RingOk(c, r, turn, f) && (turn.ClearCompleted? || Resetting(turn)) && j < |r.slots|
    requires r.slots[j].dsid == r.cur + 1 ==> j == NextSlot(c, r)
    ensures var (r', turn') := Turned(c, r, turn); SlotOk(c, r', turn', f, j)
  {
    hide SlotOf;
    assert SlotOk(c, r, turn, f, j);
  }

  lemma OnlyNextIsNumberedSo(c: Config, r: Ring, turn: Turn, f: Fsyncer, j: nat)
    requires RingOk(c, r, turn, f) && j < |r.slots|
    ensures r.slots[j].dsid == r.cur + 1 ==> j == NextSlot(c, r)
  {
    assert SlotOk(c, r, turn, f, j);
  }

  lemma TurnUnlock(c: Config, r: Ring, f: Fsyncer)
    requires RingOk(c, r, Unlock, f)
    ensures RingOk(c, Turned(c, r, Unlock).0, NoTurn, f)
  {
    var r' := Turned(c, r, Unlock).0;
    NextOccupant(c, r, Unlock, f);
    assert SlotOk(c, r, Unlock, f, NextSlot(c, r));
    assert TurnOk(c, r', NoTurn);
    forall j | 0 <= j < |r'.slots| ensures SlotOk(c, r', NoTurn, f, j) {
      UnlockSlot(c, r, f, j);
    }
  }

  lemma UnlockSlot(c: Config, r: Ring, f: Fsyncer, j: nat)
    requires RingOk(c, r, Unlock, f) && j < |r.slots|
    ensures SlotOk(c, Turned(c, r, Unlock).0, NoTurn, f, j)
  {
    assert SlotOk(c, r, Unlock, f, j);
    var d := r.slots[j].dsid;
    if d < r.cur + 1 {
      SameSlot(c.segmentCount, d, r.cur + 1);
    }
  }

  // ================================================================ the fsyncer

  lemma SyncKeeps(c: Config, r: Ring, turn: Turn, f: Fsyncer, r': Ring, f': Fsyncer)
    requires RingOk(c, r, turn, f) && !f.Stopped?
    requires f.Poll? ==> !r.slots[r.lastSynced % c.segmentCount].completed
    requires !(f.CheckRequest? && Resetting(turn) && f.j == NextSlot(c, r))
    requires (r', f') == Synced(c, r, f)
    ensures RingOk(c, r', turn, f')
  {
    match f
    case Poll => SameSyncPhase(c, r, r', turn, f, f');
    case CheckRequest(j) =>
      if r.slots[j].requested { PickedUp(c, r, turn, j); }
      SameSyncPhase(c, r, r', turn, f, f');
    case LoadDsid(j) => SameSyncPhase(c, r, r', turn, f, f');
    case ResetError(j, d) =>
      assert SlotOk(c, r, turn, f, j);
      SameSyncPhase(c, r, r', turn, f, f');
    case WriteDisk(j, d) => SameSyncPhase(c, r, r', turn, f, f');
    case Mark(j, d) => Marked(c, r, turn, j, d);
    case Bump(j, d) => Bumped(c, r, turn, j, d);
    case Stopped =>
  }

  lemma SameSyncPhase(c: Config, r: Ring, r': Ring, turn: Turn, f: Fsyncer, f': Fsyncer)
    requires RingOk(c, r, turn, f) && !f.Bump? && !f'.Bump? && (f.Stopped? ==> f'.Stopped?)
    requires r'.cur == r.cur && r'.lastSynced == r.lastSynced && |r'.slots| == |r.slots|
    requires forall j | 0 <= j < |r.slots| :: SameFlags(r.slots[j], r'.slots[j])
    requires FsyncerShape(c, f') && SyncOk(c, r, f')
    ensures RingOk(c, r', turn, f')
  {
    hide SlotOk, SlotOf;
    forall j | 0 <= j < |r'.slots| ensures SlotOk(c, r', turn, f', j) {
      SameSlotPhase(c, r, r', turn, f, f', j);
    }
  }

  lemma SameSlotPhase(c: Config, r: Ring, r': Ring, turn: Turn, f: Fsyncer, f': Fsyncer, j: nat)
    requires c.Valid() && RingShape(c, r) && RingShape(c, r') && j < |r.slots| && SlotOk(c, r, turn, f, j)
    requires !f.Bump? && !f'.Bump? && (f.Stopped? ==> f'.Stopped?)
    requires r'.cur == r.cur && r'.lastSynced == r.lastSynced && SameFlags(r.slots[j], r'.slots[j])
    ensures SlotOk(c, r', turn, f', j)
  {
  }

  /** A segment that is requested and not completed is the one after the last synced. */
  lemma PickedUp(c: Config, r: Ring, turn: Turn, j: nat)
    requires RingOk(c, r, turn, CheckRequest(j)) && r.slots[j].requested
    requires !(Resetting(turn) && j == NextSlot(c, r))
    ensures Syncing(c, r, j, r.lastSynced + 1)
  {
    assert SlotOk(c, r, turn, CheckRequest(j), j);
    OnlyNextIsNumberedSo(c, r, turn, CheckRequest(j), j);
    SlotHolds(c.segmentCount, r.slots[j].dsid, r.lastSynced + 1);
  }

  lemma Marked(c: Config, r: Ring, turn: Turn, j: nat, d: nat)
    requires RingOk(c, r, turn, Mark(j, d))
    ensures RingOk(c, SetSlot(r, j, r.slots[j].(completed := true)), turn, Bump(j, d))
  {
    var r' := SetSlot(r, j, r.slots[j].(completed := true));
    forall k | 0 <= k < |r'.slots| ensures SlotOk(c, r', turn, Bump(j, d), k) {
      assert SlotOk(c, r, turn, Mark(j, d), k);
    }
  }

  lemma Bumped(c: Config, r: Ring, turn: Turn, j: nat, d: nat)
    requires RingOk(c, r, turn, Bump(j, d))
    ensures RingOk(c, r.(lastSynced := d), turn, Poll)
  {
    var r' := r.(lastSynced := d);
    forall k | 0 <= k < |r'.slots| ensures SlotOk(c, r', turn, Poll, k) {
      assert SlotOk(c, r, turn, Bump(j, d), k);
      assert r.slots[k].dsid == d ==> SlotOf(c.segmentCount, d) == k;
    }
    assert SlotOk(c, r, turn, Bump(j, d), j);
  }

  /** The fsyncer stops, after a failed write with an error flag on the segment it was about to sync. */
  lemma SyncStopKeeps(c: Config, r: Ring, turn: Turn, f: Fsyncer)
    requires RingOk(c, r, turn, f) && !f.Bump?
    ensures RingOk(c, r, turn, Stopped)
    ensures f.WriteDisk? ==> RingOk(c, SetSlot(r, f.j, r.slots[f.j].(error := true)), turn, Stopped)
  {
    SameSyncPhase(c, r, r, turn, f, Stopped);
    if f.WriteDisk? {
      var r' := SetSlot(r, f.j, r.slots[f.j].(error := true));
      forall j | 0 <= j < |r'.slots| ensures SlotOk(c, r', turn, Stopped, j) {
        assert SlotOk(c, r, turn, Stopped, j);
      }
    }
  }

  /** The disk is no concern of the ring. */
  lemma DiskIsElsewhere(c: Config, r: Ring, turn: Turn, f: Fsyncer, disk: map<nat, seq<byte>>)
    requires RingOk(c, r, turn, f)
    ensures RingOk(c, r.(disk := disk), turn, f)
  {
    FlagsKept(c, r, r.(disk := disk), turn, f);
  }
}
