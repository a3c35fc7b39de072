/** Opening and closing a segment, from the cursor's side: an attempt ends, with the segment or, exactly
    if the slot was recycled, with the certainty that the segment is on disk; and closing undoes it. */
module CursorOpening {
  import opened Base
  import opened Restart
  import opened Pipeline
  import opened WriterInvariant
  import opened RingInvariant
  import opened LogInvariant
  import opened EpochRanges
  import opened CursorInvariant
  import opened StoreInvariant
  import opened PipelineInvariant
  import opened Undisturbed
  import FsyncerSteps

  /** On the way to an open segment in NV. */
  predicate Opening(x: Cursor) {
    x.Loaded? || x.Pinning? || x.Pinned? || x.Verify?
  }

  /** The slot of the segment. */
  function SlotFor(c: Config, r: Ring, d: nat): Slot
    requires c.Valid() && RingShape(c, r) && d >= 1
  {
    r.slots[SlotOf(c.segmentCount, d)]
  }

  /** What an attempt comes to. */
  function Outcome(c: Config, r: Ring, d: nat): Cursor
    requires c.Valid() && RingShape(c, r) && d >= 1
  {
    if SlotFor(c, r, d).dsid == d then OnNv(d) else Mismatch(d)
  }

  lemma OpeningFacts(c: Config, s: State, k: nat)
    requires Inv(c, s) && k in s.cursors
    ensures c.Valid() && RingShape(c, s.ring) && Shape(c, s) && s.cursors[k].dsid >= 1
    ensures CursorOk(c, s.ring, s.cursors[k])
    ensures s.cursors[k].Pinned? && s.ring.lastSynced == s.cursors[k].synced ==>
              SlotFor(c, s.ring, s.cursors[k].dsid).dsid == s.cursors[k].dsid
    ensures s.cursors[k].Holds() ==> SlotFor(c, s.ring, s.cursors[k].dsid).pins > 0
  {
    hide LogOk, StoreOk, StreamOk, WriterOk, FlushOk, ConcludeOk, EpochsOk, SlotOk, TurnOk, SyncOk, SlotOf;
    var x := s.cursors[k];
    assert CursorOk(c, s.ring, x);
    if x.Pinned? && s.ring.lastSynced == x.synced {
      InRing(c, s.ring, TurnOf(s.flusher.pc), s.fsyncer, x.dsid);
    }
    var j := SlotOf(c.segmentCount, x.dsid);
    assert PinOk(c, s.ring, TurnOf(s.flusher.pc), s.cursors, j);
    if x.Holds() { assert k in Holders(c.segmentCount, s.cursors, j); }
  }

  /** One step of the attempt. */
  lemma OpensOn(c: Config, s: State, k: nat)
    requires Inv(c, s) && k in s.cursors && Opening(s.cursors[k])
    ensures CanRead(c, s, k) && Inv(c, DoRead(c, s, k)) && c.Valid() && RingShape(c, s.ring) && s.cursors[k].dsid >= 1
    ensures var t, x := DoRead(c, s, k), s.cursors[k];
            var slot := SlotFor(c, s.ring, x.dsid);
            && k in t.cursors
            && (x.Pinned? || x.Verify? ==> t.ring == s.ring && (t.cursors[k] == Outcome(c, s.ring, x.dsid) || t.cursors[k].Verify?))
            && (x.Verify? ==> !t.cursors[k].Verify?)
            && t == s.(ring := t.ring, cursors := s.cursors[k := t.cursors[k]]) && t.cursors[k].dsid == x.dsid
            && (x.Loaded? && slot.pins >= 0 ==> t.ring == s.ring && t.cursors[k] == Pinning(x.dsid, x.synced, slot.pins))
            && (x.Loaded? && slot.pins < 0 ==> t == s)
            && (x.Pinning? && slot.pins == x.seen ==> t.cursors[k].Pinned? && t.ring == AddPins(c, s.ring, x.dsid, 1))
            && (x.Pinning? && slot.pins != x.seen ==> t.cursors[k].Loaded? && t.ring == s.ring)
  {
    hide Inv, SlotOf, WriterShape, AdvanceShape;
    OpeningFacts(c, s, k);
    FsyncerSteps.ReadStepKeeps(c, s, k);
    assert s.cursors[k := s.cursors[k]] == s.cursors;
  }

  /** How far the attempt has still to go. */
  function StepsLeft(c: Config, s: State, k: nat): nat
    requires c.Valid() && RingShape(c, s.ring) && k in s.cursors && s.cursors[k].dsid >= 1
  {
    match s.cursors[k]
    case Pinning(d, _, seen) => if SlotFor(c, s.ring, d).pins == seen then 3 else 5
    case Loaded(_, _) => 4
    case Pinned(_, _) => 2
    case Verify(_) => 1
    case _ => 0
  }

  /** Undisturbed, an attempt ends after at most five steps, unless the slot is just being recycled: with
      the segment if the slot carries it, and turned away if it does not. Nothing changes but the
      cursor and, if it had no pin yet, one pin. */
  lemma {:induction false} OpensUndisturbed(c: Config, s: State, k: nat) returns (n: nat, t: State)
    requires Inv(c, s) && k in s.cursors && Opening(s.cursors[k])
    requires c.Valid() && RingShape(c, s.ring) && s.cursors[k].dsid >= 1
    requires SlotFor(c, s.ring, s.cursors[k].dsid).pins >= 0
    ensures ReadsTo(c, s, k, n, t) && n <= 5 && Inv(c, t)
    ensures var x := s.cursors[k];
            t == s.(ring := if x.Holds() then s.ring else AddPins(c, s.ring, x.dsid, 1),
                    cursors := s.cursors[k := Outcome(c, s.ring, x.dsid)])
    ensures n <= StepsLeft(c, s, k)
    decreases StepsLeft(c, s, k)
  {
    hide Inv, SlotOf, CanRead, DoRead, Shape;
    var x := s.cursors[k];
    OpensOn(c, s, k);
    var u := DoRead(c, s, k);
    OpeningFacts(c, u, k);
    if Opening(u.cursors[k]) {
      var m, v := OpensUndisturbed(c, u, k);
      n, t := m + 1, v;
      SameOutcome(c, s.ring, x.dsid);
    } else {
      n, t := 1, u;
    }
    assert s.cursors[k := u.cursors[k]][k := Outcome(c, s.ring, x.dsid)] == s.cursors[k := Outcome(c, s.ring, x.dsid)];
  }

  /** A pin does not change the number. */
  lemma SameOutcome(c: Config, r: Ring, d: nat)
    requires c.Valid() && RingShape(c, r) && d >= 1
    ensures RingShape(c, AddPins(c, r, d, 1)) && Outcome(c, AddPins(c, r, d, 1), d) == Outcome(c, r, d)
    ensures SlotFor(c, AddPins(c, r, d, 1), d).pins == SlotFor(c, r, d).pins + 1
  {
    hide SlotOf;
  }

  /** Opening and closing again leaves everything as it was. */
  lemma ClosingUndoes(c: Config, s: State, k: nat) returns (n: nat, t: State)
    requires Inv(c, s) && k in s.cursors && s.cursors[k].Loaded?
    requires c.Valid() && RingShape(c, s.ring) && s.cursors[k].dsid >= 1
    requires SlotFor(c, s.ring, s.cursors[k].dsid).pins >= 0
    ensures ReadsTo(c, s, k, n, t) && CanRelease(c, t, k) && DoRelease(c, t, k) == s.(cursors := s.cursors - {k})
  {
    hide Inv, ReadsTo, SlotOf, WriterShape, AdvanceShape;
    n, t := OpensUndisturbed(c, s, k);
    OpeningFacts(c, t, k);
    var d := s.cursors[k].dsid;
    PinAndUnpin(c, s.ring, d);
    assert t.cursors - {k} == s.cursors - {k};
  }

  /** A cursor on a file closes it without touching the ring. */
  lemma ClosingAFile(c: Config, s: State, k: nat)
    requires Inv(c, s) && k in s.cursors && s.cursors[k].OnDisk?
    ensures CanRelease(c, s, k) && DoRelease(c, s, k) == s.(cursors := s.cursors - {k})
  {
    hide Inv, WriterShape, AdvanceShape;
    OpeningFacts(c, s, k);
  }

  lemma PinAndUnpin(c: Config, r: Ring, d: nat)
    requires c.Valid() && RingShape(c, r) && d >= 1
    ensures RingShape(c, AddPins(c, r, d, 1)) && AddPins(c, AddPins(c, r, d, 1), d, -1) == r
  {
    hide SlotOf;
    var j := SlotOf(c.segmentCount, d);
    assert r.slots[j := r.slots[j].(pins := r.slots[j].pins + 1)][j := r.slots[j]] == r.slots;
  }

  /** A cursor is turned away only from a slot that carries another segment. Its own is then completely
      on disk, and the next attempt opens the file. */
  lemma TurnedAwayMeansSynced(c: Config, s: State, k: nat)
    requires Inv(c, s) && k in s.cursors && s.cursors[k].Mismatch?
    ensures c.Valid() && RingShape(c, s.ring) && 1 <= s.cursors[k].dsid <= |s.segs|
    ensures var d := s.cursors[k].dsid;
            && SlotFor(c, s.ring, d).dsid != d
            && d <= s.ring.lastSynced && d in s.ring.disk && s.ring.disk[d] == Data(s.segs[d - 1])
            && CanRelease(c, s, k)
            && var t := DoRelease(c, s, k);
            CanOpen(c, t, k, d) && DoOpen(t, k, d).cursors[k] == OnDisk(d)
  {
    hide StoreOk, StreamOk, WriterOk, FlushOk, ConcludeOk, EpochsOk, SlotOk, TurnOk, SyncOk, MediaOk, Tiled, HeadOk,
         DiskPending, SlotOf, WriterShape, AdvanceShape;
    var d := s.cursors[k].dsid;
    assert CursorOk(c, s.ring, s.cursors[k]);
    if s.ring.lastSynced < d {
      InRing(c, s.ring, TurnOf(s.flusher.pc), s.fsyncer, d);
    }
    assert OnDiskOk(s.ring, s.segs, d);
    FsyncerSteps.ReleaseStepKeeps(c, s, k);
  }
}
