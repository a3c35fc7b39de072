/** Readers against the recycling flusher: pin counts and what an open cursor may rely on. */
module CursorInvariant {
  import opened Base
  import opened Restart
  import opened Pipeline
  import opened RingInvariant

  ghost predicate CursorsShape(cursors: map<nat, Cursor>) {
    forall k | k in cursors :: cursors[k].dsid >= 1
  }

  /** The cursors that hold a pin on slot `j`. */
  ghost function Holders(n: nat, cursors: map<nat, Cursor>, j: nat): set<nat>
    requires n > 0 && CursorsShape(cursors)
  {
    set k | k in cursors && cursors[k].Holds() && SlotOf(n, cursors[k].dsid) == j
  }

  /** The pin count is -1 exactly while the flusher recycles the slot, and otherwise the number
      of readers. */
  ghost predicate PinOk(c: Config, r: Ring, turn: Turn, cursors: map<nat, Cursor>, j: nat)
    requires c.Valid() && RingShape(c, r) && CursorsShape(cursors) && j < |r.slots|
  {
    var readers := Holders(c.segmentCount, cursors, j);
    if Locked(turn) && j == NextSlot(c, r) then r.slots[j].pins == -1 && readers == {}
    else r.slots[j].pins == |readers|
  }

  /** What a cursor knows. `synced` is a past value of the last synced DSID. */
  ghost predicate CursorOk(c: Config, r: Ring, x: Cursor)
    requires c.Valid() && RingShape(c, r)
  {
    && 1 <= x.dsid <= r.cur
    && match x
       case Loaded(d, synced) => synced < d && synced <= r.lastSynced
       case Pinning(d, synced, _) => synced < d && synced <= r.lastSynced
       case Pinned(d, synced) => synced < d && synced <= r.lastSynced
       case Verify(_) => true
       case Mismatch(d) => r.slots[SlotOf(c.segmentCount, d)].dsid != d
       case OnNv(d) => r.slots[SlotOf(c.segmentCount, d)].dsid == d
       case OnDisk(d) => d <= r.lastSynced
  }

  ghost predicate ReadersOk(c: Config, r: Ring, turn: Turn, cursors: map<nat, Cursor>) {
    && c.Valid() && RingShape(c, r) && CursorsShape(cursors)
    && (forall j | 0 <= j < |r.slots| :: PinOk(c, r, turn, cursors, j))
    && (forall k | k in cursors :: CursorOk(c, r, cursors[k]))
  }

  // ================================================================ steps of others

  /** Steps that leave pins, numbers and the recycling phase alone. */
  lemma ReadersKept(c: Config, r: Ring, r': Ring, turn: Turn, turn': Turn, cursors: map<nat, Cursor>)
    requires ReadersOk(c, r, turn, cursors) && RingShape(c, r')
    requires r'.cur == r.cur && r'.lastSynced >= r.lastSynced && |r'.slots| == |r.slots|
    requires Locked(turn) == Locked(turn')
    requires forall j | 0 <= j < |r.slots| :: r.slots[j].pins == r'.slots[j].pins && r.slots[j].dsid == r'.slots[j].dsid
    ensures ReadersOk(c, r', turn', cursors)
  {
    forall j | 0 <= j < |r'.slots| ensures PinOk(c, r', turn', cursors, j) {
      assert PinOk(c, r, turn, cursors, j);
    }
    forall k | k in cursors ensures CursorOk(c, r', cursors[k]) {
      assert CursorOk(c, r, cursors[k]);
    }
  }

  /** The flusher takes the pin only when there is no reader. */
  lemma LockReaders(c: Config, r: Ring, cursors: map<nat, Cursor>)
    requires ReadersOk(c, r, Lock, cursors) && r.slots[NextSlot(c, r)].pins == 0
    ensures ReadersOk(c, Turned(c, r, Lock).0, SetDsid, cursors)
  {
    var r' := Turned(c, r, Lock).0;
    assert PinOk(c, r, Lock, cursors, NextSlot(c, r));
    forall j | 0 <= j < |r'.slots| ensures PinOk(c, r', SetDsid, cursors, j) {
      assert PinOk(c, r, Lock, cursors, j);
    }
    forall k | k in cursors ensures CursorOk(c, r', cursors[k]) {
      assert CursorOk(c, r, cursors[k]);
    }
  }

  /** Renumbering the locked slot is invisible: no cursor has it open. */
  lemma SetDsidReaders(c: Config, r: Ring, cursors: map<nat, Cursor>)
    requires ReadersOk(c, r, SetDsid, cursors)
    ensures ReadersOk(c, Turned(c, r, SetDsid).0, ClearCompleted, cursors)
  {
    var r' := Turned(c, r, SetDsid).0;
    var next := NextSlot(c, r);
    assert PinOk(c, r, SetDsid, cursors, next);
    forall j | 0 <= j < |r'.slots| ensures PinOk(c, r', ClearCompleted, cursors, j) {
      assert PinOk(c, r, SetDsid, cursors, j);
    }
    forall k | k in cursors ensures CursorOk(c, r', cursors[k]) {
      assert CursorOk(c, r, cursors[k]);
      if cursors[k].OnNv? {
        assert k !in Holders(c.segmentCount, cursors, next);
      }
    }
  }

  lemma UnlockReaders(c: Config, r: Ring, cursors: map<nat, Cursor>)
    requires ReadersOk(c, r, Unlock, cursors)
    ensures ReadersOk(c, Turned(c, r, Unlock).0, NoTurn, cursors)
  {
    var r' := Turned(c, r, Unlock).0;
    forall j | 0 <= j < |r'.slots| ensures PinOk(c, r', NoTurn, cursors, j) {
      assert PinOk(c, r, Unlock, cursors, j);
    }
    forall k | k in cursors ensures CursorOk(c, r', cursors[k]) {
      assert CursorOk(c, r, cursors[k]);
    }
  }

  // ================================================================ steps of a cursor

  /** A cursor changes state without touching a pin. */
  lemma MoveReaders(c: Config, r: Ring, turn: Turn, cursors: map<nat, Cursor>, k: nat, x: Cursor)
    requires ReadersOk(c, r, turn, cursors) && CursorOk(c, r, x)
    requires if k in cursors then x.dsid == cursors[k].dsid && x.Holds() == cursors[k].Holds() else !x.Holds()
    ensures ReadersOk(c, r, turn, cursors[k := x])
  {
    var after := cursors[k := x];
    forall j | 0 <= j < |r.slots| ensures PinOk(c, r, turn, after, j) {
      assert PinOk(c, r, turn, cursors, j);
      assert Holders(c.segmentCount, after, j) == Holders(c.segmentCount, cursors, j);
    }
    forall m | m in after ensures CursorOk(c, r, after[m]) {
      assert m != k ==> CursorOk(c, r, cursors[m]);
    }
  }

  /** Taking a pin: the count was not negative, so the slot is not being recycled. */
  lemma PinReaders(c: Config, r: Ring, turn: Turn, cursors: map<nat, Cursor>, k: nat, d: nat, synced: nat)
    requires ReadersOk(c, r, turn, cursors) && k in cursors
    requires cursors[k].Pinning? && cursors[k].dsid == d && cursors[k].synced == synced
    requires r.slots[SlotOf(c.segmentCount, d)].pins == cursors[k].seen
    ensures ReadersOk(c, AddPins(c, r, d, 1), turn, cursors[k := Pinned(d, synced)])
  {
    var after, r' := cursors[k := Pinned(d, synced)], AddPins(c, r, d, 1);
    var n, mine := c.segmentCount, SlotOf(c.segmentCount, d);
    forall j | 0 <= j < |r'.slots| ensures PinOk(c, r', turn, after, j) {
      assert PinOk(c, r, turn, cursors, j);
      HoldersGrow(n, cursors, k, Pinned(d, synced), j);
    }
    forall m | m in after ensures CursorOk(c, r', after[m]) {
      assert CursorOk(c, r, cursors[m]);
    }
  }

  lemma HoldersGrow(n: nat, cursors: map<nat, Cursor>, k: nat, x: Cursor, j: nat)
    requires n > 0 && CursorsShape(cursors) && k in cursors && !cursors[k].Holds() && x.Holds() && x.dsid >= 1
    ensures var now := |Holders(n, cursors[k := x], j)|;
            now == |Holders(n, cursors, j)| + if SlotOf(n, x.dsid) == j then 1 else 0
  {
    var more := if SlotOf(n, x.dsid) == j then {k} else {};
    assert Holders(n, cursors[k := x], j) == Holders(n, cursors, j) + more;
  }

  lemma ReleaseReaders(c: Config, r: Ring, turn: Turn, cursors: map<nat, Cursor>, k: nat)
    requires ReadersOk(c, r, turn, cursors) && k in cursors
    requires (cursors[k].OnNv? || cursors[k].Mismatch? || cursors[k].OnDisk?)
    ensures var r' := if cursors[k].OnDisk? then r else AddPins(c, r, cursors[k].dsid, -1);
            ReadersOk(c, r', turn, cursors - {k})
  {
    var d, after := cursors[k].dsid, cursors - {k};
    var r' := if cursors[k].OnDisk? then r else AddPins(c, r, d, -1);
    var n, mine := c.segmentCount, SlotOf(c.segmentCount, d);
    forall j | 0 <= j < |r'.slots| ensures PinOk(c, r', turn, after, j) {
      assert PinOk(c, r, turn, cursors, j);
      if cursors[k].Holds() && j == mine {
        assert k in Holders(n, cursors, j);
        assert Holders(n, after, j) == Holders(n, cursors, j) - {k};
      } else {
        assert Holders(n, after, j) == Holders(n, cursors, j);
      }
    }
    forall m | m in after ensures CursorOk(c, r', after[m]) {
      assert CursorOk(c, r, cursors[m]);
    }
  }

  /** The decision after pinning. If nothing was synced meanwhile, the segment is still there. */
  lemma OpenedReaders(c: Config, r: Ring, turn: Turn, f: Fsyncer, cursors: map<nat, Cursor>, k: nat, x: Cursor)
    requires RingOk(c, r, turn, f) && ReadersOk(c, r, turn, cursors) && k in cursors
    requires match cursors[k]
             case Pinned(d, synced) => x == if r.lastSynced == synced then OnNv(d) else Verify(d)
             case Verify(d) => x == if r.slots[SlotOf(c.segmentCount, d)].dsid == d then OnNv(d) else Mismatch(d)
             case _ => false
    ensures ReadersOk(c, r, turn, cursors[k := x])
  {
    assert CursorOk(c, r, cursors[k]);
    if cursors[k].Pinned? && r.lastSynced == cursors[k].synced {
      InRing(c, r, turn, f, cursors[k].dsid);
    }
    MoveReaders(c, r, turn, cursors, k, x);
  }
}
