/** Where the bytes of the log are: in the visible image of the ring, on the media behind it, on
    disk; and how the epoch records tile it. */
module LogInvariant {
  import opened Base
  import opened LogStream
  import opened Restart
  import opened Pipeline
  import opened RingInvariant

  // ================================================================ contents

  /** Full segments followed by the one being filled. */
  ghost predicate SegsOk(c: Config, r: Ring, segs: seq<seq<Entry>>)
    requires c.Valid() && RingShape(c, r)
  {
    && |segs| == r.cur
    && (forall i | 0 <= i < r.cur - 1 :: |segs[i]| == c.segmentSize)
    && |segs[r.cur - 1]| == r.slots[CurSlot(c, r)].written
  }

  /** The image starts with the entries. */
  ghost predicate Holds(image: seq<byte>, seg: seq<Entry>) {
    && |seg| <= |image|
    && forall k | 0 <= k < |seg| :: image[k] == seg[k].data
  }

  /** Slot `j`, if it is in use, shows its segment. */
  ghost predicate Shows(r: Ring, segs: seq<seq<Entry>>, j: nat)
    requires j < |r.slots| && |segs| == r.cur
  {
    var x := r.slots[j];
    1 <= x.dsid <= r.cur ==> Holds(x.nv, segs[x.dsid - 1])
  }

  /** Every slot in use shows its segment, and everything up to the last synced one is on disk. */
  ghost predicate VisibleOk(r: Ring, segs: seq<seq<Entry>>) {
    && |segs| == r.cur
    && (forall j | 0 <= j < |r.slots| :: Shows(r, segs, j))
    && r.lastSynced <= r.cur
    && (forall d | 1 <= d <= r.lastSynced :: OnDiskOk(r, segs, d))
  }

  ghost predicate OnDiskOk(r: Ring, segs: seq<seq<Entry>>, d: nat)
    requires 1 <= d <= |segs|
  {
    d in r.disk && r.disk[d] == Data(segs[d - 1])
  }

  /** Between writing a segment to disk and recording it. */
  ghost predicate DiskPending(r: Ring, f: Fsyncer, segs: seq<seq<Entry>>) {
    (f.Mark? || f.Bump?) ==> 1 <= f.d <= |segs| && OnDiskOk(r, segs, f.d)
  }

  /** Byte `k` of slot `j` is a log byte before position (d, o) that is not on disk. */
  predicate Due(r: Ring, segs: seq<seq<Entry>>, d: nat, o: nat, j: nat, k: nat) {
    && j < |r.slots|
    && r.lastSynced < r.slots[j].dsid <= r.cur <= |segs|
    && k < |segs[r.slots[j].dsid - 1]|
    && Before(r.slots[j].dsid, k, d, o)
  }

  predicate Persisted(r: Ring, segs: seq<seq<Entry>>, j: nat, k: nat)
    requires j < |r.slots| && 1 <= r.slots[j].dsid <= |segs| && k < |segs[r.slots[j].dsid - 1]|
  {
    k < |r.slots[j].media| && r.slots[j].media[k] == segs[r.slots[j].dsid - 1][k].data
  }

  /** Every such byte has reached the media. */
  ghost predicate MediaOk(r: Ring, segs: seq<seq<Entry>>, d: nat, o: nat) {
    && |segs| == r.cur
    && forall j: nat, k: nat | Due(r, segs, d, o, j, k) :: Persisted(r, segs, j, k)
  }

  lemma MediaWeaken(r: Ring, segs: seq<seq<Entry>>, d: nat, o: nat, d': nat, o': nat)
    requires MediaOk(r, segs, d, o)
    requires d' < d || (d' == d && o' <= o)
    ensures MediaOk(r, segs, d', o')
  {
    forall j: nat, k: nat | Due(r, segs, d', o', j, k) ensures Persisted(r, segs, j, k) {
      assert Due(r, segs, d, o, j, k);
    }
  }

  // ---------------------------------------------------------------- what does not matter

  /** Same numbering and same images. */
  predicate SameImages(x: Slot, y: Slot) {
    x.dsid == y.dsid && x.nv == y.nv && x.media == y.media
  }

  lemma ImagesKept(r: Ring, r': Ring, segs: seq<seq<Entry>>, f: Fsyncer, d: nat, o: nat)
    requires VisibleOk(r, segs) && DiskPending(r, f, segs) && MediaOk(r, segs, d, o)
    requires r'.cur == r.cur && r'.lastSynced == r.lastSynced && r'.disk == r.disk && |r'.slots| == |r.slots|
    requires forall j | 0 <= j < |r.slots| :: SameImages(r.slots[j], r'.slots[j])
    ensures VisibleOk(r', segs) && DiskPending(r', f, segs) && MediaOk(r', segs, d, o)
  {
    forall j | 0 <= j < |r'.slots| ensures Shows(r', segs, j) {
      assert SameImages(r.slots[j], r'.slots[j]) && Shows(r, segs, j);
    }
    forall j: nat, k: nat | Due(r', segs, d, o, j, k) ensures Persisted(r', segs, j, k) {
      assert Due(r, segs, d, o, j, k);
      assert SameImages(r.slots[j], r'.slots[j]);
    }
    forall e | 1 <= e <= r'.lastSynced ensures OnDiskOk(r', segs, e) {
      assert OnDiskOk(r, segs, e);
    }
  }

  // ---------------------------------------------------------------- the flusher

  /** Copying behind the written part disturbs nothing. */
  lemma CopyKeeps(c: Config, r: Ring, segs: seq<seq<Entry>>, f: Fsyncer, d: nat, o: nat, bytes: seq<byte>, r': Ring)
    requires RingOk(c, r, NoTurn, f) && SegsOk(c, r, segs)
    requires VisibleOk(r, segs) && DiskPending(r, f, segs) && MediaOk(r, segs, d, o)
    requires r.slots[CurSlot(c, r)].written + |bytes| <= c.segmentSize
    requires var j := CurSlot(c, r); var x := r.slots[j]; r' == SetSlot(r, j, x.(nv := Splice(x.nv, x.written, bytes)))
    ensures VisibleOk(r', segs) && DiskPending(r', f, segs) && MediaOk(r', segs, d, o)
  {
    forall j | 0 <= j < |r'.slots| ensures Shows(r', segs, j) {
      assert Shows(r, segs, j);
    }
    forall j: nat, k: nat | Due(r', segs, d, o, j, k) ensures Persisted(r', segs, j, k) {
      assert Due(r, segs, d, o, j, k);
      assert r'.slots[j].media == r.slots[j].media;
    }
    forall e | 1 <= e <= r'.lastSynced ensures OnDiskOk(r', segs, e) {
      assert OnDiskOk(r, segs, e);
    }
  }

  /** Appending to the log what was copied. */
  lemma AppendKeeps(c: Config, r: Ring, segs: seq<seq<Entry>>, f: Fsyncer, d: nat, o: nat, more: seq<Entry>,
                    r': Ring, segs': seq<seq<Entry>>)
    requires RingOk(c, r, NoTurn, f) && SegsOk(c, r, segs)
    requires VisibleOk(r, segs) && DiskPending(r, f, segs) && MediaOk(r, segs, d, o)
    requires var j := CurSlot(c, r);
             && r.slots[j].written + |more| <= c.segmentSize
             && (forall k | 0 <= k < |more| :: r.slots[j].nv[r.slots[j].written + k] == more[k].data)
             && r' == SetSlot(r, j, r.slots[j].(written := r.slots[j].written + |more|))
    requires segs' == segs[r.cur - 1 := segs[r.cur - 1] + more]
    requires !Before(r.cur, |segs[r.cur - 1]|, d, o)
    ensures SegsOk(c, r', segs') && VisibleOk(r', segs') && DiskPending(r', f, segs') && MediaOk(r', segs', d, o)
  {
    var cur := CurSlot(c, r);
    var was := segs[r.cur - 1];
    forall j | 0 <= j < |r'.slots| ensures Shows(r', segs', j) {
      assert SlotOk(c, r, NoTurn, f, j);
      assert Shows(r, segs, j);
      if r.slots[j].dsid == r.cur {
        assert j == cur;
        assert forall k | 0 <= k < |was + more| :: r.slots[j].nv[k] == (was + more)[k].data;
      }
    }
    forall j: nat, k: nat | Due(r', segs', d, o, j, k) ensures Persisted(r', segs', j, k) {
      assert Due(r, segs, d, o, j, k);
      assert r'.slots[j].media == r.slots[j].media && r'.slots[j].dsid == r.slots[j].dsid;
    }
    forall e | 1 <= e <= r'.lastSynced ensures OnDiskOk(r', segs', e) {
      assert OnDiskOk(r, segs, e);
      assert e < r.cur;
    }
    if f.Mark? || f.Bump? {
      assert SlotOk(c, r, NoTurn, f, f.j);
    }
  }

  /** A slot whose segment is on disk may be renumbered. */
  lemma RenumberKeeps(c: Config, r: Ring, segs: seq<seq<Entry>>, f: Fsyncer, d: nat, o: nat, r': Ring)
    requires RingShape(c, r) && c.Valid()
    requires VisibleOk(r, segs) && DiskPending(r, f, segs) && MediaOk(r, segs, d, o)
    requires var j := NextSlot(c, r); r' == SetSlot(r, j, r.slots[j].(dsid := r.cur + 1, written := 0))
    ensures VisibleOk(r', segs) && DiskPending(r', f, segs) && MediaOk(r', segs, d, o)
  {
    forall j | 0 <= j < |r'.slots| ensures Shows(r', segs, j) {
      assert Shows(r, segs, j);
    }
    forall j: nat, k: nat | Due(r', segs, d, o, j, k) ensures Persisted(r', segs, j, k) {
      assert Due(r, segs, d, o, j, k);
      assert r'.slots[j] == r.slots[j];
    }
    forall e | 1 <= e <= r'.lastSynced ensures OnDiskOk(r', segs, e) {
      assert OnDiskOk(r, segs, e);
    }
  }

  /** Starting the next segment. */
  lemma UnlockKeeps(c: Config, r: Ring, segs: seq<seq<Entry>>, f: Fsyncer, d: nat, o: nat, r': Ring)
    requires RingOk(c, r, Unlock, f) && SegsOk(c, r, segs)
    requires VisibleOk(r, segs) && DiskPending(r, f, segs) && MediaOk(r, segs, d, o)
    requires r' == Turned(c, r, Unlock).0
    ensures SegsOk(c, r', segs + [[]]) && VisibleOk(r', segs + [[]])
    ensures DiskPending(r', f, segs + [[]]) && MediaOk(r', segs + [[]], d, o)
  {
    var segs' := segs + [[]];
    assert SlotOk(c, r, Unlock, f, NextSlot(c, r));
    forall j | 0 <= j < |r'.slots| ensures Shows(r', segs', j) {
      if r.slots[j].dsid <= r.cur {
        assert Shows(r, segs, j);
      }
    }
    forall j: nat, k: nat | Due(r', segs', d, o, j, k) ensures Persisted(r', segs', j, k) {
      assert Due(r, segs, d, o, j, k);
      assert r'.slots[j].media == r.slots[j].media && r'.slots[j].dsid == r.slots[j].dsid;
    }
    forall e | 1 <= e <= r'.lastSynced ensures OnDiskOk(r', segs', e) {
      assert OnDiskOk(r, segs, e);
    }
  }

  // ---------------------------------------------------------------- the fsyncer

  lemma WriteDiskKeeps(c: Config, r: Ring, segs: seq<seq<Entry>>, turn: Turn, j: nat, e: nat, d: nat, o: nat)
    requires RingOk(c, r, turn, WriteDisk(j, e)) && SegsOk(c, r, segs)
    requires VisibleOk(r, segs) && MediaOk(r, segs, d, o)
    ensures var r' := r.(disk := r.disk[e := r.slots[j].nv]);
            VisibleOk(r', segs) && DiskPending(r', Mark(j, e), segs) && MediaOk(r', segs, d, o)
  {
    var r' := r.(disk := r.disk[e := r.slots[j].nv]);
    assert SlotOk(c, r, turn, WriteDisk(j, e), j);
    assert Shows(r, segs, j);
    assert |segs[e - 1]| == c.segmentSize;
    assert r.slots[j].nv == Data(segs[e - 1]);
    forall x | 1 <= x <= r'.lastSynced ensures OnDiskOk(r', segs, x) {
      assert OnDiskOk(r, segs, x);
    }
    forall j | 0 <= j < |r'.slots| ensures Shows(r', segs, j) {
      assert Shows(r, segs, j);
    }
    forall j: nat, k: nat | Due(r', segs, d, o, j, k) ensures Persisted(r', segs, j, k) {
      assert Due(r, segs, d, o, j, k);
    }
  }

  lemma DiskFailKeeps(c: Config, r: Ring, segs: seq<seq<Entry>>, turn: Turn, j: nat, e: nat, d: nat, o: nat,
                      partial: seq<byte>, r': Ring)
    requires RingOk(c, r, turn, WriteDisk(j, e))
    requires VisibleOk(r, segs) && MediaOk(r, segs, d, o)
    requires r' == SetSlot(r, j, r.slots[j].(error := true)).(disk := r.disk[e := partial])
    ensures VisibleOk(r', segs) && DiskPending(r', Stopped, segs) && MediaOk(r', segs, d, o)
  {
    assert forall k | 0 <= k < |r.slots| :: SameImages(r.slots[k], r'.slots[k]);
    forall x | 1 <= x <= r'.lastSynced ensures OnDiskOk(r', segs, x) {
      assert OnDiskOk(r, segs, x);
    }
    forall j | 0 <= j < |r'.slots| ensures Shows(r', segs, j) {
      assert Shows(r, segs, j);
    }
    forall j: nat, k: nat | Due(r', segs, d, o, j, k) ensures Persisted(r', segs, j, k) {
      assert Due(r, segs, d, o, j, k);
      assert SameImages(r.slots[j], r'.slots[j]);
    }
  }

  lemma BumpKeeps(c: Config, r: Ring, segs: seq<seq<Entry>>, turn: Turn, j: nat, e: nat, d: nat, o: nat)
    requires RingOk(c, r, turn, Bump(j, e))
    requires VisibleOk(r, segs) && DiskPending(r, Bump(j, e), segs) && MediaOk(r, segs, d, o)
    ensures var r' := r.(lastSynced := e);
            VisibleOk(r', segs) && DiskPending(r', Poll, segs) && MediaOk(r', segs, d, o)
  {
    var r' := r.(lastSynced := e);
    forall x | 1 <= x <= r'.lastSynced ensures OnDiskOk(r', segs, x) {
      assert x <= r.lastSynced ==> OnDiskOk(r, segs, x);
    }
    forall j | 0 <= j < |r'.slots| ensures Shows(r', segs, j) {
      assert Shows(r, segs, j);
    }
    forall j: nat, k: nat | Due(r', segs, d, o, j, k) ensures Persisted(r', segs, j, k) {
      assert Due(r, segs, d, o, j, k);
    }
  }

  // ---------------------------------------------------------------- media

  /** Making part of a visible image persistent never loses anything. */
  lemma SyncMediaKeeps(c: Config, r: Ring, segs: seq<seq<Entry>>, f: Fsyncer, d: nat, o: nat, i: nat, media: seq<byte>,
                       r': Ring)
    requires c.Valid() && RingShape(c, r) && i < |r.slots|
    requires VisibleOk(r, segs) && DiskPending(r, f, segs) && MediaOk(r, segs, d, o)
    requires |media| == c.segmentSize
    requires forall k | 0 <= k < c.segmentSize :: media[k] == r.slots[i].media[k] || media[k] == r.slots[i].nv[k]
    requires r' == SetSlot(r, i, r.slots[i].(media := media))
    ensures VisibleOk(r', segs) && DiskPending(r', f, segs) && MediaOk(r', segs, d, o)
  {
    forall j | 0 <= j < |r'.slots| ensures Shows(r', segs, j) {
      assert Shows(r, segs, j);
    }
    forall x | 1 <= x <= r'.lastSynced ensures OnDiskOk(r', segs, x) {
      assert OnDiskOk(r, segs, x);
    }
    forall j: nat, k: nat | Due(r', segs, d, o, j, k) ensures Persisted(r', segs, j, k) {
      assert Due(r, segs, d, o, j, k);
      assert Shows(r, segs, j);
    }
  }

  /** One round of the persist loop: the segment after those already done. */
  lemma PersistExtends(c: Config, r: Ring, segs: seq<seq<Entry>>, turn: Turn, f: Fsyncer, rec: Record, onDisk: nat,
                       d: nat, r': Ring)
    requires RingOk(c, r, turn, f) && SegsOk(c, r, segs) && VisibleOk(r, segs)
    requires MediaOk(r, segs, d, 0) && MediaOk(r, segs, rec.fromSeg, rec.fromOff)
    requires 1 <= rec.fromSeg <= d <= rec.toSeg == r.cur && rec.toOff == |segs[r.cur - 1]|
    requires rec.fromOff <= c.segmentSize
    requires onDisk <= r.lastSynced
    requires if d <= onDisk then r' == r
             else var j := SlotOf(c.segmentCount, d);
               && PersistFrom(rec, d) <= PersistTo(c, rec, d) <= c.segmentSize
               && r' == SetSlot(r, j, Flushed(r.slots[j], PersistFrom(rec, d), PersistTo(c, rec, d)))
    ensures MediaOk(r', segs, d + 1, 0)
  {
    forall j: nat, k: nat | Due(r', segs, d + 1, 0, j, k) ensures Persisted(r', segs, j, k) {
      assert Shows(r, segs, j);
      assert SlotOk(c, r, turn, f, j);
      if r.slots[j].dsid < d {
        assert Due(r, segs, d, 0, j, k);
      } else if k < PersistFrom(rec, d) {
        assert Due(r, segs, rec.fromSeg, rec.fromOff, j, k);
      }
    }
  }
}
