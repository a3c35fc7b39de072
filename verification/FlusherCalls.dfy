/** The loops of the flusher (src/nvwal_api.c) as methods on the ring of NV segments: copying what one
    writer has, turning to the next segment, and persisting an epoch. Each leaves the ring as the
    corresponding steps of the pipeline do. What other threads do while the flusher waits is a
    parameter. */
module FlusherCalls {
  import opened Base
  import opened Circular
  import opened Restart
  import opened LogStream
  import opened EpochRanges
  import opened Pipeline

  /** For the turn to each segment, if its slot has to be waited for: after how many polls the fsyncer
      is through with the slot, and whether it failed. */
  type Environment = nat -> (nat, bool)

  class NvRing {
    const size: nat
    const count: nat
    const nv: array2<byte>       // what loads see, one row per slot
    const media: array2<byte>    // what survives a power failure
    const dsid: array<nat>
    const written: array<nat>
    const requested: array<bool>
    const completed: array<bool>
    const error: array<bool>
    const pins: array<int>
    var cur: nat
    /** The log: the bytes of segment d at index d - 1. */
    ghost var segs: seq<seq<byte>>

    ghost predicate Shaped()
      reads this`cur
    {
      Sized() && cur >= 1
    }

    ghost predicate Sized() {
      && size > 0 && count >= 2
      && nv.Length0 == media.Length0 == count && nv.Length1 == media.Length1 == size
      && dsid.Length == written.Length == count && requested.Length == completed.Length == error.Length == count
      && pins.Length == count
      && nv != media && dsid != written && requested != completed && requested != error && completed != error
    }

    ghost predicate Numbered()
      reads this, dsid
    {
      Shaped() && forall j | 0 <= j < count :: dsid[j] >= 1 && SlotOf(count, dsid[j]) == j
    }

    /** A slot in use shows its segment. */
    ghost predicate Shows(j: nat)
      requires Shaped() && j < count
      reads this, nv, dsid
    {
      1 <= dsid[j] <= |segs| ==>
        |segs[dsid[j] - 1]| <= size && forall k | 0 <= k < |segs[dsid[j] - 1]| :: nv[j, k] == segs[dsid[j] - 1][k]
    }

    /** Full segments and the current one. */
    ghost predicate Valid()
      reads this, nv, dsid, written
    {
      && Numbered() && |segs| == cur
      && dsid[SlotOf(count, cur)] == cur && written[SlotOf(count, cur)] == |segs[cur - 1]|
      && (forall d | 0 <= d < cur - 1 :: |segs[d]| == size)
      && forall j | 0 <= j < count :: Shows(j)
    }

    /** The slot the next segment needs is not free yet. */
    predicate Waiting()
      requires Shaped()
      reads this`cur, requested, completed
    {
      requested[SlotOf(count, cur + 1)] && !completed[SlotOf(count, cur + 1)]
    }

    // -------------------------------------------------------------- the ring of the pipeline

    ghost function Row(m: array2<byte>, j: nat): (r: seq<byte>)
      requires j < m.Length0
      reads m
      ensures |r| == m.Length1 && forall k | 0 <= k < |r| :: r[k] == m[j, k]
    {
      seq(m.Length1, k requires 0 <= k < m.Length1 reads m => m[j, k])
    }

    ghost function SlotAt(j: nat): Slot
      requires Sized() && j < count
      reads nv, media, dsid, written, requested, completed, error, pins
    {
      Slot(dsid[j], written[j], requested[j], completed[j], error[j], pins[j], Row(nv, j), Row(media, j))
    }

    // -------------------------------------------------------------- persisting an epoch

    /** Persists exactly the part of the record's range that is not on disk, as the persist loop of the
        pipeline does. */
    method PersistRange(rec: Record, onDisk: nat)
      requires Numbered() && 1 <= rec.fromSeg && rec.fromOff <= size && rec.toOff <= size
      requires rec.fromSeg == rec.toSeg ==> rec.fromOff <= rec.toOff
      requires forall d | rec.fromSeg <= d <= rec.toSeg && onDisk < d :: dsid[SlotOf(count, d)] == d
      modifies media
      ensures forall j, k | 0 <= j < count && 0 <= k < size ::
                media[j, k] == if onDisk < dsid[j] && InRange(rec, dsid[j], k) then nv[j, k] else old(media[j, k])
    {
      var d := rec.fromSeg;
      while d <= rec.toSeg
        invariant rec.fromSeg <= d && (rec.fromSeg <= rec.toSeg ==> d <= rec.toSeg + 1)
        invariant forall j, k | 0 <= j < count && 0 <= k < size ::
                    media[j, k] == if onDisk < dsid[j] < d && InRange(rec, dsid[j], k) then nv[j, k] else old(media[j, k])
      {
        if d > onDisk {
          var from := if d == rec.fromSeg then rec.fromOff else 0;
          var to := if d == rec.toSeg then rec.toOff else size;
          assert from <= to;
          var j := SlotOf(count, d);
          assert dsid[j] == d;
          forall k | from <= k < to {
            media[j, k] := nv[j, k];
          }
        }
        d := d + 1;
      }
    }

    // -------------------------------------------------------------- copying one writer

    /** A circular copy into part of a slot. */
    method CopyRow(buffer: array<byte>, head: nat, n: nat, j: nat, at: nat)
      requires Shaped() && head < buffer.Length && n <= buffer.Length && j < count && at + n <= size
      modifies nv
      ensures forall i, k | 0 <= i < count && 0 <= k < size ::
                nv[i, k] == if i == j && at <= k < at + n then CircularRead(buffer[..], head, n)[k - at] else old(nv[i, k])
    {
      forall k | at <= k < at + n {
        nv[j, k] := buffer[WrapOffset(buffer.Length, head + (k - at))];
      }
      forall k | at <= k < at + n ensures nv[j, k] == CircularRead(buffer[..], head, n)[k - at] {
        CircularReadAt(buffer[..], head, n, k - at);
      }
    }

    /** Copies `n` bytes behind the written part of the current segment. */
    method Append(buffer: array<byte>, head: nat, n: nat)
      requires Valid() && head < buffer.Length && n <= buffer.Length && written[SlotOf(count, cur)] + n <= size
      modifies nv, written, this`segs
      ensures Valid()
      ensures segs == old(segs)[cur - 1 := old(segs[cur - 1]) + CircularRead(buffer[..], head, n)]
      ensures written[SlotOf(count, cur)] == old(written[SlotOf(count, cur)]) + n
      ensures Appended(old(SlotAt(SlotOf(count, cur))), SlotAt(SlotOf(count, cur)), CircularRead(buffer[..], head, n))
    {
      hide CircularRead, SlotOf;
      var j := SlotOf(count, cur);
      var at := written[j];
      assert Shows(j);
      CopyRow(buffer, head, n, j, at);
      written[j] := at + n;
      segs := segs[cur - 1 := segs[cur - 1] + CircularRead(buffer[..], head, n)];
      forall i | 0 <= i < count ensures Shows(i) {
        assert old(Shows(i));
      }
    }

    /** Lets the other threads run. A fsyncer that failed has stopped; otherwise it is through with the
        slot at the last of its polls. */
    method Yield(next: nat, last: bool, fails: bool)
      requires Shaped() && next < count
      modifies completed, error
      ensures var done := last && !old(error[next]);
              && completed[..] == (if done && !fails then old(completed[..])[next := true] else old(completed[..]))
              && error[..] == (if done && fails then old(error[..])[next := true] else old(error[..]))
    {
      if last && !error[next] {
        if fails {
          error[next] := true;
        } else {
          completed[next] := true;
        }
      }
    }

    /** Polls until the fsyncer is through with a slot. */
    method WaitFor(next: nat, env: (nat, bool)) returns (ok: bool)
      requires Shaped() && next < count
      modifies completed, error
      ensures var waiting := old(requested[next] && !completed[next]);
              && (ok <==> !(waiting && (env.1 || old(error[next]))))
              && completed[..] == (if ok && waiting then old(completed[..])[next := true] else old(completed[..]))
              && error[..] == (if ok then old(error[..]) else old(error[..])[next := true])
    {
      var polls := 0;
      while requested[next] && !completed[next]
        invariant polls <= env.0 && error[..] == old(error[..])
        invariant completed[next] == old(completed[next]) ==> completed[..] == old(completed[..])
        invariant completed[next] != old(completed[next]) ==>
                    && completed[..] == old(completed[..])[next := true] && !env.1 && !old(error[next])
                    && requested[next] && !old(completed[next])
        decreases !completed[next], env.0 - polls
      {
        Yield(next, polls == env.0, env.1);
        if error[next] {
          assert old(error[next]) ==> error[..] == old(error[..])[next := true];
          return false;
        }
        if polls < env.0 {
          polls := polls + 1;
        }
      }
      return true;
    }

    /** Hands the full segment to the fsyncer and waits for the next slot. */
    method Request(full: nat, next: nat, env: (nat, bool)) returns (ok: bool)
      requires Shaped() && full < count && next < count && full != next
      modifies requested, completed, error
      ensures var waiting := old(requested[next] && !completed[next]);
              && (ok <==> !(waiting && (env.1 || old(error[next]))))
              && forall j | 0 <= j < count ::
                   SlotAt(j) == if j == full then old(SlotAt(j)).(requested := true)
                                else if j == next && !ok then old(SlotAt(j)).(error := true)
                                else if j == next && waiting then old(SlotAt(j)).(completed := true)
                                else old(SlotAt(j))
      ensures forall j | 0 <= j < count :: error[j] == (old(error[j]) || (j == next && !ok))
    {
      requested[full] := true;
      ok := WaitFor(next, env);
      forall j | 0 <= j < count ensures completed[j] == completed[..][j] && error[j] == error[..][j] {
      }
    }

    /** Recycles a slot under the lock, once its readers have left. */
    method Recycle(next: nat, d: nat)
      requires Shaped() && next < count
      modifies dsid, written, requested, completed, error, pins
      ensures forall j | 0 <= j < count :: SlotAt(j) == if j == next then Recycled(old(SlotAt(j)), d) else old(SlotAt(j))
      ensures forall j | 0 <= j < count ::
                && dsid[j] == (if j == next then d else old(dsid[j]))
                && written[j] == (if j == next then 0 else old(written[j]))
                && error[j] == (if j == next then false else old(error[j]))
    {
      pins[next] := -1;
      dsid[next] := d;
      written[next] := 0;
      completed[next] := false;
      error[next] := false;
      requested[next] := false;
      pins[next] := 0;
    }

    /** Moves on to the next segment, unless the fsyncer failed on the slot it needs. */
    method MoveOntoNext(env: Environment) returns (ok: bool)
      requires Valid() && written[SlotOf(count, cur)] == size
      modifies dsid, written, requested, completed, error, pins, this`cur, this`segs
      ensures Valid()
      ensures ok <==> !(old(Waiting()) && (env(old(cur) + 1).1 || old(error[SlotOf(count, cur + 1)])))
      ensures if ok then cur == old(cur) + 1 && segs == old(segs) + [[]] && written[SlotOf(count, cur)] == 0
              else cur == old(cur) && segs == old(segs) && written[SlotOf(count, cur)] == size
      ensures var full, next := SlotOf(count, old(cur)), SlotOf(count, old(cur) + 1);
              forall j | 0 <= j < count ::
                SlotAt(j) == if j == full then old(SlotAt(j)).(requested := true)
                             else if j != next then old(SlotAt(j))
                             else if ok then Recycled(old(SlotAt(j)), old(cur) + 1)
                             else old(SlotAt(j)).(error := true)
      ensures forall j | 0 <= j < count ::
                error[j] == if j == SlotOf(count, old(cur) + 1) then !ok else old(error[j])
    {
      hide SlotOf, NvRing.Row;
      var full, next := SlotOf(count, cur), SlotOf(count, cur + 1);
      SameSlot(count, cur, cur + 1);
      ok := Request(full, next, env(cur + 1));
      if !ok {
        return;
      }
      Recycle(next, cur + 1);
      cur := cur + 1;
      segs := segs + [[]];
      forall i | 0 <= i < count ensures Shows(i) {
        assert old(Shows(i));
      }
    }

    // -------------------------------------------------------------- the copy loop

    /** One round: as much as fits, then the next segment if this one is full. */
    method CopyOnce(buffer: array<byte>, head: nat, distance: nat, env: Environment) returns (ok: bool, copied: nat)
      requires Valid() && written[SlotOf(count, cur)] < size
      requires head < buffer.Length && 0 < distance < buffer.Length
      modifies nv, dsid, written, requested, completed, error, pins, this`cur, this`segs
      ensures Shaped() && Valid() && 0 < copied == Min(size - old(written[SlotOf(count, cur)]), distance)
      ensures Flat(segs) == old(Flat(segs)) + CircularRead(buffer[..], head, copied)
      ensures ok ==> written[SlotOf(count, cur)] < size && forall j | 0 <= j < count :: error[j] ==> old(error[j])
      ensures !ok ==> written[SlotOf(count, cur)] == size && error[SlotOf(count, cur + 1)]
      ensures !ok ==> old(cur) == cur && (env(cur + 1).1 || old(error[SlotOf(count, cur + 1)]))
    {
      hide CircularRead, SlotOf, NvRing.Valid, NvRing.SlotAt;
      Basics();
      ok := true;
      var j := SlotOf(count, cur);
      var writable := size - written[j];
      copied := if writable < distance then writable else distance;
      FlatAppend(segs, CircularRead(buffer[..], head, copied));
      Append(buffer, head, copied);
      if written[j] == size {
        FlatNewSegment(segs);
        ok := MoveOntoNext(env);
      }
    }

    lemma Basics()
      requires Valid()
      ensures |segs| == cur && Shaped() && cur >= 1
    {
    }

    /** Writes out what lies between `head` and `tail`, over as many segments as it takes. It stops with
        an error if the fsyncer fails on a slot it has to wait for; the bytes up to the new head are
        in the log then. */
    method CopyOneWriter(buffer: array<byte>, head: nat, tail: nat, env: Environment) returns (ok: bool, newHead: nat)
      requires Valid() && written[SlotOf(count, cur)] < size
      requires head < buffer.Length && tail < buffer.Length
      modifies nv, dsid, written, requested, completed, error, pins, this`cur, this`segs
      ensures Valid() && newHead < buffer.Length
      ensures ok ==> newHead == tail && written[SlotOf(count, cur)] < size
      ensures !ok ==> written[SlotOf(count, cur)] == size && error[SlotOf(count, cur + 1)]
      ensures (forall j | 0 <= j < count :: !old(error[j])) && (forall d :: !env(d).1) ==> ok
      ensures var done := Distance(buffer.Length, head, newHead);
              && done <= Distance(buffer.Length, head, tail)
              && Flat(segs) == old(Flat(segs)) + CircularRead(buffer[..], head, done)
    {
      hide CircularRead, SlotOf, NvRing.Valid, NvRing.SlotAt, Flat;
      ghost var all := CircularRead(buffer[..], head, Distance(buffer.Length, head, tail));
      ghost var done := 0;
      ok, newHead := true, head;
      Basics();
      assert all[..0] == [];
      while ok && Distance(buffer.Length, newHead, tail) != 0
        invariant Valid() && Shaped() && newHead < buffer.Length
        invariant if ok then written[SlotOf(count, cur)] < size
                  else written[SlotOf(count, cur)] == size && error[SlotOf(count, cur + 1)]
        invariant (forall j | 0 <= j < count :: !old(error[j])) && (forall d :: !env(d).1) ==>
                    ok && forall j | 0 <= j < count :: !error[j]
        invariant done + Distance(buffer.Length, newHead, tail) == |all|
        invariant newHead == WrapOffset(buffer.Length, head + done)
        invariant Flat(segs) == old(Flat(segs)) + all[..done]
        decreases Distance(buffer.Length, newHead, tail)
      {
        var copied;
        ok, copied := CopyOnce(buffer, newHead, Distance(buffer.Length, newHead, tail), env);
        PartRead(buffer[..], head, all, done, copied);
        Onward(buffer.Length, newHead, tail, copied);
        newHead := WrapOffset(buffer.Length, newHead + copied);
        done := done + copied;
      }
      ReadPrefix(buffer[..], head, all, done);
    }
  }

  // ================================================================ as the pipeline does it

  /** The slot after a copy and the accounting for it. */
  ghost predicate Appended(x: Slot, y: Slot, bytes: seq<byte>) {
    x.written + |bytes| <= |x.nv| && y == x.(nv := Splice(x.nv, x.written, bytes), written := x.written + |bytes|)
  }

  /** The slot after it was recycled for segment `d`. */
  function Recycled(x: Slot, d: nat): Slot {
    x.(dsid := d, written := 0, requested := false, completed := false, error := false, pins := 0)
  }

  /** A turn of the pipeline, from the request to the end. */
  function TurnedThrough(c: Config, r: Ring): Ring
    requires c.Valid() && RingShape(c, r)
  {
    var full, next := CurSlot(c, r), NextSlot(c, r);
    SetSlot(SetSlot(r, full, r.slots[full].(requested := true)), next, Recycled(r.slots[next], r.cur + 1)).(cur := r.cur + 1)
  }

  /** It is the sequence of its steps. */
  lemma TurnIsItsSteps(c: Config, r: Ring)
    requires c.Valid() && RingShape(c, r)
    ensures var r1 := Turned(c, r, Request).0;
            && RingShape(c, r1)
            && var r2 := Turned(c, r1, Lock).0;
            && RingShape(c, r2)
            && var r3 := Turned(c, r2, SetDsid).0;
            && RingShape(c, r3)
            && var r4 := Turned(c, r3, ClearCompleted).0;
            && RingShape(c, r4)
            && var r5 := Turned(c, r4, ClearError).0;
            && RingShape(c, r5)
            && var r6 := Turned(c, r5, ClearRequested).0;
            && RingShape(c, r6)
            && Turned(c, r6, Unlock).0 == TurnedThrough(c, r)
  {
    hide RingShape, SlotOf, Turned;
    NextIsAnother(c, r);
    var full, next := CurSlot(c, r), NextSlot(c, r);
    var a, x := r.slots[full].(requested := true), r.slots[next];
    OneStep(c, r, r.slots[full], x, Request);
    var r1 := SetSlot(r, full, a);
    OneStep(c, r1, a, x, Lock);
    var x2 := x.(pins := -1);
    var r2 := SetSlot(r1, next, x2);
    OneStep(c, r2, a, x2, SetDsid);
    var x3 := x2.(dsid := r.cur + 1, written := 0);
    var r3 := SetSlot(r2, next, x3);
    OneStep(c, r3, a, x3, ClearCompleted);
    var x4 := x3.(completed := false);
    var r4 := SetSlot(r3, next, x4);
    OneStep(c, r4, a, x4, ClearError);
    var x5 := x4.(error := false);
    var r5 := SetSlot(r4, next, x5);
    OneStep(c, r5, a, x5, ClearRequested);
    var x6 := x5.(requested := false);
    OneStep(c, SetSlot(r5, next, x6), a, x6, Unlock);
  }

  lemma NextIsAnother(c: Config, r: Ring)
    requires c.Valid() && RingShape(c, r)
    ensures CurSlot(c, r) != NextSlot(c, r) && |r.slots| == c.segmentCount
  {
    SameSlot(c.segmentCount, r.cur, r.cur + 1);
  }

  lemma OneStep(c: Config, r: Ring, a: Slot, x: Slot, turn: Turn)
    requires c.Valid() && RingShape(c, r) && a == r.slots[CurSlot(c, r)] && x == r.slots[NextSlot(c, r)]
    ensures RingShape(c, Turned(c, r, turn).0)
    ensures var full, next := CurSlot(c, r), NextSlot(c, r);
            Turned(c, r, turn).0
            == match turn
               case Request => SetSlot(r, full, a.(requested := true))
               case Lock => SetSlot(r, next, x.(pins := -1))
               case SetDsid => SetSlot(r, next, x.(dsid := r.cur + 1, written := 0))
               case ClearCompleted => SetSlot(r, next, x.(completed := false))
               case ClearError => SetSlot(r, next, x.(error := false))
               case ClearRequested => SetSlot(r, next, x.(requested := false))
               case Unlock => SetSlot(r, next, x.(pins := 0)).(cur := r.cur + 1)
               case _ => r
  {
    hide SlotOf;
  }

  // ================================================================ arithmetic and contents

  /** Moving the head forward shortens the distance by as much. */
  lemma Onward(length: nat, head: nat, tail: nat, n: nat)
    requires head < length && tail < length && n <= Distance(length, head, tail)
    ensures Distance(length, WrapOffset(length, head + n), tail) == Distance(length, head, tail) - n
  {
  }

  /** Reading on from where the last copy ended. */
  lemma PartRead(buf: seq<byte>, head: nat, all: seq<byte>, done: nat, n: nat)
    requires head < |buf| && done + n <= |all| < |buf| && all == CircularRead(buf, head, |all|)
    ensures all[..done] + CircularRead(buf, WrapOffset(|buf|, head + done), n) == all[..done + n]
    ensures WrapOffset(|buf|, WrapOffset(|buf|, head + done) + n) == WrapOffset(|buf|, head + done + n)
  {
    hide CircularRead;
    var part := CircularRead(buf, WrapOffset(|buf|, head + done), n);
    forall k | 0 <= k < n ensures part[k] == all[done + k] {
      CircularReadAt(buf, head, |all|, done + k);
      CircularReadAt(buf, WrapOffset(|buf|, head + done), n, k);
    }
  }

  /** The first `n` bytes of a longer read. */
  lemma ReadPrefix(buf: seq<byte>, head: nat, all: seq<byte>, n: nat)
    requires head < |buf| && n <= |all| < |buf| && all == CircularRead(buf, head, |all|)
    ensures all[..n] == CircularRead(buf, head, n)
    ensures Distance(|buf|, head, WrapOffset(|buf|, head + n)) == n
  {
    hide CircularRead;
    var part := CircularRead(buf, head, n);
    forall k | 0 <= k < n ensures part[k] == all[k] {
      CircularReadAt(buf, head, |all|, k);
      CircularReadAt(buf, head, n, k);
    }
  }
}
