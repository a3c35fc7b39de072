/** The log cursor (src/nvwal_impl_cursor.c): opening it and calling next until it is exhausted
    walks through the chunks of the requested epochs in order, while the log grows. */
module Cursor {
  import opened Base
  import opened CursorChunks

  /** Records fetched ahead (kNvwalCursorEpochPrefetches). */
  const EPOCH_PREFETCH: nat := 2

  class LogCursor {
    const start: nat
    const end: nat
    const fetched: array<Record>
    var fetchedCount: nat
    var fetchedAt: nat
    var current: nat
    var curOffset: nat
    var curLen: nat
    /** The open segment; 0 if none, and then the cursor is exhausted. */
    var curSegment: nat

    predicate IsValid()
      reads this
    {
      curSegment != 0
    }

    /** What the client may read now. */
    function Here(): Chunk
      reads this
    {
      Chunk(current, curSegment, curOffset, curLen)
    }

    /** The records fetched ahead are those of the current epoch and the following ones. */
    ghost predicate Fetched(w: Snapshot)
      reads this, fetched
    {
      && fetched.Length == EPOCH_PREFETCH && fetchedAt <= fetchedCount <= EPOCH_PREFETCH && current >= 1
      && current + fetchedCount - fetchedAt <= |w.records| + 1
      && (fetchedAt < fetchedCount ==> current + fetchedCount - fetchedAt <= end)
      && forall k | fetchedAt <= k < fetchedCount :: fetched[k] == w.records[current - 1 + k - fetchedAt]
    }

    lemma CurrentRecord(w: Snapshot)
      requires Fetched(w) && fetchedAt < fetchedCount
      ensures fetched[fetchedAt] == w.records[current - 1]
    {
    }

    /** Inside an epoch, possibly between two of its segments. */
    ghost predicate Reading(w: Snapshot)
      reads this, fetched
    {
      && w.Valid() && 1 <= start <= current && IsValid()
      && Fetched(w) && fetchedAt < fetchedCount
      && var rec := fetched[fetchedAt];
      && rec.fromSeg <= curSegment <= rec.toSeg
      && (curSegment == rec.toSeg ==> curOffset + curLen == rec.toOff)
    }

    /** Settled on one of the chunks of the current epoch. */
    ghost predicate Valid(w: Snapshot)
      reads this, fetched
    {
      && w.Valid() && 1 <= start <= current
      && fetched.Length == EPOCH_PREFETCH
      && (IsValid() ==>
            && Reading(w)
            && var rec := w.records[current - 1];
            && curSegment - rec.fromSeg < Stops(rec)
            && Here() == Chunks(w, current)[curSegment - rec.fromSeg])
    }

    /** A position computed like this is one of the chunks of the current epoch. */
    lemma Settles(w: Snapshot)
      requires Reading(w)
      requires var rec := fetched[fetchedAt];
               && (curSegment > rec.fromSeg ==> rec.toOff != 0)
               && curOffset == PieceFrom(rec, curSegment - rec.fromSeg)
               && curOffset + curLen == if curSegment == rec.toSeg then rec.toOff else w.size
      ensures Valid(w) && Here() == Chunks(w, current)[curSegment - w.records[current - 1].fromSeg]
    {
      CurrentRecord(w);
      RecordFacts(w, current);
    }

    lemma Exhausted(w: Snapshot)
      requires w.Valid() && 1 <= start <= current && fetched.Length == EPOCH_PREFETCH && !IsValid()
      ensures Valid(w)
    {
    }

    lemma StillValid(w: Snapshot, w': Snapshot)
      requires Valid(w) && w'.Valid() && Grown(w, w')
      ensures Valid(w')
    {
    }

    /** Opens the cursor on the first chunk of `begin`, if there is one. */
    constructor (w: Snapshot, begin: nat, end: nat)
      requires w.Valid() && 1 <= begin && (begin < end ==> begin <= |w.records| + 1)
      ensures Valid(w) && start == begin == current && this.end == end && fresh(fetched)
      ensures IsValid() <==> begin < end && begin <= |w.records|
      ensures IsValid() ==> curSegment == w.records[begin - 1].fromSeg && Here() == Chunks(w, begin)[0]
    {
      hide Chunks, Stops, Snapshot.Valid, Snapshot.Placed, LogCursor.Valid;
      start, this.end := begin, end;
      fetched := new Record[EPOCH_PREFETCH](_ => Record(0, 0, 0, 0, 0, 0, 0));
      fetchedCount, fetchedAt, current, curOffset, curLen, curSegment := 0, 0, begin, 0, 0, 0;
      new;
      if begin < end {
        Fetch(w, begin);
        if fetchedCount > 0 {
          var meta := fetched[0];
          CurrentRecord(w);
          RecordFacts(w, begin);
          curSegment := meta.fromSeg;
          curOffset := meta.fromOff;
          curLen := (if meta.toSeg != meta.fromSeg then w.size else meta.toOff) - curOffset;
          Settles(w);
          return;
        }
      }
      Exhausted(w);
    }

    /** Fetches the records of up to two epochs, as far as they are durable and asked for. */
    method Fetch(w: Snapshot, from: nat)
      requires w.Valid() && 1 <= from <= |w.records| + 1 && from <= end && from == current
      requires fetched.Length == EPOCH_PREFETCH
      modifies this`fetchedCount, this`fetchedAt, fetched
      ensures Fetched(w) && fetchedAt == 0
      ensures fetchedCount == Min(Min(from + EPOCH_PREFETCH, end), |w.records| + 1) - from
    {
      hide Snapshot.Valid;
      var to := from + EPOCH_PREFETCH;
      if to > end {
        to := end;
      }
      if to > |w.records| {
        to := |w.records| + 1;
      }
      fetchedAt, fetchedCount := 0, 0;
      if to == from {
        return;
      }
      var i := 0;
      while i < EPOCH_PREFETCH
        invariant i == fetchedCount < to - from && fetchedAt == 0
        invariant forall k | 0 <= k < i :: fetched[k] == w.records[from - 1 + k]
      {
        fetched[i] := w.records[from - 1 + i];
        fetchedCount := fetchedCount + 1;
        i := i + 1;
        if from + i >= to {
          break;
        }
      }
    }

    /** Positioned at the start of one of the pieces of the current epoch. */
    ghost predicate Entered(w: Snapshot)
      reads this, fetched
    {
      && w.Valid() && 1 <= start <= current && IsValid()
      && Fetched(w) && fetchedAt < fetchedCount
      && var rec := fetched[fetchedAt];
      && rec.fromSeg <= curSegment <= rec.toSeg
      && (curSegment > rec.fromSeg ==> rec.toOff != 0)
      && curOffset == PieceFrom(rec, curSegment - rec.fromSeg)
    }

    /** Steps to the next epoch. It starts where the last one ended, so the segment stays open. */
    method NextEpoch(w: Snapshot) returns (more: bool)
      requires Reading(w) && curSegment == fetched[fetchedAt].toSeg
      modifies this`current, this`fetchedAt, this`fetchedCount, this`curSegment, this`curOffset, fetched
      ensures current == old(current) + 1 && (more <==> current < end && current <= |w.records|)
      ensures if more then Entered(w) && curSegment == old(curSegment) == w.records[current - 1].fromSeg else !IsValid()
    {
      hide Snapshot.Valid, Snapshot.Placed, LogCursor.Valid, Chunks, Stops;
      CurrentRecord(w);
      RecordFacts(w, current);
      current := current + 1;
      fetchedAt := fetchedAt + 1;
      if fetchedAt >= fetchedCount {
        Fetch(w, current);
        if fetchedCount == 0 {
          curSegment := 0;
          return false;
        }
      }
      CurrentRecord(w);
      RecordFacts(w, current);
      curOffset := fetched[fetchedAt].fromOff;
      return true;
    }

    method SetLength(w: Snapshot)
      requires Entered(w)
      modifies this`curLen
      ensures Valid(w)
    {
      hide Snapshot.Valid, Snapshot.Placed, LogCursor.Valid, Chunks, Stops;
      var meta := fetched[fetchedAt];
      CurrentRecord(w);
      RecordFacts(w, current);
      if meta.toSeg != curSegment {
        curLen := w.size - curOffset;
      } else {
        curLen := meta.toOff - curOffset;
      }
      Settles(w);
    }

    /** Moves on: to the next segment of the epoch, or to the next epoch, or to the end. */
    method Next(w: Snapshot)
      requires Reading(w)
      modifies this, fetched
      ensures Valid(w)
      ensures var rec := old(w.records[current - 1]);
              if old(curSegment) < rec.toSeg && rec.toOff != 0
              then IsValid() && current == old(current) && curSegment == old(curSegment) + 1
              else
                && current == old(current) + 1
                && (IsValid() <==> current < end && current <= |w.records|)
                && (IsValid() ==> curSegment == w.records[current - 1].fromSeg)
      decreases fetched[fetchedAt].toSeg - curSegment
    {
      hide Chunks, Stops, Snapshot.Valid, Snapshot.Placed, LogCursor.Valid;
      var meta := fetched[fetchedAt];
      CurrentRecord(w);
      if meta.toSeg == curSegment {
        assert meta.toOff == curOffset + curLen;
        var more := NextEpoch(w);
        if !more {
          Exhausted(w);
          return;
        }
      } else {
        curSegment := curSegment + 1;
        curOffset := 0;
        if meta.toOff == 0 {
          curLen := 0;
          Next(w);
          return;
        }
      }
      SetLength(w);
    }
  }

  // ================================================================ reading everything

  /** The moments at which the log is looked at. */
  ghost predicate Growing(w: Snapshot, later: seq<Snapshot>) {
    && w.Valid() && (forall i | 0 <= i < |later| :: later[i].Valid() && Grown(w, later[i]))
    && forall i, j | 0 <= i < j < |later| :: Grown(later[i], later[j])
  }

  /** Where a reader is: everything before the current chunk has been handed out. */
  ghost predicate Progress(w: Snapshot, begin: nat, end: nat, valid: bool, e: nat, seg: nat, out: seq<Chunk>)
    requires w.Valid() && 1 <= begin
  {
    if valid then
      && begin <= e <= |w.records|
      && var rec := w.records[e - 1];
      && 0 <= seg - rec.fromSeg < Stops(rec)
      && out == SoFar(w, begin, e, seg - rec.fromSeg)
    else e == Min(end, |w.records| + 1) && out == AllChunks(w, begin, e)
  }

  /** One move of the cursor hands out one more chunk. */
  lemma MovesOn(w: Snapshot, begin: nat, end: nat, e: nat, seg: nat, out: seq<Chunk>, valid': bool, e': nat, seg': nat)
    requires w.Valid() && 1 <= begin && Progress(w, begin, end, true, e, seg, out) && e < end
    requires var rec := w.records[e - 1];
             if seg < rec.toSeg && rec.toOff != 0 then valid' && e' == e && seg' == seg + 1
             else e' == e + 1 && (valid' <==> e' < end && e' <= |w.records|) && (valid' ==> seg' == w.records[e' - 1].fromSeg)
    ensures var rec := w.records[e - 1];
            Progress(w, begin, end, valid', e', seg', out + [Chunks(w, e)[seg - rec.fromSeg]])
  {
    hide AllChunks, SoFar, Chunks;
    RecordFacts(w, e);
    OneMore(w, begin, e, seg - w.records[e - 1].fromSeg);
    if valid' { RecordFacts(w, e'); }
  }

  /** One round of the client's loop: take the chunk, move on. The log may have grown in between. */
  method Take(cursor: LogCursor, w: Snapshot, now: Snapshot, ghost out: seq<Chunk>) returns (c: Chunk)
    requires cursor.Valid(w) && cursor.IsValid() && now.Valid() && Grown(w, now)
    requires Progress(w, cursor.start, cursor.end, true, cursor.current, cursor.curSegment, out)
    modifies cursor, cursor.fetched
    ensures cursor.Valid(now)
    ensures Progress(now, cursor.start, cursor.end, cursor.IsValid(), cursor.current, cursor.curSegment, out + [c])
    ensures old(cursor.current) <= cursor.current && old(cursor.current) < cursor.end
    ensures cursor.current == old(cursor.current) ==>
              && cursor.IsValid() && LastSegment(now, cursor.current) == LastSegment(w, cursor.current)
              && old(cursor.curSegment) < cursor.curSegment <= LastSegment(now, cursor.current)
  {
    hide Chunks, Stops, Snapshot.Valid, Snapshot.Placed, Grown, AllChunks, SoFar;
    ghost var e, seg := cursor.current, cursor.curSegment;
    cursor.StillValid(w, now);
    GrownSoFar(w, now, cursor.start, e, seg - w.records[e - 1].fromSeg);
    cursor.CurrentRecord(now);
    c := cursor.Here();
    cursor.Next(now);
    MovesOn(now, cursor.start, cursor.end, e, seg, out, cursor.IsValid(), cursor.current, cursor.curSegment);
    assert cursor.current == e ==> cursor.curSegment <= LastSegment(now, e) by {
      if cursor.IsValid() { cursor.CurrentRecord(now); }
    }
  }

  /** The loop of a client: open, then next until the cursor is exhausted, while the log grows from
      `w` through the moments `later`. The result is every chunk of every epoch from `begin` up to
      `end` or to the last epoch that was durable when the cursor ran out. */
  method ReadAll(w: Snapshot, later: seq<Snapshot>, begin: nat, end: nat)
    returns (out: seq<Chunk>, now: Snapshot, ghost at: nat)
    requires Growing(w, later) && 1 <= begin && (begin < end ==> begin <= |w.records| + 1)
    ensures at <= |later| && now == (if at == 0 then w else later[at - 1]) && now.Valid() && Grown(w, now)
    ensures begin < end ==> out == AllChunks(now, begin, Min(end, |now.records| + 1))
    ensures begin >= end ==> out == []
  {
    hide Chunks, Stops, Snapshot.Valid, Snapshot.Placed, Grown, AllChunks, SoFar;
    GrownRefl(w);
    now, out := w, [];
    var cursor := new LogCursor(now, begin, end);
    if begin < end { Starts(now, begin); }
    var i := 0;
    while cursor.IsValid()
      invariant cursor.Valid(now) && cursor.end == end && cursor.start == begin && fresh(cursor) && fresh(cursor.fetched)
      invariant i <= |later| && (now == if i == 0 then w else later[i - 1]) && now.Valid() && Grown(w, now)
      invariant if begin < end then Progress(now, begin, end, cursor.IsValid(), cursor.current, cursor.curSegment, out)
                else !cursor.IsValid() && out == []
      decreases end - cursor.current,
                if cursor.IsValid() then LastSegment(now, cursor.current) - cursor.curSegment else 0
    {
      var before := now;
      if i < |later| {
        now := later[i];
        i := i + 1;
      }
      GrownRefl(before);
      var c := Take(cursor, before, now, out);
      out := out + [c];
    }
    at := i;
  }

  function LastSegment(w: Snapshot, e: nat): nat {
    if 1 <= e <= |w.records| then w.records[e - 1].toSeg else 0
  }

  lemma GrownRefl(w: Snapshot)
    ensures Grown(w, w)
  {
  }

  /** Before the first chunk nothing was handed out. */
  lemma Starts(w: Snapshot, begin: nat)
    requires w.Valid() && 1 <= begin <= |w.records| + 1
    ensures AllChunks(w, begin, begin) == []
    ensures begin <= |w.records| ==> w.records[begin - 1].fromSeg <= w.records[begin - 1].toSeg && SoFar(w, begin, begin, 0) == []
  {
  }
}
