/** The cursor reads back what the pipeline logged: in every state of a run the log as a cursor sees
    it is well formed, it only grows between crashes, and the bytes of an epoch's range are exactly
    the bytes logged in that epoch. */
module CursorRoundTrip {
  import opened Base
  import opened LogStream
  import opened Restart
  import opened Pipeline
  import opened RingInvariant
  import opened LogInvariant
  import opened EpochRanges
  import opened CursorInvariant
  import opened WriterInvariant
  import opened StoreInvariant
  import opened PipelineInvariant
  import opened PipelineRuns
  import opened CursorChunks
  import PipelineTheorems
  import PipelineSafety

  // ================================================================ the log a cursor sees

  function SegmentBytes(segs: seq<seq<Entry>>): (r: seq<seq<byte>>)
    ensures |r| == |segs| && forall d | 0 <= d < |segs| :: r[d] == Data(segs[d])
  {
    seq(|segs|, d requires 0 <= d < |segs| => Data(segs[d]))
  }

  /** The records of the durable epochs, and the segments wherever they are. */
  ghost function View(size: nat, segs: seq<seq<Entry>>, mds: map<nat, Record>, durable: nat): Snapshot
    requires HasRecords(mds, durable)
  {
    Snapshot(size, Recorded(mds, durable), SegmentBytes(segs))
  }

  lemma ViewIsValid(size: nat, segs: seq<seq<Entry>>, mds: map<nat, Record>, durable: nat)
    requires size > 0 && Tiled(size, segs, mds, durable)
    requires forall d | 0 <= d < |segs| - 1 :: |segs[d]| == size
    ensures HasRecords(mds, durable) && View(size, segs, mds, durable).Valid()
  {
    assert HasRecords(mds, durable) by {
      forall e | 1 <= e <= durable ensures e in mds { assert RecordOk(size, segs, mds, e); }
    }
    var w := View(size, segs, mds, durable);
    forall i | 0 <= i < |w.records| ensures w.records[i].epoch == i + 1 && w.Placed(w.records[i]) {
      assert RecordOk(size, segs, mds, i + 1);
    }
    forall i, j | 0 <= i && j == i + 1 < |w.records| ensures Snapshot.Follows(w.records[i], w.records[j]) {
      assert Chained(mds, j + 1);
    }
  }

  // ================================================================ the bytes of a range

  /** A range within a log whose segments are full, except the last. */
  predicate RangeIn(size: nat, segs: seq<seq<Entry>>, rec: Record) {
    && 1 <= rec.fromSeg <= rec.toSeg <= |segs|
    && rec.fromOff < size && rec.toOff < size
    && (rec.fromSeg == rec.toSeg ==> rec.fromOff <= rec.toOff)
    && rec.toOff <= |segs[rec.toSeg - 1]|
    && forall d | 0 <= d < |segs| - 1 :: |segs[d]| == size
  }

  /** The `k`-th piece of a range, as entries. */
  function PieceEntries(size: nat, segs: seq<seq<Entry>>, rec: Record, k: nat): seq<Entry>
    requires RangeIn(size, segs, rec) && k < Pieces(rec)
  {
    segs[rec.fromSeg + k - 1][PieceFrom(rec, k)..PieceTo(size, rec, k)]
  }

  function FirstEntries(size: nat, segs: seq<seq<Entry>>, rec: Record, n: nat): seq<Entry>
    requires RangeIn(size, segs, rec) && n <= Pieces(rec)
  {
    if n == 0 then [] else FirstEntries(size, segs, rec, n - 1) + PieceEntries(size, segs, rec, n - 1)
  }

  lemma {:induction false} EntriesAreBytes(w: Snapshot, segs: seq<seq<Entry>>, rec: Record, n: nat)
    requires w.Valid() && w.segs == SegmentBytes(segs) && w.Placed(rec) && RangeIn(w.size, segs, rec)
    requires n <= Pieces(rec)
    ensures FirstPieces(w, rec, n) == Data(FirstEntries(w.size, segs, rec, n))
    decreases n
  {
    if n == 0 {
    } else {
      EntriesAreBytes(w, segs, rec, n - 1);
      assert Piece(w, rec, n - 1) == Data(PieceEntries(w.size, segs, rec, n - 1));
    }
  }

  /** The entries of an epoch that fill part of a segment. */
  lemma SliceIsEpoch(seg: seq<Entry>, from: nat, to: nat, e: nat)
    requires from <= to <= |seg|
    requires forall o | 0 <= o < |seg| :: seg[o].epoch == e <==> from <= o < to
    ensures OfEpoch(seg, e) == seg[from..to]
  {
    hide OfEpoch;
    var a, b, c := seg[..from], seg[from..to], seg[to..];
    assert seg == a + b + c;
    OfEpochConcat(a + b, c, e);
    OfEpochConcat(a, b, e);
    OfEpochNone(a, e);
    OfEpochNone(c, e);
    OfEpochAll(b, e);
  }

  lemma {:induction false} OfEpochAll(s: seq<Entry>, e: nat)
    requires forall i | 0 <= i < |s| :: s[i].epoch == e
    ensures OfEpoch(s, e) == s
    decreases |s|
  {
    if |s| == 0 {
    } else {
      OfEpochAll(s[..|s| - 1], e);
    }
  }

  /** In each segment the entries of the epoch are those in its range. */
  lemma PieceIsEpoch(size: nat, segs: seq<seq<Entry>>, rec: Record, e: nat, d: nat)
    requires RangeIn(size, segs, rec) && Covers(segs, rec, e) && 1 <= d <= |segs|
    ensures OfEpoch(segs[d - 1], e)
         == if rec.fromSeg <= d <= rec.toSeg then PieceEntries(size, segs, rec, d - rec.fromSeg) else []
  {
    hide OfEpoch;
    var seg: seq<Entry> := segs[d - 1];
    var inside := rec.fromSeg <= d <= rec.toSeg;
    var from := if inside then PieceFrom(rec, d - rec.fromSeg) else 0;
    var to := if inside then PieceTo(size, rec, d - rec.fromSeg) else 0;
    forall o: nat | o < |seg| ensures seg[o].epoch == e <==> from <= o < to {
      assert EpochAt(segs, d, o) == e <==> InRange(rec, d, o);
    }
    SliceIsEpoch(seg, from, to, e);
  }

  /** How many pieces of the range lie in the first `m` segments. */
  function Reached(rec: Record, m: nat): nat
    requires rec.fromSeg <= rec.toSeg
  {
    if m < rec.fromSeg then 0 else if m <= rec.toSeg then m - rec.fromSeg + 1 else Pieces(rec)
  }

  lemma {:induction false} EpochOfFirstSegments(size: nat, segs: seq<seq<Entry>>, rec: Record, e: nat, m: nat)
    requires RangeIn(size, segs, rec) && Covers(segs, rec, e) && m <= |segs|
    ensures OfEpoch(Flat(segs[..m]), e) == FirstEntries(size, segs, rec, Reached(rec, m))
    decreases m
  {
    if m == 0 {
    } else {
      hide OfEpoch, Flat, PieceEntries, Covers, RangeIn;
      EpochOfFirstSegments(size, segs, rec, e, m - 1);
      assert segs[..m] == segs[..m - 1] + [segs[m - 1]];
      FlatSnoc(segs[..m - 1], segs[m - 1]);
      OfEpochConcat(Flat(segs[..m - 1]), segs[m - 1], e);
      PieceIsEpoch(size, segs, rec, e, m);
    }
  }

  /** The range of an epoch holds exactly what was logged in it, in order. */
  lemma RangeIsEpoch(size: nat, segs: seq<seq<Entry>>, mds: map<nat, Record>, durable: nat, e: nat)
    requires size > 0 && Tiled(size, segs, mds, durable) && 1 <= e <= durable
    requires forall d | 0 <= d < |segs| - 1 :: |segs[d]| == size
    ensures HasRecords(mds, durable) && View(size, segs, mds, durable).Valid()
    ensures View(size, segs, mds, durable).Placed(mds[e])
    ensures EpochBytes(View(size, segs, mds, durable), mds[e]) == Data(OfEpoch(Flat(segs), e))
  {
    hide OfEpoch, Flat, FirstPieces, FirstEntries, Tiled, Snapshot.Valid, Snapshot.Placed, RangeIn, Covers, Data;
    ViewIsValid(size, segs, mds, durable);
    var w := View(size, segs, mds, durable);
    var rec := w.records[e - 1];
    RecordFacts(w, e);
    RecordRange(size, segs, mds, durable, e);
    EntriesAreBytes(w, segs, rec, Pieces(rec));
    EpochOfFirstSegments(size, segs, rec, e, |segs|);
    assert segs[..|segs|] == segs;
  }

  lemma RecordRange(size: nat, segs: seq<seq<Entry>>, mds: map<nat, Record>, durable: nat, e: nat)
    requires Tiled(size, segs, mds, durable) && 1 <= e <= durable
    requires forall d | 0 <= d < |segs| - 1 :: |segs[d]| == size
    ensures e in mds && RangeIn(size, segs, mds[e]) && Covers(segs, mds[e], e) && mds[e].toSeg <= |segs|
  {
    assert RecordOk(size, segs, mds, e);
  }

  // ================================================================ in every run

  /** What a cursor sees in a state. */
  ghost function Seen(c: Config, s: State): Snapshot
    requires HasRecords(s.mds, s.durable)
  {
    View(c.segmentSize, s.segs, s.mds, s.durable)
  }

  lemma SeenIsValid(c: Config, s: State)
    requires Inv(c, s)
    ensures HasRecords(s.mds, s.durable) && Seen(c, s).Valid()
  {
    hide RingOk, ReadersOk, StreamOk, StoreOk, WritersOk, FlushOk, EpochsOk, ConcludeOk, VisibleOk, MediaOk,
         DiskPending, Tiled, HeadOk;
    ViewIsValid(c.segmentSize, s.segs, s.mds, s.durable);
  }

  /** The round trip. For every durable epoch of every state of every run, a cursor yields exactly
      the bytes logged in the epoch, unless the epoch fills two or more segments up to a boundary
      after the one it starts in. */
  lemma ReadsBackTheLog(c: Config, states: seq<State>, steps: seq<Step>, i: nat, e: nat)
    requires IsRun(c, states, steps) && i < |states| && 1 <= e <= states[i].durable
    ensures var s := states[i];
            && HasRecords(s.mds, s.durable) && Seen(c, s).Valid() && Seen(c, s).Placed(s.mds[e])
            && var skips := s.mds[e].toOff == 0 && s.mds[e].toSeg >= s.mds[e].fromSeg + 2;
            Yielded(Seen(c, s), s.mds[e]) == Data(OfEpoch(Flat(s.segs), e)) <==> !skips
  {
    hide IsRun, RingOk, ReadersOk, StreamOk, StoreOk, WritersOk, FlushOk, EpochsOk, ConcludeOk, VisibleOk, MediaOk,
         DiskPending, HeadOk, Tiled, Flat, OfEpoch, FirstPieces, Snapshot.Valid, Snapshot.Placed;
    RunKeeps(c, states, steps, i);
    var s := states[i];
    RangeIsEpoch(c.segmentSize, s.segs, s.mds, s.durable, e);
    assert Seen(c, s).records[e - 1] == s.mds[e];
    YieldsAllExactly(Seen(c, s), e);
  }

  /** Between crashes the log a cursor sees only grows. */
  lemma SeenGrows(c: Config, s: State, step: Step, s': State)
    requires Inv(c, s) && Inv(c, s') && Next(c, s, step, s') && !step.RestartStep?
    ensures HasRecords(s.mds, s.durable) && HasRecords(s'.mds, s'.durable) && Grown(Seen(c, s), Seen(c, s'))
  {
    hide Inv, Next;
    SeenIsValid(c, s);
    SeenIsValid(c, s');
    PipelineSafety.EpochsMoveOn(c, s, step, s');
    SegsGrow(c, s, step, s');
    forall e | 1 <= e <= s.durable ensures s'.mds[e] == s.mds[e] {
      PipelineTheorems.StepKeepsDurable(c, s, step, s', e);
    }
    var w, w' := Seen(c, s), Seen(c, s');
    forall d | 0 <= d < |w.segs| ensures w.segs[d] <= w'.segs[d] {
      assert s.segs[d] <= s'.segs[d];
    }
  }

  lemma SegsGrow(c: Config, s: State, step: Step, s': State)
    requires Inv(c, s) && Next(c, s, step, s') && !step.RestartStep?
    ensures |s.segs| <= |s'.segs| && forall d | 0 <= d < |s.segs| :: s.segs[d] <= s'.segs[d]
  {
    hide RingOk, ReadersOk, StreamOk, WritersOk, FlushOk, EpochsOk, ConcludeOk, LogOk, StoreOk;
    if PipelineTheorems.TouchesLog(s, step) {
      FlushGrows(c, s);
    } else {
      PipelineTheorems.OtherStepsKeepLog(c, s, step, s');
    }
  }

  lemma FlushGrows(c: Config, s: State)
    requires CanFlush(c, s) && PipelineTheorems.TouchesLog(s, FlushStep)
    ensures var segs' := DoFlush(c, s).segs;
            |s.segs| <= |segs'| && forall d | 0 <= d < |s.segs| :: s.segs[d] <= segs'[d]
  {
    hide Turned, CanTurn;
  }
}
