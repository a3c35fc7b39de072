/** Reading the log back during a run: between two restarts, a client that opens a cursor and calls
    next until it is exhausted gets, epoch by epoch, the bytes logged in the epoch, while all the
    other threads go on. */
module RunReading {
  import opened Base
  import opened LogStream
  import opened Restart
  import opened Pipeline
  import opened LogInvariant
  import opened StoreInvariant
  import opened PipelineInvariant
  import opened PipelineRuns
  import opened CursorChunks
  import opened Cursor
  import opened CursorRoundTrip
  import PipelineSafety

  // ================================================================ the log grows

  lemma GrownTransitive(a: Snapshot, b: Snapshot, c: Snapshot)
    requires Grown(a, b) && Grown(b, c)
    ensures Grown(a, c)
  {
    forall d | 0 <= d < |a.segs| ensures a.segs[d] <= c.segs[d] {
      assert a.segs[d] <= b.segs[d] <= c.segs[d];
    }
  }

  /** No restart between states `i` and `j`. */
  ghost predicate NoRestart(steps: seq<Step>, i: nat, j: nat) {
    j <= |steps| && forall k | i <= k < j :: !steps[k].RestartStep?
  }

  lemma {:induction false} SeenGrowsOverRun(c: Config, states: seq<State>, steps: seq<Step>, i: nat, j: nat)
    requires IsRun(c, states, steps) && i <= j < |states| && NoRestart(steps, i, j)
    ensures HasRecords(states[i].mds, states[i].durable) && HasRecords(states[j].mds, states[j].durable)
    ensures Seen(c, states[i]).Valid() && Seen(c, states[j]).Valid() && Grown(Seen(c, states[i]), Seen(c, states[j]))
    decreases j
  {
    hide Inv, Next, Admissible, RingShape, Seen, Grown, Snapshot.Valid;
    RunKeeps(c, states, steps, j);
    SeenIsValid(c, states[j]);
    if i == j {
      GrownRefl(Seen(c, states[i]));
    } else {
      SeenGrowsOverRun(c, states, steps, i, j - 1);
      RunKeeps(c, states, steps, j - 1);
      assert Allowed(c, states[j - 1], steps[j - 1], states[j]);
      SeenGrows(c, states[j - 1], steps[j - 1], states[j]);
      GrownTransitive(Seen(c, states[i]), Seen(c, states[j - 1]), Seen(c, states[j]));
    }
  }

  // ================================================================ the whole loop

  /** The log is looked at in states `times[0]`, `times[1]`, ... of the run. */
  ghost predicate SeenAt(c: Config, states: seq<State>, steps: seq<Step>, times: seq<nat>, w: Snapshot,
                         later: seq<Snapshot>) {
    && |times| == |later| + 1
    && (forall m | 0 <= m < |times| :: times[m] < |states| && HasRecords(states[times[m]].mds, states[times[m]].durable))
    && (forall m, n | 0 <= m < n < |times| :: times[m] <= times[n] && NoRestart(steps, times[m], times[n]))
    && w == Seen(c, states[times[0]])
    && forall m | 0 <= m < |later| :: later[m] == Seen(c, states[times[m + 1]])
  }

  lemma SeenIsGrowing(c: Config, states: seq<State>, steps: seq<Step>, times: seq<nat>, w: Snapshot,
                      later: seq<Snapshot>)
    requires IsRun(c, states, steps) && SeenAt(c, states, steps, times, w, later)
    ensures Growing(w, later)
  {
    hide Inv, IsRun, NoRestart, Seen, Grown, Snapshot.Valid;
    RunKeeps(c, states, steps, times[0]);
    SeenIsValid(c, states[times[0]]);
    forall m | 0 <= m < |later| ensures later[m].Valid() && Grown(w, later[m]) {
      SeenGrowsOverRun(c, states, steps, times[0], times[m + 1]);
    }
    forall m, n | 0 <= m < n < |later| ensures Grown(later[m], later[n]) {
      SeenGrowsOverRun(c, states, steps, times[m + 1], times[n + 1]);
    }
  }

  /** The chunks of epoch `e` are its bytes in the log of state `s`, unless the epoch ends at a segment
      boundary after three or more segments. */
  ghost predicate ReadsEpoch(c: Config, s: State, e: nat) {
    && HasRecords(s.mds, s.durable) && 1 <= e <= s.durable && Seen(c, s).Valid()
    && var skips := s.mds[e].toOff == 0 && s.mds[e].toSeg >= s.mds[e].fromSeg + 2;
    && (forall m | 0 <= m < |Chunks(Seen(c, s), e)| :: InSegment(Seen(c, s), Chunks(Seen(c, s), e)[m]))
    && var same := ChunkBytes(Seen(c, s), Chunks(Seen(c, s), e)) == Data(OfEpoch(Flat(s.segs), e));
    same <==> !skips
  }

  lemma EpochIsRead(c: Config, states: seq<State>, steps: seq<Step>, i: nat, e: nat)
    requires IsRun(c, states, steps) && i < |states| && 1 <= e <= states[i].durable
    ensures ReadsEpoch(c, states[i], e)
  {
    hide IsRun, Chunks, ChunkBytes, Yielded, Flat, OfEpoch, Snapshot.Valid, Snapshot.Placed;
    ReadsBackTheLog(c, states, steps, i, e);
    ChunksYield(Seen(c, states[i]), e);
    assert Seen(c, states[i]).records[e - 1] == states[i].mds[e];
  }

  /** The client's loop. It ends in some state of the run, and what it got are the chunks of the epochs
      asked for that are durable there. */
  method ReadDuringRun(w: Snapshot, later: seq<Snapshot>, begin: nat, end: nat,
                       ghost c: Config, ghost states: seq<State>, ghost steps: seq<Step>, ghost times: seq<nat>)
    returns (out: seq<Chunk>, now: Snapshot, ghost last: nat)
    requires IsRun(c, states, steps) && SeenAt(c, states, steps, times, w, later)
    requires 1 <= begin < end && begin <= |w.records| + 1
    ensures last in times && last < |states| && HasRecords(states[last].mds, states[last].durable)
    ensures now == Seen(c, states[last]) && now.Valid() && |now.records| == states[last].durable
    ensures out == AllChunks(now, begin, Min(end, |now.records| + 1))
    ensures var s := states[last];
            forall e | begin <= e < Min(end, s.durable + 1) :: ReadsEpoch(c, s, e)
  {
    hide IsRun, NoRestart, Seen, Grown, Snapshot.Valid, AllChunks, ReadsEpoch;
    SeenIsGrowing(c, states, steps, times, w, later);
    ghost var at;
    out, now, at := ReadAll(w, later, begin, end);
    last := times[at];
    assert now == Seen(c, states[last]);
    assert |now.records| == states[last].durable by { RecordsSeen(c, states[last]); }
    forall e | begin <= e < Min(end, states[last].durable + 1) ensures ReadsEpoch(c, states[last], e) {
      EpochIsRead(c, states, steps, last, e);
    }
  }

  lemma RecordsSeen(c: Config, s: State)
    requires HasRecords(s.mds, s.durable)
    ensures |Seen(c, s).records| == s.durable
  {
  }

  // ================================================================ where the bytes come from

  /** What an open cursor of the pipeline has mapped. */
  function Mapped(c: Config, s: State, k: nat): seq<byte>
    requires c.Valid() && RingShape(c, s.ring) && k in s.cursors && s.cursors[k].dsid >= 1
  {
    var d := s.cursors[k].dsid;
    if s.cursors[k].OnDisk? then (if d in s.ring.disk then s.ring.disk[d] else [])
    else s.ring.slots[SlotOf(c.segmentCount, d)].nv
  }

  /** A chunk read there is the chunk of the log as the cursor sees it. */
  lemma MappedIsSeen(c: Config, s: State, k: nat, chunk: Chunk)
    requires Inv(c, s) && k in s.cursors && (s.cursors[k].OnNv? || s.cursors[k].OnDisk?)
    requires HasRecords(s.mds, s.durable) && chunk.seg == s.cursors[k].dsid && InSegment(Seen(c, s), chunk)
    ensures c.Valid() && RingShape(c, s.ring) && chunk.off + chunk.len <= |Mapped(c, s, k)|
    ensures Mapped(c, s, k)[chunk.off..chunk.off + chunk.len] == Bytes(Seen(c, s), chunk)
  {
    hide Inv;
    PipelineSafety.ReaderSeesItsSegment(c, s, k);
    assert Seen(c, s).segs[chunk.seg - 1] == Data(s.segs[chunk.seg - 1]);
  }
}
