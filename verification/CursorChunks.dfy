/** What a log cursor hands out for an epoch, and when that is all of it (src/nvwal_impl_cursor.c). */
module CursorChunks {
  import opened Base

  /** The log as a cursor sees it at one moment: the records of the durable epochs and the bytes
      of the segments, wherever they are stored. */
  datatype Snapshot = Snapshot(size: nat, records: seq<Record>, segs: seq<seq<byte>>)
  {
    predicate Valid() {
      && size > 0
      && (forall d | 0 <= d < |segs| - 1 :: |segs[d]| == size)
      && (forall i | 0 <= i < |records| :: records[i].epoch == i + 1 && Placed(records[i]))
      && (forall i, j | 0 <= i && j == i + 1 < |records| :: Follows(records[i], records[j]))
    }

    /** Each range starts where the one before ends. */
    static predicate Follows(rec: Record, next: Record) {
      next.fromSeg == rec.toSeg && next.fromOff == rec.toOff
    }

    predicate Placed(rec: Record) {
      && 1 <= rec.fromSeg <= rec.toSeg <= |segs|
      && rec.fromOff < size && rec.toOff < size
      && (rec.fromSeg == rec.toSeg ==> rec.fromOff <= rec.toOff)
      && rec.toOff <= |segs[rec.toSeg - 1]|
    }
  }

  lemma RecordFacts(w: Snapshot, e: nat)
    requires w.Valid() && 1 <= e <= |w.records|
    ensures var rec := w.records[e - 1];
            && rec.epoch == e && w.Placed(rec) && w.size > 0
            && rec.fromSeg <= rec.toSeg && rec.fromOff < w.size && rec.toOff < w.size
            && (rec.fromSeg == rec.toSeg ==> rec.fromOff <= rec.toOff)
            && (e < |w.records| ==> Snapshot.Follows(rec, w.records[e]))
  {
  }

  /** The log may have grown since. */
  ghost predicate Grown(w: Snapshot, w': Snapshot) {
    && w'.size == w.size
    && w.records <= w'.records
    && |w.segs| <= |w'.segs|
    && forall d | 0 <= d < |w.segs| :: w.segs[d] <= w'.segs[d]
  }

  // ================================================================ the bytes of an epoch

  /** The `k`-th piece of an epoch is in its `k`-th segment. */
  function PieceFrom(rec: Record, k: nat): nat {
    if k == 0 then rec.fromOff else 0
  }

  function PieceTo(size: nat, rec: Record, k: nat): nat {
    if rec.fromSeg + k == rec.toSeg then rec.toOff else size
  }

  function Pieces(rec: Record): nat
    requires rec.fromSeg <= rec.toSeg
  {
    rec.toSeg - rec.fromSeg + 1
  }

  function Piece(w: Snapshot, rec: Record, k: nat): (r: seq<byte>)
    requires w.Valid() && w.Placed(rec) && k < Pieces(rec)
    ensures |r| == PieceTo(w.size, rec, k) - PieceFrom(rec, k)
  {
    w.segs[rec.fromSeg + k - 1][PieceFrom(rec, k)..PieceTo(w.size, rec, k)]
  }

  /** The first `n` pieces together. */
  function FirstPieces(w: Snapshot, rec: Record, n: nat): seq<byte>
    requires w.Valid() && w.Placed(rec) && n <= Pieces(rec)
  {
    if n == 0 then [] else FirstPieces(w, rec, n - 1) + Piece(w, rec, n - 1)
  }

  /** Everything logged in the epoch. */
  function EpochBytes(w: Snapshot, rec: Record): seq<byte>
    requires w.Valid() && w.Placed(rec)
  {
    FirstPieces(w, rec, Pieces(rec))
  }

  // ================================================================ what the cursor yields

  /** How many pieces the cursor stops at. The last piece is passed over if it is empty, and with it
      any full segments before it. */
  function Stops(rec: Record): (n: nat)
    requires rec.fromSeg <= rec.toSeg
    ensures 1 <= n <= Pieces(rec)
  {
    if rec.fromSeg < rec.toSeg && rec.toOff == 0 then 1 else Pieces(rec)
  }

  /** A cursor position: part of one segment, for one epoch. */
  datatype Chunk = Chunk(epoch: nat, seg: nat, off: nat, len: nat)

  function ChunkAt(size: nat, rec: Record, k: nat): Chunk
    requires rec.fromSeg <= rec.toSeg && k < Pieces(rec) && PieceFrom(rec, k) <= PieceTo(size, rec, k)
  {
    Chunk(rec.epoch, rec.fromSeg + k, PieceFrom(rec, k), PieceTo(size, rec, k) - PieceFrom(rec, k))
  }

  /** The chunks of one epoch, in order. */
  function Chunks(w: Snapshot, e: nat): (r: seq<Chunk>)
    requires w.Valid() && 1 <= e <= |w.records|
    ensures |r| == Stops(w.records[e - 1])
  {
    var rec := w.records[e - 1];
    seq(Stops(rec), k requires 0 <= k < Stops(rec) => ChunkAt(w.size, rec, k))
  }

  /** The chunks of the epochs from `begin` up to, not including, `end`. */
  function AllChunks(w: Snapshot, begin: nat, end: nat): seq<Chunk>
    requires w.Valid() && 1 <= begin && end <= |w.records| + 1
    decreases end
  {
    if end <= begin then [] else AllChunks(w, begin, end - 1) + Chunks(w, end - 1)
  }

  predicate InSegment(w: Snapshot, c: Chunk) {
    1 <= c.seg <= |w.segs| && c.off + c.len <= |w.segs[c.seg - 1]|
  }

  /** The bytes of a chunk. */
  function Bytes(w: Snapshot, c: Chunk): seq<byte>
    requires InSegment(w, c)
  {
    w.segs[c.seg - 1][c.off..c.off + c.len]
  }

  /** What the cursor yields for an epoch. */
  function Yielded(w: Snapshot, rec: Record): seq<byte>
    requires w.Valid() && w.Placed(rec)
  {
    FirstPieces(w, rec, Stops(rec))
  }

  lemma ChunkIsPiece(w: Snapshot, e: nat, k: nat)
    requires w.Valid() && 1 <= e <= |w.records| && k < |Chunks(w, e)|
    ensures var c := Chunks(w, e)[k];
            && c.epoch == e && InSegment(w, c)
            && Bytes(w, c) == Piece(w, w.records[e - 1], k)
  {
  }

  /** The bytes of some chunks, in order. */
  function ChunkBytes(w: Snapshot, chunks: seq<Chunk>): seq<byte>
    requires forall i | 0 <= i < |chunks| :: InSegment(w, chunks[i])
  {
    if |chunks| == 0 then [] else ChunkBytes(w, chunks[..|chunks| - 1]) + Bytes(w, chunks[|chunks| - 1])
  }

  /** Together the chunks of an epoch are what the cursor yields for it. */
  lemma ChunksYield(w: Snapshot, e: nat)
    requires w.Valid() && 1 <= e <= |w.records|
    ensures w.Placed(w.records[e - 1])
    ensures forall i | 0 <= i < |Chunks(w, e)| :: InSegment(w, Chunks(w, e)[i])
    ensures ChunkBytes(w, Chunks(w, e)) == Yielded(w, w.records[e - 1])
  {
    forall i | 0 <= i < |Chunks(w, e)| ensures InSegment(w, Chunks(w, e)[i]) {
      ChunkIsPiece(w, e, i);
    }
    FirstChunksYield(w, e, |Chunks(w, e)|);
    assert Chunks(w, e)[..|Chunks(w, e)|] == Chunks(w, e);
  }

  lemma {:induction false} FirstChunksYield(w: Snapshot, e: nat, n: nat)
    requires w.Valid() && 1 <= e <= |w.records| && n <= |Chunks(w, e)|
    requires forall i | 0 <= i < |Chunks(w, e)| :: InSegment(w, Chunks(w, e)[i])
    ensures n <= Pieces(w.records[e - 1]) && ChunkBytes(w, Chunks(w, e)[..n]) == FirstPieces(w, w.records[e - 1], n)
    decreases n
  {
    if n == 0 {
    } else {
      FirstChunksYield(w, e, n - 1);
      ChunkIsPiece(w, e, n - 1);
      assert Chunks(w, e)[..n][..n - 1] == Chunks(w, e)[..n - 1];
    }
  }

  /** The cursor yields the whole epoch exactly if the epoch does not end at a segment boundary
      after three or more segments. */
  lemma YieldsAllExactly(w: Snapshot, e: nat)
    requires w.Valid() && 1 <= e <= |w.records|
    ensures var rec := w.records[e - 1];
            Yielded(w, rec) == EpochBytes(w, rec) <==> !(rec.toOff == 0 && rec.toSeg >= rec.fromSeg + 2)
  {
    var rec := w.records[e - 1];
    if Stops(rec) < Pieces(rec) {
      if rec.toSeg == rec.fromSeg + 1 {
        assert Piece(w, rec, 1) == [];
      } else {
        MoreIsLonger(w, rec, 1, Pieces(rec) - 1);
      }
    }
  }

  /** Full segments in between count. */
  lemma {:induction false} MoreIsLonger(w: Snapshot, rec: Record, m: nat, n: nat)
    requires w.Valid() && w.Placed(rec) && 1 <= m < n < Pieces(rec)
    ensures |FirstPieces(w, rec, m)| + w.size <= |FirstPieces(w, rec, n)|
    decreases n
  {
    if m + 1 == n {
    } else {
      MoreIsLonger(w, rec, m, n - 1);
    }
  }

  // ================================================================ stability

  lemma {:induction false} GrownChunks(w: Snapshot, w': Snapshot, begin: nat, end: nat)
    requires w.Valid() && w'.Valid() && Grown(w, w') && 1 <= begin && end <= |w.records| + 1
    ensures AllChunks(w', begin, end) == AllChunks(w, begin, end)
    decreases end
  {
    if end <= begin {
    } else {
      GrownChunks(w, w', begin, end - 1);
      assert w'.records[end - 2] == w.records[end - 2];
    }
  }

  // ================================================================ progress of a reader

  /** All chunks before the `k`-th one of epoch `e`. */
  function SoFar(w: Snapshot, begin: nat, e: nat, k: nat): seq<Chunk>
    requires w.Valid() && 1 <= begin && 1 <= e <= |w.records| && k <= Stops(w.records[e - 1])
  {
    AllChunks(w, begin, e) + Chunks(w, e)[..k]
  }

  lemma OneMore(w: Snapshot, begin: nat, e: nat, k: nat)
    requires w.Valid() && 1 <= begin <= e <= |w.records| && k < Stops(w.records[e - 1])
    ensures var out := SoFar(w, begin, e, k) + [Chunks(w, e)[k]];
            && out == SoFar(w, begin, e, k + 1)
            && (k + 1 == Stops(w.records[e - 1]) ==> out == AllChunks(w, begin, e + 1))
            && (k + 1 == Stops(w.records[e - 1]) && e < |w.records| ==> out == SoFar(w, begin, e + 1, 0))
  {
    var all := Chunks(w, e);
    assert all[..k] + [all[k]] == all[..k + 1];
    assert all[..|all|] == all;
  }

  lemma GrownSoFar(w: Snapshot, w': Snapshot, begin: nat, e: nat, k: nat)
    requires w.Valid() && w'.Valid() && Grown(w, w') && 1 <= begin && 1 <= e <= |w.records|
    requires k <= Stops(w.records[e - 1])
    ensures e <= |w'.records| && w'.records[e - 1] == w.records[e - 1]
    ensures SoFar(w', begin, e, k) == SoFar(w, begin, e, k)
  {
    GrownChunks(w, w', begin, e);
    assert w'.records[e - 1] == w.records[e - 1];
    assert Chunks(w', e) == Chunks(w, e);
  }
}
