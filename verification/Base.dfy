/** Vocabulary shared by every part of the model. */
module Base {

  /** One byte of user log data. */
  type byte = b: int | 0 <= b < 256

  /** Epoch frames per writer (kNvwalEpochFrameCount). */
  const FRAME_COUNT: nat := 5

  /** The configuration values the protocol depends on; `pageCap` is the number of records in a
      metadata page. Offsets in epoch records are 32-bit, hence the bound on the segment size. */
  datatype Config = Config(writerCount: nat, bufferSize: nat, segmentSize: nat, segmentCount: nat, pageCap: nat)
  {
    predicate Valid() {
      && 0 < writerCount
      && 0 < bufferSize
      && 0 < segmentSize <= 0x1_0000_0000
      && 2 <= segmentCount
      && 2 <= pageCap
    }
  }

  /** One logged byte together with the epoch and the writer it was submitted by. */
  datatype Entry = Entry(data: byte, epoch: nat, writer: nat)

  /** Metadata of one durable epoch (struct MdsEpochMetadata). */
  datatype Record = Record(epoch: nat, fromSeg: nat, fromOff: nat, toSeg: nat, toOff: nat, tag0: nat, tag1: nat)

  /** The raw bytes of a run of entries. */
  function Data(s: seq<Entry>): (r: seq<byte>)
    ensures |r| == |s|
    ensures forall i | 0 <= i < |s| :: r[i] == s[i].data
  {
    seq(|s|, i requires 0 <= i < |s| => s[i].data)
  }

  /** The order of log positions: segment first, then offset. */
  predicate Before(d1: nat, o1: nat, d2: nat, o2: nat) {
    d1 < d2 || (d1 == d2 && o1 < o2)
  }

  /** 64-bit arithmetic wraps at this. */
  const TWO64: nat := 0x1_0000_0000_0000_0000

  function Min(a: nat, b: nat): nat {
    if a < b then a else b
  }
}
