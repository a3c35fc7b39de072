/** How the records of the durable epochs tile the log. */
module EpochRanges {
  import opened Base
  import opened LogStream

  /** Position (d, o) lies in the range of the record. */
  predicate InRange(rec: Record, d: nat, o: nat) {
    !Before(d, o, rec.fromSeg, rec.fromOff) && Before(d, o, rec.toSeg, rec.toOff)
  }

  /** A well-placed range: within the log, never ending (or starting) past the end of a segment. */
  ghost predicate RangeOk(size: nat, segs: seq<seq<Entry>>, rec: Record) {
    && 1 <= rec.fromSeg <= rec.toSeg <= |segs|
    && !Before(rec.toSeg, rec.toOff, rec.fromSeg, rec.fromOff)
    && rec.fromOff < size && rec.toOff < size
    && rec.toOff <= |segs[rec.toSeg - 1]|
  }

  /** The range holds exactly the entries of the epoch. */
  ghost predicate Covers(segs: seq<seq<Entry>>, rec: Record, e: nat) {
    forall d: nat, o: nat | 1 <= d <= |segs| && o < |segs[d - 1]| :: EpochAt(segs, d, o) == e <==> InRange(rec, d, o)
  }

  function EpochAt(segs: seq<seq<Entry>>, d: nat, o: nat): nat
    requires 1 <= d <= |segs| && o < |segs[d - 1]|
  {
    segs[d - 1][o].epoch
  }

  ghost predicate RecordOk(size: nat, segs: seq<seq<Entry>>, mds: map<nat, Record>, e: nat) {
    && e in mds
    && mds[e].epoch == e
    && RangeOk(size, segs, mds[e])
    && Covers(segs, mds[e], e)
  }

  /** Each range starts where the previous one ends; the first at the beginning of the log. */
  ghost predicate Chained(mds: map<nat, Record>, e: nat) {
    && e in mds
    && (e == 1 ==> mds[e].fromSeg == 1 && mds[e].fromOff == 0)
    && (e > 1 ==> e - 1 in mds && mds[e].fromSeg == mds[e - 1].toSeg && mds[e].fromOff == mds[e - 1].toOff)
  }

  /** The records of epochs 1 .. n tile the log up to the end of epoch n. */
  ghost predicate Tiled(size: nat, segs: seq<seq<Entry>>, mds: map<nat, Record>, n: nat) {
    forall e: nat | 1 <= e <= n :: RecordOk(size, segs, mds, e) && Chained(mds, e)
  }

  /** End of the last of those ranges. */
  function EndSeg(mds: map<nat, Record>, n: nat): nat {
    if n in mds && n > 0 then mds[n].toSeg else 1
  }

  function EndOff(mds: map<nat, Record>, n: nat): nat {
    if n in mds && n > 0 then mds[n].toOff else 0
  }

  /** The epoch being written starts at the head: everything before it is durable, everything
      from it on belongs to the next epoch. */
  ghost predicate HeadOk(segs: seq<seq<Entry>>, durable: nat, headDsid: nat, headOff: nat) {
    forall d: nat, o: nat | 1 <= d <= |segs| && o < |segs[d - 1]| ::
      && EpochAt(segs, d, o) <= durable + 1
      && (EpochAt(segs, d, o) <= durable <==> Before(d, o, headDsid, headOff))
  }

  // ---------------------------------------------------------------- the log grows

  /** `segs'` extends `segs` by entries of one later epoch. */
  ghost predicate Extends(segs: seq<seq<Entry>>, segs': seq<seq<Entry>>, e: nat) {
    && 1 <= |segs| <= |segs'|
    && (forall d | 0 <= d < |segs| :: segs[d] <= segs'[d])
    && (forall d: nat, o: nat | 1 <= d <= |segs'| && o < |segs'[d - 1]| && !(d <= |segs| && o < |segs[d - 1]|) ::
          EpochAt(segs', d, o) == e && d >= |segs|)
  }

  lemma TiledExtends(size: nat, segs: seq<seq<Entry>>, segs': seq<seq<Entry>>, mds: map<nat, Record>, n: nat, e: nat)
    requires Tiled(size, segs, mds, n) && Extends(segs, segs', e) && e > n
    ensures Tiled(size, segs', mds, n)
  {
    forall x: nat | 1 <= x <= n ensures RecordOk(size, segs', mds, x) && Chained(mds, x) {
      assert RecordOk(size, segs, mds, x);
      forall d: nat, o: nat | 1 <= d <= |segs'| && o < |segs'[d - 1]|
        ensures EpochAt(segs', d, o) == x <==> InRange(mds[x], d, o)
      {
        if d <= |segs| && o < |segs[d - 1]| {
          assert EpochAt(segs', d, o) == EpochAt(segs, d, o);
        }
      }
    }
  }

  lemma HeadExtends(segs: seq<seq<Entry>>, segs': seq<seq<Entry>>, durable: nat, headDsid: nat, headOff: nat)
    requires HeadOk(segs, durable, headDsid, headOff) && Extends(segs, segs', durable + 1)
    requires headDsid < |segs| || (headDsid == |segs| && headOff <= |segs[headDsid - 1]|)
    requires headDsid >= 1
    ensures HeadOk(segs', durable, headDsid, headOff)
  {
    forall d: nat, o: nat | 1 <= d <= |segs'| && o < |segs'[d - 1]|
      ensures EpochAt(segs', d, o) <= durable + 1
      ensures EpochAt(segs', d, o) <= durable <==> Before(d, o, headDsid, headOff)
    {
      if d <= |segs| && o < |segs[d - 1]| {
        assert EpochAt(segs', d, o) == EpochAt(segs, d, o);
      }
    }
  }

  // ---------------------------------------------------------------- an epoch is concluded

  /** A record from the head to the end of the log extends the tiling by one epoch. */
  lemma TiledNext(size: nat, segs: seq<seq<Entry>>, mds: map<nat, Record>, n: nat, rec: Record)
    requires Tiled(size, segs, mds, n)
    requires HeadOk(segs, n, rec.fromSeg, rec.fromOff)
    requires rec.fromSeg == EndSeg(mds, n) && rec.fromOff == EndOff(mds, n)
    requires rec.epoch == n + 1 && rec.toSeg == |segs| && RangeOk(size, segs, rec) && rec.toOff == |segs[|segs| - 1]|
    ensures Tiled(size, segs, mds[n + 1 := rec], n + 1)
    ensures HeadOk(segs, n + 1, rec.toSeg, rec.toOff)
  {
    var mds' := mds[n + 1 := rec];
    forall x: nat | 1 <= x <= n + 1 ensures RecordOk(size, segs, mds', x) && Chained(mds', x) {
      if x <= n {
        assert RecordOk(size, segs, mds, x) && Chained(mds, x);
      } else {
        if n > 0 { assert RecordOk(size, segs, mds, n); }
        forall d: nat, o: nat | 1 <= d <= |segs| && o < |segs[d - 1]|
          ensures EpochAt(segs, d, o) == n + 1 <==> InRange(rec, d, o)
        {
          assert EpochAt(segs, d, o) <= n <==> Before(d, o, rec.fromSeg, rec.fromOff);
        }
      }
    }
    forall d: nat, o: nat | 1 <= d <= |segs| && o < |segs[d - 1]|
      ensures EpochAt(segs, d, o) <= n + 1 && Before(d, o, rec.toSeg, rec.toOff)
    {
    }
  }

  // ---------------------------------------------------------------- the log is cut back

  /** What lies before the end of epoch n belongs to one of the epochs up to n. */
  lemma {:induction false} BeforeEnd(size: nat, segs: seq<seq<Entry>>, mds: map<nat, Record>, n: nat, d: nat, o: nat)
    requires Tiled(size, segs, mds, n)
    requires 1 <= d <= |segs| && o < |segs[d - 1]| && Before(d, o, EndSeg(mds, n), EndOff(mds, n))
    ensures n > 0 && 1 <= EpochAt(segs, d, o) <= n
    decreases n
  {
    if n == 0 {
    } else {
      assert RecordOk(size, segs, mds, n) && Chained(mds, n);
      if Before(d, o, mds[n].fromSeg, mds[n].fromOff) {
        BeforeEnd(size, segs, mds, n - 1, d, o);
      }
    }
  }

  /** Cutting the log at the end of epoch n leaves exactly the epochs up to n. */
  lemma TiledTruncated(size: nat, segs: seq<seq<Entry>>, mds: map<nat, Record>, n: nat, segs': seq<seq<Entry>>,
                       mds': map<nat, Record>)
    requires n in mds && n > 0 && Tiled(size, segs, mds, n)
    requires 1 <= mds[n].toSeg <= |segs| && mds[n].toOff <= |segs[mds[n].toSeg - 1]|
    requires segs' == segs[..mds[n].toSeg - 1] + [segs[mds[n].toSeg - 1][..mds[n].toOff]]
    requires forall e | 1 <= e <= n && e in mds :: e in mds' && mds'[e] == mds[e]
    ensures Tiled(size, segs', mds', n)
    ensures HeadOk(segs', n, mds[n].toSeg, mds[n].toOff)
  {
    forall d: nat, o: nat | 1 <= d <= |segs'| && o < |segs'[d - 1]|
      ensures o < |segs[d - 1]| && EpochAt(segs', d, o) == EpochAt(segs, d, o) <= n
      ensures Before(d, o, mds[n].toSeg, mds[n].toOff)
    {
      BeforeEnd(size, segs, mds, n, d, o);
    }
    forall x: nat | 1 <= x <= n ensures RecordOk(size, segs', mds', x) && Chained(mds', x) {
      assert RecordOk(size, segs, mds, x) && Chained(mds, x);
      EndsInOrder(size, segs, mds, n, x);
      forall d: nat, o: nat | 1 <= d <= |segs'| && o < |segs'[d - 1]|
        ensures EpochAt(segs', d, o) == x <==> InRange(mds'[x], d, o)
      {
        assert EpochAt(segs', d, o) == EpochAt(segs, d, o);
      }
    }
  }

  lemma {:induction false} EndsInOrder(size: nat, segs: seq<seq<Entry>>, mds: map<nat, Record>, n: nat, x: nat)
    requires Tiled(size, segs, mds, n) && 1 <= x <= n
    ensures x in mds && n in mds && !Before(mds[n].toSeg, mds[n].toOff, mds[x].toSeg, mds[x].toOff)
    decreases n
  {
    assert RecordOk(size, segs, mds, n) && Chained(mds, n);
    if x == n {
    } else {
      EndsInOrder(size, segs, mds, n - 1, x);
    }
  }
}
