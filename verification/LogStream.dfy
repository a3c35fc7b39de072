/** The log as a value: segments in DSID order, their concatenation, and its projections. */
module LogStream {
  import opened Base

  /** The contents of all segments in order. */
  function Flat<T>(segs: seq<seq<T>>): seq<T> {
    if |segs| == 0 then [] else Flat(segs[..|segs| - 1]) + segs[|segs| - 1]
  }

  /** The entries one writer submitted, in order. */
  function OfWriter(s: seq<Entry>, w: nat): seq<Entry> {
    if |s| == 0 then []
    else
      var last := s[|s| - 1];
      OfWriter(s[..|s| - 1], w) + if last.writer == w then [last] else []
  }

  /** The entries of one epoch, in order. */
  function OfEpoch(s: seq<Entry>, e: nat): seq<Entry> {
    if |s| == 0 then []
    else
      var last := s[|s| - 1];
      OfEpoch(s[..|s| - 1], e) + if last.epoch == e then [last] else []
  }

  /** How many entries belong to epoch `e` or an earlier one. */
  function UpTo(s: seq<Entry>, e: nat): (n: nat)
    ensures n <= |s|
  {
    if |s| == 0 then 0
    else UpTo(s[..|s| - 1], e) + if s[|s| - 1].epoch <= e then 1 else 0
  }

  ghost predicate SortedByEpoch(s: seq<Entry>) {
    forall i, j | 0 <= i < j < |s| :: s[i].epoch <= s[j].epoch
  }

  // ---------------------------------------------------------------- concatenation

  lemma FlatAppend<T>(segs: seq<seq<T>>, more: seq<T>)
    requires |segs| > 0
    ensures Flat(segs[|segs| - 1 := segs[|segs| - 1] + more]) == Flat(segs) + more
  {
    var k := |segs| - 1;
    assert segs[k := segs[k] + more][..k] == segs[..k];
  }

  lemma FlatNewSegment<T>(segs: seq<seq<T>>)
    ensures Flat(segs + [[]]) == Flat(segs)
  {
    assert (segs + [[]])[..|segs|] == segs;
  }

  lemma FlatSnoc<T>(segs: seq<seq<T>>, last: seq<T>)
    ensures Flat(segs + [last]) == Flat(segs) + last
  {
    assert (segs + [last])[..|segs|] == segs;
  }

  lemma {:induction false} OfWriterConcat(a: seq<Entry>, b: seq<Entry>, w: nat)
    ensures OfWriter(a + b, w) == OfWriter(a, w) + OfWriter(b, w)
    decreases |b|
  {
    if |b| == 0 {
      assert a + b == a;
    } else {
      assert (a + b)[..|a + b| - 1] == a + b[..|b| - 1];
      OfWriterConcat(a, b[..|b| - 1], w);
    }
  }

  lemma {:induction false} OfWriterAllOrNone(s: seq<Entry>, v: nat, w: nat)
    requires forall i | 0 <= i < |s| :: s[i].writer == v
    ensures OfWriter(s, w) == if v == w then s else []
    decreases |s|
  {
    if |s| == 0 {
    } else {
      OfWriterAllOrNone(s[..|s| - 1], v, w);
    }
  }

  lemma {:induction false} OfEpochConcat(a: seq<Entry>, b: seq<Entry>, e: nat)
    ensures OfEpoch(a + b, e) == OfEpoch(a, e) + OfEpoch(b, e)
    decreases |b|
  {
    if |b| == 0 {
      assert a + b == a;
    } else {
      assert (a + b)[..|a + b| - 1] == a + b[..|b| - 1];
      OfEpochConcat(a, b[..|b| - 1], e);
    }
  }

  lemma {:induction false} OfEpochNone(s: seq<Entry>, e: nat)
    requires forall i | 0 <= i < |s| :: s[i].epoch != e
    ensures OfEpoch(s, e) == []
    decreases |s|
  {
    if |s| == 0 {
    } else {
      OfEpochNone(s[..|s| - 1], e);
    }
  }

  /** Selecting by writer and by epoch commute. */
  lemma {:induction false} OfEpochOfWriter(s: seq<Entry>, e: nat, w: nat)
    ensures OfEpoch(OfWriter(s, w), e) == OfWriter(OfEpoch(s, e), w)
    decreases |s|
  {
    if |s| == 0 {
    } else {
      var front, last := s[..|s| - 1], s[|s| - 1];
      OfEpochOfWriter(front, e, w);
      OfEpochConcat(OfWriter(front, w), if last.writer == w then [last] else [], e);
      OfWriterConcat(OfEpoch(front, e), if last.epoch == e then [last] else [], w);
    }
  }

  // ---------------------------------------------------------------- counting by epoch

  lemma {:induction false} UpToConcat(a: seq<Entry>, b: seq<Entry>, e: nat)
    ensures UpTo(a + b, e) == UpTo(a, e) + UpTo(b, e)
    decreases |b|
  {
    if |b| == 0 {
      assert a + b == a;
    } else {
      assert (a + b)[..|a + b| - 1] == a + b[..|b| - 1];
      UpToConcat(a, b[..|b| - 1], e);
    }
  }

  lemma {:induction false} UpToMonotone(s: seq<Entry>, e: nat, f: nat)
    requires e <= f
    ensures UpTo(s, e) <= UpTo(s, f)
    decreases |s|
  {
    if |s| == 0 {
    } else {
      UpToMonotone(s[..|s| - 1], e, f);
    }
  }

  lemma {:induction false} UpToAll(s: seq<Entry>, e: nat)
    requires forall i | 0 <= i < |s| :: s[i].epoch <= e
    ensures UpTo(s, e) == |s|
    decreases |s|
  {
    if |s| == 0 {
    } else {
      UpToAll(s[..|s| - 1], e);
    }
  }

  lemma {:induction false} UpToNone(s: seq<Entry>, e: nat)
    requires forall i | 0 <= i < |s| :: s[i].epoch > e
    ensures UpTo(s, e) == 0
    decreases |s|
  {
    if |s| == 0 {
    } else {
      UpToNone(s[..|s| - 1], e);
    }
  }

  /** In a sorted run the count is the boundary between the epochs up to `e` and the later ones. */
  lemma {:induction false} UpToIsBoundary(s: seq<Entry>, e: nat)
    requires SortedByEpoch(s)
    ensures forall i | 0 <= i < |s| :: s[i].epoch <= e <==> i < UpTo(s, e)
    decreases |s|
  {
    if |s| == 0 {
    } else {
      var front := s[..|s| - 1];
      UpToIsBoundary(front, e);
      if s[|s| - 1].epoch <= e {
        UpToAll(front, e);
      }
      assert forall i | 0 <= i < |front| :: s[i] == front[i];
    }
  }
}
