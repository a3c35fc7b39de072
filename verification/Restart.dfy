/** Which DSID an NV segment gets when an existing log is reopened (src/nvwal_impl_init.c). */
module Restart {

  const TWO32: nat := 0x1_0000_0000

  /** The slot of the ring that holds segment `dsid`. */
  function SlotOf(segmentCount: nat, dsid: nat): (j: nat)
    requires segmentCount > 0 && dsid > 0
    ensures j < segmentCount
  {
    (dsid - 1) % segmentCount
  }

  // ---------------------------------------------------------------- division facts

  lemma MulAtLeast(k: int, n: nat, m: int)
    requires m <= k
    ensures m * n <= k * n
  {
  }

  lemma DivModUnique(n: nat, x: nat, q: int, r: nat)
    requires n > 0 && r < n && x == q * n + r
    ensures x / n == q && x % n == r
  {
    var p := x / n;
    assert p * n <= x < p * n + n;
    if p < q {
      MulAtLeast(q, n, p + 1);
    } else if q < p {
      MulAtLeast(p, n, q + 1);
    }
  }

  /** Two DSIDs of one slot are whole cycles apart. */
  lemma SameSlot(n: nat, a: nat, b: nat)
    requires n > 0 && 0 < a < b
    ensures SlotOf(n, a) == SlotOf(n, b) ==> b - a >= n
    ensures SlotOf(n, a) == SlotOf(n, b) && b - a < 2 * n ==> b == a + n
    ensures b == a + n ==> SlotOf(n, a) == SlotOf(n, b)
  {
    var p, q := (a - 1) / n, (b - 1) / n;
    var r := SlotOf(n, a);
    assert a - 1 == p * n + r;
    if b == a + n {
      assert (p + 1) * n == p * n + n;
      DivModUnique(n, b - 1, p + 1, r);
    }
    if SlotOf(n, b) == r {
      assert b - 1 == q * n + r;
      if q <= p {
        MulAtLeast(p, n, q);
      } else if q >= p + 2 {
        MulAtLeast(q, n, p + 2);
        assert (p + 2) * n == p * n + 2 * n;
      } else {
        assert (p + 1) * n == p * n + n;
      }
    }
  }

  // ---------------------------------------------------------------- the recomputed DSID

  /** Truncation to 32 bits. */
  function Low32(x: nat): nat {
    x % TWO32
  }

  lemma Low32Is(x: nat)
    requires x < 2 * TWO32
    ensures Low32(x) == if x < TWO32 then x else x - TWO32
  {
  }

  /** The DSID recomputed for slot `index` from the last synced DSID alone; the cycle count and
      the sum are 32-bit in the source. */
  function RestartDsid(segmentCount: nat, lastSynced: nat, index: nat): nat
    requires 0 < segmentCount && index < segmentCount
  {
    if lastSynced == 0 then Low32(index + 1)
    else
      var cycles := Low32((lastSynced - 1) / segmentCount);
      ThisOrNextCycle(segmentCount, lastSynced, Low32(cycles * segmentCount + index + 1))
  }

  function ThisOrNextCycle(segmentCount: nat, lastSynced: nat, dsid: nat): nat {
    if dsid > lastSynced then dsid else dsid + segmentCount
  }

  /** The sum before truncation: the DSID slot `index` had in the cycle of the last synced one. */
  function CycleDsid(n: nat, lastSynced: nat, index: nat): nat
    requires n > 0 && lastSynced > 0
  {
    (lastSynced - 1) / n * n + index + 1
  }

  lemma CycleBounds(n: nat, lastSynced: nat, index: nat)
    requires n > 1 && lastSynced > 0 && index < n
    ensures CycleDsid(n, lastSynced, index) - index <= lastSynced < CycleDsid(n, lastSynced, index) - index + n
    ensures 2 * ((lastSynced - 1) / n) < lastSynced
    ensures index < CycleDsid(n, lastSynced, index)
    ensures SlotOf(n, CycleDsid(n, lastSynced, index)) == index
  {
    var q := (lastSynced - 1) / n;
    assert q * n <= lastSynced - 1 < q * n + n;
    MulAtLeast(n, q, 2);
    MulAtLeast(q, n, 0);
    assert n * q == q * n;
    DivModUnique(n, q * n + index, q, index);
  }

  lemma CyclesFit(n: nat, lastSynced: nat, index: nat)
    requires n > 1 && lastSynced > 0 && index < n
    requires (lastSynced - 1) / n < TWO32
    ensures RestartDsid(n, lastSynced, index)
         == ThisOrNextCycle(n, lastSynced, Low32(CycleDsid(n, lastSynced, index)))
  {
    Low32Is((lastSynced - 1) / n);
  }

  lemma RestartDsidInRange(n: nat, lastSynced: nat, index: nat)
    requires 2 <= n && index < n && lastSynced + n < TWO32
    ensures lastSynced < RestartDsid(n, lastSynced, index) <= lastSynced + n
    ensures SlotOf(n, RestartDsid(n, lastSynced, index)) == index
  {
    if lastSynced == 0 {
      Low32Is(index + 1);
      DivModUnique(n, index, 0, index);
    } else {
      CycleBounds(n, lastSynced, index);
      CyclesFit(n, lastSynced, index);
      NextAfterSynced(n, lastSynced, index, CycleDsid(n, lastSynced, index));
    }
  }

  lemma NextAfterSynced(n: nat, lastSynced: nat, index: nat, t: nat)
    requires 2 <= n && index < t < TWO32
    requires t - index <= lastSynced < t - index + n && index < n
    requires SlotOf(n, t) == index
    ensures var d := ThisOrNextCycle(n, lastSynced, Low32(t));
            lastSynced < d <= lastSynced + n && SlotOf(n, d) == index
  {
    Low32Is(t);
    SameSlot(n, t, t + n);
  }

  /** Each slot gets the one DSID in (L, L+n] that belongs to it. */
  lemma RestartDsidIsUnique(n: nat, lastSynced: nat, index: nat)
    requires 2 <= n && index < n && lastSynced + n < TWO32
    ensures var d := RestartDsid(n, lastSynced, index);
            && lastSynced < d <= lastSynced + n
            && SlotOf(n, d) == index
            && forall x | lastSynced < x <= lastSynced + n && SlotOf(n, x) == index :: x == d
  {
    RestartDsidInRange(n, lastSynced, index);
    var d := RestartDsid(n, lastSynced, index);
    forall x | lastSynced < x <= lastSynced + n && SlotOf(n, x) == index ensures x == d {
      if x < d { SameSlot(n, x, d); } else if d < x { SameSlot(n, d, x); }
    }
  }

  /** With at most 1024 segments (kNvwalMaxActiveSegments) the recomputation is right exactly as
      long as the sum fits in 32 bits. */
  lemma RestartDsidExact(n: nat, lastSynced: nat, index: nat)
    requires 2 <= n <= 1024 && index < n && lastSynced > 0
    ensures lastSynced < RestartDsid(n, lastSynced, index) <= lastSynced + n
       <==> CycleDsid(n, lastSynced, index) < TWO32
  {
    CycleBounds(n, lastSynced, index);
    if lastSynced < TWO32 + n {
      CyclesFit(n, lastSynced, index);
      Low32Is(CycleDsid(n, lastSynced, index));
    }
  }

  /** For example, past 2^32 the DSID of a long-gone cycle comes out. */
  lemma RestartDsidOverflows()
    ensures RestartDsid(2, TWO32 + 1, 0) == 3
  {
    assert ((TWO32 + 1 - 1) / 2) % TWO32 == 0x8000_0000;
  }
}
