/** Where the record of an epoch lives in the page file of the metadata store
    (include/nvwal_impl_mds.h). Epoch 0 is invalid; pages and epochs count from 1. */
module MdsLayout {
  import opened Restart

  /** Size of a record: one cache line. */
  const RECORD_SIZE: nat := 64

  function RecordsPerPage(pageSize: nat): nat {
    pageSize / RECORD_SIZE
  }

  /** Page of an epoch; 0 is the invalid page. */
  function PageNo(cap: nat, e: nat): (p: nat)
    requires cap > 0
    ensures p == 0 <==> e == 0
  {
    if e == 0 then 0 else 1 + (e - 1) / cap
  }

  /** Record slot of an epoch within its page. */
  function RecordSlot(cap: nat, e: nat): (i: nat)
    requires cap > 0 && e > 0
    ensures i < cap
  {
    (e - 1) % cap
  }

  /** Number of epochs in the pages before page `p`. */
  function PageStart(cap: nat, p: nat): nat
    requires p > 0
  {
    (p - 1) * cap
  }

  /** Byte offset of a record, as the iterator computes it. */
  function RecordOffset(e: nat): nat
    requires e > 0
  {
    (e - 1) * RECORD_SIZE
  }

  /** Byte offset of a page, as the buffer manager computes it. */
  function PageOffset(pageSize: nat, p: nat): nat
    requires p > 0
  {
    (p - 1) * pageSize
  }

  // ---------------------------------------------------------------- arithmetic

  lemma PageBounds(cap: nat, e: nat)
    requires cap > 0 && e > 0
    ensures PageNo(cap, e) > 0
    ensures PageStart(cap, PageNo(cap, e)) < e <= PageStart(cap, PageNo(cap, e)) + cap
    ensures RecordSlot(cap, e) == e - 1 - PageStart(cap, PageNo(cap, e)) < cap
  {
    var q := (e - 1) / cap;
    assert e - 1 == q * cap + (e - 1) % cap;
  }

  lemma NextStart(cap: nat, p: nat)
    requires p > 0
    ensures PageStart(cap, p + 1) == PageStart(cap, p) + cap
  {
  }

  lemma StartGrows(cap: nat, p: nat, q: nat)
    requires 0 < p < q
    ensures PageStart(cap, p) + cap <= PageStart(cap, q)
  {
    MulAtLeast(q - p, cap, 1);
    assert (q - 1) * cap == (p - 1) * cap + (q - p) * cap;
  }

  lemma PageIs(cap: nat, e: nat, p: nat)
    requires cap > 0 && p > 0 && PageStart(cap, p) < e <= PageStart(cap, p) + cap
    ensures PageNo(cap, e) == p
  {
    DivModUnique(cap, e - 1, p - 1, e - 1 - PageStart(cap, p));
  }

  // ---------------------------------------------------------------- the two offset formulas

  lemma PageSizeInRecords(pageSize: nat)
    requires pageSize > 0 && pageSize % 512 == 0
    ensures RecordsPerPage(pageSize) > 0 && pageSize == RecordsPerPage(pageSize) * RECORD_SIZE
  {
    var q := pageSize / 512;
    assert pageSize == 512 * q;
    DivModUnique(RECORD_SIZE, pageSize, 8 * q, 0);
  }

  /** The two ways to find a record on file agree for every epoch exactly if pages are made of
      whole records. */
  lemma OffsetsAgreeExactly(pageSize: nat)
    requires RecordsPerPage(pageSize) > 0
    ensures (forall e: nat | e > 0 :: OffsetsAgree(pageSize, e)) <==> pageSize % RECORD_SIZE == 0
  {
    var cap := RecordsPerPage(pageSize);
    if pageSize % RECORD_SIZE == 0 {
      forall e: nat | e > 0 ensures OffsetsAgree(pageSize, e) {
        WholeRecords(pageSize, e);
      }
    } else {
      FirstOfSecondPage(cap);
      assert !OffsetsAgree(pageSize, cap + 1);
    }
  }

  predicate OffsetsAgree(pageSize: nat, e: nat)
    requires RecordsPerPage(pageSize) > 0 && e > 0
  {
    var cap := RecordsPerPage(pageSize);
    PageBounds(cap, e);
    RecordOffset(e) == PageOffset(pageSize, PageNo(cap, e)) + RecordSlot(cap, e) * RECORD_SIZE
  }

  lemma FirstOfSecondPage(cap: nat)
    requires cap > 0
    ensures PageNo(cap, cap + 1) == 2 && RecordSlot(cap, cap + 1) == 0
  {
    PageIs(cap, cap + 1, 2);
    PageBounds(cap, cap + 1);
  }

  lemma WholeRecords(pageSize: nat, e: nat)
    requires pageSize > 0 && pageSize % RECORD_SIZE == 0 && e > 0
    ensures OffsetsAgree(pageSize, e)
  {
    var cap := RecordsPerPage(pageSize);
    var p := PageNo(cap, e);
    PageBounds(cap, e);
    assert pageSize == cap * RECORD_SIZE;
    assert (p - 1) * (cap * RECORD_SIZE) == ((p - 1) * cap) * RECORD_SIZE;
  }
}
