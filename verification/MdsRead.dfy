/** Reading the metadata store back: the prefetching iterator and the tag queries (src/nvwal_mds.c). */
module MdsRead {
  import opened Base
  import opened MdsLayout
  import opened Mds

  // ================================================================ the iterator

  /** A run of consecutive records. */
  ghost predicate RunOf(log: seq<Record>, run: seq<Record>) {
    |run| > 0 ==>
      && 1 <= run[0].epoch && run[0].epoch - 1 + |run| <= |log|
      && run == log[run[0].epoch - 1..run[0].epoch - 1 + |run|]
  }

  class Iterator {
    const store: Store
    const end: nat
    const entries: array<Record>
    var cur: nat
    var count: nat
    var at: nat   // which entry is the current one

    /** The prefetched entries are records of consecutive epochs. */
    ghost predicate Valid()
      reads this, entries, store, store.page
    {
      && store.Valid() && entries != store.page
      && entries.Length == READ_PREFETCH && count <= READ_PREFETCH
      && cur <= end
      && RunOf(store.log, entries[..count])
    }

    constructor (store: Store, begin: nat, end: nat, blank: Record)
      requires store.Valid() && begin <= end
      ensures Valid() && this.store == store && this.end == end && cur == begin && count == 0 && fresh(entries)
    {
      this.store, this.end, cur, count, at := store, end, begin, 0, 0;
      entries := new Record[READ_PREFETCH](_ => blank);
    }

    predicate Done()
      reads this
    {
      cur >= end
    }

    /** The record of the current epoch was fetched before. */
    predicate Fetched()
      requires count <= entries.Length
      reads this`count, this`cur, entries
    {
      count > 0 && entries[0].epoch <= cur <= entries[count - 1].epoch
    }

    /** Gets hold of the record of the current epoch: from the NV buffer, from what was fetched
        before, or from the file. Without a concurrent writer the two loads of the page number agree. */
    method Prefetch()
      requires Valid() && 1 <= cur <= |store.log|
      modifies this`count, this`at, entries
      ensures Valid() && at < count && entries[at] == store.log[cur - 1]
      ensures old(Fetched()) && PageNo(store.cap, cur) != store.bufPage ==>
                count == old(count) && entries[..] == old(entries[..])
    {
      hide PageNo, PageStart, Holds, RunOf, AsManyAsFit, Iterator.Fetched;
      var p := PageNo(store.cap, cur);
      if store.bufPage == p && store.bufPage != 0 {
        CopyBuffered(p);
        if store.bufPage == p {
          count, at := 1, 0;
          return;
        }
      }
      var hit := LookUp();
      if !hit {
        Fetch(p);
      }
    }

    /** Copies the record of the current epoch from the NV buffer, which holds its page. */
    method CopyBuffered(p: nat)
      requires Valid() && 1 <= cur <= |store.log| && p == PageNo(store.cap, cur) == store.bufPage
      modifies entries
      ensures store.Valid() && entries[0] == store.log[cur - 1] && RunOf(store.log, entries[..1])
    {
      hide PageNo, PageStart, RecordSlot, Holds, RunOf;
      FoundThere(store.cap, store.file, store.page[..], store.bufPage, store.log, cur);
      EpochOfEntry(store.cap, store.file, store.page[..], store.bufPage, store.log, cur);
      entries[0] := store.page[RecordSlot(store.cap, cur)];
      assert entries[..1] == [store.log[cur - 1]] == store.log[cur - 1..cur];
      RunFrom(store.log, entries[..1], cur);
    }

    /** Looks in what was fetched before. */
    method LookUp() returns (hit: bool)
      requires Valid() && 1 <= cur <= |store.log|
      modifies this`at
      ensures Valid() && hit == Fetched() && (hit ==> at < count && entries[at] == store.log[cur - 1])
    {
      hide Holds;
      if count > 0 {
        var first, last := entries[0].epoch, entries[count - 1].epoch;
        EpochOfEntry(store.cap, store.file, store.page[..], store.bufPage, store.log, first + count - 1);
        if first <= cur <= last {
          at := cur - first;
          return true;
        }
      }
      return false;
    }

    /** The file part: as many records as fit, but never past a page boundary. */
    method Fetch(p: nat)
      requires Valid() && 1 <= cur <= |store.log| && p == PageNo(store.cap, cur) != store.bufPage
      modifies this`count, this`at, entries
      ensures Valid() && at < count && entries[at] == store.log[cur - 1]
      ensures at == 0 && AsManyAsFit(store.cap, p, cur, end, count)
    {
      hide PageNo, RecordSlot, PageStart, Holds, AsManyAsFit, RunOf;
      var cap := store.cap;
      var n := InPage(cap, p, cur, end);
      OnFile(cap, store.file, store.page[..], store.bufPage, store.log, cur, n);
      OffsetOf(cur);
      var r := store.ReadFile(RecordOffset(cur), n);
      forall k | 0 <= k < n {
        entries[k] := r.value[k];
      }
      count, at := n, 0;
      assert entries[..count] == r.value;
      RunFrom(store.log, r.value, cur);
    }

    /** Moves on to the next epoch. */
    method Next()
      requires Valid() && !Done() && cur <= |store.log|
      requires cur + 1 < end ==> cur < |store.log|
      modifies this`cur, this`count, this`at, entries
      ensures Valid() && cur == old(cur) + 1
      ensures !Done() ==> at < count && entries[at] == store.log[cur - 1]
    {
      cur := cur + 1;
      if cur < end {
        Prefetch();
      }
    }
  }

  lemma EpochOfEntry(cap: nat, file: seq<Record>, page: seq<Record>, bufPage: nat, log: seq<Record>, e: nat)
    requires Holds(cap, file, page, bufPage, log) && 1 <= e <= |log|
    ensures log[e - 1].epoch == e
  {
  }

  lemma RunFrom(log: seq<Record>, run: seq<Record>, e: nat)
    requires 1 <= e && |run| > 0 && e - 1 + |run| <= |log| && run == log[e - 1..e - 1 + |run|] && log[e - 1].epoch == e
    ensures RunOf(log, run) && run[0] == log[e - 1]
  {
  }

  lemma OffsetOf(e: nat)
    requires e > 0
    ensures RecordOffset(e) % RECORD_SIZE == 0 && RecordOffset(e) / RECORD_SIZE == e - 1
  {
  }

  /** Fetching `n` records leaves no room in the buffer, or none in the range or the page. */
  predicate AsManyAsFit(cap: nat, p: nat, cur: nat, end: nat, n: nat)
    requires p > 0
  {
    n == READ_PREFETCH || cur + n - 1 == end || cur + n - 1 == PageStart(cap, p) + cap
  }

  /** How many records to fetch: as many as fit, up to the end of the range or of the page. */
  method InPage(cap: nat, p: nat, cur: nat, end: nat) returns (n: nat)
    requires cap > 0 && cur > 0 && p == PageNo(cap, cur) && cur <= end
    ensures 1 <= n <= READ_PREFETCH
    ensures cur + n - 1 <= PageStart(cap, p) + cap
    ensures AsManyAsFit(cap, p, cur, end, n)
  {
    PageBounds(cap, cur);
    assert p * cap == PageStart(cap, p) + cap;
    var upper := Min(Min(cur + READ_PREFETCH - 1, end), p * cap);
    n := upper - cur + 1;
  }

  /** The rest of a page that is not buffered is on file. */
  lemma OnFile(cap: nat, file: seq<Record>, page: seq<Record>, bufPage: nat, log: seq<Record>, e: nat, n: nat)
    requires Holds(cap, file, page, bufPage, log) && 1 <= e <= |log| && PageNo(cap, e) != bufPage
    requires e + n - 1 <= PageStart(cap, PageNo(cap, e)) + cap
    ensures e - 1 + n <= |file| <= |log| && file[e - 1..e - 1 + n] == log[e - 1..e - 1 + n]
    ensures log[e - 1].epoch == e
  {
    hide PageNo, PageStart, RecordSlot;
    FoundThere(cap, file, page, bufPage, log, e);
  }

  /** An iterator positioned at its first record; an empty range in the wrong order is an error. */
  method OpenIterator(store: Store, begin: nat, end: nat, blank: Record) returns (r: Option<Iterator>)
    requires store.Valid() && (begin <= end ==> 1 <= begin <= |store.log|)
    ensures r.None? <==> end < begin
    ensures r.Some? ==>
              && fresh(r.value) && fresh(r.value.entries) && r.value.Valid() && r.value.store == store && r.value.end == end
              && r.value.cur == begin
              && r.value.at < r.value.count && r.value.entries[r.value.at] == store.log[begin - 1]
  {
    if end < begin {
      return None;
    }
    var it := new Iterator(store, begin, end, blank);
    it.Prefetch();
    return Some(it);
  }

  /** The record of one epoch. */
  method ReadOneEpoch(store: Store, e: nat, blank: Record) returns (rec: Record)
    requires store.Valid() && 1 <= e <= |store.log|
    ensures rec == store.log[e - 1] && rec.epoch == e
  {
    var r := OpenIterator(store, e, e + 1, blank);
    rec := r.value.entries[r.value.at];
    EpochOfEntry(store.cap, store.file, store.page[..], store.bufPage, store.log, e);
  }

  lemma Snoc(log: seq<Record>, from: nat, to: nat)
    requires from <= to < |log|
    ensures log[from..to] + [log[to]] == log[from..to + 1]
  {
  }

  /** The loop of a client: the records of the epochs from `begin` up to, not including, `end`. */
  method ReadRange(store: Store, begin: nat, end: nat, blank: Record) returns (out: seq<Record>)
    requires store.Valid() && (begin <= end ==> 1 <= begin <= |store.log| && end <= |store.log| + 1)
    ensures out == if begin <= end then store.log[begin - 1..end - 1] else []
  {
    hide Holds, RunOf;
    out := [];
    var r := OpenIterator(store, begin, end, blank);
    if r.None? {
      return;
    }
    var it := r.value;
    while !it.Done()
      invariant it.Valid() && it.store == store && it.end == end && fresh(it) && fresh(it.entries)
      invariant begin <= it.cur && out == store.log[begin - 1..it.cur - 1]
      invariant !it.Done() ==> it.at < it.count && it.entries[it.at] == store.log[it.cur - 1]
      decreases end - it.cur
    {
      Snoc(store.log, begin - 1, it.cur - 1);
      out := out + [it.entries[it.at]];
      it.Next();
    }
  }

  /** What a log cursor fetches ahead: the records of up to `ahead` epochs from `from` on, as far as they
      are asked for and durable. The iterator is never exhausted when a record is taken. */
  method FetchAhead(store: Store, from: nat, end: nat, ahead: nat, blank: Record) returns (out: seq<Record>)
    requires store.Valid() && 1 <= from <= end && from <= |store.log| + 1 && ahead > 0
    ensures out == store.log[from - 1..Min(Min(from + ahead, end), |store.log| + 1) - 1]
  {
    hide Holds, RunOf;
    var to := from + ahead;
    if to > end {
      to := end;
    }
    if to > store.durable {
      to := store.durable + 1;
    }
    out := [];
    if to == from {
      return;
    }
    var r := OpenIterator(store, from, to, blank);
    var it := r.value;
    var i := 0;
    while i < ahead
      invariant it.Valid() && it.store == store && it.end == to && fresh(it) && fresh(it.entries)
      invariant it.cur == from + i < to && out == store.log[from - 1..from + i - 1]
      invariant it.at < it.count && it.entries[it.at] == store.log[it.cur - 1]
    {
      assert !it.Done();
      Snoc(store.log, from - 1, from + i - 1);
      out := out + [it.entries[it.at]];
      it.Next();
      i := i + 1;
      if from + i >= to {
        break;
      }
    }
  }

  // ================================================================ queries by tag

  /** The user tag a query is about. */
  function UserTag(rec: Record, id: nat): nat {
    if id == 1 then rec.tag1 else rec.tag0
  }

  predicate Matches(log: seq<Record>, id: nat, wanted: nat -> bool, e: nat)
    requires 1 <= e <= |log|
  {
    wanted(UserTag(log[e - 1], id))
  }

  /** Once the predicate holds it keeps holding for later epochs. */
  ghost predicate Rising(log: seq<Record>, id: nat, wanted: nat -> bool) {
    forall i, j | 1 <= i < j <= |log| && Matches(log, id, wanted, i) :: Matches(log, id, wanted, j)
  }

  /** Once it fails it keeps failing. */
  ghost predicate Falling(log: seq<Record>, id: nat, wanted: nat -> bool) {
    forall i, j | 1 <= i < j <= |log| && Matches(log, id, wanted, j) :: Matches(log, id, wanted, i)
  }

  /** The midpoint in 64-bit arithmetic. */
  function Midpoint(low: nat, high: nat): nat {
    (low + high) % TWO64 / 2
  }

  /** It lies in the range exactly if the sum does not wrap around. */
  lemma MidpointExact(low: nat, high: nat)
    requires 0 < low <= high < TWO64
    ensures low <= Midpoint(low, high) <= high <==> low + high < TWO64
  {
  }

  /** The first epoch whose tag satisfies the predicate. */
  method LowerBound(store: Store, id: nat, wanted: nat -> bool, blank: Record) returns (r: Option<Record>)
    requires store.Valid() && 2 * |store.log| < TWO64 && Rising(store.log, id, wanted)
    ensures r.None? <==> forall e | 1 <= e <= |store.log| :: !Matches(store.log, id, wanted, e)
    ensures r.Some? ==>
              && 1 <= r.value.epoch <= |store.log| && r.value == store.log[r.value.epoch - 1]
              && Matches(store.log, id, wanted, r.value.epoch)
              && forall e | 1 <= e < r.value.epoch :: !Matches(store.log, id, wanted, e)
  {
    var low, high := 1, store.latest;
    r := None;
    while low <= high
      invariant 1 <= low <= high + 1 <= |store.log| + 1
      invariant forall e | 1 <= e < low :: !Matches(store.log, id, wanted, e)
      invariant if r.Some?
                then high + 1 == r.value.epoch <= |store.log| && r.value == store.log[high]
                     && Matches(store.log, id, wanted, high + 1)
                else high == |store.log|
      decreases high + 1 - low
    {
      MidpointExact(low, high);
      var md := Midpoint(low, high);
      var em := ReadOneEpoch(store, md, blank);
      if wanted(UserTag(em, id)) {
        high := md - 1;
        r := Some(em);
        assert Matches(store.log, id, wanted, md);
      } else {
        low := md + 1;
        assert !Matches(store.log, id, wanted, md);
      }
    }
  }

  /** The last epoch whose tag satisfies the predicate. */
  method UpperBound(store: Store, id: nat, wanted: nat -> bool, blank: Record) returns (r: Option<Record>)
    requires store.Valid() && 2 * |store.log| < TWO64 && Falling(store.log, id, wanted)
    ensures r.None? <==> forall e | 1 <= e <= |store.log| :: !Matches(store.log, id, wanted, e)
    ensures r.Some? ==>
              && 1 <= r.value.epoch <= |store.log| && r.value == store.log[r.value.epoch - 1]
              && Matches(store.log, id, wanted, r.value.epoch)
              && forall e | r.value.epoch < e <= |store.log| :: !Matches(store.log, id, wanted, e)
  {
    var low, high := 1, store.latest;
    r := None;
    while low <= high
      invariant 1 <= low <= high + 1 <= |store.log| + 1
      invariant forall e | high < e <= |store.log| :: !Matches(store.log, id, wanted, e)
      invariant if r.Some?
                then 1 <= low - 1 == r.value.epoch <= |store.log| && r.value == store.log[low - 2]
                     && Matches(store.log, id, wanted, low - 1)
                else low == 1
      decreases high + 1 - low
    {
      MidpointExact(low, high);
      var md := Midpoint(low, high);
      var em := ReadOneEpoch(store, md, blank);
      if wanted(UserTag(em, id)) {
        low := md + 1;
        r := Some(em);
        assert Matches(store.log, id, wanted, md);
      } else {
        high := md - 1;
        assert !Matches(store.log, id, wanted, md);
      }
    }
  }

  /** Threshold queries. */
  function AtLeast(limit: nat): nat -> bool {
    t => t >= limit
  }

  function AtMost(limit: nat): nat -> bool {
    t => t <= limit
  }

  /** Tags that do not decrease make every threshold query well posed. */
  lemma MonotoneTagsRise(log: seq<Record>, id: nat, limit: nat)
    requires forall i, j | 0 <= i < j < |log| :: UserTag(log[i], id) <= UserTag(log[j], id)
    ensures Rising(log, id, AtLeast(limit)) && Falling(log, id, AtMost(limit))
  {
  }
}
