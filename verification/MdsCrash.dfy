/** Power failures inside the operations of the metadata store: which of them recovery undoes. */
module MdsCrash {
  import opened Base
  import opened MdsLayout
  import opened Mds

  /** The files agree with the control block: either a rollback is pending and the page it needs is
      still in the file, or the file ends just before the page of the durable epoch. */
  predicate Sound(cap: nat, im: Image)
    requires cap > 0
  {
    if im.durable < im.paged && im.durable > 0 then WholePage(cap, im.file, im.durable)
    else |im.file| == FileEnd(cap, im.durable)
  }

  /** Length of the file when `n` is the durable epoch. */
  function FileEnd(cap: nat, n: nat): nat
    requires cap > 0
  {
    if n == 0 then 0 else PageStart(cap, PageNo(cap, n))
  }

  /** The store is at rest and holds `log`. */
  ghost predicate AtRest(cap: nat, im: Image, bufPage: nat, log: seq<Record>) {
    Holds(cap, im.file, im.page, bufPage, log) && im.durable == |log| && im.paged == |im.file|
  }

  /** A store at rest can be reopened exactly if something follows the pages written back, or it
      is empty; a rollback to the last epoch of a page is the exception. */
  lemma RestExactly(cap: nat, im: Image, bufPage: nat, log: seq<Record>)
    requires AtRest(cap, im, bufPage, log)
    ensures Recovers(cap, im, log) <==> Sound(cap, im)
    ensures Sound(cap, im) <==> im.paged < im.durable || (im.paged == 0 && im.durable == 0)
  {
    hide PageNo, RecordSlot, PageStart;
    if im.durable > 0 {
      PageBounds(cap, im.durable);
      if im.paged < im.durable { PageIs(cap, im.durable, bufPage); }
    }
  }

  /** Storing a record: before the durable epoch moves, the record is invisible. */
  lemma StoreCrash(cap: nat, im: Image, p: nat, log: seq<Record>, rec: Record, k: nat)
    requires Split(cap, im.file, im.page, p, log) && im.durable == |log| && im.paged == |im.file|
    requires rec.epoch == |log| + 1 && p == PageNo(cap, rec.epoch) && k < 2
    ensures var x := StoreImages(cap, im, rec)[k];
            Recovers(cap, x, if x.durable == |log| then log else log + [rec]) <==> Sound(cap, x)
    ensures k == 1 ==> Sound(cap, StoreImages(cap, im, rec)[k])
  {
    hide PageNo, RecordSlot, PageStart;
    var x := StoreImages(cap, im, rec)[k];
    if k == 1 {
      HoldsNext(cap, im.file, im.page, p, log, rec, x.page);
      assert |x.file| == PageStart(cap, p) by { SplitFile(cap, im.file, im.page, p, log); }
    } else {
      SplitFile(cap, im.file, im.page, p, log);
      UnusedSlot(cap, im.file, im.page, p, log, rec, x.page);
    }
  }

  lemma SplitFile(cap: nat, file: seq<Record>, page: seq<Record>, p: nat, log: seq<Record>)
    requires Split(cap, file, page, p, log)
    ensures |file| == PageStart(cap, p) && |file| <= |log| && |page| == cap > 0
  {
  }

  /** A record in the slot of the next epoch changes nothing, unless the buffered page is taken for
      the one before it. */
  lemma UnusedSlot(cap: nat, file: seq<Record>, page: seq<Record>, p: nat, log: seq<Record>, rec: Record,
                   page': seq<Record>)
    requires Split(cap, file, page, p, log) && p == PageNo(cap, |log| + 1)
    requires page' == page[RecordSlot(cap, |log| + 1) := rec]
    ensures Holds(cap, file, page', PageNo(cap, |log|), log) <==> |file| == FileEnd(cap, |log|)
  {
    hide PageNo, RecordSlot, PageStart;
    if |log| > 0 {
      PageBounds(cap, |log|);
      PageBounds(cap, |log| + 1);
      if |file| < |log| {
        PageIs(cap, |log|, p);
        forall e | |file| < e <= |log| ensures page'[RecordSlot(cap, e)] == log[e - 1] {
          PageIs(cap, e, p);
          PageBounds(cap, e);
        }
      }
    } else {
      FirstPage(cap);
    }
  }

  /** A failure at any point of a write is recovered from exactly if file and control block agree. */
  lemma WriteCrash(cap: nat, im: Image, bufPage: nat, log: seq<Record>, rec: Record, k: nat)
    requires AtRest(cap, im, bufPage, log) && rec.epoch == |log| + 1
    requires k < |WriteImages(cap, im, bufPage, rec)|
    ensures var x := WriteImages(cap, im, bufPage, rec)[k];
            Recovers(cap, x, if x.durable == |log| then log else log + [rec]) <==> Sound(cap, x)
  {
    hide PageNo, RecordSlot, PageStart;
    NextAllocated(cap, im.file, im.page, bufPage, log);
    var p := PageNo(cap, rec.epoch);
    if bufPage != 0 && p != bufPage {
      var turned := TurnImages(im)[1];
      if k < 2 {
        TurnCrash(cap, im, bufPage, log, k);
      } else {
        StoreCrash(cap, turned, p, log, rec, k - 2);
      }
    } else {
      StoreCrash(cap, im, p, log, rec, k);
    }
  }

  /** In the middle of a page turn they disagree, whatever the contents. */
  lemma TurnCrash(cap: nat, im: Image, bufPage: nat, log: seq<Record>, k: nat)
    requires AtRest(cap, im, bufPage, log) && bufPage != 0 && PageNo(cap, |log| + 1) != bufPage && k < 2
    ensures var x := TurnImages(im)[k]; x.durable == |log| && !Sound(cap, x) && !Recovers(cap, x, log)
  {
    hide RecordSlot, PageStart, PageNo;
    NextAllocated(cap, im.file, im.page, bufPage, log);
    PageBounds(cap, |log|);
    StillThatPage(cap, bufPage, |log|);
  }

  /** For instance in the very first page turn of any store. */
  lemma FirstTurnCrash(cap: nat, log: seq<Record>, k: nat)
    requires cap > 0 && |log| == cap && k < 2 && forall i | 0 <= i < cap :: log[i].epoch == i + 1
    ensures var im := Image([], log, cap, 0);
            AtRest(cap, im, 1, log) && !Recovers(cap, TurnImages(im)[k], log)
  {
    var im := Image([], log, cap, 0);
    forall e | 0 < e <= cap ensures RecordSlot(cap, e) == e - 1 {
      PageIs(cap, e, 1);
      PageBounds(cap, e);
    }
    FirstOfSecondPage(cap);
    TurnCrash(cap, im, 1, log, k);
  }

  /** What goes wrong then: reopened, the store appends the page once more with the next write, and
      once the page after it has left the buffer its epochs are looked up among those records. */
  lemma TurnCrashMisplacesPages(cap: nat, im: Image, bufPage: nat, log: seq<Record>, rec: Record, k: nat, i: nat,
                                later: seq<Record>, page: seq<Record>, p: nat)
    requires AtRest(cap, im, bufPage, log) && bufPage != 0 && PageNo(cap, |log| + 1) != bufPage
    requires rec.epoch == |log| + 1 && k < 3 && i < cap
    requires |page| == cap && p != PageNo(cap, |log| + 1)
    ensures |log| >= cap && |WriteImages(cap, im, bufPage, rec)| == 4
    ensures var again := TurnImages(WriteImages(cap, im, bufPage, rec)[k])[1].file;
            && |again| == |log| + cap
            && ReadBack(cap, again + later, page, p, |log| + i + 1)
            == if k == 2 && i == 0 then rec else log[|log| - cap + i]
  {
    hide RecordSlot, PageStart, PageNo;
    NextAllocated(cap, im.file, im.page, bufPage, log);
    var q := PageNo(cap, |log| + 1);
    PageBounds(cap, |log| + 1);
    PageIs(cap, |log| + i + 1, q);
  }

  lemma StillThatPage(cap: nat, p: nat, n: nat)
    requires cap > 0 && p > 0 && n == PageStart(cap, p) + cap
    ensures PageNo(cap, n) == p && PageStart(cap, p) < n
  {
    PageIs(cap, n, p);
  }

  /** The write that turns a page is safe only once its last store is done. */
  lemma TurningWriteIsSafeAtTheEnd(cap: nat, im: Image, bufPage: nat, log: seq<Record>, rec: Record, k: nat)
    requires AtRest(cap, im, bufPage, log) && rec.epoch == |log| + 1 && k < 4
    requires bufPage != 0 && PageNo(cap, rec.epoch) != bufPage
    ensures |WriteImages(cap, im, bufPage, rec)| == 4
    ensures Sound(cap, WriteImages(cap, im, bufPage, rec)[k]) <==> k == 3
  {
    hide RecordSlot, PageStart, PageNo;
    NextAllocated(cap, im.file, im.page, bufPage, log);
    if k < 2 {
      TurnCrash(cap, im, bufPage, log, k);
    } else {
      StoreCrash(cap, TurnImages(im)[1], PageNo(cap, rec.epoch), log, rec, k - 2);
      if k == 2 { TurnCrash(cap, im, bufPage, log, 1); }
    }
  }

  /** Just before that store the new record sits in the buffer, which recovery takes for the page
      before. The record it replaces is that of a durable epoch: the first one of that page. */
  lemma TurnCrashLosesRecord(cap: nat, im: Image, bufPage: nat, log: seq<Record>, rec: Record, e: nat)
    requires AtRest(cap, im, bufPage, log) && rec.epoch == |log| + 1
    requires bufPage != 0 && PageNo(cap, rec.epoch) != bufPage
    requires 1 <= e <= |log|
    ensures cap <= |log| && |WriteImages(cap, im, bufPage, rec)| == 4
    ensures var x := WriteImages(cap, im, bufPage, rec)[2];
            && x.durable == x.paged == |log| && log[e - 1].epoch == e != rec.epoch
            && ReadBack(cap, x.file, x.page, PageNo(cap, x.durable), e)
            == if e == |log| - cap + 1 then rec else log[e - 1]
  {
    hide RecordSlot, PageStart, PageNo;
    NextAllocated(cap, im.file, im.page, bufPage, log);
    StillThatPage(cap, bufPage, |log|);
    NextStart(cap, bufPage);
    PageBounds(cap, rec.epoch);
    PageIs(cap, rec.epoch, bufPage + 1);
    PageBounds(cap, e);
    FoundThere(cap, im.file, im.page, bufPage, log, e);
  }

  /** The same for a rollback: only between truncating the file and recording that is there no way back. */
  lemma RollbackCrash(cap: nat, im: Image, bufPage: nat, log: seq<Record>, e: nat, k: nat)
    requires AtRest(cap, im, bufPage, log) && 1 <= e <= |log|
    requires e < im.paged ==> WholePage(cap, im.file, e)
    requires k < |RollbackImages(cap, im, e)|
    ensures var x := RollbackImages(cap, im, e)[k]; Recovers(cap, x, log[..e]) <==> Sound(cap, x)
    ensures e < im.paged ==> (Sound(cap, RollbackImages(cap, im, e)[k]) <==> k != 2)
  {
    hide PageNo, RecordSlot, PageStart;
    RolledBack(cap, im.file, im.page, bufPage, log, e);
    PageBounds(cap, e);
    if e >= im.paged {
      RestExactly(cap, im.(durable := e), bufPage, log[..e]);
    }
  }
}
