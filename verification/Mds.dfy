/** The metadata store (src/nvwal_mds.c): one page of records buffered in NVRAM and an append-only
    page file behave as the sequence of the records of epochs 1, 2, ... */
module Mds {
  import opened Base
  import opened MdsLayout

  datatype Option<T> = None | Some(value: T)

  /** Records fetched ahead by an iterator (kNvwalMdsReadPrefetch). */
  const READ_PREFETCH: nat := 16

  // ================================================================ contents

  /** The file holds exactly the pages before page `p` of the records `log`, the buffer the rest. */
  ghost predicate Split(cap: nat, file: seq<Record>, page: seq<Record>, p: nat, log: seq<Record>) {
    && cap > 0 && |page| == cap && p > 0
    && (forall i | 0 <= i < |log| :: log[i].epoch == i + 1)
    && |file| == PageStart(cap, p)
    && |file| <= |log| <= |file| + cap
    && file == log[..|file|]
    && forall e | |file| < e <= |log| :: page[RecordSlot(cap, e)] == log[e - 1]
  }

  /** File and buffer hold the records `log`. */
  ghost predicate Holds(cap: nat, file: seq<Record>, page: seq<Record>, bufPage: nat, log: seq<Record>) {
    if |log| == 0 then cap > 0 && |page| == cap && bufPage == 0 && |file| == 0
    else Split(cap, file, page, bufPage, log)
  }

  /** What a reader gets for epoch `e`: the record in the buffer if that holds the page of `e`,
      otherwise the one in the file. */
  function ReadBack(cap: nat, file: seq<Record>, page: seq<Record>, bufPage: nat, e: nat): Record
    requires cap > 0 && |page| == cap
  {
    if e > 0 && PageNo(cap, e) == bufPage then page[RecordSlot(cap, e)]
    else if 0 < e <= |file| then file[e - 1]
    else BLANK
  }

  /** Memory that was never written. */
  const BLANK: Record := Record(0, 0, 0, 0, 0, 0, 0)

  /** Every epoch is found where its page number says. */
  lemma FoundThere(cap: nat, file: seq<Record>, page: seq<Record>, bufPage: nat, log: seq<Record>, e: nat)
    requires Holds(cap, file, page, bufPage, log) && 1 <= e <= |log|
    ensures PageNo(cap, e) == bufPage ==> RecordSlot(cap, e) < cap && page[RecordSlot(cap, e)] == log[e - 1]
    ensures PageNo(cap, e) != bufPage ==>
              0 < PageNo(cap, e) < bufPage && PageStart(cap, PageNo(cap, e)) + cap <= |file| && file[e - 1] == log[e - 1]
    ensures |page| == cap && ReadBack(cap, file, page, bufPage, e) == log[e - 1]
  {
    hide PageNo, RecordSlot, PageStart;
    var p := PageNo(cap, e);
    PageBounds(cap, e);
    if p < bufPage {
      StartGrows(cap, p, bufPage);
    } else if bufPage < p {
      StartGrows(cap, bufPage, p);
    }
  }

  /** Adding the record of the next epoch to the buffered page. */
  lemma HoldsNext(cap: nat, file: seq<Record>, page: seq<Record>, p: nat, log: seq<Record>, rec: Record,
                  page': seq<Record>)
    requires Split(cap, file, page, p, log) && p == PageNo(cap, |log| + 1) && rec.epoch == |log| + 1
    requires page' == page[RecordSlot(cap, |log| + 1) := rec]
    ensures Holds(cap, file, page', p, log + [rec])
  {
    hide PageNo, RecordSlot, PageStart;
    var e := |log| + 1;
    PageBounds(cap, e);
    forall x | |file| < x <= e ensures page'[RecordSlot(cap, x)] == (log + [rec])[x - 1] {
      PageIs(cap, x, p);
      PageBounds(cap, x);
    }
  }

  lemma FirstPage(cap: nat)
    requires cap > 0
    ensures PageNo(cap, 1) == 1 && PageStart(cap, 1) == 0
  {
  }

  // ================================================================ the store

  datatype Alloc = Allocated | InvalidPage | NoBuffers

  /** What a power failure leaves: the page file, the NV buffer, the two epochs in the control block. */
  datatype Image = Image(file: seq<Record>, page: seq<Record>, durable: nat, paged: nat)

  class Store {
    const pageSize: nat
    const cap: nat
    const page: array<Record>
    var file: seq<Record>
    var bufPage: nat
    var dirty: bool
    var durable: nat
    var paged: nat
    var latest: nat
    /** The records written, and what a failure would have found after each persistent store. */
    ghost var log: seq<Record>
    ghost var images: seq<Image>

    ghost predicate Shaped()
      reads this, page
    {
      && pageSize > 0 && pageSize % 512 == 0
      && cap == RecordsPerPage(pageSize) > 0
      && page.Length == cap
    }

    ghost predicate Valid()
      reads this, page
    {
      && Shaped()
      && Holds(cap, file, page[..], bufPage, log)
      && durable == latest == |log|
      && paged == |file|
      && (durable > 0 ==> dirty)
    }

    ghost function Now(): Image
      reads this, page
    {
      Image(file, page[..], durable, paged)
    }

    /** A new, empty store. */
    constructor (pageSize: nat, blank: Record)
      requires pageSize > 0 && pageSize % 512 == 0
      ensures Valid() && log == [] && fresh(page) && this.pageSize == pageSize
    {
      PageSizeInRecords(pageSize);
      this.pageSize := pageSize;
      cap := RecordsPerPage(pageSize);
      page := new Record[RecordsPerPage(pageSize)](_ => blank);
      file := [];
      bufPage, dirty, durable, paged, latest := 0, false, 0, 0, 0;
      log, images := [], [];
    }

    // -------------------------------------------------------------- buffer manager

    /** Makes `p` the buffered page, unless the buffer still holds the page before it. */
    method AllocPage(p: nat) returns (r: Alloc)
      requires p == 0 || bufPage == 0 || p == bufPage || p == bufPage + 1
      modifies this`bufPage, this`dirty
      ensures r == (if p == 0 then InvalidPage
                    else if old(bufPage) != 0 && p != old(bufPage) && old(dirty) then NoBuffers else Allocated)
      ensures if r.Allocated? then bufPage == p && dirty else bufPage == old(bufPage) && dirty == old(dirty)
    {
      if p == 0 {
        return InvalidPage;
      }
      if bufPage == 0 {
        bufPage := p;
      }
      if p == bufPage {
        dirty := true;
      } else if !dirty {
        bufPage := p;
        dirty := true;
      } else {
        return NoBuffers;
      }
      return Allocated;
    }

    /** Appends the buffered page to the file if it is dirty. */
    method Writeback()
      requires Shaped()
      modifies this`file, this`dirty, this`images
      ensures file == if old(dirty) then old(file) + page[..] else old(file)
      ensures !dirty && images == if old(dirty) then old(images) + [Now()] else old(images)
    {
      if dirty {
        file := file + page[..];
        dirty := false;
        images := images + [Now()];
      }
    }

    method SetPaged(e: nat)
      requires Shaped()
      modifies this`paged, this`images
      ensures paged == e && images == old(images) + [Now()]
    {
      paged := e;
      images := images + [Now()];
    }

    method SetDurable(e: nat)
      requires Shaped()
      modifies this`durable, this`images
      ensures durable == e && images == old(images) + [Now()]
    {
      durable := e;
      images := images + [Now()];
    }

    method StoreRecord(i: nat, rec: Record)
      requires Shaped() && i < cap
      modifies page, this`images
      ensures page[..] == old(page[..])[i := rec] && images == old(images) + [Now()]
    {
      page[i] := rec;
      images := images + [Now()];
    }

    // -------------------------------------------------------------- writing

    /** Allocates page `p`; if the buffer is taken, writes it back, records that, and tries again. */
    method AllocOrTurn(p: nat) returns (ok: bool)
      requires Shaped() && (p == 0 || bufPage == 0 || p == bufPage || (p == bufPage + 1 && dirty))
      modifies this`bufPage, this`dirty, this`file, this`paged, this`images
      ensures ok == (p != 0)
      ensures var turn := old(bufPage) != 0 && p != 0 && p != old(bufPage);
              && bufPage == (if ok then p else old(bufPage)) && (ok ==> dirty) && (!ok ==> dirty == old(dirty))
              && file == (if turn then old(file) + page[..] else old(file))
              && paged == (if turn then durable else old(paged))
              && images == old(images) + if turn then TurnImages(old(Now())) else []
    {
      var r := AllocPage(p);
      if r.NoBuffers? {
        Writeback();
        SetPaged(durable);
        r := AllocPage(p);
      }
      return r.Allocated?;
    }

    /** Records epochs one after the other. Rejects the invalid epoch 0. */
    method WriteEpoch(rec: Record) returns (ok: bool)
      requires Valid() && (rec.epoch == 0 || rec.epoch == durable + 1)
      modifies this, page
      ensures Valid() && ok == (rec.epoch != 0)
      ensures log == if ok then old(log) + [rec] else old(log)
      ensures images == old(images) + if ok then WriteImages(cap, old(Now()), old(bufPage), rec) else []
    {
      hide PageNo, RecordSlot, PageStart, Split;
      var e := rec.epoch;
      NextAllocated(cap, file, page[..], bufPage, log);
      ok := AllocOrTurn(PageNo(cap, e));
      if ok {
        ghost var before := page[..];
        StoreRecord(RecordSlot(cap, e), rec);
        latest := latest + 1;
        SetDurable(e);
        HoldsNext(cap, file, before, bufPage, log, rec, page[..]);
        log := log + [rec];
      }
    }

    // -------------------------------------------------------------- rollback and recovery

    /** Reads `n` records. Past the end of the file there is nothing to read. */
    method ReadFile(offset: nat, n: nat) returns (r: Option<seq<Record>>)
      requires offset % RECORD_SIZE == 0
      ensures var i := offset / RECORD_SIZE;
              r == if i + n <= |file| then Some(file[i..i + n]) else None
    {
      var i := offset / RECORD_SIZE;
      return if i + n <= |file| then Some(file[i..i + n]) else None;
    }

    /** Replaces the buffered page by page `p` of the file. */
    method ReadPage(p: nat) returns (ok: bool)
      requires Shaped() && p > 0
      modifies this`bufPage, this`dirty, this`images, page
      ensures ok == (PageStart(cap, p) + cap <= |file|)
      ensures ok ==> page[..] == file[PageStart(cap, p)..PageStart(cap, p) + cap] && bufPage == p && dirty
      ensures ok ==> images == old(images) + [Now()]
      ensures !ok ==> page[..] == old(page[..]) && bufPage == old(bufPage) && dirty == old(dirty) && images == old(images)
    {
      PageIsWholeRecords(pageSize, p);
      var r := ReadFile(PageOffset(pageSize, p), cap);
      if r.None? {
        return false;
      }
      forall i | 0 <= i < cap {
        page[i] := r.value[i];
      }
      assert page[..] == r.value;
      images := images + [Now()];
      bufPage, dirty := p, true;
      return true;
    }

    method Truncate(n: nat)
      requires Shaped() && n <= |file|
      modifies this`file, this`images
      ensures file == old(file)[..n] && images == old(images) + [Now()]
    {
      file := file[..n];
      images := images + [Now()];
    }

    /** Forgets all epochs after `e`. If the page of `e` was written back, it is buffered again. */
    method RollbackTo(e: nat) returns (ok: bool)
      requires Shaped() && e > 0
      modifies this, page
      ensures Shaped()
      ensures ok == (e < old(paged) ==> WholePage(cap, old(file), e))
      ensures durable == e && latest == (if ok && e < old(latest) then e else old(latest))
      ensures if ok && e < old(paged)
              then var at := PageStart(cap, PageNo(cap, e));
                && bufPage == PageNo(cap, e) && dirty
                && page[..] == old(file)[at..at + cap]
                && file == old(file)[..at] && paged == at
              else
                && file == old(file) && page[..] == old(page[..]) && paged == old(paged)
                && bufPage == old(bufPage) && dirty == old(dirty)
      ensures log == old(if e <= |log| then log[..e] else log)
      ensures ok ==> images == old(images) + RollbackImages(cap, old(Now()), e)
      ensures old(Valid()) && e <= old(durable) ==> ok && Valid()
    {
      hide PageNo, PageStart, Holds;
      ghost var wasValid := Valid() && e <= durable;
      if wasValid { RolledBack(cap, file, page[..], bufPage, log, e); }
      log := if e <= |log| then log[..e] else log;
      SetDurable(e);
      if e < paged {
        var p := PageNo(cap, e);
        ok := ReadPage(p);
        if !ok {
          return;
        }
        Truncate(PageStart(cap, p));
        SetPaged(PageStart(cap, p));
      }
      if e < latest {
        latest := e;
      }
      return true;
    }

    /** Opens the store on what a failure left, and recovers. `truth` is what it should hold. */
    constructor Reopen(pageSize: nat, im: Image, ghost truth: seq<Record>)
      requires pageSize > 0 && pageSize % 512 == 0 && |im.page| == RecordsPerPage(pageSize)
      requires |truth| == im.durable && (im.durable < im.paged ==> im.durable > 0)
      ensures Valid() <==> Recovers(RecordsPerPage(pageSize), im, truth)
      ensures log == truth && cap == RecordsPerPage(pageSize)
    {
      PageSizeInRecords(pageSize);
      this.pageSize := pageSize;
      cap := RecordsPerPage(pageSize);
      page := new Record[RecordsPerPage(pageSize)](i requires 0 <= i < |im.page| => im.page[i]);
      file := im.file;
      bufPage, dirty, durable, paged, latest := 0, false, im.durable, im.paged, 0;
      log, images := truth, [];
      new;
      assert page[..] == im.page;
      hide PageNo, PageStart, Holds;
      if durable < paged {
        var _ := RollbackTo(durable);
      } else if PageNo(cap, durable) != 0 {
        var _ := AllocPage(PageNo(cap, durable));
      }
      if durable > latest {
        latest := durable;
      }
    }
  }

  lemma PageIsWholeRecords(pageSize: nat, p: nat)
    requires pageSize > 0 && pageSize % 512 == 0 && p > 0
    ensures PageOffset(pageSize, p) % RECORD_SIZE == 0
    ensures PageOffset(pageSize, p) / RECORD_SIZE == PageStart(RecordsPerPage(pageSize), p)
  {
    var cap := RecordsPerPage(pageSize);
    PageSizeInRecords(pageSize);
    assert (p - 1) * (cap * RECORD_SIZE) == ((p - 1) * cap) * RECORD_SIZE;
  }

  // ================================================================ rollback on values

  /** The page of `e` is in the file. */
  predicate WholePage(cap: nat, file: seq<Record>, e: nat)
    requires cap > 0 && e > 0
  {
    PageStart(cap, PageNo(cap, e)) + cap <= |file|
  }

  lemma RolledBack(cap: nat, file: seq<Record>, page: seq<Record>, bufPage: nat, log: seq<Record>, e: nat)
    requires Holds(cap, file, page, bufPage, log) && 1 <= e <= |log|
    ensures var at := PageStart(cap, PageNo(cap, e));
            if e < |file| then WholePage(cap, file, e) && Holds(cap, file[..at], file[at..at + cap], PageNo(cap, e), log[..e])
            else Holds(cap, file, page, bufPage, log[..e])
  {
    hide PageNo, RecordSlot, PageStart;
    if e < |file| {
      var p := PageNo(cap, e);
      PageBounds(cap, e);
      if bufPage <= p {
        if bufPage < p { StartGrows(cap, bufPage, p); }
      } else {
        StartGrows(cap, p, bufPage);
        PageFromFile(cap, file, p, log, e);
      }
    }
  }

  /** A page read back from the file. */
  lemma PageFromFile(cap: nat, file: seq<Record>, p: nat, log: seq<Record>, e: nat)
    requires cap > 0 && p > 0 && PageStart(cap, p) + cap <= |file| <= |log| && file == log[..|file|]
    requires PageStart(cap, p) < e <= PageStart(cap, p) + cap
    requires forall i | 0 <= i < |log| :: log[i].epoch == i + 1
    ensures var at := PageStart(cap, p);
            Split(cap, file[..at], file[at..at + cap], p, log[..e])
  {
    hide PageNo, RecordSlot, PageStart;
    var at := PageStart(cap, p);
    forall x | at < x <= e ensures file[at..at + cap][RecordSlot(cap, x)] == log[..e][x - 1] {
      PageIs(cap, x, p);
      PageBounds(cap, x);
    }
  }

  /** The next epoch goes to the buffered page, or the buffered page is full and written back. */
  lemma NextAllocated(cap: nat, file: seq<Record>, page: seq<Record>, bufPage: nat, log: seq<Record>)
    requires Holds(cap, file, page, bufPage, log)
    ensures var p := PageNo(cap, |log| + 1);
            && p > 0 && (bufPage == 0 <==> |log| == 0)
            && (bufPage == 0 || p == bufPage ==> Split(cap, file, page, p, log))
            && (bufPage != 0 && p != bufPage ==>
                  p == bufPage + 1 && Split(cap, file + page, page, p, log) && |file + page| == |log|)
  {
    hide PageNo, RecordSlot, PageStart;
    var e := |log| + 1;
    PageBounds(cap, e);
    if |log| > 0 {
      NextStart(cap, bufPage);
      if e <= |file| + cap {
        PageIs(cap, e, bufPage);
      } else {
        PageIs(cap, e, bufPage + 1);
        FullPage(cap, file, page, bufPage, log);
      }
    } else {
      FirstPage(cap);
    }
  }

  lemma FullPage(cap: nat, file: seq<Record>, page: seq<Record>, bufPage: nat, log: seq<Record>)
    requires Split(cap, file, page, bufPage, log) && |log| == |file| + cap
    ensures file + page == log
  {
    hide PageNo, RecordSlot, PageStart;
    forall i | 0 <= i < cap ensures page[i] == log[|file| + i] {
      var e := |file| + i + 1;
      PageIs(cap, e, bufPage);
      PageBounds(cap, e);
    }
  }

  // ================================================================ crash points of a write

  /** What a failure finds after each persistent store of a page turn ... */
  function TurnImages(im: Image): seq<Image> {
    var turned := im.(file := im.file + im.page);
    [turned, turned.(paged := im.durable)]
  }

  /** ... of storing a record ... */
  function StoreImages(cap: nat, im: Image, rec: Record): seq<Image>
    requires cap > 0 && |im.page| == cap && rec.epoch > 0
  {
    var stored := im.(page := im.page[RecordSlot(cap, rec.epoch) := rec]);
    [stored, stored.(durable := rec.epoch)]
  }

  /** ... and of a whole write. */
  function WriteImages(cap: nat, im: Image, bufPage: nat, rec: Record): seq<Image>
    requires cap > 0 && |im.page| == cap && rec.epoch > 0
  {
    if bufPage != 0 && PageNo(cap, rec.epoch) != bufPage
    then TurnImages(im) + StoreImages(cap, TurnImages(im)[1], rec)
    else StoreImages(cap, im, rec)
  }

  /** What a failure finds after each persistent store of a rollback. */
  function RollbackImages(cap: nat, im: Image, e: nat): seq<Image>
    requires cap > 0 && e > 0 && (e < im.paged ==> WholePage(cap, im.file, e))
  {
    var marked := im.(durable := e);
    if e < im.paged then
      var at := PageStart(cap, PageNo(cap, e));
      var loaded := marked.(page := im.file[at..at + cap]);
      var cut := loaded.(file := im.file[..at]);
      [marked, loaded, cut, cut.(paged := at)]
    else [marked]
  }

  // ================================================================ which crashes are recovered from

  /** Recovery leads to a store that holds exactly `truth`. */
  ghost predicate Recovers(cap: nat, im: Image, truth: seq<Record>)
    requires cap > 0
  {
    if im.durable < im.paged && im.durable > 0 then
      var at := PageStart(cap, PageNo(cap, im.durable));
      && WholePage(cap, im.file, im.durable)
      && Holds(cap, im.file[..at], im.file[at..at + cap], PageNo(cap, im.durable), truth)
    else
      Holds(cap, im.file, im.page, PageNo(cap, im.durable), truth) && im.paged == |im.file|
  }
}
