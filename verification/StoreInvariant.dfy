/** The metadata store inside the pipeline: at every point of a write it holds the records of the
    durable epochs, and a restart reads them back exactly if no page was appended ahead of its turn. */
module StoreInvariant {
  import opened Base
  import opened Pipeline
  import opened MdsLayout
  import Mds
  import MdsCrash

  // ================================================================ the invariant

  ghost predicate HasRecords(mds: map<nat, Record>, n: nat) {
    forall e | 1 <= e <= n :: e in mds
  }

  /** The records of epochs 1 .. n. */
  ghost function Recorded(mds: map<nat, Record>, n: nat): (log: seq<Record>)
    requires HasRecords(mds, n)
    ensures |log| == n && forall i | 0 <= i < n :: log[i] == mds[i + 1]
  {
    seq(n, i requires 0 <= i < n => mds[i + 1])
  }

  /** Between two writes: the buffer holds the page of the last record. */
  ghost predicate AtRest(cap: nat, m: Metadata, log: seq<Record>) {
    && Mds.Holds(cap, m.file, m.page, m.bufPage, log)
    && m.bufPage == PageNo(cap, |log|) && m.paged == |m.file|
  }

  /** The buffered page is full and was appended to the file. */
  ghost predicate Appended(cap: nat, m: Metadata, log: seq<Record>) {
    && cap > 0 && cap <= |m.file| == |log|
    && m.bufPage == PageNo(cap, |log|) != PageNo(cap, |log| + 1)
    && var before := m.file[..|m.file| - cap];
    && m.file == before + m.page
    && Mds.Holds(cap, before, m.page, m.bufPage, log)
  }

  /** The buffer has room for the next record. */
  ghost predicate Taken(cap: nat, m: Metadata, log: seq<Record>) {
    && cap > 0 && m.bufPage == PageNo(cap, |log| + 1) && m.paged == |m.file|
    && Mds.Split(cap, m.file, m.page, m.bufPage, log)
  }

  ghost predicate Phase(cap: nat, m: Metadata, log: seq<Record>, pc: FlusherPc) {
    && cap >= 2 && |m.page| == cap
    && (|log| > 0 ==> m.page[RecordSlot(cap, |log|)] == log[|log| - 1])
    && match pc
       case SetPaged(_) => Appended(cap, m, log) && m.paged == |m.file| - cap
       case TakePage(_) => Appended(cap, m, log) && m.paged == |m.file|
       case WriteRecord(_) => Taken(cap, m, log)
       case BumpDurable(rec) => Taken(cap, m, log) && m.page[RecordSlot(cap, |log| + 1)] == rec
       case _ => AtRest(cap, m, log)
  }

  ghost predicate StoreOk(c: Config, m: Metadata, cbDurable: nat, mds: map<nat, Record>, pc: FlusherPc) {
    HasRecords(mds, cbDurable) && Phase(c.pageCap, m, Recorded(mds, cbDurable), pc)
  }

  /** The phases that look alike. */
  predicate BetweenWrites(pc: FlusherPc) {
    !pc.SetPaged? && !pc.TakePage? && !pc.WriteRecord? && !pc.BumpDurable?
  }

  lemma StillAtRest(c: Config, m: Metadata, cbDurable: nat, mds: map<nat, Record>, pc: FlusherPc, pc': FlusherPc)
    requires StoreOk(c, m, cbDurable, mds, pc) && BetweenWrites(pc) && BetweenWrites(pc')
    ensures StoreOk(c, m, cbDurable, mds, pc')
  {
    hide AtRest;
  }

  // ================================================================ the steps of a write

  lemma NewStore(c: Config)
    requires c.Valid()
    ensures StoreOk(c, Metadata([], seq(c.pageCap, _ => Mds.BLANK), 0, 0), 0, map[], Start)
  {
  }

  lemma AllocKeeps(c: Config, s: State, rec: Record)
    requires StoreOk(c, s.store, s.cbDurable, s.mds, AllocPage(rec)) && rec.epoch == s.cbDurable + 1
    requires Shape(c, s)
    ensures var s' := DoAllocPage(c, s, rec); StoreOk(c, s'.store, s'.cbDurable, s'.mds, s'.flusher.pc)
    ensures DoAllocPage(c, s, rec).store.paged == s.store.paged
  {
    hide PageNo, RecordSlot, PageStart, Shape;
    var cap, m, log := c.pageCap, s.store, Recorded(s.mds, s.cbDurable);
    assert |m.page| == cap;
    Mds.NextAllocated(cap, m.file, m.page, m.bufPage, log);
    var m' := DoAllocPage(c, s, rec).store;
    if m.bufPage != 0 && m.bufPage != PageNo(cap, rec.epoch) {
      assert m'.file[..|m'.file| - cap] == m.file;
    }
  }

  lemma TakeKeeps(c: Config, m: Metadata, cbDurable: nat, mds: map<nat, Record>, rec: Record, m': Metadata)
    requires StoreOk(c, m, cbDurable, mds, TakePage(rec)) && rec.epoch == cbDurable + 1
    requires m' == m.(bufPage := PageNo(c.pageCap, rec.epoch))
    ensures StoreOk(c, m', cbDurable, mds, WriteRecord(rec))
  {
    hide PageNo, RecordSlot, PageStart;
    var cap, log := c.pageCap, Recorded(mds, cbDurable);
    Mds.NextAllocated(cap, m.file[..|m.file| - cap], m.page, m.bufPage, log);
  }

  lemma RecordKeeps(c: Config, m: Metadata, cbDurable: nat, mds: map<nat, Record>, rec: Record, m': Metadata)
    requires StoreOk(c, m, cbDurable, mds, WriteRecord(rec)) && rec.epoch == cbDurable + 1
    requires m' == m.(page := m.page[RecordSlot(c.pageCap, rec.epoch) := rec])
    ensures StoreOk(c, m', cbDurable, mds[rec.epoch := rec], BumpDurable(rec))
  {
    hide PageNo, RecordSlot, PageStart, Mds.Split;
    var cap, log := c.pageCap, Recorded(mds, cbDurable);
    assert Recorded(mds[rec.epoch := rec], cbDurable) == log;
    OtherSlots(cap, m.file, m.page, m.bufPage, log, rec, m'.page);
  }

  /** The record goes to a slot of its own. */
  lemma OtherSlots(cap: nat, file: seq<Record>, page: seq<Record>, p: nat, log: seq<Record>, rec: Record,
                   page': seq<Record>)
    requires Mds.Split(cap, file, page, p, log) && p == PageNo(cap, |log| + 1) && cap >= 2
    requires page' == page[RecordSlot(cap, |log| + 1) := rec]
    ensures Mds.Split(cap, file, page', p, log)
    ensures |log| > 0 ==> RecordSlot(cap, |log|) != RecordSlot(cap, |log| + 1)
  {
    hide PageNo, RecordSlot, PageStart;
    PageBounds(cap, |log| + 1);
    forall e | |file| < e <= |log| ensures page'[RecordSlot(cap, e)] == log[e - 1] {
      PageIs(cap, e, p);
      PageBounds(cap, e);
    }
    if |log| > 0 { SlotsDiffer(cap, |log|); }
  }

  lemma SlotsDiffer(cap: nat, e: nat)
    requires cap >= 2 && e > 0
    ensures RecordSlot(cap, e) != RecordSlot(cap, e + 1)
  {
    hide PageNo, PageStart, RecordSlot;
    var p := PageNo(cap, e);
    PageBounds(cap, e);
    PageBounds(cap, e + 1);
    if e + 1 <= PageStart(cap, p) + cap {
      PageIs(cap, e + 1, p);
    } else {
      NextStart(cap, p);
      PageIs(cap, e + 1, p + 1);
    }
  }

  lemma BumpKeepsStore(c: Config, m: Metadata, cbDurable: nat, mds: map<nat, Record>, rec: Record)
    requires StoreOk(c, m, cbDurable, mds, BumpDurable(rec)) && rec.epoch == cbDurable + 1
    requires rec.epoch in mds && mds[rec.epoch] == rec
    ensures StoreOk(c, m, cbDurable + 1, mds, Announce(rec))
    ensures m.paged <= cbDurable
  {
    hide PageNo, RecordSlot, PageStart;
    var cap, log := c.pageCap, Recorded(mds, cbDurable);
    assert m.page[RecordSlot(cap, cbDurable + 1) := rec] == m.page;
    Mds.HoldsNext(cap, m.file, m.page, m.bufPage, log, rec, m.page);
    assert Recorded(mds, cbDurable + 1) == log + [rec];
  }

  // ================================================================ reading back

  /** In every phase the store returns the record of every durable epoch. */
  lemma StoreReturns(c: Config, m: Metadata, cbDurable: nat, mds: map<nat, Record>, pc: FlusherPc, e: nat)
    requires StoreOk(c, m, cbDurable, mds, pc) && 1 <= e <= cbDurable
    ensures |m.page| == c.pageCap > 0 && e in mds && Stored(c, m, e) == mds[e]
  {
    hide PageNo, RecordSlot, PageStart;
    var cap, log := c.pageCap, Recorded(mds, cbDurable);
    if pc.SetPaged? || pc.TakePage? {
      var before := m.file[..|m.file| - cap];
      Mds.FoundThere(cap, before, m.page, m.bufPage, log, e);
    } else if pc.WriteRecord? || pc.BumpDurable? {
      FoundInSplit(cap, m.file, m.page, m.bufPage, log, e);
    } else {
      Mds.FoundThere(cap, m.file, m.page, m.bufPage, log, e);
    }
  }

  lemma FoundInSplit(cap: nat, file: seq<Record>, page: seq<Record>, p: nat, log: seq<Record>, e: nat)
    requires Mds.Split(cap, file, page, p, log) && 1 <= e <= |log|
    ensures |page| == cap && Mds.ReadBack(cap, file, page, p, e) == log[e - 1]
  {
    Mds.FoundThere(cap, file, page, p, log, e);
  }

  /** Whatever the phase, a restart finds the record of the last durable epoch. */
  lemma LatestSurvives(c: Config, s: State)
    requires StoreOk(c, s.store, s.cbDurable, s.mds, s.flusher.pc) && s.cbDurable > 0
    ensures |s.store.page| == c.pageCap > 0 && s.cbDurable in s.mds && ResumeRecord(c, s) == s.mds[s.cbDurable]
  {
    hide PageNo, RecordSlot, PageStart;
  }

  /** The others too, if the image is sound. */
  lemma SoundReopens(c: Config, s: State)
    requires StoreOk(c, s.store, s.cbDurable, s.mds, s.flusher.pc) && s.store.paged <= s.cbDurable
    requires MdsCrash.Sound(c.pageCap, ImageOf(s))
    ensures StoreOk(c, Reopened(c, s), s.cbDurable, s.mds, Start)
  {
    hide PageNo, RecordSlot, PageStart;
    var cap, m, log := c.pageCap, s.store, Recorded(s.mds, s.cbDurable);
    if s.cbDurable > 0 {
      PageBounds(cap, s.cbDurable);
      if s.flusher.pc.WriteRecord? || s.flusher.pc.BumpDurable? {
        SamePage(cap, m.file, m.page, m.bufPage, log);
      }
    } else {
      Mds.FirstPage(cap);
    }
  }

  lemma SamePage(cap: nat, file: seq<Record>, page: seq<Record>, p: nat, log: seq<Record>)
    requires Mds.Split(cap, file, page, p, log) && p == PageNo(cap, |log| + 1)
    requires |log| > 0 && |file| == PageStart(cap, PageNo(cap, |log|)) < |log|
    ensures PageNo(cap, |log|) == p
  {
    hide PageNo, RecordSlot, PageStart;
    PageIs(cap, |log|, p);
  }

  /** And only then. */
  lemma UnsoundDoesNotReopen(c: Config, s: State, mds: map<nat, Record>)
    requires c.Valid() && |s.store.page| == c.pageCap && s.store.paged <= s.cbDurable
    requires StoreOk(c, Reopened(c, s), s.cbDurable, mds, Start)
    ensures MdsCrash.Sound(c.pageCap, ImageOf(s))
  {
    hide PageNo, RecordSlot, PageStart;
  }

  // ================================================================ when a crash is harmless

  /** The image is sound except from the append of a full page to the store that makes the next
      epoch durable: once in `cap` epochs. */
  lemma SoundExactly(c: Config, s: State)
    requires StoreOk(c, s.store, s.cbDurable, s.mds, s.flusher.pc) && s.store.paged <= s.cbDurable
    ensures var pc := s.flusher.pc;
            MdsCrash.Sound(c.pageCap, ImageOf(s)) <==>
            !(pc.SetPaged? || pc.TakePage? ||
              ((pc.WriteRecord? || pc.BumpDurable?) && s.cbDurable > 0 && s.cbDurable % c.pageCap == 0))
  {
    hide PageNo, RecordSlot, PageStart;
    var cap, m, log := c.pageCap, s.store, Recorded(s.mds, s.cbDurable);
    var pc := s.flusher.pc;
    if s.cbDurable > 0 {
      PageBounds(cap, s.cbDurable);
      if pc.WriteRecord? || pc.BumpDurable? {
        FullExactly(cap, m.file, m.page, m.bufPage, log);
      }
    } else {
      Mds.FirstPage(cap);
    }
  }

  lemma FullExactly(cap: nat, file: seq<Record>, page: seq<Record>, p: nat, log: seq<Record>)
    requires Mds.Split(cap, file, page, p, log) && p == PageNo(cap, |log| + 1) && |log| > 0
    ensures |file| == PageStart(cap, PageNo(cap, |log|)) <==> |log| % cap != 0
  {
    hide PageNo, RecordSlot, PageStart;
    var n := |log|;
    PageBounds(cap, n + 1);
    PageBounds(cap, n);
    if |file| < n {
      PageIs(cap, n, p);
    }
    StartOfPage(cap, n + 1);
  }

  lemma StartOfPage(cap: nat, e: nat)
    requires cap > 0 && e > 1
    ensures PageStart(cap, PageNo(cap, e)) == e - 1 <==> (e - 1) % cap == 0
  {
    PageBounds(cap, e);
  }

  // ================================================================ the same write as the metadata store's own

  /** The next flusher steps leave these images. */
  ghost predicate Leaves(c: Config, s: State, images: seq<Mds.Image>)
    decreases |images|
  {
    |images| == 0 || (CanFlush(c, s) && ImageOf(DoFlush(c, s)) == images[0] && Leaves(c, DoFlush(c, s), images[1..]))
  }

  /** From taking the page on, they are those of a write of the metadata store; choosing the
      buffer's next page leaves no trace. */
  lemma StepsOfAWrite(c: Config, s: State, rec: Record)
    requires Shape(c, s) && s.flusher.pc == AllocPage(rec)
    ensures var im, p := ImageOf(s), s.store.bufPage;
            var images := Mds.WriteImages(c.pageCap, im, p, rec);
            if p != 0 && PageNo(c.pageCap, rec.epoch) != p
            then |images| == 4 && Leaves(c, s, [images[0], images[1], images[1], images[2], images[3]])
            else |images| == 2 && Leaves(c, s, [im, images[0], images[1]])
  {
    hide PageNo, RecordSlot, Shape, DoFlush, CanFlush;
    var s1 := TakesPage(c, s, rec);
    var im, p := ImageOf(s), s.store.bufPage;
    var images := Mds.WriteImages(c.pageCap, im, p, rec);
    if s1.flusher.pc.SetPaged? {
      var s2 := TakesPage(c, s1, rec);
      var s3 := TakesPage(c, s2, rec);
      RecordAndBump(c, s3, rec);
      assert [images[1], images[2], images[3]][1..] == [images[2], images[3]];
      assert Leaves(c, s2, [images[1], images[2], images[3]]);
      assert [images[1], images[1], images[2], images[3]][1..] == [images[1], images[2], images[3]];
      assert Leaves(c, s1, [images[1], images[1], images[2], images[3]]);
      assert [images[0], images[1], images[1], images[2], images[3]][1..] == [images[1], images[1], images[2], images[3]];
    } else {
      RecordAndBump(c, s1, rec);
      assert [im, images[0], images[1]][1..] == [images[0], images[1]];
    }
  }

  /** One step before the record is stored. */
  lemma TakesPage(c: Config, s: State, rec: Record) returns (t: State)
    requires Shape(c, s)
    requires (s.flusher.pc == AllocPage(rec) || s.flusher.pc == SetPaged(rec) || s.flusher.pc == TakePage(rec))
    ensures CanFlush(c, s) && t == DoFlush(c, s) && Shape(c, t)
    ensures c.pageCap > 0 && rec.epoch > 0 && |s.store.page| == c.pageCap
    ensures t.writers == s.writers && t.cbDurable == s.cbDurable
    ensures var im, p := ImageOf(s), s.store.bufPage;
            match s.flusher.pc
            case AllocPage(_) =>
              if p != 0 && PageNo(c.pageCap, rec.epoch) != p
              then t.flusher.pc == SetPaged(rec) && ImageOf(t) == Mds.TurnImages(im)[0]
              else t.flusher.pc == WriteRecord(rec) && ImageOf(t) == im
            case SetPaged(_) => t.flusher.pc == TakePage(rec) && ImageOf(t) == im.(paged := im.durable)
            case _ => t.flusher.pc == WriteRecord(rec) && ImageOf(t) == im
  {
    hide PageNo, RecordSlot, WriterShape, RingShape;
    t := DoFlush(c, s);
  }

  lemma RecordAndBump(c: Config, s: State, rec: Record)
    requires Shape(c, s) && s.flusher.pc == WriteRecord(rec)
    ensures var images := Mds.StoreImages(c.pageCap, ImageOf(s), rec); Leaves(c, s, [images[0], images[1]])
  {
    hide PageNo, RecordSlot;
    var images := Mds.StoreImages(c.pageCap, ImageOf(s), rec);
    var s1 := DoFlush(c, s);
    assert Shape(c, s1);
    assert Leaves(c, DoFlush(c, s1), []);
    assert [images[1]][1..] == [];
    assert Leaves(c, s1, [images[1]]);
    assert [images[0], images[1]][1..] == [images[1]];
  }
}
