/** Optimistic readers of the metadata store against its writer (src/nvwal_mds.c). Readers take no
    lock: they read the page number of the NV buffer, copy a record, and read the page number again.
    One step is one access to shared memory; copying a record is one step. */
module MdsRace {
  import opened Base
  import opened MdsLayout
  import opened Mds
  import opened MdsRead

  // ================================================================ state

  /** The writer inside a call: page appended but not yet recycled, record to store, record stored. */
  datatype Writing = Ready | Appended(rec: Record) | ToStore(rec: Record) | Stored(rec: Record)

  /** `log` are the records whose write has completed. */
  datatype Shared = Shared(cap: nat, file: seq<Record>, page: seq<Record>, bufPage: nat, writing: Writing,
                           log: seq<Record>)

  datatype ReaderPc =
    | Idle
    | LoadPage(e: nat)
    | CopyRecord(e: nat)
    | Reload(e: nat)
    | Lookup(e: nat)
    | FromFile(e: nat)
    | Got(e: nat, rec: Record)

  /** An iterator: prefetched entries, how many of them count, and where its thread is. */
  datatype Reader = Reader(entries: seq<Record>, count: nat, pc: ReaderPc)

  datatype State = State(shared: Shared, readers: seq<Reader>)

  ghost predicate Shape(s: State) {
    && s.shared.cap > 0 && |s.shared.page| == s.shared.cap
    && forall i | 0 <= i < |s.readers| :: |s.readers[i].entries| == READ_PREFETCH && s.readers[i].count <= READ_PREFETCH
  }

  // ================================================================ the writer

  predicate CanBegin(x: Shared, rec: Record) {
    x.cap > 0 && x.writing.Ready? && rec.epoch == |x.log| + 1
  }

  /** A free buffer is taken, a buffered page used, a full one appended to the file first. */
  function Begin(x: Shared, rec: Record): Shared
    requires CanBegin(x, rec)
  {
    var p := PageNo(x.cap, rec.epoch);
    if x.bufPage == 0 then x.(bufPage := p, writing := ToStore(rec))
    else if p == x.bufPage then x.(writing := ToStore(rec))
    else x.(file := x.file + x.page, writing := Appended(rec))
  }

  predicate CanGoOn(x: Shared) {
    x.cap > 0 && |x.page| == x.cap && !x.writing.Ready? && x.writing.rec.epoch > 0
  }

  function GoOn(x: Shared): Shared
    requires CanGoOn(x)
  {
    var rec := x.writing.rec;
    match x.writing
    case Ready => x
    case Appended(_) => x.(bufPage := PageNo(x.cap, rec.epoch), writing := ToStore(rec))
    case ToStore(_) => x.(page := x.page[RecordSlot(x.cap, rec.epoch) := rec], writing := Stored(rec))
    case Stored(_) => x.(writing := Ready, log := x.log + [rec])
  }

  // ================================================================ a reader

  /** Asks for an epoch that is durable. */
  predicate CanAsk(x: Shared, r: Reader, e: nat) {
    (r.pc.Idle? || r.pc.Got?) && 1 <= e <= |x.log|
  }

  /** How many records a read from the file may fetch. */
  predicate Fetchable(x: Shared, e: nat, n: nat)
    requires x.cap > 0 && e > 0
  {
    PageBounds(x.cap, e);
    1 <= n <= READ_PREFETCH && e + n - 1 <= PageStart(x.cap, PageNo(x.cap, e)) + x.cap && e - 1 + n <= |x.file|
  }

  predicate CanRead(x: Shared, r: Reader, n: nat) {
    && x.cap > 0 && |x.page| == x.cap && |r.entries| == READ_PREFETCH && r.count <= READ_PREFETCH
    && match r.pc
       case Idle => false
       case Got(_, _) => false
       case FromFile(e) => e > 0 && Fetchable(x, e, n)
       case LoadPage(e) => e > 0
       case CopyRecord(e) => e > 0
       case Reload(e) => e > 0
       case Lookup(e) => e > 0 && (Hits(r, e) ==> e - r.entries[0].epoch < READ_PREFETCH)
  }

  /** The epoch lies between the first and the last prefetched entry, as far as these tell. */
  predicate Hits(r: Reader, e: nat)
    requires |r.entries| == READ_PREFETCH && r.count <= READ_PREFETCH
  {
    r.count > 0 && r.entries[0].epoch <= e <= r.entries[r.count - 1].epoch
  }

  function Read(x: Shared, r: Reader, n: nat): Reader
    requires CanRead(x, r, n)
  {
    match r.pc
    case LoadPage(e) => r.(pc := if x.bufPage == PageNo(x.cap, e) && x.bufPage != 0 then CopyRecord(e) else Lookup(e))
    case CopyRecord(e) => r.(entries := r.entries[0 := x.page[RecordSlot(x.cap, e)]], pc := Reload(e))
    case Reload(e) =>
      if x.bufPage == PageNo(x.cap, e) then r.(count := 1, pc := Got(e, r.entries[0])) else r.(pc := Lookup(e))
    case Lookup(e) => r.(pc := if Hits(r, e) then Got(e, r.entries[e - r.entries[0].epoch]) else FromFile(e))
    case FromFile(e) => Reader(x.file[e - 1..e - 1 + n] + r.entries[n..], n, Got(e, x.file[e - 1]))
    case _ => r
  }

  datatype Step = BeginStep(rec: Record) | GoOnStep | AskStep(i: nat, e: nat) | ReadStep(i: nat, n: nat)

  ghost predicate Next(s: State, step: Step, s': State) {
    && Shape(s)
    && match step
       case BeginStep(rec) => CanBegin(s.shared, rec) && s' == s.(shared := Begin(s.shared, rec))
       case GoOnStep => CanGoOn(s.shared) && s' == s.(shared := GoOn(s.shared))
       case AskStep(i, e) =>
         && i < |s.readers| && CanAsk(s.shared, s.readers[i], e)
         && s' == s.(readers := s.readers[i := s.readers[i].(pc := LoadPage(e))])
       case ReadStep(i, n) =>
         && i < |s.readers| && CanRead(s.shared, s.readers[i], n)
         && s' == s.(readers := s.readers[i := Read(s.shared, s.readers[i], n)])
  }

  // ================================================================ invariant

  /** The pages before the buffered one are on file, and once a page is appended also that one. */
  ghost predicate FileOk(x: Shared) {
    && x.cap > 0 && |x.page| == x.cap
    && (forall i | 0 <= i < |x.log| :: x.log[i].epoch == i + 1)
    && |x.file| <= |x.log| && x.file == x.log[..|x.file|]
    && if x.bufPage == 0 then |x.log| == 0 && x.writing.Ready?
       else
         && (|x.log| == 0 ==> !x.writing.Ready?)
         && |x.log| <= PageStart(x.cap, x.bufPage) + x.cap
         && |x.file| == PageStart(x.cap, if x.writing.Appended? then x.bufPage + 1 else x.bufPage)
  }

  /** A slot holds the newest record stored in it; while its page is buffered, exactly the one asked for. */
  ghost predicate SlotOk(x: Shared, e: nat)
    requires x.cap > 0 && |x.page| == x.cap && 1 <= e <= |x.log|
  {
    var held := x.page[RecordSlot(x.cap, e)];
    && (held == x.log[e - 1] || held.epoch > e)
    && (x.bufPage > 0 && PageStart(x.cap, x.bufPage) < e ==> held == x.log[e - 1])
  }

  ghost predicate WritingOk(x: Shared)
    requires x.cap > 0 && |x.page| == x.cap
  {
    !x.writing.Ready? ==>
      && x.writing.rec.epoch == |x.log| + 1
      && PageNo(x.cap, |x.log| + 1) == (if x.writing.Appended? then x.bufPage + 1 else x.bufPage)
      && (x.writing.Stored? ==> x.page[RecordSlot(x.cap, |x.log| + 1)] == x.writing.rec)
  }

  ghost predicate SharedOk(x: Shared) {
    && FileOk(x)
    && (forall e | 1 <= e <= |x.log| :: SlotOk(x, e))
    && WritingOk(x)
  }

  /** The prefetched entries are a run of records; more than one only from before the buffered page. */
  ghost predicate PrefetchOk(x: Shared, r: Reader)
    requires r.count <= |r.entries|
  {
    && RunOf(x.log, r.entries[..r.count])
    && (r.count > 1 ==> x.bufPage > 0 && r.entries[r.count - 1].epoch <= PageStart(x.cap, x.bufPage))
  }

  /** An entry copied from a buffer that may have been recycled meanwhile. */
  ghost predicate CopiedOk(x: Shared, r: Reader, e: nat)
    requires 1 <= e <= |x.log| && 0 < |r.entries| && r.count <= |r.entries|
  {
    && (r.entries[0] == x.log[e - 1] || r.entries[0].epoch > e)
    && (r.count > 1 ==> r.entries[r.count - 1].epoch < e)
  }

  ghost predicate ReaderOk(x: Shared, r: Reader) {
    && x.cap > 0 && |r.entries| == READ_PREFETCH && r.count <= READ_PREFETCH
    && match r.pc
       case Idle => PrefetchOk(x, r)
       case LoadPage(e) => 1 <= e <= |x.log| && PrefetchOk(x, r)
       case CopyRecord(e) =>
         && 1 <= e <= |x.log| && PrefetchOk(x, r) && PageNo(x.cap, e) <= x.bufPage
         && (r.count > 1 ==> r.entries[r.count - 1].epoch < e)
       case Reload(e) =>
         && 1 <= e <= |x.log| && CopiedOk(x, r, e) && PageNo(x.cap, e) <= x.bufPage
         && (x.bufPage == PageNo(x.cap, e) ==> r.entries[0] == x.log[e - 1])
       case Lookup(e) => 1 <= e <= |x.log| && PageNo(x.cap, e) < x.bufPage && (PrefetchOk(x, r) || CopiedOk(x, r, e))
       case FromFile(e) => 1 <= e <= |x.log| && PageNo(x.cap, e) < x.bufPage
       case Got(e, rec) => 1 <= e <= |x.log| && PrefetchOk(x, r) && rec == x.log[e - 1]
  }

  ghost predicate Inv(s: State) {
    SharedOk(s.shared) && forall i | 0 <= i < |s.readers| :: ReaderOk(s.shared, s.readers[i])
  }

  // ================================================================ steps of the writer

  /** Between writes the store holds exactly the log. */
  lemma AtRestHolds(x: Shared)
    requires SharedOk(x) && x.writing.Ready?
    ensures Holds(x.cap, x.file, x.page, x.bufPage, x.log)
  {
    hide PageNo, RecordSlot, PageStart;
    if x.bufPage > 0 {
      forall e | |x.file| < e <= |x.log| ensures x.page[RecordSlot(x.cap, e)] == x.log[e - 1] {
        assert SlotOk(x, e);
      }
    }
  }

  lemma BeginKeeps(x: Shared, rec: Record)
    requires SharedOk(x) && CanBegin(x, rec)
    ensures SharedOk(Begin(x, rec))
  {
    hide PageNo, RecordSlot, PageStart, Holds;
    var x' := Begin(x, rec);
    AtRestHolds(x);
    NextAllocated(x.cap, x.file, x.page, x.bufPage, x.log);
    forall e | 1 <= e <= |x'.log| ensures SlotOk(x', e) {
      assert SlotOk(x, e);
    }
  }

  lemma GoOnKeeps(x: Shared)
    requires SharedOk(x) && CanGoOn(x)
    ensures SharedOk(GoOn(x))
  {
    hide PageNo, RecordSlot, PageStart;
    var x', n := GoOn(x), |x.log| + 1;
    PageBounds(x.cap, n);
    NextStart(x.cap, x.bufPage);
    forall e | 1 <= e <= |x'.log| ensures SlotOk(x', e) {
      if e < n {
        assert SlotOk(x, e);
        if x.writing.ToStore? && PageStart(x.cap, x.bufPage) < e {
          PageIs(x.cap, e, x.bufPage);
          PageBounds(x.cap, e);
        }
      }
    }
  }

  // ================================================================ readers under writes

  /** The log only grows and the page number only rises. */
  ghost predicate Later(x: Shared, x': Shared) {
    x'.cap == x.cap > 0 && x.log <= x'.log && x.bufPage <= x'.bufPage
  }

  lemma PrefetchKept(x: Shared, x': Shared, r: Reader)
    requires Later(x, x') && r.count <= |r.entries| && PrefetchOk(x, r)
    ensures PrefetchOk(x', r)
  {
    hide PageStart;
    var run := r.entries[..r.count];
    if |run| > 0 {
      var i := run[0].epoch - 1;
      assert x'.log[i..i + |run|] == x.log[i..i + |run|];
    }
    if r.count > 1 && x.bufPage < x'.bufPage {
      StartGrows(x.cap, x.bufPage, x'.bufPage);
    }
  }

  lemma ReaderKept(x: Shared, x': Shared, r: Reader)
    requires Later(x, x') && ReaderOk(x, r)
    ensures ReaderOk(x', r)
  {
    hide PageNo, PageStart, PrefetchOk;
    if PrefetchOk(x, r) { PrefetchKept(x, x', r); }
  }

  // ================================================================ steps of a reader

  /** A durable epoch is never on a page after the buffered one; on an earlier page it is on file. */
  lemma WhereItIs(x: Shared, e: nat)
    requires SharedOk(x) && 1 <= e <= |x.log|
    ensures x.bufPage > 0 && 0 < PageNo(x.cap, e) <= x.bufPage
    ensures PageNo(x.cap, e) == x.bufPage ==> PageStart(x.cap, x.bufPage) < e
    ensures PageNo(x.cap, e) < x.bufPage ==>
              PageStart(x.cap, PageNo(x.cap, e)) + x.cap <= |x.file| && e <= PageStart(x.cap, x.bufPage)
  {
    hide PageNo, RecordSlot, PageStart;
    var p := PageNo(x.cap, e);
    PageBounds(x.cap, e);
    if p < x.bufPage {
      StartGrows(x.cap, p, x.bufPage);
      NextStart(x.cap, x.bufPage);
    } else if x.bufPage < p {
      StartGrows(x.cap, x.bufPage, p);
    }
  }

  lemma ReadKeeps(x: Shared, r: Reader, n: nat)
    requires SharedOk(x) && ReaderOk(x, r) && CanRead(x, r, n)
    ensures ReaderOk(x, Read(x, r, n))
  {
    hide PageNo, RecordSlot, PageStart;
    WhereItIs(x, r.pc.e);
    match r.pc
    case LoadPage(e) =>
    case CopyRecord(e) => assert SlotOk(x, e);
    case Reload(e) => assert x.log[e - 1].epoch == e;
    case Lookup(e) => LookupKeeps(x, r, e);
    case FromFile(e) => FetchKeeps(x, r, e, n);
  }

  /** Whether or not entry 0 was overwritten with a recycled record, a hit is the right record. */
  lemma LookupKeeps(x: Shared, r: Reader, e: nat)
    requires SharedOk(x) && ReaderOk(x, r) && r.pc == Lookup(e)
    ensures Hits(r, e) ==> e - r.entries[0].epoch < r.count
    ensures Hits(r, e) ==> r.entries[e - r.entries[0].epoch] == x.log[e - 1] && PrefetchOk(x, r)
  {
    hide PageNo, RecordSlot, PageStart;
    if Hits(r, e) {
      var first, run := r.entries[0].epoch, r.entries[..r.count];
      assert run[0] == r.entries[0] && run[r.count - 1] == r.entries[r.count - 1];
      if CopiedOk(x, r, e) {
        assert r.count == 1 && r.entries[0] == x.log[e - 1];
        assert run == x.log[e - 1..e];
      } else {
        assert run[r.count - 1] == x.log[first - 1 + r.count - 1];
        assert run[e - first] == x.log[e - 1];
      }
    }
  }

  lemma FetchKeeps(x: Shared, r: Reader, e: nat, n: nat)
    requires SharedOk(x) && ReaderOk(x, r) && r.pc == FromFile(e) && CanRead(x, r, n)
    ensures ReaderOk(x, Read(x, r, n))
  {
    hide PageNo, RecordSlot, PageStart;
    var r' := Read(x, r, n);
    WhereItIs(x, e);
    StartGrows(x.cap, PageNo(x.cap, e), x.bufPage);
    var run := r'.entries[..n];
    assert run == x.file[e - 1..e - 1 + n] == x.log[e - 1..e - 1 + n];
    assert run[0] == x.log[e - 1] && r'.entries[n - 1] == x.log[e - 1 + n - 1];
  }

  /** No access goes past the prefetched entries or the end of the file. */
  lemma ReadsAreInRange(x: Shared, r: Reader, n: nat)
    requires SharedOk(x) && ReaderOk(x, r)
    ensures r.pc.Lookup? && Hits(r, r.pc.e) ==> r.pc.e - r.entries[0].epoch < r.count
    ensures r.pc.FromFile? && r.pc.e + n - 1 <= PageStart(x.cap, PageNo(x.cap, r.pc.e)) + x.cap ==> r.pc.e - 1 + n <= |x.file|
  {
    hide PageNo, RecordSlot, PageStart;
    if r.pc.Lookup? { LookupKeeps(x, r, r.pc.e); }
    if r.pc.FromFile? { WhereItIs(x, r.pc.e); }
  }

  // ================================================================ runs

  lemma StepKeeps(s: State, step: Step, s': State)
    requires Inv(s) && Next(s, step, s')
    ensures Inv(s')
  {
    hide SharedOk, ReaderOk, Begin, GoOn, Read;
    match step
    case BeginStep(rec) => BeginKeeps(s.shared, rec); WriteLater(s.shared, s'.shared, rec); ReadersKept(s, s'.shared);
    case GoOnStep => GoOnKeeps(s.shared); GoOnLater(s.shared); ReadersKept(s, s'.shared);
    case AskStep(i, e) => AskKeeps(s.shared, s.readers[i], e);
    case ReadStep(i, n) => ReadKeeps(s.shared, s.readers[i], n);
  }

  lemma ReadersKept(s: State, x: Shared)
    requires Inv(s) && Later(s.shared, x)
    ensures forall i | 0 <= i < |s.readers| :: ReaderOk(x, s.readers[i])
  {
    hide SharedOk, ReaderOk;
    forall i | 0 <= i < |s.readers| ensures ReaderOk(x, s.readers[i]) {
      ReaderKept(s.shared, x, s.readers[i]);
    }
  }

  lemma WriteLater(x: Shared, x': Shared, rec: Record)
    requires SharedOk(x) && CanBegin(x, rec) && x' == Begin(x, rec)
    ensures Later(x, x')
  {
  }

  lemma GoOnLater(x: Shared)
    requires SharedOk(x) && CanGoOn(x)
    ensures Later(x, GoOn(x))
  {
    hide PageNo, RecordSlot, PageStart;
  }

  lemma AskKeeps(x: Shared, r: Reader, e: nat)
    requires ReaderOk(x, r) && CanAsk(x, r, e)
    ensures ReaderOk(x, r.(pc := LoadPage(e)))
  {
  }

  /** An empty store and fresh iterators. */
  ghost predicate IsInitial(s: State) {
    && Shape(s)
    && s.shared.file == [] && s.shared.bufPage == 0 && s.shared.writing.Ready? && s.shared.log == []
    && forall i | 0 <= i < |s.readers| :: s.readers[i].count == 0 && s.readers[i].pc.Idle?
  }

  ghost predicate IsRun(states: seq<State>, steps: seq<Step>) {
    && |states| == |steps| + 1
    && IsInitial(states[0])
    && forall i | 0 <= i < |steps| :: Next(states[i], steps[i], states[i + 1])
  }

  lemma {:induction false} RunKeeps(states: seq<State>, steps: seq<Step>, k: nat)
    requires IsRun(states, steps) && k < |states|
    ensures Inv(states[k])
    decreases k
  {
    hide Next;
    if k == 0 {
    } else {
      RunKeeps(states, steps, k - 1);
      assert Next(states[k - 1], steps[k - 1], states[k]);
      StepKeeps(states[k - 1], steps[k - 1], states[k]);
    }
  }

  /** In every interleaving, every reader that gets a record gets the record of the epoch it asked for. */
  lemma ReadersGetTheirRecord(states: seq<State>, steps: seq<Step>, k: nat, i: nat)
    requires IsRun(states, steps) && k < |states| && i < |states[k].readers| && states[k].readers[i].pc.Got?
    ensures var Got(e, rec) := states[k].readers[i].pc;
            1 <= e <= |states[k].shared.log| && rec == states[k].shared.log[e - 1] && rec.epoch == e
  {
    hide IsRun;
    RunKeeps(states, steps, k);
    assert ReaderOk(states[k].shared, states[k].readers[i]);
  }

  // ================================================================ undisturbed

  /** `k` steps of a reader in a row. */
  ghost predicate ReadsTo(x: Shared, r: Reader, n: nat, k: nat, t: Reader)
    decreases k
  {
    if k == 0 then r == t else CanRead(x, r, n) && ReadsTo(x, Read(x, r, n), n, k - 1, t)
  }

  /** Any reader that is not busy may ask for any durable epoch. Left alone, it gets its record after at
      most three steps: from the buffer if that holds its page; otherwise from what it fetched before, if
      that includes the epoch; otherwise, and only then, from the file, along with the records after it. */
  lemma ReadsUndisturbed(x: Shared, r: Reader, e: nat, n: nat) returns (k: nat, t: Reader)
    requires SharedOk(x) && ReaderOk(x, r) && (r.pc.Idle? || r.pc.Got?) && 1 <= e <= |x.log|
    requires PageNo(x.cap, e) != x.bufPage ==> Fetchable(x, e, n)
    ensures CanAsk(x, r, e) && ReadsTo(x, r.(pc := LoadPage(e)), n, k, t) && k <= 3 && t.pc == Got(e, x.log[e - 1])
    ensures if PageNo(x.cap, e) == x.bufPage then t.count == 1 && t.entries == r.entries[0 := x.log[e - 1]]
            else if Hits(r, e) then t.count == r.count && t.entries == r.entries
            else t.count == n && e - 1 + n <= |x.log| && t.entries == x.log[e - 1..e - 1 + n] + r.entries[n..]
  {
    hide PageNo, RecordSlot, PageStart;
    WhereItIs(x, e);
    var r0 := r.(pc := LoadPage(e));
    AskKeeps(x, r, e);
    var r1 := Read(x, r0, n);
    ReadKeeps(x, r0, n);
    if PageNo(x.cap, e) == x.bufPage {
      assert SlotOk(x, e);
      var r2 := Read(x, r1, n);
      k, t := 3, Read(x, r2, n);
      assert ReadsTo(x, r2, n, 1, t);
      assert ReadsTo(x, r1, n, 2, t);
    } else {
      LookupKeeps(x, r1, e);
      var r2 := Read(x, r1, n);
      if Hits(r, e) {
        k, t := 2, r2;
        assert ReadsTo(x, r1, n, 1, t);
      } else {
        k, t := 3, Read(x, r2, n);
        assert ReadsTo(x, r2, n, 1, t);
        assert ReadsTo(x, r1, n, 2, t);
        assert x.file[e - 1..e - 1 + n] == x.log[e - 1..e - 1 + n];
      }
    }
  }

  ghost predicate GoesTo(x: Shared, k: nat, y: Shared)
    decreases k
  {
    if k == 0 then x == y else CanGoOn(x) && GoesTo(GoOn(x), k - 1, y)
  }

  /** The next epoch can always be written. Left alone, a write adds its record, after at most three steps
      from its beginning. */
  lemma WritesUndisturbed(x: Shared, rec: Record) returns (k: nat, y: Shared)
    requires SharedOk(x) && x.writing.Ready? && rec.epoch == |x.log| + 1
    ensures CanBegin(x, rec) && GoesTo(Begin(x, rec), k, y) && k <= 3
    ensures y.writing.Ready? && y.log == x.log + [rec] && Holds(y.cap, y.file, y.page, y.bufPage, y.log)
  {
    hide PageNo, RecordSlot, PageStart, Holds, SharedOk;
    assert x.cap > 0 by { PageSize(x); }
    var x1 := Begin(x, rec);
    BeginKeeps(x, rec);
    assert |x1.page| == x1.cap by { PageSize(x1); }
    if x1.writing.Appended? {
      var x2 := GoOn(x1);
      GoOnKeeps(x1);
      var m, z := StoresUndisturbed(x2);
      k, y := m + 1, z;
    } else {
      k, y := StoresUndisturbed(x1);
    }
    AtRestHolds(y);
  }

  lemma PageSize(x: Shared)
    requires SharedOk(x)
    ensures |x.page| == x.cap > 0
  {
  }

  lemma StoresUndisturbed(x: Shared) returns (k: nat, y: Shared)
    requires SharedOk(x) && x.writing.ToStore? && x.writing.rec.epoch > 0
    ensures GoesTo(x, k, y) && k == 2
    ensures SharedOk(y) && y.writing.Ready? && y.log == x.log + [x.writing.rec]
  {
    hide PageNo, RecordSlot, PageStart, SharedOk;
    PageSize(x);
    var x1 := GoOn(x);
    GoOnKeeps(x);
    k, y := 2, GoOn(x1);
    GoOnKeeps(x1);
    assert GoesTo(x1, 1, y);
  }
}
