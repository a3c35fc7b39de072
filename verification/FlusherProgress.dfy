/** The flusher, left alone: a pass ends, with everything of its epoch in the log and, if the epoch is
    stable, with the epoch durable; it can only be held up at a segment turn. */
module FlusherProgress {
  import opened Base
  import opened Circular
  import opened LogStream
  import opened Restart
  import opened Pipeline
  import opened WriterInvariant
  import opened RingInvariant
  import opened LogInvariant
  import opened EpochRanges
  import opened CursorInvariant
  import opened StoreInvariant
  import opened PipelineInvariant
  import opened PipelineRuns
  import opened TagPasses
  import opened Undisturbed
  import FlusherSteps
  import FsyncerProgress
  import MdsLayout

  /** A turn has to wait for the fsyncer, or for the readers of the slot. */
  ghost predicate HeldUp(c: Config, s: State)
    requires c.Valid() && RingShape(c, s.ring)
  {
    && s.flusher.pc.Turning?
    && var next, turn := s.ring.slots[NextSlot(c, s.ring)], s.flusher.pc.turn;
    || (turn.Wait? && next.requested && !next.completed)
    || (turn.Lock? && next.pins != 0)
    || (turn.Lock? && s.fsyncer.Bump? && s.fsyncer.j == NextSlot(c, s.ring))
  }

  // ================================================================ nothing is left behind

  /** In a pass that nobody disturbs, the writers visited have nothing of the target epoch left, stable
      or not. */
  ghost predicate Thorough(c: Config, s: State) {
    FlushOk(c, s.flusher.(stablePass := true), s.writers, s.ring)
  }

  /** The pass over the writers. */
  predicate Visiting(pc: FlusherPc) {
    || pc.Search? || pc.Found? || pc.LoadTag0? || pc.LoadTag1? || pc.LoadTail? || pc.Copy? || pc.Advance? || pc.Turning?
    || pc.NextWriter?
  }

  /** Moves that change nothing but the place of the flusher. */
  lemma ThoroughMove(c: Config, s: State, fl: Flusher)
    requires Inv(c, s) && Thorough(c, s) && Visiting(s.flusher.pc) && fl.target == s.flusher.target && !fl.pc.Advance?
    requires FlusherShape(c, fl.pc)
    requires forall w | 0 <= w < |s.writers| :: WriterShape(c, s.writers[w]) && PassOk(c, fl.(stablePass := true), w, s.writers[w])
    ensures Thorough(c, s.(flusher := fl))
  {
    hide Inv, PassOk, WriterShape, RingShape;
  }

  lemma ThoroughSearch(c: Config, s: State, w: nat, i: nat)
    requires Inv(c, s) && Thorough(c, s) && s.flusher.pc == Search(w, i)
    ensures Thorough(c, DoSearch(c, s, w, i))
  {
    hide RingOk, LogOk, StoreOk, ReadersOk, StreamOk, WriterOk, ConcludeOk;
    var x, fl := s.writers[w], DoSearch(c, s, w, i).flusher;
    var now, was := fl.(stablePass := true), s.flusher.(stablePass := true);
    assert PassOk(c, was, w, x);
    if fl.pc.NextWriter? { FlusherSteps.NoFrameNothingLeft(c, w, x, s.durable); }
    forall v | 0 <= v < |s.writers| ensures PassOk(c, now, v, s.writers[v]) {
      assert PassOk(c, was, v, s.writers[v]);
    }
    ThoroughMove(c, s, fl);
  }

  /** The places in between, where a frame of the target epoch is at hand. */
  lemma ThoroughFound(c: Config, s: State, fl: Flusher)
    requires Inv(c, s) && Thorough(c, s) && (s.flusher.pc.Found? || s.flusher.pc.LoadTag0? || s.flusher.pc.LoadTag1?)
    requires fl == s.flusher.(pc := fl.pc, tag0 := fl.tag0, tag1 := fl.tag1)
    requires (fl.pc.LoadTag0? || fl.pc.LoadTag1? || fl.pc.LoadTail?) && fl.pc.w == s.flusher.pc.w
    requires fl.pc.i == s.flusher.pc.i
    ensures Thorough(c, s.(flusher := fl))
  {
    hide RingOk, LogOk, StoreOk, ReadersOk, StreamOk, WriterOk, ConcludeOk;
    forall v | 0 <= v < |s.writers| ensures PassOk(c, fl.(stablePass := true), v, s.writers[v]) {
      assert PassOk(c, s.flusher.(stablePass := true), v, s.writers[v]);
    }
    ThoroughMove(c, s, fl);
  }

  lemma ThoroughLoadTail(c: Config, s: State, w: nat, i: nat)
    requires Inv(c, s) && Thorough(c, s) && s.flusher.pc == LoadTail(w, i)
    ensures Thorough(c, DoLoadTail(c, s, w, i))
  {
    hide RingOk, LogOk, StoreOk, ReadersOk, StreamOk, WriterOk, ConcludeOk;
    var fl := DoLoadTail(c, s, w, i).flusher;
    assert PassOk(c, s.flusher.(stablePass := true), w, s.writers[w]);
    FlusherSteps.FrameDistance(c, w, s.writers[w], s.durable, i);
    forall v | 0 <= v < |s.writers| ensures PassOk(c, fl.(stablePass := true), v, s.writers[v]) {
      assert PassOk(c, s.flusher.(stablePass := true), v, s.writers[v]);
    }
    ThoroughMove(c, s, fl);
  }

  lemma ThoroughNext(c: Config, s: State, pc: FlusherPc)
    requires Inv(c, s) && Thorough(c, s) && s.flusher.pc.NextWriter?
    requires pc == if s.flusher.pc.w + 1 < c.writerCount then Search(s.flusher.pc.w + 1, 0) else Conclude
    ensures Thorough(c, WithPc(s, pc))
  {
    hide RingOk, LogOk, StoreOk, ReadersOk, StreamOk, WriterOk, ConcludeOk;
    var fl := s.flusher.(pc := pc);
    forall v | 0 <= v < |s.writers| ensures PassOk(c, fl.(stablePass := true), v, s.writers[v]) {
      assert PassOk(c, s.flusher.(stablePass := true), v, s.writers[v]);
    }
    ThoroughMove(c, s, fl);
  }

  lemma ThoroughCopy(c: Config, s: State, w: nat, i: nat, head: nat, dist: nat)
    requires Inv(c, s) && Thorough(c, s) && s.flusher.pc == Copy(w, i, head, dist)
    ensures Thorough(c, DoCopy(c, s, w, i, head, dist))
  {
    hide RingOk, LogOk, StoreOk, ReadersOk, StreamOk, WriterOk, ConcludeOk, CopiedOk, CircularRead;
    var s' := DoCopy(c, s, w, i, head, dist);
    var x, copied := s.writers[w], Copied(c, s.ring, dist);
    var bytes := CircularRead(x.buffer, head, copied);
    var was, now := s.flusher.(stablePass := true), s'.flusher.(stablePass := true);
    assert PassOk(c, was, w, x);
    FlusherSteps.RoomLeft(c, s.ring, s.fsyncer);
    FlusherSteps.FrontBytes(c, w, x, s.durable, copied);
    FlusherSteps.CopiedIsCopied(c, now, x, s'.ring.slots[CurSlot(c, s.ring)], s.ring.slots[CurSlot(c, s.ring)], dist,
                                bytes);
    forall v | 0 <= v < |s.writers| ensures PassOk(c, now, v, s.writers[v]) {
      assert PassOk(c, was, v, s.writers[v]);
    }
  }

  lemma ThoroughAdvance(c: Config, s: State, w: nat, i: nat, head: nat, copied: nat)
    requires Inv(c, s) && Thorough(c, s) && s.flusher.pc == Advance(w, i, head, copied)
    ensures Thorough(c, DoAdvance(c, s, w, i, head, copied))
  {
    hide RingOk, LogOk, StoreOk, ReadersOk, StreamOk, WriterOk, FlushOk, ConcludeOk, CopiedOk;
    var s' := DoAdvance(c, s, w, i, head, copied);
    var x, y := s.writers[w], s'.writers[w];
    FlusherSteps.AdvanceFacts(c, s.flusher, s.writers, s.ring, s.durable);
    FlusherSteps.LeftAfterAdvance(c, w, x, s.durable, copied, y);
    FlusherSteps.FlushAfterAdvance(c, s.flusher.(stablePass := true), s.writers, s.ring, y, s'.ring,
                                   s'.flusher.(stablePass := true));
  }

  lemma ThoroughTurn(c: Config, s: State, w: nat, i: nat, turn: Turn)
    requires Inv(c, s) && Thorough(c, s) && s.flusher.pc == Turning(w, i, turn) && CanTurn(c, s.ring, turn)
    ensures Thorough(c, DoTurn(c, s, w, i, turn))
  {
    hide RingOk, LogOk, StoreOk, ReadersOk, StreamOk, WriterOk, ConcludeOk, PassOk, Turned, CanTurn;
    var s' := DoTurn(c, s, w, i, turn);
    FlusherSteps.TurnedShape(c, s.ring, turn);
    forall v | 0 <= v < |s'.writers| ensures PassOk(c, s'.flusher.(stablePass := true), v, s'.writers[v]) {
      FlusherSteps.PassAfterTurn(c, s.flusher.(stablePass := true), s'.flusher.pc, v, s.writers[v]);
    }
  }

  lemma ThoroughOn(c: Config, s: State)
    requires Inv(c, s) && Thorough(c, s) && CanFlush(c, s) && Visiting(s.flusher.pc)
    ensures Thorough(c, DoFlush(c, s))
  {
    hide Inv, Thorough, Shape, DoSearch, DoLoadTail, DoCopy, DoAdvance, DoTurn, CanTurn;
    match s.flusher.pc
    case Search(w, i) => ThoroughSearch(c, s, w, i);
    case Found(w, i) => ThoroughFound(c, s, DoFlush(c, s).flusher);
    case LoadTag0(w, i) => ThoroughFound(c, s, DoFlush(c, s).flusher);
    case LoadTag1(w, i) => ThoroughFound(c, s, DoFlush(c, s).flusher);
    case LoadTail(w, i) => ThoroughLoadTail(c, s, w, i);
    case Copy(w, i, head, dist) => ThoroughCopy(c, s, w, i, head, dist);
    case Advance(w, i, head, copied) => ThoroughAdvance(c, s, w, i, head, copied);
    case Turning(w, i, turn) => ThoroughTurn(c, s, w, i, turn);
    case NextWriter(w) => ThoroughNext(c, s, DoFlush(c, s).flusher.pc);
  }

  /** Nothing of epoch `e` is unflushed. */
  ghost predicate Swept(writers: seq<Writer>, e: nat) {
    forall w | 0 <= w < |writers| ::
      writers[w].flushed <= |writers[w].submitted| && UpTo(writers[w].Unflushed(), e) == 0
  }

  lemma ThoroughSweeps(c: Config, s: State)
    requires Inv(c, s) && Thorough(c, s) && s.flusher.pc.Conclude?
    ensures Swept(s.writers, s.flusher.target)
  {
    hide Inv;
    forall w | 0 <= w < |s.writers|
      ensures s.writers[w].flushed <= |s.writers[w].submitted| && UpTo(s.writers[w].Unflushed(), s.flusher.target) == 0
    {
      assert PassOk(c, s.flusher.(stablePass := true), w, s.writers[w]);
    }
  }

  // ================================================================ how far it is

  function WritersLeft(c: Config, pc: FlusherPc): int {
    match pc
    case Search(w, _) => c.writerCount - w
    case Found(w, _) => c.writerCount - w
    case LoadTag0(w, _) => c.writerCount - w
    case LoadTag1(w, _) => c.writerCount - w
    case LoadTail(w, _) => c.writerCount - w
    case Copy(w, _, _, _) => c.writerCount - w
    case Advance(w, _, _, _) => c.writerCount - w
    case Turning(w, _, _) => c.writerCount - w
    case NextWriter(w) => c.writerCount - w
    case _ => 0
  }

  function BytesLeft(s: State): int {
    var pc := s.flusher.pc;
    if Visiting(pc) && pc.w < |s.writers| then |s.writers[pc.w].submitted| - s.writers[pc.w].flushed else 0
  }

  function TurnRank(turn: Turn): nat {
    match turn
    case NoTurn => 0
    case Request => 8
    case Wait => 7
    case Lock => 6
    case SetDsid => 5
    case ClearCompleted => 4
    case ClearError => 3
    case ClearRequested => 2
    case Unlock => 1
  }

  function Rank(pc: FlusherPc): int {
    match pc
    case Search(_, i) => 30 - i
    case Found(_, _) => 22
    case LoadTag0(_, _) => 21
    case LoadTag1(_, _) => 20
    case Turning(_, _, turn) => 4 + TurnRank(turn)
    case LoadTail(_, _) => 4
    case Copy(_, _, _, _) => 3
    case Advance(_, _, _, _) => 2
    case NextWriter(_) => 1
    case _ => 0
  }

  /** A step of the pass over the writers brings its end closer, unless it is held up. */
  lemma VisitsOn(c: Config, s: State)
    requires Inv(c, s) && Visiting(s.flusher.pc) && c.Valid() && RingShape(c, s.ring) && !HeldUp(c, s)
    ensures CanFlush(c, s) && Inv(c, DoFlush(c, s))
    ensures var t := DoFlush(c, s);
            && (Visiting(t.flusher.pc) || t.flusher.pc.Conclude?)
            && t.flusher.target == s.flusher.target && t.flusher.stablePass == s.flusher.stablePass
            && t.durable == s.durable && t.stable == s.stable && t.cursors == s.cursors && t.fsyncer == s.fsyncer
            && 0 <= WritersLeft(c, t.flusher.pc) <= WritersLeft(c, s.flusher.pc)
            && (WritersLeft(c, t.flusher.pc) == WritersLeft(c, s.flusher.pc) ==> 0 <= BytesLeft(t) <= BytesLeft(s))
            && (WritersLeft(c, t.flusher.pc) == WritersLeft(c, s.flusher.pc) && BytesLeft(t) == BytesLeft(s) ==>
                  0 <= Rank(t.flusher.pc) < Rank(s.flusher.pc))
  {
    hide Inv, DoFlush;
    NotHeldUp(c, s);
    FlushStepKeeps(c, s);
    if s.flusher.pc.Advance? {
      AdvancesOn(c, s);
    } else {
      MovesOn(c, s);
    }
  }

  lemma NotHeldUp(c: Config, s: State)
    requires Inv(c, s) && Visiting(s.flusher.pc) && c.Valid() && RingShape(c, s.ring) && !HeldUp(c, s)
    ensures CanFlush(c, s) && |s.store.page| == c.pageCap && Admissible(c, s, FlushStep)
  {
    hide RingOk, LogOk, StoreOk, ReadersOk, StreamOk, WriterOk, ConcludeOk, FlushOk, EpochsOk, SlotOf;
  }

  lemma AdvancesOn(c: Config, s: State)
    requires Inv(c, s) && s.flusher.pc.Advance? && CanFlush(c, s)
    ensures var t := DoFlush(c, s);
            && (t.flusher.pc.Turning? || t.flusher.pc.NextWriter?) && t.flusher.pc.w == s.flusher.pc.w
            && t.flusher.target == s.flusher.target && t.flusher.stablePass == s.flusher.stablePass
            && t.durable == s.durable && t.stable == s.stable && t.cursors == s.cursors && t.fsyncer == s.fsyncer
            && 0 <= WritersLeft(c, s.flusher.pc) && 0 <= BytesLeft(t) < BytesLeft(s)
  {
    hide RingOk, LogOk, StoreOk, ReadersOk, StreamOk, WriterOk, ConcludeOk, CopiedOk, EpochsOk, RingShape;
    assert PassOk(c, s.flusher, s.flusher.pc.w, s.writers[s.flusher.pc.w]);
  }

  /** The parts of a move that matter here. */
  predicate Moved(c: Config, s: State, t: State)
    requires Visiting(s.flusher.pc)
  {
    && (Visiting(t.flusher.pc) || t.flusher.pc.Conclude?)
    && t.flusher.target == s.flusher.target && t.flusher.stablePass == s.flusher.stablePass
    && t.durable == s.durable && t.stable == s.stable && t.cursors == s.cursors && t.fsyncer == s.fsyncer
    && t.writers == s.writers
    && 0 <= WritersLeft(c, t.flusher.pc) <= WritersLeft(c, s.flusher.pc)
    && (WritersLeft(c, t.flusher.pc) == WritersLeft(c, s.flusher.pc) ==>
          && Visiting(t.flusher.pc) && t.flusher.pc.w == s.flusher.pc.w
          && 0 <= Rank(t.flusher.pc) < Rank(s.flusher.pc))
  }

  lemma MovesOn(c: Config, s: State)
    requires CanFlush(c, s) && Visiting(s.flusher.pc) && !s.flusher.pc.Advance?
    ensures Moved(c, s, DoFlush(c, s)) && BytesLeft(s) >= 0
  {
    hide Shape, DoFlush, CanTurn, Moved;
    var pc := s.flusher.pc;
    BytesAreLeft(c, s);
    if pc.LoadTail? || pc.Copy? || pc.Turning? { SegmentMoves(c, s); } else { OtherMoves(c, s); }
  }

  lemma BytesAreLeft(c: Config, s: State)
    requires Shape(c, s)
    ensures BytesLeft(s) >= 0
  {
    hide RingShape, FlusherShape, AdvanceShape;
  }

  lemma OtherMoves(c: Config, s: State)
    requires CanFlush(c, s)
    requires var pc := s.flusher.pc; pc.Search? || pc.Found? || pc.LoadTag0? || pc.LoadTag1? || pc.NextWriter?
    ensures Moved(c, s, DoFlush(c, s))
  {
    hide WriterShape, RingShape;
  }

  lemma SegmentMoves(c: Config, s: State)
    requires CanFlush(c, s) && (s.flusher.pc.LoadTail? || s.flusher.pc.Copy? || s.flusher.pc.Turning?)
    ensures Moved(c, s, DoFlush(c, s))
  {
    hide WriterShape, Turned, CanTurn, CircularRead, Splice, SetSlot, Copied, Distance, RingShape;
    match s.flusher.pc
    case Copy(w, i, head, dist) =>
    case Turning(w, i, turn) => TurnGoesOn(c, s.ring, turn);
    case LoadTail(w, i) =>
  }

  lemma TurnGoesOn(c: Config, r: Ring, turn: Turn)
    requires c.Valid() && RingShape(c, r) && CanTurn(c, r, turn)
    ensures turn.Unlock? || 0 < TurnRank(Turned(c, r, turn).1) < TurnRank(turn)
    ensures TurnRank(turn) > 0
  {
  }

  /** Undisturbed, the pass over the writers ends, unless it is held up. */
  lemma {:induction false} VisitsUndisturbed(c: Config, s: State) returns (n: nat, t: State)
    requires Inv(c, s) && Thorough(c, s) && Visiting(s.flusher.pc)
    ensures FlushesTo(c, s, n, t) && Inv(c, t) && c.Valid() && RingShape(c, t.ring)
    ensures HeldUp(c, t) || (t.flusher.pc.Conclude? && Swept(t.writers, t.flusher.target))
    ensures t.flusher.target == s.flusher.target && t.flusher.stablePass == s.flusher.stablePass
    ensures t.durable == s.durable && t.stable == s.stable && t.cursors == s.cursors && t.fsyncer == s.fsyncer
    decreases WritersLeft(c, s.flusher.pc), BytesLeft(s), Rank(s.flusher.pc)
  {
    hide Inv, Thorough, DoFlush, CanFlush, RingShape, Swept, BytesLeft, HeldUp;
    assert c.Valid() && RingShape(c, s.ring) by { ShapeHere(c, s); }
    if HeldUp(c, s) {
      n, t := 0, s;
    } else {
      VisitsOn(c, s);
      ThoroughOn(c, s);
      var u := DoFlush(c, s);
      ShapeHere(c, u);
      if u.flusher.pc.Conclude? {
        ThoroughSweeps(c, u);
        n, t := 1, u;
      } else {
        var m, v := VisitsUndisturbed(c, u);
        n, t := m + 1, v;
      }
    }
  }

  lemma ShapeHere(c: Config, s: State)
    requires Inv(c, s)
    ensures Shape(c, s) && c.Valid() && RingShape(c, s.ring)
  {
  }

  // ================================================================ concluding

  function ConcludeRank(pc: FlusherPc): int {
    match pc
    case Persist(rec, _, d) => 7 + rec.toSeg + 1 - d
    case AllocPage(_) => 6
    case SetPaged(_) => 5
    case TakePage(_) => 4
    case WriteRecord(_) => 3
    case BumpDurable(_) => 2
    case Announce(_) => 1
    case _ => 0
  }

  lemma ConcludesOn(c: Config, s: State)
    requires Inv(c, s) && Concluding(s.flusher.pc)
    ensures CanFlush(c, s) && Inv(c, DoFlush(c, s))
    ensures var t := DoFlush(c, s);
            && t.writers == s.writers && t.stable == s.stable && t.cursors == s.cursors && t.fsyncer == s.fsyncer
            && if s.flusher.pc.Announce? then t.flusher.pc.Start? && t.durable == s.durable + 1
               else Concluding(t.flusher.pc) && t.durable == s.durable
                    && 0 <= ConcludeRank(t.flusher.pc) < ConcludeRank(s.flusher.pc)
  {
    hide Inv, Shape, DoFlush;
    assert CanFlush(c, s) by { ShapeHere(c, s); }
    assert Admissible(c, s, FlushStep) by { ShapeHere(c, s); AlwaysAdmissible(c, s); }
    FlushStepKeeps(c, s);
    RecordEpoch(c, s);
    if s.flusher.pc.Persist? {
      PersistEnds(c, s);
      PersistsOn(c, s);
    } else {
      StoresOn(c, s);
    }
  }

  lemma AlwaysAdmissible(c: Config, s: State)
    requires Shape(c, s) && !s.flusher.pc.Turning?
    ensures Admissible(c, s, FlushStep)
  {
    hide WriterShape;
  }

  lemma PersistsOn(c: Config, s: State)
    requires CanFlush(c, s) && s.flusher.pc.Persist? && s.flusher.pc.dsid <= s.flusher.pc.rec.toSeg + 1
    ensures var t := DoFlush(c, s);
            && t.writers == s.writers && t.stable == s.stable && t.cursors == s.cursors && t.fsyncer == s.fsyncer
            && Concluding(t.flusher.pc) && t.durable == s.durable
            && 0 <= ConcludeRank(t.flusher.pc) < ConcludeRank(s.flusher.pc)
  {
    hide Shape, Flushed, SetSlot, SlotOf;
  }

  lemma StoresOn(c: Config, s: State)
    requires CanFlush(c, s) && Concluding(s.flusher.pc) && !s.flusher.pc.Persist?
    requires s.flusher.pc.rec.epoch == s.durable + 1
    ensures var t := DoFlush(c, s);
            && t.writers == s.writers && t.stable == s.stable && t.cursors == s.cursors && t.fsyncer == s.fsyncer
            && if s.flusher.pc.Announce? then t.flusher.pc.Start? && t.durable == s.durable + 1
               else Concluding(t.flusher.pc) && t.durable == s.durable
                    && 0 <= ConcludeRank(t.flusher.pc) < ConcludeRank(s.flusher.pc)
  {
    hide Shape, DoWriteRecord, DoAllocPage, DoSearch, DoLoadTail, DoCopy, DoAdvance, DoTurn, DoConclude, DoPersist,
         MdsLayout.PageNo, SlotOf;
    match s.flusher.pc
    case AllocPage(rec) => AllocFrame(c, s, rec);
    case WriteRecord(rec) => RecordFrame(c, s, rec, 0);
    case _ =>
  }

  lemma PersistEnds(c: Config, s: State)
    requires Inv(c, s) && s.flusher.pc.Persist?
    ensures s.flusher.pc.dsid <= s.flusher.pc.rec.toSeg + 1
  {
    hide LogOk, StoreOk, ReadersOk, StreamOk, WritersOk, FlushOk, EpochsOk;
    FlusherSteps.RoomLeft(c, s.ring, s.fsyncer);
  }

  lemma {:induction false} ConcludesUndisturbed(c: Config, s: State) returns (n: nat, t: State)
    requires Inv(c, s) && Concluding(s.flusher.pc)
    ensures FlushesTo(c, s, n, t) && Inv(c, t) && t.flusher.pc.Start? && t.durable == s.durable + 1
    ensures t.writers == s.writers && t.stable == s.stable && t.cursors == s.cursors && t.fsyncer == s.fsyncer
    decreases ConcludeRank(s.flusher.pc)
  {
    hide Inv, DoFlush, CanFlush;
    ConcludesOn(c, s);
    var u := DoFlush(c, s);
    if s.flusher.pc.Announce? {
      n, t := 1, u;
    } else {
      var m, v := ConcludesUndisturbed(c, u);
      n, t := m + 1, v;
    }
  }

  // ================================================================ a whole pass

  /** From one pass to the next, undisturbed: everything submitted in the epoch after the durable one is in
      the log, and that epoch is durable if it was stable when the pass began. Or the flusher is held
      up in a segment turn. */
  lemma PassCompletes(c: Config, s: State) returns (n: nat, t: State)
    requires Inv(c, s) && s.flusher.pc.Start?
    ensures FlushesTo(c, s, n, t) && Inv(c, t) && c.Valid() && RingShape(c, t.ring)
    ensures t.stable == s.stable && t.cursors == s.cursors && t.fsyncer == s.fsyncer
    ensures HeldUp(c, t) || (t.flusher.pc.Start? && Swept(t.writers, s.durable + 1))
    ensures !HeldUp(c, t) ==> t.durable == if s.stable == s.durable + 1 then s.durable + 1 else s.durable
  {
    hide Inv, Thorough, DoFlush, CanFlush, RingShape, Swept, HeldUp, FlushesTo;
    var u := BeginsPass(c, s);
    assert FlushesTo(c, s, 1, u) by { OneFlush(c, s, u); }
    var m, v := VisitsUndisturbed(c, u);
    FlushesOn(c, s, 1, u, m, v);
    if HeldUp(c, v) {
      n, t := m + 1, v;
    } else {
      var w := EndsVisits(c, v);
      assert FlushesTo(c, v, 1, w) by { OneFlush(c, v, w); }
      FlushesOn(c, s, 1 + m, v, 1, w);
      if w.flusher.pc.Start? {
        n, t := m + 2, w;
        assert !HeldUp(c, t) by { NotTurning(c, t); }
      } else {
        var k, x := ConcludesUndisturbed(c, w);
        FlushesOn(c, s, m + 2, w, k, x);
        n, t := m + 2 + k, x;
        assert !HeldUp(c, t) by { NotTurning(c, t); }
      }
    }
  }

  lemma NotTurning(c: Config, s: State)
    requires Inv(c, s) && s.flusher.pc.Start?
    ensures c.Valid() && RingShape(c, s.ring) && !HeldUp(c, s)
  {
  }

  lemma OneFlush(c: Config, s: State, t: State)
    requires CanFlush(c, s) && t == DoFlush(c, s)
    ensures FlushesTo(c, s, 1, t)
  {
    hide CanFlush, DoFlush;
    assert FlushesTo(c, t, 0, t);
  }

  lemma BeginsPass(c: Config, s: State) returns (t: State)
    requires Inv(c, s) && s.flusher.pc.Start?
    ensures CanFlush(c, s) && t == DoFlush(c, s) && Inv(c, t) && Thorough(c, t) && t.flusher.pc == Search(0, 0)
    ensures t.flusher.target == s.durable + 1 && t.flusher.stablePass == (s.stable == s.durable + 1)
    ensures t.durable == s.durable && t.stable == s.stable && t.cursors == s.cursors && t.fsyncer == s.fsyncer
  {
    hide RingOk, LogOk, StoreOk, ReadersOk, StreamOk, WriterOk, ConcludeOk;
    t := DoFlush(c, s);
    FlushStepKeeps(c, s);
  }

  lemma EndsVisits(c: Config, s: State) returns (t: State)
    requires Inv(c, s) && s.flusher.pc.Conclude?
    ensures CanFlush(c, s) && t == DoFlush(c, s) && Inv(c, t)
    ensures if s.flusher.stablePass then t.flusher.pc.Persist? && Concluding(t.flusher.pc) else t.flusher.pc.Start?
    ensures t.writers == s.writers && t.durable == s.durable && t.stable == s.stable && t.cursors == s.cursors
    ensures t.fsyncer == s.fsyncer
    ensures s.flusher.target == s.durable + 1
  {
    hide RingOk, LogOk, StoreOk, ReadersOk, StreamOk, WritersOk, FlushOk, ConcludeOk, NewRecord;
    t := DoFlush(c, s);
    FlushStepKeeps(c, s);
  }

  // ================================================================ who holds it up

  /** Whoever holds the flusher up can move: the fsyncer has a segment to sync, unless it has stopped; a
      reader has the slot pinned; or the fsyncer is about to record its progress. */
  lemma HeldUpByOthers(c: Config, s: State)
    requires Inv(c, s) && c.Valid() && RingShape(c, s.ring) && HeldUp(c, s)
    ensures var turn, next := s.flusher.pc.turn, NextSlot(c, s.ring);
            && (turn.Wait? ==> FsyncerProgress.Pending(c, s.ring))
            && (turn.Lock? && s.ring.slots[next].pins != 0 ==>
                  CursorsShape(s.cursors) && Holders(c.segmentCount, s.cursors, next) != {})
            && (turn.Lock? && s.ring.slots[next].pins == 0 ==> CanSync(c, s) && s.fsyncer.Bump?)
  {
    hide LogOk, StoreOk, StreamOk, WriterOk, FlushOk, ConcludeOk, EpochsOk, SyncOk, SlotOf;
    var turn, next := s.flusher.pc.turn, NextSlot(c, s.ring);
    if turn.Wait? {
      NextOccupant(c, s.ring, turn, s.fsyncer);
      assert SlotOk(c, s.ring, turn, s.fsyncer, next);
      FsyncerProgress.FullIsPending(c, s);
    } else {
      assert PinOk(c, s.ring, turn, s.cursors, next);
    }
  }
}
