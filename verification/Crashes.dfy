/** What a crash takes and what it leaves: a restart depends on nothing but the persistent parts, the
    media may hold any mixture of old and new bytes, and every thread can go on afterwards. */
module Crashes {
  import opened Base
  import opened LogStream
  import opened Restart
  import opened Pipeline
  import opened WriterInvariant
  import opened RingInvariant
  import opened LogInvariant
  import opened CursorInvariant
  import opened StoreInvariant
  import opened PipelineInvariant
  import FsyncerProgress
  import RestartSteps
  import MdsCrash
  import MdsLayout

  // ================================================================ what is forgotten

  /** The media, the files, the control block; and, for the bookkeeping, the log. */
  ghost predicate SamePersistent(a: State, b: State) {
    && |a.ring.slots| == |b.ring.slots| && (forall j | 0 <= j < |a.ring.slots| :: a.ring.slots[j].media == b.ring.slots[j].media)
    && a.ring.lastSynced == b.ring.lastSynced && a.ring.disk == b.ring.disk
    && a.cbDurable == b.cbDurable && a.store.file == b.store.file && a.store.page == b.store.page
    && a.store.paged == b.store.paged
    && a.segs == b.segs
  }

  /** Nothing else reaches a restarted instance. */
  lemma RestartForgets(c: Config, a: State, b: State, buffers: seq<seq<byte>>)
    requires CanRestart(c, a, buffers) && CanRestart(c, b, buffers) && SamePersistent(a, b)
    ensures DoRestart(c, a, buffers) == DoRestart(c, b, buffers)
  {
    hide WriterShape, FlusherShape, AdvanceShape, MdsLayout.PageNo, Truncated, Flat, OfWriter, RestartDsid;
    var a', b' := DoRestart(c, a, buffers), DoRestart(c, b, buffers);
    assert a'.ring.slots == b'.ring.slots;
    assert a'.writers == b'.writers && a'.prior == b'.prior && a'.mds == b'.mds;
  }

  // ================================================================ what the media may hold

  /** Some bytes of slot `j` reach the media, one after the other. */
  ghost predicate EvictsTo(c: Config, s: State, j: nat, offsets: seq<nat>, t: State)
    decreases |offsets|
  {
    if |offsets| == 0 then s == t
    else CanEvict(c, s, j, offsets[0]) && EvictsTo(c, DoEvict(c, s, j, offsets[0]), j, offsets[1..], t)
  }

  /** The first `n` bytes as in `image`, the others as they are. */
  function Mixed(image: seq<byte>, media: seq<byte>, n: nat): seq<byte>
    requires n <= |image| == |media|
  {
    image[..n] + media[n..]
  }

  /** A crash may find any mixture: each byte as last persisted or as last written. */
  lemma {:induction false} AnyMixture(c: Config, s: State, j: nat, image: seq<byte>, n: nat)
    returns (offsets: seq<nat>, t: State)
    requires Shape(c, s) && j < |s.ring.slots|
    requires n <= c.segmentSize == |image| == |s.ring.slots[j].media| == |s.ring.slots[j].nv|
    requires forall k | 0 <= k < |image| :: image[k] == s.ring.slots[j].media[k] || image[k] == s.ring.slots[j].nv[k]
    ensures EvictsTo(c, s, j, offsets, t) && Shape(c, t)
    ensures t == s.(ring := SetSlot(s.ring, j, s.ring.slots[j].(media := Mixed(image, s.ring.slots[j].media, n))))
    decreases n
  {
    var x := s.ring.slots[j];
    if n == 0 {
      offsets, t := [], s;
      assert Mixed(image, x.media, 0) == x.media && s.ring.slots[j := x] == s.ring.slots;
    } else {
      hide Shape, CanEvict, EvictsTo;
      var before, u := AnyMixture(c, s, j, image, n - 1);
      MixesOn(image, x.media, x.nv, n);
      if image[n - 1] == x.media[n - 1] {
        offsets, t := before, u;
      } else {
        t := EvictsOne(c, u, j, n - 1);
        offsets := before + [n - 1];
        EvictsMore(c, s, j, before, u, n - 1, t);
        TwiceSet(s.ring.slots, j, x.(media := Mixed(image, x.media, n - 1)), x.(media := Mixed(image, x.media, n)));
      }
    }
  }

  lemma MixesOn(image: seq<byte>, media: seq<byte>, nv: seq<byte>, n: nat)
    requires 0 < n <= |image| == |media| == |nv|
    ensures |Mixed(image, media, n - 1)| == |image|
    ensures image[n - 1] == media[n - 1] ==> Mixed(image, media, n) == Mixed(image, media, n - 1)
    ensures image[n - 1] == nv[n - 1] ==> Mixed(image, media, n) == Mixed(image, media, n - 1)[n - 1 := nv[n - 1]]
  {
  }

  lemma TwiceSet(slots: seq<Slot>, j: nat, x: Slot, y: Slot)
    requires j < |slots|
    ensures slots[j := x][j := y] == slots[j := y]
  {
  }

  lemma EvictsOne(c: Config, s: State, j: nat, k: nat) returns (t: State)
    requires Shape(c, s) && j < |s.ring.slots| && k < c.segmentSize
    ensures CanEvict(c, s, j, k) && t == DoEvict(c, s, j, k) && Shape(c, t)
    ensures k < |s.ring.slots[j].media| && k < |s.ring.slots[j].nv|
    ensures var x := s.ring.slots[j];
            t == s.(ring := SetSlot(s.ring, j, x.(media := x.media[k := x.nv[k]])))
  {
    hide WriterShape;
    t := DoEvict(c, s, j, k);
  }

  lemma {:induction false} EvictsMore(c: Config, s: State, j: nat, offsets: seq<nat>, u: State, k: nat, t: State)
    requires EvictsTo(c, s, j, offsets, u) && CanEvict(c, u, j, k) && t == DoEvict(c, u, j, k)
    ensures EvictsTo(c, s, j, offsets + [k], t)
    decreases |offsets|
  {
    hide CanEvict, DoEvict;
    if |offsets| == 0 {
      assert EvictsTo(c, t, j, [], t) && [k][1..] == [] && offsets + [k] == [k];
    } else {
      EvictsMore(c, DoEvict(c, s, j, offsets[0]), j, offsets[1..], u, k, t);
      assert (offsets + [k])[1..] == offsets[1..] + [k];
    }
  }

  // ================================================================ going on

  /** After an admissible restart everybody is at the beginning: writers idle with unused frames, no cursor,
      no advance call, the flusher between passes, the fsyncer polling; and the full segments that are not
      on disk yet are handed to the fsyncer. */
  lemma RestartGoesOn(c: Config, s: State, buffers: seq<seq<byte>>)
    requires Inv(c, s) && CanRestart(c, s, buffers) && Admissible(c, s, RestartStep(buffers))
    ensures var s' := DoRestart(c, s, buffers);
            && Inv(c, s') && CanFlush(c, s') && RingShape(c, s'.ring)
            && s'.stable == s'.durable == s.cbDurable && s'.advancing == map[] && s'.cursors == map[]
            && (forall w | 0 <= w < |s'.writers| :: s'.writers[w] == FreshWriter(buffers[w]))
            && s'.flusher.pc.Start? && s'.fsyncer.Poll?
            && (s'.ring.lastSynced + 1 < s'.ring.cur ==> FsyncerProgress.Pending(c, s'.ring))
  {
    hide Stored, MdsCrash.Sound, Truncated, ReopenedRing, NewRing, RestartDsid, SlotOf;
    RestartSteps.RestartKeeps(c, s, buffers);
    FsyncerProgress.FullIsPending(c, DoRestart(c, s, buffers));
  }
}
