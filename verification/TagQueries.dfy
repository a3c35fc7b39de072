/** Tag queries on the metadata store of a run: with tags that do not decrease from epoch to epoch,
    they find the first and the last epoch a threshold asks for. */
module TagQueries {
  import opened Base
  import opened Pipeline
  import opened StoreInvariant
  import opened PipelineInvariant
  import opened PipelineRuns
  import opened TagRuns
  import opened Mds
  import opened MdsRead

  /** The object holds what the store of state `s` holds. */
  ghost predicate SameStore(c: Config, s: State, store: Store)
    reads store, store.page
  {
    && store.Valid() && store.cap == c.pageCap && store.durable == s.cbDurable
    && store.file == s.store.file && store.page[..] == s.store.page && store.bufPage == s.store.bufPage
  }

  /** So its records are those of the durable epochs. */
  lemma SameRecords(c: Config, s: State, store: Store)
    requires Inv(c, s) && BetweenWrites(s.flusher.pc) && SameStore(c, s, store)
    ensures HasRecords(s.mds, s.cbDurable) && store.log == Recorded(s.mds, s.cbDurable)
  {
    hide Inv, Holds;
    assert StoreOk(c, s.store, s.cbDurable, s.mds, s.flusher.pc) by { StorePart(c, s); }
    forall e | 1 <= e <= s.cbDurable ensures e in s.mds && store.log[e - 1] == s.mds[e] {
      StoreReturns(c, s.store, s.cbDurable, s.mds, s.flusher.pc, e);
      FoundThere(store.cap, store.file, store.page[..], store.bufPage, store.log, e);
    }
  }

  lemma StorePart(c: Config, s: State)
    requires Inv(c, s)
    ensures StoreOk(c, s.store, s.cbDurable, s.mds, s.flusher.pc)
  {
  }

  ghost predicate NonDecreasing(tags: Tags, id: nat) {
    forall d, e | d < e :: Meant(tags, d, id) <= Meant(tags, e, id)
  }

  /** The stored tags are the ones meant, in their order. */
  lemma StoredInOrder(c: Config, states: seq<State>, steps: seq<Step>, v: nat, tags: Tags, j: nat, store: Store,
                      id: nat)
    requires IsTaggedRun(c, states, steps, v, tags) && j < |states| && BetweenWrites(states[j].flusher.pc)
    requires SameStore(c, states[j], store)
    ensures |store.log| == states[j].cbDurable
    ensures forall e | 1 <= e <= |store.log| :: UserTag(store.log[e - 1], id) == Meant(tags, e, id)
  {
    hide Inv, IsTaggedRun, IsRun;
    assert IsRun(c, states, steps) by { RunPart(c, states, steps, v, tags); }
    RunKeeps(c, states, steps, j);
    SameRecords(c, states[j], store);
    forall e | 1 <= e <= |store.log| ensures UserTag(store.log[e - 1], id) == Meant(tags, e, id) {
      StoredTagsAreExact(c, states, steps, v, tags, j, e);
    }
  }

  lemma RunPart(c: Config, states: seq<State>, steps: seq<Step>, v: nat, tags: Tags)
    requires IsTaggedRun(c, states, steps, v, tags)
    ensures IsRun(c, states, steps)
  {
  }

  /** Queries about these tags are queries about the ones meant. */
  lemma QueriesAreMeant(log: seq<Record>, tags: Tags, id: nat, limit: nat)
    requires NonDecreasing(tags, id)
    requires forall e | 1 <= e <= |log| :: UserTag(log[e - 1], id) == Meant(tags, e, id)
    ensures Rising(log, id, AtLeast(limit)) && Falling(log, id, AtMost(limit))
    ensures forall e | 1 <= e <= |log| ::
              && (Matches(log, id, AtLeast(limit), e) <==> Meant(tags, e, id) >= limit)
              && (Matches(log, id, AtMost(limit), e) <==> Meant(tags, e, id) <= limit)
  {
    forall i, j | 0 <= i < j < |log| ensures UserTag(log[i], id) <= UserTag(log[j], id) {
      assert UserTag(log[(i + 1) - 1], id) == Meant(tags, i + 1, id);
      assert UserTag(log[(j + 1) - 1], id) == Meant(tags, j + 1, id);
    }
    MonotoneTagsRise(log, id, limit);
  }

  /** The first epoch whose tag reaches the limit. */
  method FirstTagged(store: Store, id: nat, limit: nat, blank: Record, ghost c: Config, ghost states: seq<State>,
                     ghost steps: seq<Step>, ghost v: nat, ghost tags: Tags, ghost j: nat) returns (r: Option<Record>)
    requires IsTaggedRun(c, states, steps, v, tags) && NonDecreasing(tags, id)
    requires j < |states| && BetweenWrites(states[j].flusher.pc)
    requires SameStore(c, states[j], store) && 2 * states[j].cbDurable < TWO64
    ensures r.None? <==> forall e | 1 <= e <= states[j].cbDurable :: Meant(tags, e, id) < limit
    ensures r.Some? ==>
              && 1 <= r.value.epoch <= states[j].cbDurable && Meant(tags, r.value.epoch, id) >= limit
              && forall e | 1 <= e < r.value.epoch :: Meant(tags, e, id) < limit
  {
    hide IsTaggedRun, NonDecreasing, Meant, Rising, Falling, Matches, Holds;
    StoredInOrder(c, states, steps, v, tags, j, store, id);
    QueriesAreMeant(store.log, tags, id, limit);
    r := LowerBound(store, id, AtLeast(limit), blank);
  }

  /** The last epoch whose tag does not exceed it. */
  method LastTagged(store: Store, id: nat, limit: nat, blank: Record, ghost c: Config, ghost states: seq<State>,
                    ghost steps: seq<Step>, ghost v: nat, ghost tags: Tags, ghost j: nat) returns (r: Option<Record>)
    requires IsTaggedRun(c, states, steps, v, tags) && NonDecreasing(tags, id)
    requires j < |states| && BetweenWrites(states[j].flusher.pc)
    requires SameStore(c, states[j], store) && 2 * states[j].cbDurable < TWO64
    ensures r.None? <==> forall e | 1 <= e <= states[j].cbDurable :: Meant(tags, e, id) > limit
    ensures r.Some? ==>
              && 1 <= r.value.epoch <= states[j].cbDurable && Meant(tags, r.value.epoch, id) <= limit
              && forall e | r.value.epoch < e <= states[j].cbDurable :: Meant(tags, e, id) > limit
  {
    hide IsTaggedRun, NonDecreasing, Meant, Rising, Falling, Matches, Holds;
    StoredInOrder(c, states, steps, v, tags, j, store, id);
    QueriesAreMeant(store.log, tags, id, limit);
    r := UpperBound(store, id, AtMost(limit), blank);
  }
}
