/**
 Syncing and pruning together (node/src/syncer.rs, node/src/pruner.rs). A batch that fills a gap
 needs the stored header right above it, which the pruner may take away while the batch is in
 flight. The syncing window is the sampling window (node/src/node.rs), so the pruning delay is how
 long such a header is safe after the batch was started.
 */
module SyncPruning {
  import opened Wrappers
  import opened BlockRangeSets
  import P = Pruning
  import S = Syncing

  /** The syncer's state, the time, and when the batch in flight was started. */
  datatype State = Timed(now: nat, sync: S.State, startedAt: nat)

  datatype Step =
    | Tick(now: nat)
    | Announce(height: u64, verified: bool)
    | Return(result: S.FetchResult)
    | Begin
    | Prune

  ghost predicate InSyncingWindow(c: P.Config, now: nat, height: nat) {
    c.time(height) > if now >= c.samplingWindow then now - c.samplingWindow else 0
  }

  /** Is the header above the next batch recent enough? */
  ghost predicate WindowOpen(c: P.Config, s: State, limit: u64)
    requires s.sync.Valid()
  {
    && s.sync.head.Some?
    && InSyncingWindow(c, s.now, S.CalculateRangeToFetch(s.sync.head.value, s.sync.store, limit).end + 1)
  }

  /** `c.lifetime` bounds how long a fetch lives; announcements rise. */
  ghost predicate Next(c: P.Config, limit: u64, s: State, step: Step, s': State)
    requires s.sync.Valid()
  {
    match step
    case Tick(now) =>
      && s.now <= now && (s.sync.ongoing.Some? ==> now < s.startedAt + c.lifetime)
      && s' == s.(now := now)
    case Announce(height, verified) =>
      && (s.sync.head.Some? ==> s.sync.head.value < height)
      && s' == s.(sync := S.OnEvent(s.sync, S.HeaderSub(height, verified)))
    case Return(result) =>
      s.sync.ongoing.Some? && s' == s.(sync := S.OnEvent(s.sync, S.BatchResult(result)))
    case Begin =>
      && s.sync.ongoing.None? && 0 < c.lifetime
      && s' == s.(sync := S.Start(s.sync, true, WindowOpen(c, s, limit), limit), startedAt := s.now)
    case Prune =>
      && s.sync.store != [] && c.time(s.sync.store[0].start) <= P.Cutoff(c, s.now)
      && s' == s.(sync := s.sync.(store := WithoutFirst(s.sync.store)))
  }

  ghost predicate IsRun(c: P.Config, limit: u64, states: seq<State>, steps: seq<Step>) {
    && |states| == |steps| + 1 && (forall i :: 0 <= i < |states| ==> states[i].sync.Valid())
    && states[0].sync.ongoing.None?
    && forall i :: 0 <= i < |steps| ==> Next(c, limit, states[i], steps[i], states[i + 1])
  }

  /** The batch can be inserted, and the header it leans on was in the window when it was started. */
  ghost predicate Inv(c: P.Config, s: State) {
    && s.sync.Valid() && s.sync.BatchSafe()
    && (s.sync.ongoing.Some? ==>
          && s.now < s.startedAt + c.lifetime
          && LeansOnRecent(c, s, s.sync.ongoing.value))
  }

  ghost predicate LeansOnRecent(c: P.Config, s: State, b: BlockRange) {
    b.end + 1 in Heights(s.sync.store) ==> s.startedAt < c.time(b.end + 1) + c.samplingWindow
  }

  lemma BeginKeepsInv(c: P.Config, limit: u64, s: State, s': State)
    requires P.ValidTimes(c) && Inv(c, s) && Next(c, limit, s, Begin, s')
    ensures Inv(c, s')
  {
  }

  lemma AnnounceKeepsInv(c: P.Config, limit: u64, s: State, height: u64, verified: bool, s': State)
    requires Inv(c, s) && Next(c, limit, s, Announce(height, verified), s')
    ensures Inv(c, s')
  {
    if s.sync.ongoing.Some? {
      var b := s.sync.ongoing.value;
      S.HeaderSubKeepsBatch(s.sync.store, s.sync.head.value, b, height);
      S.StillAwaited(s.sync.store, s.sync.head.value, height, b);
      NoNewNeighbour(s.sync.store, s.sync.head.value, b, height);
    }
  }

  /** An announced header never becomes the one a batch leans on. */
  lemma NoNewNeighbour(store: seq<BlockRange>, head: u64, b: BlockRange, height: u64)
    requires Canonical(store) && S.Awaited(store, head, b) && head < height
    ensures b.end + 1 in Heights(S.AfterHeaderSub(store, height)) ==> b.end + 1 in Heights(store)
  {
  }

  /** The timing argument: a header that is due was out of the window when the batch was started. */
  lemma NeighbourNotDue(c: P.Config, s: State, b: BlockRange)
    requires P.ValidTimes(c) && c.lifetime <= c.pruningDelay + 1
    requires s.now < s.startedAt + c.lifetime && s.startedAt < c.time(b.end + 1) + c.samplingWindow
    ensures P.Cutoff(c, s.now) < c.time(b.end + 1)
  {
  }

  /** The store without its lowest height; its head stays as long as anything does. */
  lemma TailPruned(store: seq<BlockRange>)
    requires Canonical(store) && store != []
    ensures Canonical(WithoutFirst(store)) && Heights(WithoutFirst(store)) == Heights(store) - {store[0].start as int}
    ensures WithoutFirst(store) != [] ==> S.StoreHead(WithoutFirst(store)) == S.StoreHead(store)
  {
    WithoutFirstSpaced(store, 1);
    PopFirst(store);
  }

  /** Losing its lowest height, other than the one a batch leans on, leaves the batch insertable. */
  lemma PruneKeepsAwaited(store: seq<BlockRange>, head: u64, b: BlockRange)
    requires Canonical(store) && store != [] && S.Awaited(store, head, b) && store[0].start != b.end + 1
    ensures S.Awaited(WithoutFirst(store), head, b)
  {
    TailPruned(store);
    StillDisjoint(b.Heights(), Heights(store), {store[0].start as int});
    if b.end + 1 !in Heights(store) { S.HeadIsMaximum(store); }
  }

  lemma StillDisjoint(a: set<int>, b: set<int>, gone: set<int>)
    requires a * b == {}
    ensures a * (b - gone) == {}
  {
  }

  lemma PruneKeepsInv(c: P.Config, limit: u64, s: State, s': State)
    requires P.ValidTimes(c) && c.lifetime <= c.pruningDelay + 1 && Inv(c, s) && Next(c, limit, s, Prune, s')
    ensures Inv(c, s')
  {
    TailPruned(s.sync.store);
    if s.sync.ongoing.Some? {
      var b, tail := s.sync.ongoing.value, s.sync.store[0].start;
      if tail == b.end + 1 { NeighbourNotDue(c, s, b); }
      PruneKeepsAwaited(s.sync.store, s.sync.head.value, b);
    }
  }

  lemma StepKeepsInv(c: P.Config, limit: u64, s: State, step: Step, s': State)
    requires P.ValidTimes(c) && c.lifetime <= c.pruningDelay + 1 && Inv(c, s) && Next(c, limit, s, step, s')
    ensures Inv(c, s')
  {
    match step
    case Announce(height, verified) => AnnounceKeepsInv(c, limit, s, height, verified, s');
    case Begin => BeginKeepsInv(c, limit, s, s');
    case Prune => PruneKeepsInv(c, limit, s, s');
    case _ =>
  }

  /**
   However the pruner, the clock and rising announcements interleave: if a fetch lives at most the
   pruning delay, the batch in flight can be inserted in every state of every run.
   */
  lemma {:induction false} BatchSurvivesPruning(c: P.Config, limit: u64, states: seq<State>, steps: seq<Step>, i: nat)
    requires P.ValidTimes(c) && c.lifetime <= c.pruningDelay + 1 && IsRun(c, limit, states, steps) && i < |states|
    ensures Inv(c, states[i])
    ensures states[i].sync.ongoing.Some? ==> Insertable(states[i].sync.store, states[i].sync.ongoing.value)
  {
    if i > 0 {
      BatchSurvivesPruning(c, limit, states, steps, i - 1);
      StepKeepsInv(c, limit, states[i - 1], steps[i - 1], states[i]);
    }
  }

  /** So every verified batch that comes back is stored as a whole. */
  lemma VerifiedBatchStored(c: P.Config, limit: u64, states: seq<State>, steps: seq<Step>, i: nat)
    requires P.ValidTimes(c) && c.lifetime <= c.pruningDelay + 1 && IsRun(c, limit, states, steps)
    requires i < |steps| && steps[i] == Return(S.Fetched(true))
    ensures states[i].sync.ongoing.Some?
    ensures states[i + 1].sync.store == S.Filled(states[i].sync.store, states[i].sync.ongoing.value)
  {
    BatchSurvivesPruning(c, limit, states, steps, i);
    assert Next(c, limit, states[i], steps[i], states[i + 1]);
  }

  /**
   The bound is exact: if a fetch may live longer, then for every window and delay there is a run,
   on a chain with rising header times, in which the pruner costs the batch its place.
   */
  lemma LongFetchLosesPlace(window: nat, delay: nat, lifetime: nat)
    returns (c: P.Config, states: seq<State>, steps: seq<Step>)
    requires delay + 1 < lifetime
    ensures P.ValidTimes(c) && c.samplingWindow == window && c.pruningDelay == delay && c.lifetime == lifetime
    ensures forall h: nat, k: nat :: h < k ==> c.time(h) < c.time(k)
    ensures IsRun(c, 512, states, steps)
    ensures var last := states[|states| - 1].sync;
            last.ongoing.Some? && !Insertable(last.store, last.ongoing.value)
  {
    c := P.Config(window, delay, lifetime, h => 1 + h);
    var batch := BlockRange(1, 4);
    var s0 := Timed(5 + window, S.Sync([BlockRange(5, 6)], Some(6), None), 0);
    var s1 := s0.(sync := s0.sync.(ongoing := Some(batch)), startedAt := 5 + window);
    var s2 := s1.(now := 6 + window + delay);
    var s3 := s2.(sync := s2.sync.(store := [BlockRange(6, 6)]));
    HeightsSingle(BlockRange(5, 6));
    HeightsSingle(BlockRange(6, 6));
    assert Next(c, 512, s0, Begin, s1) by {
      assert S.CalculateRangeToFetch(6, s0.sync.store, 512) == batch;
      assert WindowOpen(c, s0, 512);
    }
    assert Next(c, 512, s1, Tick(6 + window + delay), s2);
    assert Next(c, 512, s2, Prune, s3) by {
      assert WithoutFirst([BlockRange(5, 6)]) == [BlockRange(6, 6)];
    }
    states, steps := [s0, s1, s2, s3], [Begin, Tick(6 + window + delay), Prune];
    assert 0 !in Heights(s3.sync.store) && 5 !in Heights(s3.sync.store);
  }
}
