/**
 Header synchronisation (node/src/syncer.rs): which heights to fetch next, and the worker steps
 that start a batch, take its result and follow the announced network head.
 */
module Syncing {
  import opened Wrappers
  import opened BlockRangeSets

  /**
   The next batch: catch up with the network head first, then fill the highest gap downwards,
   always next to a range already stored.
   */
  function CalculateRangeToFetch(subjectiveHead: u64, store: seq<BlockRange>, limit: u64): BlockRange
    requires Sorted(store)
  {
    if store == [] then BlockRange(1, subjectiveHead).TruncateRight(limit)
    else
      var storeHead := store[|store| - 1];
      if storeHead.end < subjectiveHead then
        BlockRange(storeHead.end + 1, subjectiveHead).TruncateRight(limit)
      else
        var penultimateEnd := if |store| >= 2 then store[|store| - 2].end else 0;
        BlockRange(penultimateEnd + 1, storeHead.start - 1).TruncateLeft(limit)
  }

  ghost function StoreHead(store: seq<BlockRange>): nat {
    if store == [] then 0 else store[|store| - 1].end
  }

  /** Where a completed synchronisation ends. */
  ghost function Target(store: seq<BlockRange>, subjectiveHead: u64): nat {
    Max(subjectiveHead, StoreHead(store))
  }

  /** The heights still to be fetched. */
  ghost function Missing(store: seq<BlockRange>, subjectiveHead: u64): set<int> {
    Span(1, Target(store, subjectiveHead)) - Heights(store)
  }

  /** The store after a batch is inserted. */
  ghost function Filled(store: seq<BlockRange>, batch: BlockRange): (r: seq<BlockRange>)
    requires Canonical(store) && batch.Valid()
    ensures Canonical(r) && Heights(r) == Heights(store) + batch.Heights()
  {
    ValidHeightSet(store);
    Canon(Heights(store) + batch.Heights())
  }

  /** The saturating truncation never reaches the last representable height from below. */
  predicate ReachesTarget(store: seq<BlockRange>, subjectiveHead: u64) {
    subjectiveHead < U64_MAX || (store != [] && store[|store| - 1].end == U64_MAX)
  }

  // ---- one batch -----------------------------------------------------------------------------

  /** A non-empty batch is a legal insertion of missing heights, at most `limit` of them. */
  lemma BatchFits(subjectiveHead: u64, store: seq<BlockRange>, limit: u64)
    requires Canonical(store)
    ensures var b := CalculateRangeToFetch(subjectiveHead, store, limit);
            !b.IsEmpty() ==>
              && b.Valid() && b.end < U64_MAX && b.Len() <= limit
              && b.Heights() <= Missing(store, subjectiveHead)
              && Insertable(store, b)
              && (b.end + 1 in Heights(store) || b.end <= subjectiveHead)
  {
    var b := CalculateRangeToFetch(subjectiveHead, store, limit);
    if !b.IsEmpty() {
      if store != [] {
        LastWindow(store);
        if store[|store| - 1].end < subjectiveHead {
          AboveHead(store, b);
        } else {
          GapBelowHead(store, b);
        }
      }
    }
  }

  /**
   Which heights come first: above the head of the store the lowest, and once it has caught up the
   highest missing ones, in both cases as many as the limit allows.
   */
  lemma BatchChoice(subjectiveHead: u64, store: seq<BlockRange>, limit: u64)
    requires Canonical(store) && 0 < limit
    ensures var b := CalculateRangeToFetch(subjectiveHead, store, limit);
            !b.IsEmpty() ==>
              if StoreHead(store) < subjectiveHead
              then b.start == StoreHead(store) + 1 && (b.Len() == limit || b.end == subjectiveHead || b.end == U64_MAX - 1)
              else && (forall h :: h in Missing(store, subjectiveHead) ==> h in b.Heights() || h < b.start)
                   && (b.Len() == limit || b.start == 1 || b.start - 1 in Heights(store))
  {
    var b := CalculateRangeToFetch(subjectiveHead, store, limit);
    if !b.IsEmpty() && store != [] && store[|store| - 1].end >= subjectiveHead {
      LastWindow(store);
      assert store[|store| - 1].Heights() <= Heights(store);
      if |store| >= 2 { assert store[|store| - 2].end in Heights(store); }
    }
  }

  /** A range that lies between the last two ranges and touches the last. */
  lemma GapBelowHead(store: seq<BlockRange>, b: BlockRange)
    requires Canonical(store) && store != [] && b.Valid()
    requires b.end == store[|store| - 1].start - 1
    requires |store| >= 2 ==> store[|store| - 2].end < b.start
    ensures b.Heights() * Heights(store) == {} && b.end + 1 in Heights(store)
  {
    var k := |store| - 1;
    LastWindow(store);
    assert store[k].start in store[k].Heights();
    if k > 0 {
      LastWindow(store[..k]);
    }
  }

  /** There is nothing to fetch exactly when the store is the one range from 1 to the target. */
  lemma BatchEmptyWhenDone(subjectiveHead: u64, store: seq<BlockRange>, limit: u64)
    requires Canonical(store) && 0 < subjectiveHead && 0 < limit
    requires ReachesTarget(store, subjectiveHead)
    ensures CalculateRangeToFetch(subjectiveHead, store, limit).IsEmpty()
            <==> store == [BlockRange(1, Target(store, subjectiveHead))]
    ensures store == [BlockRange(1, Target(store, subjectiveHead))] <==> Missing(store, subjectiveHead) == {}
  {
    var full := [BlockRange(1, Target(store, subjectiveHead))];
    HeightsSingle(full[0]);
    if Missing(store, subjectiveHead) == {} {
      SameAsFull(store, subjectiveHead);
    }
    if store == [] {
    } else {
      var storeHead := store[|store| - 1];
      if storeHead.end < subjectiveHead {
        LastWindow(store);
      } else if |store| == 1 {
        assert store == [storeHead];
      } else {
        assert store[|store| - 2].end + 1 < storeHead.start;
      }
    }
  }

  lemma SameAsFull(store: seq<BlockRange>, subjectiveHead: u64)
    requires Canonical(store) && 0 < subjectiveHead && Missing(store, subjectiveHead) == {}
    ensures store == [BlockRange(1, Target(store, subjectiveHead))]
  {
    var full := [BlockRange(1, Target(store, subjectiveHead))];
    HeightsSingle(full[0]);
    ValidHeightSet(store);
    HeadIsMaximum(store);
    var all := Span(1, Target(store, subjectiveHead));
    assert Target(store, subjectiveHead) in all;
    assert all <= Heights(store) by {
      forall h | h in all ensures h in Heights(store) {
        assert h !in Missing(store, subjectiveHead);
      }
    }
    assert Heights(store) <= all;
    CanonicalUnique(store, full);
  }

  /**
   One round of syncing: the batch is disjoint from the store, within the limit and accepted by
   the insertion constraints; inserting it keeps the target and lowers the number of missing
   heights by exactly the length of the batch.
   */
  lemma SyncStep(store: seq<BlockRange>, subjectiveHead: u64, limit: u64)
    requires Canonical(store)
    requires !CalculateRangeToFetch(subjectiveHead, store, limit).IsEmpty()
    ensures var b := CalculateRangeToFetch(subjectiveHead, store, limit);
            && Insertable(store, b) && b.Len() <= limit && b.Heights() * Heights(store) == {}
            && Target(Filled(store, b), subjectiveHead) == Target(store, subjectiveHead)
            && |Missing(Filled(store, b), subjectiveHead)| == |Missing(store, subjectiveHead)| - b.Len()
            && StoreHead(store) <= StoreHead(Filled(store, b))
  {
    var b := CalculateRangeToFetch(subjectiveHead, store, limit);
    BatchFits(subjectiveHead, store, limit);
    var next := Filled(store, b);
    HeadIsMaximum(store);
    HeadIsMaximum(next);
    assert b.end in b.Heights();
    assert StoreHead(next) == Max(StoreHead(store), b.end);
    Associate(Span(1, Target(store, subjectiveHead)), Heights(store), b.Heights());
    SizeWithout(Missing(store, subjectiveHead), b.Heights());
    RangeLen(b);
  }

  lemma SizeWithout(a: set<int>, b: set<int>)
    requires b <= a
    ensures |a - b| == |a| - |b|
  {
    assert a == (a - b) + b;
  }

  lemma HeadIsMaximum(store: seq<BlockRange>)
    requires Canonical(store)
    ensures forall h :: h in Heights(store) ==> h <= StoreHead(store)
    ensures store != [] ==> StoreHead(store) in Heights(store)
    ensures store == [] <==> Heights(store) == {}
  {
    if store != [] { LastWindow(store); }
  }

  // ---- whole runs ----------------------------------------------------------------------------

  /** Fetching and inserting batches until none is left. */
  ghost function SyncRun(store: seq<BlockRange>, subjectiveHead: u64, limit: u64): seq<BlockRange>
    requires Canonical(store)
    decreases |Missing(store, subjectiveHead)|
  {
    var b := CalculateRangeToFetch(subjectiveHead, store, limit);
    if b.IsEmpty() then store
    else
      BatchFits(subjectiveHead, store, limit);
      SyncStep(store, subjectiveHead, limit);
      SyncRun(Filled(store, b), subjectiveHead, limit)
  }

  /**
   Synchronisation converges: from any canonical store, for any positive limit, the run ends
   with the single range from 1 to the larger of the subjective and the store head.
   */
  lemma {:induction false} SyncConverges(store: seq<BlockRange>, subjectiveHead: u64, limit: u64)
    requires Canonical(store) && 0 < subjectiveHead && 0 < limit
    requires ReachesTarget(store, subjectiveHead)
    ensures SyncRun(store, subjectiveHead, limit) == [BlockRange(1, Target(store, subjectiveHead))]
    decreases |Missing(store, subjectiveHead)|
  {
    var b := CalculateRangeToFetch(subjectiveHead, store, limit);
    if b.IsEmpty() {
      BatchEmptyWhenDone(subjectiveHead, store, limit);
    } else {
      BatchFits(subjectiveHead, store, limit);
      SyncStep(store, subjectiveHead, limit);
      SyncConverges(Filled(store, b), subjectiveHead, limit);
    }
  }

  /**
   The condition above is exact: with the subjective head at the largest 64-bit number and not
   stored yet, no run ever stores it.
   */
  lemma {:induction false} SyncStallsAtTop(store: seq<BlockRange>, subjectiveHead: u64, limit: u64)
    requires Canonical(store) && 0 < limit
    requires !ReachesTarget(store, subjectiveHead)
    ensures SyncRun(store, subjectiveHead, limit) != [BlockRange(1, Target(store, subjectiveHead))]
    ensures U64_MAX !in Heights(SyncRun(store, subjectiveHead, limit))
    decreases |Missing(store, subjectiveHead)|
  {
    var b := CalculateRangeToFetch(subjectiveHead, store, limit);
    HeadIsMaximum(store);
    if b.IsEmpty() {
      HeightsSingle(BlockRange(1, Target(store, subjectiveHead)));
      assert U64_MAX in BlockRange(1, Target(store, subjectiveHead)).Heights();
    } else {
      BatchFits(subjectiveHead, store, limit);
      SyncStep(store, subjectiveHead, limit);
      HeadIsMaximum(Filled(store, b));
      SyncStallsAtTop(Filled(store, b), subjectiveHead, limit);
    }
  }

  // ---- a batch in flight ---------------------------------------------------------------------

  /** The store after a header announced on header-sub: only the next head is inserted. */
  ghost function AfterHeaderSub(store: seq<BlockRange>, height: u64): (r: seq<BlockRange>)
    requires Canonical(store)
    ensures Canonical(r)
    ensures Heights(r) == Heights(store) + if store != [] && StoreHead(store) + 1 == height then {height as int} else {}
  {
    if store != [] && StoreHead(store) + 1 == height then
      assert BlockRange(height, height).Heights() == {height as int};
      Filled(store, BlockRange(height, height))
    else store
  }

  /** A batch that was computed for this store and head and has not come back yet. */
  ghost predicate Awaited(store: seq<BlockRange>, subjectiveHead: u64, batch: BlockRange) {
    && Insertable(store, batch)
    && (batch.end + 1 in Heights(store)
        || (batch.end <= subjectiveHead && (store == [] || StoreHead(store) + 1 == batch.start)))
  }

  /** Every batch starts out awaited. */
  lemma BatchAwaited(subjectiveHead: u64, store: seq<BlockRange>, limit: u64)
    requires Canonical(store)
    ensures var b := CalculateRangeToFetch(subjectiveHead, store, limit);
            !b.IsEmpty() ==> Awaited(store, subjectiveHead, b)
  {
    BatchFits(subjectiveHead, store, limit);
    if store != [] { LastWindow(store); }
    var b := CalculateRangeToFetch(subjectiveHead, store, limit);
    if !b.IsEmpty() && store != [] && store[|store| - 1].end >= subjectiveHead {
      GapBelowHead(store, b);
    }
  }

  /** Does this message extend the store by the very height the batch starts with? */
  ghost predicate TakesPlace(store: seq<BlockRange>, height: u64, batch: BlockRange) {
    store != [] && StoreHead(store) + 1 == height == batch.start
  }

  /** Exactly the messages that take its place cost an awaited batch its insertion. */
  lemma HeaderSubAndBatch(store: seq<BlockRange>, subjectiveHead: u64, batch: BlockRange, height: u64)
    requires Canonical(store) && Awaited(store, subjectiveHead, batch)
    ensures Insertable(AfterHeaderSub(store, height), batch) <==> !TakesPlace(store, height, batch)
    ensures Awaited(AfterHeaderSub(store, height), Max(subjectiveHead, height), batch)
            <==> !TakesPlace(store, height, batch)
  {
    var next := AfterHeaderSub(store, height);
    HeadIsMaximum(store);
    HeadIsMaximum(next);
    if store == [] || StoreHead(store) + 1 != height {
      CanonicalUnique(store, next);
    } else {
      assert height in Heights(next);
      assert next != [] && StoreHead(next) == height;
      assert height == batch.start ==> height in batch.Heights() * Heights(next);
    }
  }

  /** A message above the subjective head never does. */
  lemma HeaderSubKeepsBatch(store: seq<BlockRange>, subjectiveHead: u64, batch: BlockRange, height: u64)
    requires Canonical(store) && Awaited(store, subjectiveHead, batch)
    requires subjectiveHead < height
    ensures !TakesPlace(store, height, batch) && Awaited(AfterHeaderSub(store, height), height, batch)
  {
    HeadIsMaximum(store);
    HeaderSubAndBatch(store, subjectiveHead, batch, height);
  }

  // ---- runs of the worker --------------------------------------------------------------------

  /** How a fetch ends: with the headers of exactly the batch, or with an error. */
  datatype FetchResult = Fetched(verified: bool) | NonFatalError | FatalError

  datatype Event =
    | HeaderSub(height: u64, verified: bool)
    | BatchResult(result: FetchResult)

  /** What the worker keeps: the stored ranges, the subjective head and the batch in flight. */
  datatype State = Sync(store: seq<BlockRange>, head: Option<u64>, ongoing: Option<BlockRange>) {
    ghost predicate Valid() { Canonical(store) && (ongoing.Some? ==> head.Some? && ongoing.value.Valid()) }

    /** A batch in flight can still be inserted into the store. */
    ghost predicate BatchSafe() { ongoing.Some? ==> head.Some? && Awaited(store, head.value, ongoing.value) }
  }

  function Raised(head: Option<u64>, height: u64): Option<u64> {
    Some(if head.Some? then Max(head.value, height) else height)
  }

  /** After an event: an announced head is stored if adjacent, a verified batch if insertable. */
  ghost function OnEvent(s: State, e: Event): (s': State)
    requires s.Valid()
    ensures s'.Valid()
  {
    match e
    case HeaderSub(height, verified) =>
      s.(head := Raised(s.head, height), store := if verified then AfterHeaderSub(s.store, height) else s.store)
    case BatchResult(result) =>
      if s.ongoing.None? then s
      else if result == Fetched(true) && Insertable(s.store, s.ongoing.value) then
        s.(ongoing := None, store := Filled(s.store, s.ongoing.value))
      else s.(ongoing := None)
  }

  /** Starting the next batch, if none is in flight. */
  ghost function Start(s: State, connected: bool, inWindow: bool, limit: u64): (s': State)
    requires s.Valid()
    ensures s'.Valid() && (s.BatchSafe() ==> s'.BatchSafe()) && s'.store == s.store && s'.head == s.head
  {
    if s.ongoing.Some? || !connected || s.head.None? then s
    else
      var b := CalculateRangeToFetch(s.head.value, s.store, limit);
      BatchFits(s.head.value, s.store, limit);
      BatchAwaited(s.head.value, s.store, limit);
      if b.IsEmpty() || (b.end + 1 in Heights(s.store) && !inWindow) then s else s.(ongoing := Some(b))
  }

  /** The surroundings of a run: the events, and whether there is a peer and the window is open. */
  datatype Run = Run(events: seq<Event>, connected: nat -> bool, inWindow: nat -> bool, limit: u64)

  /** `states` are those between the events of a run from `s`, or the first of them. */
  ghost predicate IsTrace(s: State, run: Run, states: seq<State>) {
    && s.Valid() && 1 <= |states| <= |run.events| + 1 && (forall i :: 0 <= i < |states| ==> states[i].Valid())
    && states[0] == Start(s, run.connected(0), run.inWindow(0), run.limit)
    && forall i :: 0 <= i < |states| - 1 ==> Follows(run, states, i)
  }

  ghost predicate Follows(run: Run, states: seq<State>, i: nat)
    requires i < |run.events| && i + 1 < |states| && states[i].Valid()
  {
    states[i + 1] == Start(OnEvent(states[i], run.events[i]), run.connected(i + 1), run.inWindow(i + 1), run.limit)
  }

  /** A fatal result for a batch in flight ends the loop. */
  ghost predicate IsFatal(s: State, e: Event) { s.ongoing.Some? && e == BatchResult(FatalError) }

  /** Every announced height is above the subjective head and above those announced before it. */
  ghost predicate Ascending(events: seq<Event>, head: u64) {
    && (forall i :: 0 <= i < |events| && events[i].HeaderSub? ==> head < events[i].height)
    && (forall i, j :: 0 <= i < j < |events| && events[i].HeaderSub? && events[j].HeaderSub? ==>
          events[i].height < events[j].height)
  }

  /** Over every run with ascending announcements the batch in flight stays insertable. */
  lemma {:induction false} BatchStaysSafe(s: State, run: Run, states: seq<State>, n: nat)
    requires IsTrace(s, run, states) && n < |states|
    requires s.head.Some? && s.BatchSafe() && Ascending(run.events, s.head.value)
    ensures states[n].BatchSafe() && states[n].head.Some?
    ensures forall i :: n <= i < |run.events| && run.events[i].HeaderSub? ==> states[n].head.value < run.events[i].height
  {
    if n > 0 {
      BatchStaysSafe(s, run, states, n - 1);
      AnnouncementKeepsSafe(states[n - 1], run.events[n - 1]);
      assert Follows(run, states, n - 1);
    }
  }

  /** An announcement above the subjective head keeps the batch safe, and so does any result. */
  lemma AnnouncementKeepsSafe(s: State, e: Event)
    requires s.Valid() && s.head.Some? && s.BatchSafe() && (e.HeaderSub? ==> s.head.value < e.height)
    ensures OnEvent(s, e).BatchSafe() && OnEvent(s, e).head == if e.HeaderSub? then Some(e.height) else s.head
  {
    if e.HeaderSub? && s.ongoing.Some? {
      HeaderSubKeepsBatch(s.store, s.head.value, s.ongoing.value, e.height);
      StillAwaited(s.store, s.head.value, e.height, s.ongoing.value);
    }
  }

  /**
   Over every run with ascending announcements each verified batch that comes back is stored:
   the store becomes the one with all its heights.
   */
  lemma NoBatchRefused(s: State, run: Run, states: seq<State>, n: nat)
    requires IsTrace(s, run, states) && n + 1 < |states|
    requires s.head.Some? && s.BatchSafe() && Ascending(run.events, s.head.value)
    requires run.events[n] == BatchResult(Fetched(true)) && states[n].ongoing.Some?
    ensures Insertable(states[n].store, states[n].ongoing.value)
    ensures states[n + 1].store == Filled(states[n].store, states[n].ongoing.value)
  {
    BatchStaysSafe(s, run, states, n);
    assert Follows(run, states, n);
  }

  /** Event `m` of the run is the verified announcement of `h`, or a verified batch that holds it. */
  ghost predicate IsOrigin(run: Run, states: seq<State>, m: nat, h: int)
    requires m < |run.events| && m < |states|
  {
    match run.events[m]
    case HeaderSub(height, verified) => verified && height == h
    case BatchResult(result) =>
      result == Fetched(true) && states[m].ongoing.Some? && h in states[m].ongoing.value.Heights()
  }

  /** Over every run only verified headers come into the store: every new height has its origin. */
  lemma {:induction false} StoredIsVerified(s: State, run: Run, states: seq<State>, n: nat, h: int) returns (m: nat)
    requires IsTrace(s, run, states) && n < |states| && h in Heights(states[n].store) && h !in Heights(s.store)
    ensures m < n && IsOrigin(run, states, m, h)
  {
    assert n > 0;
    assert Follows(run, states, n - 1);
    m := n - 1;
    if h in Heights(states[n - 1].store) {
      m := StoredIsVerified(s, run, states, n - 1, h);
    }
  }

  /** Over every run the subjective head is the highest of the first one and all announced ones. */
  lemma {:induction false} HeadIsHighestAnnounced(s: State, run: Run, states: seq<State>, n: nat)
    requires IsTrace(s, run, states) && n < |states|
    ensures s.head.Some? ==> states[n].head.Some? && s.head.value <= states[n].head.value
    ensures forall i :: 0 <= i < n && run.events[i].HeaderSub? ==>
                          states[n].head.Some? && run.events[i].height <= states[n].head.value
    ensures states[n].head == s.head
            || exists i :: 0 <= i < n && run.events[i].HeaderSub? && states[n].head == Some(run.events[i].height)
  {
    if n > 0 {
      HeadIsHighestAnnounced(s, run, states, n - 1);
      assert Follows(run, states, n - 1);
    }
  }

  /** Does event `m` of the run store the very height that `batch` starts with? */
  ghost predicate TakenAt(run: Run, states: seq<State>, m: nat, batch: BlockRange)
    requires m < |run.events| && m < |states|
  {
    var e := run.events[m];
    e.HeaderSub? && e.verified && TakesPlace(states[m].store, e.height, batch)
  }

  /** A batch is safe, or the store already holds one of its heights. */
  ghost predicate SafeOrTaken(s: State, batch: BlockRange) {
    && s.Valid() && s.ongoing == Some(batch)
    && if Insertable(s.store, batch) then s.BatchSafe() else batch.Heights() * Heights(s.store) != {}
  }

  lemma OneAnnouncement(s: State, e: Event, batch: BlockRange)
    requires SafeOrTaken(s, batch) && e.HeaderSub?
    ensures SafeOrTaken(OnEvent(s, e), batch)
    ensures Insertable(OnEvent(s, e).store, batch)
            <==> Insertable(s.store, batch) && !(e.verified && TakesPlace(s.store, e.height, batch))
  {
    var next := AfterHeaderSub(s.store, e.height);
    if Insertable(s.store, batch) {
      HeaderSubAndBatch(s.store, s.head.value, batch, e.height);
      StillAwaited(s.store, s.head.value, Max(s.head.value, e.height), batch);
      assert TakesPlace(s.store, e.height, batch) ==> e.height in batch.Heights() * Heights(next);
    } else {
      StaysUninsertable(s.store, batch, e.height);
    }
  }

  /**
   For announcements in any order: a batch that is still in flight after `n` events can be
   inserted if and only if none of the events since it was safe took its place.
   */
  lemma {:induction false} InsertableUnlessTaken(s: State, run: Run, states: seq<State>, from: nat, n: nat,
                                                 batch: BlockRange)
    requires IsTrace(s, run, states) && from <= n < |states|
    requires states[from].ongoing == Some(batch) && states[from].BatchSafe()
    requires forall m :: from <= m < n ==> run.events[m].HeaderSub?
    ensures SafeOrTaken(states[n], batch)
    ensures Insertable(states[n].store, batch) <==> forall m: nat :: from <= m < n ==> !TakenAt(run, states, m, batch)
  {
    if from < n {
      InsertableUnlessTaken(s, run, states, from, n - 1, batch);
      OneAnnouncement(states[n - 1], run.events[n - 1], batch);
      assert Follows(run, states, n - 1);
      assert TakenAt(run, states, n - 1, batch) <==>
             run.events[n - 1].verified && TakesPlace(states[n - 1].store, run.events[n - 1].height, batch);
    }
  }

  /** A batch once overtaken stays so: the store only grows. */
  lemma StaysUninsertable(store: seq<BlockRange>, batch: BlockRange, height: u64)
    requires Canonical(store) && batch.Heights() * Heights(store) != {}
    ensures batch.Heights() * Heights(AfterHeaderSub(store, height)) != {}
  {
    var h :| h in batch.Heights() * Heights(store);
    assert h in batch.Heights() * Heights(AfterHeaderSub(store, height));
  }

  /**
   Such a batch exists: with heights 1 to 5 stored and 10 as subjective head, a late announcement
   of height 6 costs the batch from 6 to 10 its place, and the store refuses it.
   */
  lemma LateAnnouncementRefusesBatch() returns (s: State, run: Run, states: seq<State>)
    ensures s == Sync([BlockRange(1, 5)], Some(10), None) && IsTrace(s, run, states) && |states| == 3
    ensures run.events == [HeaderSub(6, true), BatchResult(Fetched(true))] && run.limit == 512
    ensures states[1].ongoing == Some(BlockRange(6, 10)) && !Insertable(states[1].store, BlockRange(6, 10))
    ensures Heights(states[2].store) == Span(1, 6)
  {
    s := Sync([BlockRange(1, 5)], Some(10), None);
    run := Run([HeaderSub(6, true), BatchResult(Fetched(true))], _ => true, _ => true, 512);
    states := TraceOf(s, run, 2);
    HeightsSingle(BlockRange(1, 5));
    assert 11 !in Heights(s.store);
    assert states[0] == s.(ongoing := Some(BlockRange(6, 10)));
    assert StoreHead(states[0].store) + 1 == 6;
    assert Follows(run, states, 0) && Follows(run, states, 1);
    assert Heights(states[1].store) == Span(1, 6);
    assert 6 in BlockRange(6, 10).Heights() * Heights(states[1].store);
  }

  /** What the worker has got to after `n` verified batches. */
  ghost predicate OnTrack(s: State, t: State, n: nat, limit: u64)
    requires s.Valid() && s.head.Some? && t.Valid()
  {
    var head := s.head.value;
    && t.head == s.head && ReachesTarget(t.store, head) && Target(t.store, head) == Target(s.store, head)
    && |Missing(t.store, head)| <= Max(0, |Missing(s.store, head)| - n)
    && t.ongoing == NextBatch(t.store, head, limit)
  }

  lemma TrackStep(s: State, t: State, n: nat, limit: u64)
    requires s.Valid() && s.head.Some? && t.Valid() && 0 < s.head.value && 0 < limit && OnTrack(s, t, n, limit)
    ensures OnTrack(s, Start(OnEvent(t, BatchResult(Fetched(true))), true, true, limit), n + 1, limit)
  {
    BatchStored(t, limit);
    StartNext(OnEvent(t, BatchResult(Fetched(true))), limit);
  }

  lemma StartNext(s: State, limit: u64)
    requires s.Valid() && s.head.Some? && s.ongoing.None?
    ensures Start(s, true, true, limit) == s.(ongoing := NextBatch(s.store, s.head.value, limit))
  {
  }

  /** Each state but the first comes from a verified batch and a new start. */
  ghost predicate BatchAfterBatch(states: seq<State>, limit: u64) {
    && (forall i :: 0 <= i < |states| ==> states[i].Valid())
    && (forall i :: 0 <= i < |states| - 1 ==> IsNext(states[i], states[i + 1], limit))
  }

  ghost predicate IsNext(t: State, u: State, limit: u64) {
    t.Valid() && u == Start(OnEvent(t, BatchResult(Fetched(true))), true, true, limit)
  }

  lemma {:induction false} WorkerProgress(s: State, states: seq<State>, n: nat, limit: u64)
    requires BatchAfterBatch(states, limit) && n < |states|
    requires s.Valid() && s.head.Some? && 0 < s.head.value && 0 < limit && OnTrack(s, states[0], 0, limit)
    ensures OnTrack(s, states[n], n, limit)
  {
    if n > 0 {
      WorkerProgress(s, states, n - 1, limit);
      assert IsNext(states[n - 1], states[n], limit);
      TrackStep(s, states[n - 1], n - 1, limit);
    }
  }

  lemma VerifiedRun(s: State, run: Run, states: seq<State>)
    requires IsTrace(s, run, states)
    requires forall i :: 0 <= i < |run.events| ==> run.events[i] == BatchResult(Fetched(true))
    requires forall i :: run.connected(i) && run.inWindow(i)
    ensures BatchAfterBatch(states, run.limit)
  {
    forall i | 0 <= i < |states| - 1 ensures IsNext(states[i], states[i + 1], run.limit) {
      assert Follows(run, states, i);
    }
  }

  ghost function NextBatch(store: seq<BlockRange>, head: u64, limit: u64): Option<BlockRange>
    requires Canonical(store)
  {
    var b := CalculateRangeToFetch(head, store, limit);
    if b.IsEmpty() then None else Some(b)
  }

  /** A verified batch lowers the number of missing heights unless none is missing. */
  lemma BatchStored(t: State, limit: u64)
    requires t.Valid() && t.head.Some? && 0 < t.head.value && 0 < limit && ReachesTarget(t.store, t.head.value)
    requires t.ongoing == NextBatch(t.store, t.head.value, limit)
    ensures var u := OnEvent(t, BatchResult(Fetched(true)));
            && u.head == t.head && u.ongoing.None? && ReachesTarget(u.store, t.head.value)
            && Target(u.store, t.head.value) == Target(t.store, t.head.value)
            && |Missing(u.store, t.head.value)| <= Max(0, |Missing(t.store, t.head.value)| - 1)
  {
    if t.ongoing.Some? {
      FilledProgress(t.store, t.head.value, limit, t.ongoing.value);
    } else {
      BatchEmptyWhenDone(t.head.value, t.store, limit);
    }
  }

  lemma FilledProgress(store: seq<BlockRange>, head: u64, limit: u64, b: BlockRange)
    requires Canonical(store) && ReachesTarget(store, head)
    requires b == CalculateRangeToFetch(head, store, limit) && !b.IsEmpty()
    ensures b.Valid() && Insertable(store, b) && ReachesTarget(Filled(store, b), head)
    ensures Target(Filled(store, b), head) == Target(store, head)
    ensures |Missing(Filled(store, b), head)| < |Missing(store, head)|
  {
    BatchFits(head, store, limit);
    SyncStep(store, head, limit);
  }

  /**
   The worker converges: connected and in the window, after as many verified batches as heights
   are missing, or fewer, it has stored the single range up to its target.
   */
  lemma WorkerConverges(s: State, run: Run, states: seq<State>)
    requires IsTrace(s, run, states) && |states| == |run.events| + 1
    requires s.head.Some? && s.ongoing.None? && 0 < s.head.value && 0 < run.limit && ReachesTarget(s.store, s.head.value)
    requires |Missing(s.store, s.head.value)| <= |run.events|
    requires forall i :: 0 <= i < |run.events| ==> run.events[i] == BatchResult(Fetched(true))
    requires forall i :: run.connected(i) && run.inWindow(i)
    ensures states[|run.events|].store == [BlockRange(1, Target(s.store, s.head.value))]
    ensures states[|run.events|].ongoing.None?
  {
    var t := states[|run.events|];
    VerifiedRun(s, run, states);
    StartNext(s, run.limit);
    WorkerProgress(s, states, |run.events|, run.limit);
    assert |Missing(t.store, s.head.value)| == 0;
    SameAsFull(t.store, s.head.value);
    BatchEmptyWhenDone(s.head.value, t.store, run.limit);
  }

  /** And such a run there is, from every state without a batch in flight. */
  lemma WorkerCanConverge(s: State, limit: u64) returns (run: Run, states: seq<State>)
    requires s.Valid() && s.head.Some? && s.ongoing.None? && 0 < s.head.value && 0 < limit
    requires ReachesTarget(s.store, s.head.value)
    ensures IsTrace(s, run, states) && |states| == |run.events| + 1 && run.limit == limit
    ensures |run.events| == |Missing(s.store, s.head.value)|
    ensures states[|run.events|].store == [BlockRange(1, Target(s.store, s.head.value))]
  {
    var n := |Missing(s.store, s.head.value)|;
    run := Run(seq(n, _ => BatchResult(Fetched(true))), _ => true, _ => true, limit);
    states := TraceOf(s, run, n);
    WorkerConverges(s, run, states);
  }

  // ---- the worker ----------------------------------------------------------------------------

  class Worker {
    var subjectiveHead: Option<u64>
    var ongoing: Option<BlockRange>
    const store: BlockRanges
    const batchSize: u64

    constructor (store: BlockRanges, batchSize: u64)
      ensures subjectiveHead == None && ongoing == None
      ensures this.store == store && this.batchSize == batchSize
    {
      this.subjectiveHead, this.ongoing := None, None;
      this.store, this.batchSize := store, batchSize;
    }

    ghost function State(): State
      reads this, store
    {
      Sync(store.ranges, subjectiveHead, ongoing)
    }

    ghost predicate Valid()
      reads this, store
    {
      State().Valid()
    }

    /** The subjective head only ever rises. */
    method SetSubjectiveHeadHeight(height: u64)
      modifies this`subjectiveHead
      ensures subjectiveHead == Raised(old(subjectiveHead), height)
      ensures subjectiveHead == Some(height) || subjectiveHead == old(subjectiveHead)
      ensures subjectiveHead.Some? && height <= subjectiveHead.value
      ensures old(subjectiveHead).Some? ==> old(subjectiveHead).value <= subjectiveHead.value
    {
      if subjectiveHead.Some? && height <= subjectiveHead.value {
        return;
      }
      subjectiveHead := Some(height);
    }

    /**
     A header announced on header-sub. `verified` says whether the store accepts it against its
     head. A safe batch in flight stays safe unless the header takes its place.
     */
    method OnHeaderSubMessage(height: u64, verified: bool)
      requires Valid()
      modifies this`subjectiveHead, store
      ensures Valid() && State() == OnEvent(old(State()), HeaderSub(height, verified))
      ensures Heights(store.ranges) == old(Heights(store.ranges)) +
              if verified && old(store.ranges) != [] && StoreHead(old(store.ranges)) + 1 == height then {height as int} else {}
      ensures old(State()).BatchSafe() ==>
                (State().BatchSafe() <==> !(verified && ongoing.Some? && TakesPlace(old(store.ranges), height, ongoing.value)))
    {
      ghost var before := store.ranges;
      if ongoing.Some? && State().BatchSafe() {
        HeaderSubAndBatch(before, subjectiveHead.value, ongoing.value, height);
        StillAwaited(before, subjectiveHead.value, Max(subjectiveHead.value, height), ongoing.value);
      }
      SetSubjectiveHeadHeight(height);
      if verified {
        InsertHead(height);
      }
    }

    /** Stores a header that is adjacent to the head of the store. */
    method InsertHead(height: u64)
      requires Canonical(store.ranges)
      modifies store
      ensures Canonical(store.ranges) && store.ranges == AfterHeaderSub(old(store.ranges), height)
    {
      ghost var before := store.ranges;
      HeadIsMaximum(before);
      var head := store.Head();
      if head.Some? && head.value as int + 1 == height {
        var range := BlockRange(height, height);
        assert range.Heights() == {height as int};
        var inserted := store.Insert(range);
        CanonicalUnique(store.ranges, AfterHeaderSub(before, height));
      }
    }

    /**
     Starts the next batch unless one is in flight. `connected` says whether there is a peer and
     `inSyncingWindow` whether the stored header right above the batch is recent enough.
     */
    method FetchNextBatch(connected: bool, inSyncingWindow: bool)
      requires Valid()
      modifies this`ongoing
      ensures Valid() && State() == Start(old(State()), connected, inSyncingWindow, batchSize)
      ensures old(State()).BatchSafe() ==> State().BatchSafe()
      ensures old(ongoing).Some? || !connected || subjectiveHead.None? ==> ongoing == old(ongoing)
      ensures old(ongoing).None? && connected && subjectiveHead.Some? ==>
                var b := CalculateRangeToFetch(subjectiveHead.value, store.ranges, batchSize);
                ongoing == if b.start <= b.end && (b.end + 1 in Heights(store.ranges) ==> inSyncingWindow) then Some(b) else None
    {
      if ongoing.Some? || !connected || subjectiveHead.None? {
        return;
      }
      var nextBatch := CalculateRangeToFetch(subjectiveHead.value, store.ranges, batchSize);
      if nextBatch.IsEmpty() {
        return;
      }
      BatchFits(subjectiveHead.value, store.ranges, batchSize);
      if store.Contains(nextBatch.end + 1) && !inSyncingWindow {
        return;
      }
      ongoing := Some(nextBatch);
    }

    /**
     The batch comes back: if it verifies and can still be inserted, which a safe batch can, all
     of its heights are stored.
     */
    method OnFetchNextBatchResult(result: FetchResult) returns (fatal: bool)
      requires Valid() && ongoing.Some?
      modifies this`ongoing, store
      ensures Valid() && State() == OnEvent(old(State()), BatchResult(result))
      ensures fatal <==> result.FatalError?
      ensures old(State()).BatchSafe() ==> Insertable(old(store.ranges), old(ongoing).value)
      ensures result != Fetched(true) || !Insertable(old(store.ranges), old(ongoing).value) ==>
                store.ranges == old(store.ranges)
      ensures result == Fetched(true) && Insertable(old(store.ranges), old(ongoing).value) ==>
                Heights(store.ranges) == old(Heights(store.ranges)) + old(ongoing).value.Heights()
    {
      var range := ongoing.value;
      ghost var before := store.ranges;
      ongoing := None;
      if result == Fetched(true) {
        var inserted := store.Insert(range);
        if inserted.Ok? { CanonicalUnique(store.ranges, Filled(before, range)); }
      }
      fatal := result.FatalError?;
    }

    /**
     The connected event loop over any events: it follows the run to its end, or to the first
     fatal result, and loses no stored height. A batch still in flight at the end is cancelled.
     */
    method ConnectedEventLoop(events: seq<Event>, connected: nat -> bool, inSyncingWindow: nat -> bool)
      returns (fatal: bool, ghost states: seq<State>)
      requires Valid()
      modifies this, store
      ensures Valid() && ongoing.None?
      ensures old(Heights(store.ranges)) <= Heights(store.ranges)
      ensures IsTrace(old(State()), Run(events, connected, inSyncingWindow, batchSize), states)
      ensures forall m :: 0 <= m < |states| - 1 ==> states[m].ongoing.None? || events[m] != BatchResult(FatalError)
      ensures fatal ==> |states| <= |events| && State() == OnEvent(states[|states| - 1], events[|states| - 1])
                        && states[|states| - 1].ongoing.Some? && events[|states| - 1] == BatchResult(FatalError)
      ensures !fatal ==> |states| == |events| + 1 && State() == states[|events|].(ongoing := None)
    {
      FetchNextBatch(connected(0), inSyncingWindow(0));
      fatal, states := TakeEvents(events, connected, inSyncingWindow, old(State()));
      if !fatal {
        ongoing := None;
      }
    }

    /** The loop itself, with the first batch started from `s`. */
    method TakeEvents(events: seq<Event>, connected: nat -> bool, inSyncingWindow: nat -> bool, ghost s: State)
      returns (fatal: bool, ghost states: seq<State>)
      requires Valid() && s.Valid() && State() == Start(s, connected(0), inSyncingWindow(0), batchSize)
      modifies this`subjectiveHead, this`ongoing, store
      ensures Valid() && old(Heights(store.ranges)) <= Heights(store.ranges)
      ensures IsTrace(s, Run(events, connected, inSyncingWindow, batchSize), states)
      ensures forall m :: 0 <= m < |states| - 1 ==> !IsFatal(states[m], events[m])
      ensures fatal ==> |states| <= |events| && IsFatal(states[|states| - 1], events[|states| - 1])
                        && State() == OnEvent(states[|states| - 1], events[|states| - 1])
      ensures !fatal ==> |states| == |events| + 1 && State() == states[|events|]
    {
      ghost var run := Run(events, connected, inSyncingWindow, batchSize);
      states := [State()];
      for i := 0 to |events|
        invariant Valid() && IsTrace(s, run, states) && |states| == i + 1 && State() == states[i]
        invariant forall m :: 0 <= m < i ==> !IsFatal(states[m], events[m])
        invariant old(Heights(store.ranges)) <= Heights(store.ranges)
      {
        fatal := LoopTurn(events[i], connected(i + 1), inSyncingWindow(i + 1));
        if fatal {
          return;
        }
        TraceGrows(s, run, states, State());
        states := states + [State()];
      }
      fatal := false;
    }

    /** One turn of the loop: takes an event and, unless it is fatal, starts the next batch. */
    method LoopTurn(e: Event, connected: bool, inSyncingWindow: bool) returns (fatal: bool)
      requires Valid()
      modifies this`subjectiveHead, this`ongoing, store
      ensures Valid() && (fatal <==> IsFatal(old(State()), e))
      ensures State() == if fatal then OnEvent(old(State()), e)
                         else Start(OnEvent(old(State()), e), connected, inSyncingWindow, batchSize)
      ensures old(Heights(store.ranges)) <= Heights(store.ranges)
    {
      fatal := TakeEvent(e);
      if !fatal {
        FetchNextBatch(connected, inSyncingWindow);
      }
    }

    /** An event of the loop; a result without a batch in flight cannot come and changes nothing. */
    method TakeEvent(e: Event) returns (fatal: bool)
      requires Valid()
      modifies this`subjectiveHead, this`ongoing, store
      ensures Valid() && State() == OnEvent(old(State()), e)
      ensures fatal <==> IsFatal(old(State()), e)
      ensures old(Heights(store.ranges)) <= Heights(store.ranges)
    {
      fatal := false;
      match e
      case HeaderSub(height, verified) =>
        OnHeaderSubMessage(height, verified);
      case BatchResult(result) =>
        if ongoing.Some? {
          fatal := OnFetchNextBatchResult(result);
        }
    }
  }

  /** Every run has its states. */
  lemma {:induction false} TraceOf(s: State, run: Run, n: nat) returns (states: seq<State>)
    requires s.Valid() && n <= |run.events|
    ensures IsTrace(s, run, states) && |states| == n + 1
  {
    if n == 0 {
      states := [Start(s, run.connected(0), run.inWindow(0), run.limit)];
    } else {
      states := TraceOf(s, run, n - 1);
      var next := Start(OnEvent(states[n - 1], run.events[n - 1]), run.connected(n), run.inWindow(n), run.limit);
      TraceGrows(s, run, states, next);
      states := states + [next];
    }
  }

  lemma TraceGrows(s: State, run: Run, states: seq<State>, next: State)
    requires IsTrace(s, run, states) && |states| <= |run.events|
    requires var i := |states| - 1;
             next == Start(OnEvent(states[i], run.events[i]), run.connected(i + 1), run.inWindow(i + 1), run.limit)
    ensures IsTrace(s, run, states + [next])
  {
    var states' := states + [next];
    forall i | 0 <= i < |states'| - 1 ensures Follows(run, states', i) {
      if i < |states| - 1 { assert Follows(run, states, i); }
    }
  }

  /** Raising the subjective head alone keeps an awaited batch awaited. */
  lemma StillAwaited(store: seq<BlockRange>, subjectiveHead: u64, height: u64, batch: BlockRange)
    requires Awaited(store, subjectiveHead, batch) && subjectiveHead <= height
    ensures Awaited(store, height, batch)
  {
  }
}
