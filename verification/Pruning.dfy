/**
 The sampler and the pruner sharing a header store, a blockstore and a clock
 (node/src/daser.rs, node/src/pruner.rs): does any sample stay in the blockstore that no stored
 header's metadata remembers?

 Both components are asynchronous, so the model is a state machine whose steps are their single
 store and blockstore calls, in any interleaving with deliveries, insertions and the clock.
 */
module Pruning {
  import opened Wrappers
  import opened BlockRangeSets

  /** The content id of one sample of the block at `height`. */
  datatype Cid = Cid(row: nat, column: nat, height: nat)

  /** A sampling attempt: when its header passed the window check, and whether it is recorded yet. */
  datatype Request = Request(height: nat, checkedAt: nat, cids: set<Cid>, recorded: bool)

  /** Where the pruner is between two of its asynchronous calls. */
  datatype Pruner =
    | Idle
    | Scanning(cutoff: nat)
    | Chosen(cutoff: nat, height: nat)
    | Removing(cutoff: nat, height: nat, cids: set<Cid>)
    | Stopped

  /** `time` is the header time of each height; `lifetime` bounds how long a request can live. */
  datatype Config = Config(samplingWindow: nat, pruningDelay: nat, lifetime: nat, time: nat -> nat) {
    ghost function PruningWindow(): nat { samplingWindow + pruningDelay }
  }

  datatype State = State(now: nat, stored: set<nat>, metadata: map<nat, set<Cid>>,
                         blockstore: set<Cid>, requests: set<Request>, pruner: Pruner)

  datatype Step =
    | Tick(now: nat)
    | InsertHeaders(heights: set<nat>)
    | CheckWindow(height: nat, cids: set<Cid>)
    | RecordCids(request: Request)
    | Deliver(request: Request, cid: Cid)
    | EndRequest(request: Request)
    | StartScan
    | ChooseTail
    | ReadMetadata
    | RemoveCid(cid: Cid)
    | RemoveLast
    | StopPruner
    | Restart

  /** Header times rise with the height, and no header is as old as the epoch. */
  ghost predicate ValidTimes(c: Config) {
    && (forall h :: 0 < c.time(h))
    && (forall h, k :: h <= k ==> c.time(h) <= c.time(k))
  }

  ghost predicate InSamplingWindow(c: Config, now: nat, height: nat) {
    now < c.time(height) || now - c.time(height) <= c.samplingWindow
  }

  /** The pruner's cutoff; it falls back to the epoch when the clock is younger than the window. */
  ghost function Cutoff(c: Config, now: nat): nat {
    if now >= c.PruningWindow() then now - c.PruningWindow() else 0
  }

  ghost predicate IsTail(stored: set<nat>, h: nat) { h in stored && forall k :: k in stored ==> h <= k }

  ghost function RecordedCids(s: State, h: nat): set<Cid> {
    if h in s.metadata then s.metadata[h] else {}
  }

  ghost predicate Next(c: Config, s: State, step: Step, s': State) {
    match step
    case Tick(now) =>
      // The clock cannot pass the point where a request that is still alive must have ended.
      && s.now <= now && (forall r :: r in s.requests ==> now < r.checkedAt + c.lifetime)
      && s' == s.(now := now)
    case InsertHeaders(heights) =>
      heights !! s.stored && s' == s.(stored := s.stored + heights)
    case CheckWindow(height, cids) =>
      && height in s.stored && InSamplingWindow(c, s.now, height) && 0 < c.lifetime
      && (forall cid :: cid in cids ==> cid.height == height)
      && s' == s.(requests := s.requests + {Request(height, s.now, cids, false)})
    case RecordCids(r) =>
      && r in s.requests && !r.recorded
      && s' == if r.height in s.stored
               then s.(metadata := s.metadata[r.height := RecordedCids(s, r.height) + r.cids],
                       requests := s.requests - {r} + {r.(recorded := true)})
               else s.(requests := s.requests - {r})
    case Deliver(r, cid) =>
      && r in s.requests && r.recorded && cid in r.cids
      && s' == s.(blockstore := s.blockstore + {cid})
    case EndRequest(r) =>
      s' == s.(requests := s.requests - {r})
    case StartScan =>
      s.pruner.Idle? && s' == s.(pruner := Scanning(Cutoff(c, s.now)))
    case ChooseTail =>
      && s.pruner.Scanning?
      && (|| (s.stored == {} && s' == s.(pruner := Idle))
          || exists h :: IsTail(s.stored, h)
                         && s' == s.(pruner := if c.time(h) > s.pruner.cutoff then Idle
                                               else Chosen(s.pruner.cutoff, h)))
    case ReadMetadata =>
      && s.pruner.Chosen?
      && s' == s.(pruner := Removing(s.pruner.cutoff, s.pruner.height, RecordedCids(s, s.pruner.height)))
    case RemoveCid(cid) =>
      && s.pruner.Removing? && cid in s.pruner.cids
      && s' == s.(blockstore := s.blockstore - {cid}, pruner := s.pruner.(cids := s.pruner.cids - {cid}))
    case RemoveLast =>
      && s.pruner.Removing? && s.pruner.cids == {}
      && exists t :: IsTail(s.stored, t)
                     && s' == s.(stored := s.stored - {t}, metadata := s.metadata - {t},
                                 pruner := if t == s.pruner.height then Scanning(s.pruner.cutoff) else Stopped)
    case StopPruner =>
      s' == s.(pruner := Stopped)
    case Restart =>
      s' == s.(requests := {}, pruner := Idle)
  }

  /** The node starts on any store without a leak, new or left by an earlier run. */
  ghost predicate Init(s: State) {
    NoLeak(s) && s.metadata.Keys <= s.stored && s.requests == {} && s.pruner.Idle?
  }

  /** A finite run of the two components and their environment. */
  ghost predicate IsRun(c: Config, states: seq<State>, steps: seq<Step>) {
    && |states| == |steps| + 1
    && Init(states[0])
    && forall i :: 0 <= i < |steps| ==> Next(c, states[i], steps[i], states[i + 1])
  }

  /** Every sample in the blockstore is recorded in the metadata of a header that is still stored. */
  ghost predicate NoLeak(s: State) {
    forall cid :: cid in s.blockstore ==> cid.height in s.stored && cid in RecordedCids(s, cid.height)
  }

  // ---- the invariant -------------------------------------------------------------------------

  /** A live request belongs to a stored header young enough that no prune can be due yet. */
  ghost predicate ValidRequest(c: Config, s: State, r: Request) {
    && r.checkedAt <= s.now < r.checkedAt + c.lifetime
    && r.checkedAt <= c.time(r.height) + c.samplingWindow
    && r.height in s.stored
    && (forall cid :: cid in r.cids ==> cid.height == r.height)
    && (r.recorded ==> r.cids <= RecordedCids(s, r.height))
  }

  /** Nothing at or below `height` can be sampled any more, and below it nothing was. */
  ghost predicate Overdue(c: Config, s: State, cutoff: nat, height: nat) {
    && c.time(height) <= cutoff && cutoff + c.PruningWindow() <= s.now
    && height in s.stored
    && forall cid :: cid in s.blockstore ==> height <= cid.height
  }

  ghost predicate ValidPruner(c: Config, s: State) {
    match s.pruner
    case Idle => true
    case Stopped => true
    case Scanning(cutoff) => cutoff == 0 || cutoff + c.PruningWindow() <= s.now
    case Chosen(cutoff, height) => Overdue(c, s, cutoff, height)
    case Removing(cutoff, height, cids) =>
      Overdue(c, s, cutoff, height) && forall cid :: cid in s.blockstore && cid.height == height ==> cid in cids
  }

  ghost predicate Inv(c: Config, s: State) {
    && NoLeak(s)
    && s.metadata.Keys <= s.stored
    && (forall r :: r in s.requests ==> ValidRequest(c, s, r))
    && ValidPruner(c, s)
  }

  /** The timing argument: a live request is always for a header above what the pruner works on. */
  lemma RequestsAbovePruner(c: Config, s: State, r: Request, cutoff: nat, height: nat)
    requires ValidTimes(c) && c.lifetime <= c.pruningDelay
    requires ValidRequest(c, s, r) && Overdue(c, s, cutoff, height)
    ensures height < r.height
  {
    assert r.height <= height ==> c.time(r.height) <= c.time(height);
  }

  lemma TickKeepsInv(c: Config, s: State, step: Step, s': State)
    requires ValidTimes(c) && c.lifetime <= c.pruningDelay
    requires Inv(c, s) && Next(c, s, step, s') && (step.Tick? || step.InsertHeaders? || step.EndRequest?)
    ensures Inv(c, s')
  {
    assert forall h :: RecordedCids(s', h) == RecordedCids(s, h);
    assert s'.pruner == s.pruner;
  }

  lemma SamplingKeepsInv(c: Config, s: State, step: Step, s': State)
    requires ValidTimes(c) && c.lifetime <= c.pruningDelay
    requires Inv(c, s) && Next(c, s, step, s') && (step.CheckWindow? || step.RecordCids? || step.Deliver?)
    ensures Inv(c, s')
  {
    match step
    case CheckWindow(height, cids) =>
      assert forall h :: RecordedCids(s', h) == RecordedCids(s, h);
    case RecordCids(r) =>
      assert ValidRequest(c, s, r);
      assert forall h :: RecordedCids(s, h) <= RecordedCids(s', h);
    case Deliver(r, cid) =>
      assert ValidRequest(c, s, r);
      assert forall h :: RecordedCids(s', h) == RecordedCids(s, h);
      if s.pruner.Chosen? || s.pruner.Removing? {
        RequestsAbovePruner(c, s, r, s.pruner.cutoff, s.pruner.height);
      }
  }

  lemma PrunerKeepsInv(c: Config, s: State, step: Step, s': State)
    requires ValidTimes(c) && c.lifetime <= c.pruningDelay
    requires Inv(c, s) && Next(c, s, step, s')
    requires step.StartScan? || step.ChooseTail? || step.ReadMetadata? || step.RemoveCid? || step.StopPruner?
             || step.Restart?
    ensures Inv(c, s')
  {
    assert forall h :: RecordedCids(s', h) == RecordedCids(s, h);
    assert s'.requests <= s.requests && s'.now == s.now && s'.stored == s.stored;
    if step.ChooseTail? && s'.pruner.Chosen? {
      assert c.time(s'.pruner.height) > 0;
    }
  }

  lemma RemoveLastKeepsInv(c: Config, s: State, s': State)
    requires ValidTimes(c) && c.lifetime <= c.pruningDelay
    requires Inv(c, s) && Next(c, s, RemoveLast, s')
    ensures Inv(c, s')
  {
    var t: nat :| IsTail(s.stored, t)
             && s' == s.(stored := s.stored - {t}, metadata := s.metadata - {t},
                         pruner := if t == s.pruner.height then Scanning(s.pruner.cutoff) else Stopped);
    assert t <= s.pruner.height;
    assert forall cid :: cid in s.blockstore ==> cid.height != t;
    assert forall h :: h != t ==> RecordedCids(s', h) == RecordedCids(s, h);
    forall r | r in s'.requests ensures ValidRequest(c, s', r) {
      RequestsAbovePruner(c, s, r, s.pruner.cutoff, s.pruner.height);
    }
  }

  /** Every step of either component, of a delivery or of the clock keeps the invariant. */
  lemma StepKeepsInv(c: Config, s: State, step: Step, s': State)
    requires ValidTimes(c) && c.lifetime <= c.pruningDelay
    requires Inv(c, s) && Next(c, s, step, s')
    ensures Inv(c, s')
  {
    match step
    case Tick(_) => TickKeepsInv(c, s, step, s');
    case InsertHeaders(_) => TickKeepsInv(c, s, step, s');
    case EndRequest(_) => TickKeepsInv(c, s, step, s');
    case CheckWindow(_, _) => SamplingKeepsInv(c, s, step, s');
    case RecordCids(_) => SamplingKeepsInv(c, s, step, s');
    case Deliver(_, _) => SamplingKeepsInv(c, s, step, s');
    case RemoveLast => RemoveLastKeepsInv(c, s, s');
    case _ => PrunerKeepsInv(c, s, step, s');
  }

  /**
   No sample is ever leaked: in every state of every run, provided a request ends within the
   pruning delay, each sample in the blockstore is recorded for a header that is still stored.
   This includes the race in which an older header is inserted between the pruner's choice of
   the tail and its removal.
   */
  lemma {:induction false} SamplesNeverLeak(c: Config, states: seq<State>, steps: seq<Step>, i: nat)
    requires ValidTimes(c) && c.lifetime <= c.pruningDelay
    requires IsRun(c, states, steps) && i < |states|
    ensures Inv(c, states[i])
    ensures NoLeak(states[i])
  {
    if i > 0 {
      SamplesNeverLeak(c, states, steps, i - 1);
      StepKeepsInv(c, states[i - 1], steps[i - 1], states[i]);
    }
  }

  lemma ExtendRun(c: Config, states: seq<State>, steps: seq<Step>, step: Step, s': State)
    requires IsRun(c, states, steps) && Next(c, states[|states| - 1], step, s')
    ensures IsRun(c, states + [s'], steps + [step])
  {
  }

  /** Samples `cid` of height 1 at time `at` and lets the clock run to `later`. */
  lemma SampledAt(c: Config, cid: Cid, at: nat, later: nat) returns (states: seq<State>, steps: seq<Step>)
    requires InSamplingWindow(c, at, 1) && at <= later < at + c.lifetime && cid.height == 1
    ensures IsRun(c, states, steps)
    ensures states[|states| - 1] == State(later, {1}, map[1 := {cid}], {}, {Request(1, at, {cid}, true)}, Idle)
  {
    var r := Request(1, at, {cid}, false);
    var empty := State(at, {}, map[], {}, {}, Idle);
    var s0 := empty.(stored := {1});
    states, steps := [empty], [];
    assert empty.stored + {1} == {1};
    ExtendRun(c, states, steps, InsertHeaders({1}), s0);
    states, steps := states + [s0], steps + [InsertHeaders({1})];
    var s1 := s0.(requests := {r});
    assert s0.requests + {r} == {r};
    ExtendRun(c, states, steps, CheckWindow(1, {cid}), s1);
    states, steps := states + [s1], steps + [CheckWindow(1, {cid})];
    var s2 := s1.(metadata := map[1 := {cid}], requests := {r.(recorded := true)});
    assert s1.requests - {r} + {r.(recorded := true)} == s2.requests;
    assert RecordedCids(s1, 1) + r.cids == {cid};
    assert s1.metadata[1 := {cid}] == s2.metadata;
    ExtendRun(c, states, steps, RecordCids(r), s2);
    states, steps := states + [s2], steps + [RecordCids(r)];
    var s3 := s2.(now := later);
    ExtendRun(c, states, steps, Tick(later), s3);
    states, steps := states + [s3], steps + [Tick(later)];
  }

  /** From every state of every run a stored header in the window can be sampled to the end. */
  lemma SampleCanBeTaken(c: Config, states0: seq<State>, steps0: seq<Step>, height: nat, cids: set<Cid>)
    returns (states: seq<State>, steps: seq<Step>)
    requires IsRun(c, states0, steps0) && 0 < c.lifetime
    requires var s := states0[|states0| - 1]; height in s.stored && InSamplingWindow(c, s.now, height)
    requires forall cid :: cid in cids ==> cid.height == height
    ensures IsRun(c, states, steps) && steps0 <= steps
    ensures var s, s' := states0[|states0| - 1], states[|states| - 1];
            && s'.metadata == s.metadata[height := RecordedCids(s, height) + cids]
            && s'.blockstore == s.blockstore + cids && s'.stored == s.stored && s'.requests <= s.requests
  {
    var s := states0[|states0| - 1];
    var r := Request(height, s.now, cids, false);
    var r' := r.(recorded := true);
    var s1 := s.(requests := s.requests + {r});
    ExtendRun(c, states0, steps0, CheckWindow(height, cids), s1);
    states, steps := states0 + [s1], steps0 + [CheckWindow(height, cids)];
    var s2 := s1.(metadata := s.metadata[height := RecordedCids(s, height) + cids], requests := s1.requests - {r} + {r'});
    ExtendRun(c, states, steps, RecordCids(r), s2);
    states, steps := states + [s2], steps + [RecordCids(r)];
    states, steps := DeliverAll(c, states, steps, r', cids);
    var s3 := states[|states| - 1];
    var s4 := s3.(requests := s3.requests - {r'});
    ExtendRun(c, states, steps, EndRequest(r'), s4);
    states, steps := states + [s4], steps + [EndRequest(r')];
  }

  lemma {:induction false} DeliverAll(c: Config, states0: seq<State>, steps0: seq<Step>, r: Request, cids: set<Cid>)
    returns (states: seq<State>, steps: seq<Step>)
    requires IsRun(c, states0, steps0) && r in states0[|states0| - 1].requests && r.recorded && cids <= r.cids
    ensures IsRun(c, states, steps) && steps0 <= steps
    ensures var s := states0[|states0| - 1]; states[|states| - 1] == s.(blockstore := s.blockstore + cids)
    decreases cids
  {
    var s := states0[|states0| - 1];
    states, steps := states0, steps0;
    if cids == {} {
      assert s.blockstore + cids == s.blockstore;
    } else {
      var cid :| cid in cids;
      var s' := s.(blockstore := s.blockstore + {cid});
      ExtendRun(c, states, steps, Deliver(r, cid), s');
      states, steps := DeliverAll(c, states + [s'], steps + [Deliver(r, cid)], r, cids - {cid});
      assert s'.blockstore + (cids - {cid}) == s.blockstore + cids;
    }
  }

  /** From every state in which the pruner is idle a tail that is due can be pruned with its samples. */
  lemma DueTailCanBePruned(c: Config, states0: seq<State>, steps0: seq<Step>, height: nat)
    returns (states: seq<State>, steps: seq<Step>)
    requires IsRun(c, states0, steps0)
    requires var s := states0[|states0| - 1];
             s.pruner.Idle? && IsTail(s.stored, height) && c.time(height) <= Cutoff(c, s.now)
    ensures IsRun(c, states, steps) && steps0 <= steps
    ensures var s := states0[|states0| - 1];
            states[|states| - 1] == s.(stored := s.stored - {height}, metadata := s.metadata - {height},
                                       blockstore := s.blockstore - RecordedCids(s, height),
                                       pruner := Scanning(Cutoff(c, s.now)))
  {
    states, steps := states0, steps0;
    var s := states[|states| - 1];
    var cutoff := Cutoff(c, s.now);
    var s1 := s.(pruner := Scanning(cutoff));
    ExtendRun(c, states, steps, StartScan, s1);
    states, steps := states + [s1], steps + [StartScan];
    var s2 := s1.(pruner := Chosen(cutoff, height));
    assert IsTail(s1.stored, height);
    ExtendRun(c, states, steps, ChooseTail, s2);
    states, steps := states + [s2], steps + [ChooseTail];
    var s3 := s2.(pruner := Removing(cutoff, height, RecordedCids(s, height)));
    ExtendRun(c, states, steps, ReadMetadata, s3);
    states, steps := states + [s3], steps + [ReadMetadata];
    states, steps := RemoveAll(c, states, steps);
    var s4 := states[|states| - 1];
    var s5 := s4.(stored := s.stored - {height}, metadata := s.metadata - {height}, pruner := Scanning(cutoff));
    assert IsTail(s4.stored, height);
    ExtendRun(c, states, steps, RemoveLast, s5);
    states, steps := states + [s5], steps + [RemoveLast];
  }

  lemma {:induction false} RemoveAll(c: Config, states0: seq<State>, steps0: seq<Step>)
    returns (states: seq<State>, steps: seq<Step>)
    requires IsRun(c, states0, steps0) && states0[|states0| - 1].pruner.Removing?
    ensures IsRun(c, states, steps) && steps0 <= steps
    ensures var s := states0[|states0| - 1];
            states[|states| - 1] == s.(blockstore := s.blockstore - s.pruner.cids, pruner := s.pruner.(cids := {}))
    decreases states0[|states0| - 1].pruner.cids
  {
    var s := states0[|states0| - 1];
    states, steps := states0, steps0;
    if s.pruner.cids == {} {
      assert s.blockstore - {} == s.blockstore;
    } else {
      var cid :| cid in s.pruner.cids;
      var s' := s.(blockstore := s.blockstore - {cid}, pruner := s.pruner.(cids := s.pruner.cids - {cid}));
      ExtendRun(c, states, steps, RemoveCid(cid), s');
      states, steps := RemoveAll(c, states + [s'], steps + [RemoveCid(cid)]);
      assert s'.blockstore - s'.pruner.cids == s.blockstore - s.pruner.cids;
    }
  }

  /** A request that is alive when its header becomes due leaks the sample it delivers afterwards. */
  lemma AliveWhenDueLeaks(c: Config, at: nat, later: nat) returns (states: seq<State>, steps: seq<Step>)
    requires InSamplingWindow(c, at, 1) && at <= later < at + c.lifetime && c.time(1) <= Cutoff(c, later)
    ensures IsRun(c, states, steps) && !NoLeak(states[|states| - 1])
  {
    var cid := Cid(0, 0, 1);
    var r := Request(1, at, {cid}, true);
    states, steps := SampledAt(c, cid, at, later);
    states, steps := DueTailCanBePruned(c, states, steps, 1);
    var s := states[|states| - 1];
    assert s == State(later, {}, map[], {}, {r}, Scanning(Cutoff(c, later)));
    var s' := s.(blockstore := {cid});
    assert s.blockstore + {cid} == {cid};
    ExtendRun(c, states, steps, Deliver(r, cid), s');
    states, steps := states + [s'], steps + [Deliver(r, cid)];
    assert cid in s'.blockstore && cid.height !in s'.stored;
  }

  /** The bound on the lifetime is exact: any longer one admits a run in which a sample leaks. */
  lemma LongRequestsLeak(window: nat, delay: nat, lifetime: nat)
    returns (c: Config, states: seq<State>, steps: seq<Step>)
    requires delay < lifetime
    ensures ValidTimes(c) && c.samplingWindow == window && c.pruningDelay == delay && c.lifetime == lifetime
    ensures forall h: nat, k: nat :: h < k ==> c.time(h) < c.time(k)
    ensures IsRun(c, states, steps) && !NoLeak(states[|states| - 1])
  {
    c := Config(window, delay, lifetime, h => 1 + h);
    states, steps := AliveWhenDueLeaks(c, 2 + window, 2 + window + delay);
  }

  /** So is the condition on header times: the cutoff's fallback to the epoch prunes too early. */
  lemma EpochHeadersLeak(window: nat, delay: nat, lifetime: nat)
    returns (c: Config, states: seq<State>, steps: seq<Step>)
    requires 0 < lifetime
    ensures c.samplingWindow == window && c.pruningDelay == delay && c.lifetime == lifetime && c.time(1) == 0
    ensures forall h: nat, k: nat :: 0 < h < k ==> c.time(h) < c.time(k)
    ensures IsRun(c, states, steps) && !NoLeak(states[|states| - 1])
  {
    c := Config(window, delay, lifetime, (h: nat) => if h == 0 then 0 else h - 1);
    states, steps := AliveWhenDueLeaks(c, 0, 0);
  }

  // ---- one undisturbed pass of the pruner ----------------------------------------------------

  ghost predicate NonDecreasing(time: u64 -> nat) { forall h, k :: h <= k ==> time(h) <= time(k) }

  /** The heights of `heights` whose headers are older than `cutoff` allows. */
  ghost function Expired(heights: set<int>, time: u64 -> nat, cutoff: nat): set<int> {
    set h | h in heights && 0 <= h <= U64_MAX && time(h) <= cutoff
  }

  class Worker {
    const store: BlockRanges
    const time: u64 -> nat
    var metadata: map<u64, set<Cid>>
    var blockstore: set<Cid>
    var lastReported: Option<u64>
    var lastRemoved: Option<u64>

    constructor (store: BlockRanges, time: u64 -> nat, metadata: map<u64, set<Cid>>, blockstore: set<Cid>)
      ensures this.store == store && this.time == time
      ensures this.metadata == metadata && this.blockstore == blockstore
      ensures lastReported == None && lastRemoved == None
    {
      this.store, this.time, this.metadata, this.blockstore := store, time, metadata, blockstore;
      lastReported, lastRemoved := None, None;
    }

    /** The tail header, if it is due. */
    method GetTailHeaderToPrune(cutoff: nat) returns (r: Option<u64>)
      requires Canonical(store.ranges) && NonDecreasing(time)
      ensures r.None? <==> Expired(Heights(store.ranges), time, cutoff) == {}
      ensures r.Some? ==> r.value in Expired(Heights(store.ranges), time, cutoff)
                          && forall h :: h in Heights(store.ranges) ==> r.value <= h
    {
      ValidHeightSet(store.ranges);
      r := store.Tail();
      if r.Some? {
        assert forall h: u64 :: h in Heights(store.ranges) ==> time(r.value) <= time(h);
        if time(r.value) > cutoff {
          return None;
        }
        assert r.value in Expired(Heights(store.ranges), time, cutoff);
      }
    }

    /** Deletes the samples recorded for the tail, then the tail header itself. */
    method PruneTail(height: u64)
      requires Canonical(store.ranges)
      requires height in Heights(store.ranges) && forall h :: h in Heights(store.ranges) ==> height <= h
      modifies this`metadata, this`blockstore, this`lastRemoved, store
      ensures Canonical(store.ranges) && Heights(store.ranges) == old(Heights(store.ranges)) - {height as int}
      ensures metadata == old(metadata) - {height}
      ensures blockstore == old(blockstore) - if height in old(metadata) then old(metadata)[height] else {}
      ensures lastRemoved == Some(height)
    {
      var cids := if height in metadata then metadata[height] else {};
      blockstore := blockstore - cids;
      var removed := store.PopTail();
      metadata := metadata - {height};
      lastRemoved := removed;
    }

    /** Removes tail headers one by one until the tail is not due any more. */
    method PruneExpired(cutoff: nat, ghost expired: set<int>)
      requires Canonical(store.ranges) && NonDecreasing(time)
      requires expired == Expired(Heights(store.ranges), time, cutoff)
      modifies this`metadata, this`blockstore, this`lastRemoved, store
      ensures Canonical(store.ranges) && Heights(store.ranges) == old(Heights(store.ranges)) - expired
      ensures metadata == Kept(old(metadata), expired)
      ensures blockstore == old(blockstore) - CidsOf(old(metadata), expired)
      ensures LastOf(expired, lastRemoved, old(lastRemoved))
    {
      ghost var heights := Heights(store.ranges);
      ghost var gone: set<int> := {};
      NothingGone(metadata, blockstore, heights, expired);
      var next := GetTailHeaderToPrune(cutoff);
      while next.Some?
        invariant Canonical(store.ranges) && Heights(store.ranges) == heights - gone
        invariant Due(expired, gone, heights, next)
        invariant metadata == Kept(old(metadata), gone)
        invariant blockstore == old(blockstore) - CidsOf(old(metadata), gone)
        invariant LastOf(gone, lastRemoved, old(lastRemoved))
        decreases |expired - gone|
      {
        var height := next.value;
        OneMoreGone(old(metadata), old(blockstore), gone, height);
        ExpiredWithout(heights, time, cutoff, gone, height);
        Associate(heights, gone, {height as int});
        LastGone(gone, lastRemoved, old(lastRemoved), height);
        PruneTail(height);
        next := GetTailHeaderToPrune(cutoff);
        gone := gone + {height as int};
        DueNext(expired, gone, heights, height, next);
      }
      AllGone(expired, gone);
    }

    /**
     A pass with nobody interfering removes exactly the expired headers, forgets their metadata,
     deletes every sample recorded for them and nothing else, and reports the highest of them
     unless it was reported before.
     */
    method Pass(cutoff: nat) returns (event: Option<u64>)
      requires Canonical(store.ranges) && NonDecreasing(time)
      modifies this, store
      ensures Canonical(store.ranges)
      ensures Heights(store.ranges) == old(Heights(store.ranges)) - Expired(old(Heights(store.ranges)), time, cutoff)
      ensures metadata == Kept(old(metadata), Expired(old(Heights(store.ranges)), time, cutoff))
      ensures blockstore == old(blockstore) - CidsOf(old(metadata), Expired(old(Heights(store.ranges)), time, cutoff))
      ensures LastOf(Expired(old(Heights(store.ranges)), time, cutoff), lastRemoved, old(lastRemoved))
      ensures lastReported == lastRemoved
      ensures event == if lastRemoved == old(lastReported) then None else lastRemoved
    {
      PruneExpired(cutoff, Expired(Heights(store.ranges), time, cutoff));
      event := None;
      if lastReported != lastRemoved {
        lastReported := lastRemoved;
        event := lastRemoved;
      }
    }
  }

  /** Some of the expired heights, the lowest ones, are gone; `next` is the lowest of the rest. */
  ghost predicate Due(expired: set<int>, gone: set<int>, heights: set<int>, next: Option<u64>) {
    && gone <= expired <= heights
    && (next.None? <==> expired - gone == {})
    && (next.Some? ==>
          && next.value in expired - gone
          && (forall h :: h in heights - gone ==> next.value <= h)
          && (forall h :: h in gone ==> h < next.value))
  }

  ghost predicate LastOf(gone: set<int>, lastRemoved: Option<u64>, before: Option<u64>) {
    if gone == {} then lastRemoved == before
    else lastRemoved.Some? && IsHighest(gone, lastRemoved.value)
  }

  lemma LastGone(gone: set<int>, lastRemoved: Option<u64>, before: Option<u64>, height: u64)
    requires LastOf(gone, lastRemoved, before) && forall h :: h in gone ==> h < height
    ensures LastOf(gone + {height as int}, Some(height), before)
    ensures gone + {height as int} - {height as int} == gone
  {
  }

  lemma AllGone(expired: set<int>, gone: set<int>)
    requires gone <= expired && expired - gone == {}
    ensures gone == expired
  {
    forall h | h in expired ensures h in gone {
      assert h !in expired - gone;
    }
  }

  /** Removing the lowest height that is due leaves the rest due. */
  lemma DueNext(expired: set<int>, gone: set<int>, heights: set<int>, height: u64, next: Option<u64>)
    requires height in gone && Due(expired, gone - {height as int}, heights, Some(height))
    requires next.None? <==> expired - gone == {}
    requires next.Some? ==> next.value in expired - gone && forall h :: h in heights - gone ==> next.value <= h
    ensures Due(expired, gone, heights, next)
  {
    if next.Some? {
      assert next.value in heights - (gone - {height as int});
      forall h | h in gone ensures h < next.value {
        if h != height { assert h in gone - {height as int}; }
      }
    }
  }

  /** Metadata without that of the heights in `gone`. */
  ghost function Kept(metadata: map<u64, set<Cid>>, gone: set<int>): map<u64, set<Cid>> {
    map h | h in metadata && h !in gone :: metadata[h]
  }

  /** All samples recorded for the heights in `gone`. */
  ghost function CidsOf(metadata: map<u64, set<Cid>>, gone: set<int>): set<Cid> {
    set h, cid | h in metadata && h in gone && cid in metadata[h] :: cid
  }

  lemma NothingGone(metadata: map<u64, set<Cid>>, blockstore: set<Cid>, heights: set<int>, expired: set<int>)
    ensures expired - {} == expired
    ensures Kept(metadata, {}) == metadata
    ensures blockstore - CidsOf(metadata, {}) == blockstore && heights - {} == heights
  {
  }

  lemma OneMoreGone(metadata: map<u64, set<Cid>>, blockstore: set<Cid>, gone: set<int>, height: u64)
    requires height !in gone
    ensures Kept(metadata, gone) - {height} == Kept(metadata, gone + {height as int})
    ensures var cids := if height in Kept(metadata, gone) then Kept(metadata, gone)[height] else {};
            blockstore - CidsOf(metadata, gone) - cids == blockstore - CidsOf(metadata, gone + {height as int})
  {
    var cids := if height in Kept(metadata, gone) then Kept(metadata, gone)[height] else {};
    assert CidsOf(metadata, gone + {height as int}) == CidsOf(metadata, gone) + cids;
  }

  lemma ExpiredWithout(heights: set<int>, time: u64 -> nat, cutoff: nat, gone: set<int>, height: u64)
    requires height in Expired(heights, time, cutoff) - gone
    ensures Expired(heights - (gone + {height as int}), time, cutoff)
            == Expired(heights, time, cutoff) - (gone + {height as int})
    ensures |Expired(heights, time, cutoff) - (gone + {height as int})| < |Expired(heights, time, cutoff) - gone|
  {
    var before := Expired(heights, time, cutoff) - gone;
    assert before == (Expired(heights, time, cutoff) - (gone + {height as int})) + {height as int};
  }
}
