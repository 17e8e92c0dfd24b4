/**
 The data availability sampler's scheduler (node/src/daser.rs): three height sets, the sampling
 futures in flight, and a store that grows and is pruned underneath.

 What a session does is first said on sets of heights, as a sequence of steps; every run of steps
 keeps the sets apart and schedules no height twice. The worker's methods are then proved to take
 exactly those steps.
 */
module Sampling {
  import opened Wrappers
  import opened BlockRangeSets

  /** What `get_by_height` says of a height, and whether its header is in the sampling window. */
  datatype Lookup = Found(inWindow: bool) | NotFound | StoreError

  /**
   The store as one turn of the scheduling loop meets it. Nothing relates one turn to the next:
   in between, headers may be inserted, pruned or accepted at will.
   */
  datatype StoreView = StoreView(lookup: int -> Lookup, stored: seq<BlockRange>, accepted: seq<BlockRange>)

  ghost predicate ValidView(v: StoreView) { Canonical(v.stored) && Canonical(v.accepted) }

  ghost predicate ValidViews(views: seq<StoreView>) { forall i :: 0 <= i < |views| ==> ValidView(views[i]) }

  datatype Outcome =
    | Scheduled(height: int)
    | NothingQueued
    | OutOfWindow(height: int)
    | Failed
    | Pending

  datatype Event =
    | Disconnected
    | SamplingDone(choice: nat, updated: bool)
    | NewHead(stored: seq<BlockRange>, accepted: seq<BlockRange>)
    | Nothing

  ghost predicate ValidEvent(e: Event) { e.NewHead? ==> Canonical(e.stored) && Canonical(e.accepted) }

  // ---- steps on sets of heights --------------------------------------------------------------

  datatype State = Sets(queue: set<int>, done: set<int>, ongoing: set<int>, futs: seq<int>, prevHead: Option<int>)

  /** Before and after a session nothing is known. */
  ghost function Idle(): State { Sets({}, {}, {}, [], None) }

  datatype Step =
    | Populate(candidates: set<int>)
    | Drop(height: int)
    | Schedule(height: int)
    | Skip(height: int)
    | Finish(index: nat)
    | Remember(head: int)

  /** Only the highest queued height leaves the queue, and only a future in flight finishes. */
  ghost predicate Enabled(s: State, step: Step) {
    match step
    case Populate(_) => true
    case Drop(h) => IsHighest(s.queue, h)
    case Schedule(h) => IsHighest(s.queue, h)
    case Skip(h) => IsHighest(s.queue, h)
    case Finish(i) => i < |s.futs|
    case Remember(_) => true
  }

  ghost function Do(s: State, step: Step): State
    requires Enabled(s, step)
  {
    match step
    case Populate(candidates) => s.(queue := candidates - s.done - s.ongoing)
    case Drop(h) => s.(queue := s.queue - {h})
    case Schedule(h) => s.(queue := s.queue - {h}, ongoing := s.ongoing + {h}, futs := s.futs + [h])
    case Skip(h) => s.(queue := s.queue - Span(1, h), done := s.done + Span(1, h))
    case Finish(i) =>
      s.(ongoing := s.ongoing - {s.futs[i]}, done := s.done + {s.futs[i]}, futs := s.futs[..i] + s.futs[i + 1..])
    case Remember(head) => s.(prevHead := Some(head))
  }

  ghost predicate IsRun(s: State, steps: seq<Step>)
    decreases |steps|
  {
    steps == [] || (Enabled(s, steps[0]) && IsRun(Do(s, steps[0]), steps[1..]))
  }

  ghost function After(s: State, steps: seq<Step>): State
    requires IsRun(s, steps)
    decreases |steps|
  {
    if steps == [] then s else After(Do(s, steps[0]), steps[1..])
  }

  /** The heights scheduled by a run, in order. */
  ghost function Requests(steps: seq<Step>): seq<int> {
    if steps == [] then []
    else if steps[0].Schedule? then [steps[0].height] + Requests(steps[1..])
    else Requests(steps[1..])
  }

  ghost function Elements(s: seq<int>): set<int> { set i | 0 <= i < |s| :: s[i] }

  /**
   The queue meets neither what is done nor what is being sampled, and what is being sampled is
   exactly the futures in flight, each once.
   */
  ghost predicate Coherent(s: State) {
    && s.queue !! s.done && s.queue !! s.ongoing
    && NoDuplicates(s.futs) && s.ongoing == Elements(s.futs)
  }

  lemma ElementsPush(s: seq<int>, x: int)
    ensures Elements(s + [x]) == Elements(s) + {x}
  {
    forall h | h in Elements(s) + {x} ensures h in Elements(s + [x]) {
      if h == x {
        assert (s + [x])[|s|] == x;
      } else {
        var i :| 0 <= i < |s| && s[i] == h;
        assert (s + [x])[i] == h;
      }
    }
  }

  lemma ElementsRemove(s: seq<int>, i: nat)
    requires i < |s| && NoDuplicates(s)
    ensures Elements(s[..i] + s[i + 1..]) == Elements(s) - {s[i]}
    ensures NoDuplicates(s[..i] + s[i + 1..])
  {
    var r := s[..i] + s[i + 1..];
    forall h | h in Elements(s) - {s[i]} ensures h in Elements(r) {
      var k :| 0 <= k < |s| && s[k] == h;
      assert r[if k < i then k else k - 1] == h;
    }
  }

  /** Every step keeps the sets apart, and what was scheduled or done stays so. */
  lemma StepKeepsCoherent(s: State, step: Step)
    requires Coherent(s) && Enabled(s, step)
    ensures Coherent(Do(s, step))
    ensures s.done + s.ongoing <= Do(s, step).done + Do(s, step).ongoing
  {
    match step
    case Schedule(h) =>
      ElementsPush(s.futs, h);
      assert h !in Elements(s.futs);
    case Finish(i) =>
      ElementsRemove(s.futs, i);
      assert s.futs[i] in Elements(s.futs);
    case _ =>
  }

  /** In every state of every run the sets are apart and the futures are those being sampled. */
  lemma {:induction false} RunStaysCoherent(s: State, steps: seq<Step>, i: nat)
    requires Coherent(s) && IsRun(s, steps) && i <= |steps|
    ensures IsRun(s, steps[..i]) && Coherent(After(s, steps[..i]))
    decreases i
  {
    if i > 0 {
      StepKeepsCoherent(s, steps[0]);
      RunStaysCoherent(Do(s, steps[0]), steps[1..], i - 1);
      assert steps[..i][0] == steps[0] && steps[..i][1..] == steps[1..][..i - 1];
    }
  }

  /** No run schedules a height twice, nor one that was being sampled or done before. */
  lemma {:induction false} NeverTwice(s: State, steps: seq<Step>)
    requires Coherent(s) && IsRun(s, steps)
    ensures NoDuplicates(Requests(steps))
    ensures forall i :: 0 <= i < |Requests(steps)| ==> Requests(steps)[i] !in s.done + s.ongoing
    decreases |steps|
  {
    if steps != [] {
      StepKeepsCoherent(s, steps[0]);
      NeverTwice(Do(s, steps[0]), steps[1..]);
    }
  }

  lemma {:induction false} RequestsConcat(a: seq<Step>, b: seq<Step>)
    ensures Requests(a + b) == Requests(a) + Requests(b)
  {
    if a == [] {
      assert a + b == b;
    } else {
      RequestsConcat(a[1..], b);
      assert (a + b)[0] == a[0] && (a + b)[1..] == a[1..] + b;
    }
  }

  lemma {:induction false} RunConcat(s: State, a: seq<Step>, b: seq<Step>)
    requires IsRun(s, a) && IsRun(After(s, a), b)
    ensures IsRun(s, a + b) && After(s, a + b) == After(After(s, a), b)
    decreases |a|
  {
    if a == [] {
      assert a + b == b;
    } else {
      RunConcat(Do(s, a[0]), a[1..], b);
      assert (a + b)[0] == a[0] && (a + b)[1..] == a[1..] + b;
    }
  }

  // ---- what the scheduler decides ------------------------------------------------------------

  /** The steps of a part of a session, how it ended and the state it left. */
  datatype Turn = Turn(steps: seq<Step>, outcome: Outcome, after: State)

  ghost predicate IsTurn(s: State, t: Turn) { IsRun(s, t.steps) && After(s, t.steps) == t.after }

  ghost function Highest(s: set<int>): (h: int)
    requires s != {}
    ensures IsHighest(s, h)
  {
    assert exists h :: IsHighest(s, h) by { var h := HasHighest(s); }
    var h :| IsHighest(s, h);
    h
  }

  lemma {:induction false} HasHighest(s: set<int>) returns (h: int)
    requires s != {}
    ensures IsHighest(s, h)
    decreases |s|
  {
    h := Member(s);
    var rest := s - {h};
    assert forall y :: y in s ==> y == h || y in rest;
    if rest != {} {
      var h' := HasHighest(rest);
      h := if h < h' then h' else h;
    }
  }

  lemma Member<T>(s: set<T>) returns (x: T)
    requires s != {}
    ensures x in s
  {
    x :| x in s;
  }

  ghost function Candidates(v: StoreView): set<int> { Heights(v.stored) - Heights(v.accepted) }

  /**
   One call of the scheduler. The highest queued height is looked up; if the store has lost it,
   the queue is populated anew and the next one tried.
   */
  ghost function ScheduleTurn(s: State, views: seq<StoreView>, recorded: bool): Turn
    decreases |views|
  {
    if views == [] then Turn([], Pending, s)
    else if s.queue == {} then Turn([], NothingQueued, s)
    else
      var h := Highest(s.queue);
      match views[0].lookup(h)
      case StoreError => One(s, Drop(h), Failed)
      case NotFound =>
        var step := Populate(Candidates(views[0]));
        var rest := ScheduleTurn(Do(s, step), views[1..], recorded);
        Turn([step] + rest.steps, rest.outcome, rest.after)
      case Found(inWindow) =>
        if !inWindow then One(s, Skip(h), OutOfWindow(h))
        else if !recorded then One(s, Drop(h), Failed)
        else One(s, Schedule(h), Scheduled(h))
  }

  ghost function One(s: State, step: Step, outcome: Outcome): Turn
    requires Enabled(s, step)
  {
    Turn([step], outcome, Do(s, step))
  }

  lemma {:induction false} ScheduleIsRun(s: State, views: seq<StoreView>, recorded: bool)
    ensures IsTurn(s, ScheduleTurn(s, views, recorded))
    ensures Requests(ScheduleTurn(s, views, recorded).steps) ==
            if ScheduleTurn(s, views, recorded).outcome.Scheduled? then [ScheduleTurn(s, views, recorded).outcome.height] else []
    decreases |views|
  {
    if views != [] && s.queue != {} {
      var h := Highest(s.queue);
      if views[0].lookup(h).NotFound? {
        var step := Populate(Candidates(views[0]));
        ScheduleIsRun(Do(s, step), views[1..], recorded);
        var steps := ScheduleTurn(s, views, recorded).steps;
        assert steps[0] == step && steps[1..] == ScheduleTurn(Do(s, step), views[1..], recorded).steps;
      } else {
        var t := ScheduleTurn(s, views, recorded);
        assert t.steps[1..] == [] && IsRun(t.after, []) && Requests([]) == [];
      }
    }
  }

  /** There is a height that the store was asked for and did not have. */
  ghost predicate HasLost(v: StoreView) { exists h :: v.lookup(h) == NotFound }

  /**
   What the outcomes mean: a scheduled height was found in the window and recorded, and all that
   is still queued is below it; a height out of the window takes everything below with it; a
   failure needs a store error or metadata that could not be written; and the scheduler is still
   looking only if every look met a height the store had lost.
   */
  lemma {:induction false} ScheduleOutcome(s: State, views: seq<StoreView>, recorded: bool)
    ensures var t := ScheduleTurn(s, views, recorded);
            && (t.outcome.Scheduled? ==>
                  && recorded && (exists i :: 0 <= i < |views| && views[i].lookup(t.outcome.height) == Found(true))
                  && (forall h :: h in t.after.queue ==> h < t.outcome.height)
                  && t.after.futs == s.futs + [t.outcome.height] && t.after.ongoing == s.ongoing + {t.outcome.height})
            && (t.outcome.OutOfWindow? ==>
                  && (exists i :: 0 <= i < |views| && views[i].lookup(t.outcome.height) == Found(false))
                  && t.after.done == s.done + Span(1, t.outcome.height)
                  && (forall h :: h in t.after.queue ==> h < 1))
            && (t.outcome.Failed? ==>
                  !recorded || exists i, h :: 0 <= i < |views| && views[i].lookup(h) == StoreError)
            && (t.outcome.Pending? ==> forall i :: 0 <= i < |views| ==> HasLost(views[i]))
            && (t.outcome.NothingQueued? ==> t.after.queue == {})
            && (!t.outcome.Scheduled? ==> t.after.futs == s.futs && t.after.ongoing == s.ongoing)
            && (!t.outcome.OutOfWindow? ==> t.after.done == s.done)
    decreases |views|
  {
    if views != [] && s.queue != {} {
      var h := Highest(s.queue);
      if views[0].lookup(h).NotFound? {
        var step := Populate(Candidates(views[0]));
        ScheduleOutcome(Do(s, step), views[1..], recorded);
        assert forall i :: 0 < i < |views| ==> views[i] == views[1..][i - 1];
        assert forall i :: 0 <= i < |views[1..]| ==> views[1..][i] == views[i + 1];
      } else {
        assert views[0].lookup(h) == views[0].lookup(h);
      }
    }
  }

  /** The most recent queued height is scheduled at once if the store has it, in the window. */
  lemma HighestIsScheduled(s: State, views: seq<StoreView>, h: int)
    requires IsHighest(s.queue, h) && views != [] && views[0].lookup(h) == Found(true)
    ensures ScheduleTurn(s, views, true).outcome == Scheduled(h)
  {
    assert Highest(s.queue) == h;
  }

  /** What the store says of the highest queued height decides. */
  lemma HighestDecides(s: State, views: seq<StoreView>, recorded: bool, h: int)
    requires IsHighest(s.queue, h) && views != []
    ensures var t := ScheduleTurn(s, views, recorded);
            match views[0].lookup(h)
            case StoreError => t.outcome.Failed? && t.after.queue == s.queue - {h}
            case Found(inWindow) =>
              && t.outcome == (if !inWindow then OutOfWindow(h) else if recorded then Scheduled(h) else Failed)
              && t.after.queue == s.queue - (if inWindow then {h} else Span(1, h))
            case NotFound =>
              var fresh' := Heights(views[0].stored) - Heights(views[0].accepted) - s.done - s.ongoing;
              SameEnd(t, ScheduleTurn(s.(queue := fresh'), views[1..], recorded))
  {
    assert Highest(s.queue) == h;
  }

  lemma {:induction false} PrevHeadKept(s: State, views: seq<StoreView>, recorded: bool)
    ensures ScheduleTurn(s, views, recorded).after.prevHead == s.prevHead
    decreases |views|
  {
    if views != [] && s.queue != {} && views[0].lookup(Highest(s.queue)).NotFound? {
      PrevHeadKept(Do(s, Populate(Candidates(views[0]))), views[1..], recorded);
    }
  }

  ghost predicate HasNewHead(s: State) {
    s.queue != {} && Highest(s.queue) > (if s.prevHead.Some? then s.prevHead.value else 0)
  }

  /** The head of each turn of the event loop. */
  ghost function IfNeeded(s: State, views: seq<StoreView>, views': seq<StoreView>, recorded: bool): Turn {
    var first := if HasNewHead(s) then NewHeadTurn(s, views, recorded) else Turn([], NothingQueued, s);
    if first.outcome.Failed? || first.after.futs != [] then first
    else
      var second := ScheduleTurn(first.after, views', recorded);
      Turn(first.steps + second.steps, second.outcome, second.after)
  }

  ghost function NewHeadTurn(s: State, views: seq<StoreView>, recorded: bool): Turn
    requires s.queue != {}
  {
    var t := ScheduleTurn(s, views, recorded);
    if t.outcome.Failed? then t
    else
      var step := Remember(Highest(s.queue));
      Turn(t.steps + [step], t.outcome, Do(t.after, step))
  }

  lemma NewHeadIsRun(s: State, views: seq<StoreView>, recorded: bool)
    requires s.queue != {}
    ensures IsTurn(s, NewHeadTurn(s, views, recorded))
    ensures Requests(NewHeadTurn(s, views, recorded).steps) == Requests(ScheduleTurn(s, views, recorded).steps)
  {
    ScheduleIsRun(s, views, recorded);
    var t, step := ScheduleTurn(s, views, recorded), Remember(Highest(s.queue));
    OneIsRun(t.after, step);
    if !t.outcome.Failed? {
      RunConcat(s, t.steps, [step]);
      RequestsConcat(t.steps, [step]);
    }
  }

  lemma OneIsRun(s: State, step: Step)
    requires Enabled(s, step)
    ensures IsRun(s, [step]) && After(s, [step]) == Do(s, step)
    ensures Requests([step]) == if step.Schedule? then [step.height] else []
  {
    assert [step][1..] == [];
    assert IsRun(Do(s, step), []) && After(Do(s, step), []) == Do(s, step) && Requests([]) == [];
  }

  lemma IfNeededIsRun(s: State, views: seq<StoreView>, views': seq<StoreView>, recorded: bool)
    ensures IsTurn(s, IfNeeded(s, views, views', recorded))
    ensures |Requests(IfNeeded(s, views, views', recorded).steps)| <= 2
  {
    var first := if HasNewHead(s) then NewHeadTurn(s, views, recorded) else Turn([], NothingQueued, s);
    if HasNewHead(s) {
      NewHeadIsRun(s, views, recorded);
      ScheduleIsRun(s, views, recorded);
    }
    assert IsTurn(s, first) && |Requests(first.steps)| <= 1;
    ScheduleIsRun(first.after, views', recorded);
    RunConcat(s, first.steps, ScheduleTurn(first.after, views', recorded).steps);
    RequestsConcat(first.steps, ScheduleTurn(first.after, views', recorded).steps);
  }

  /**
   A new head is sampled beside whatever is in flight; without one, nothing is started while a
   future is in flight, and something is as soon as none is.
   */
  lemma WhenSamplingStarts(s: State, views: seq<StoreView>, views': seq<StoreView>, h: int)
    requires IsHighest(s.queue, h)
    ensures var isNew := if s.prevHead.Some? then h > s.prevHead.value else h > 0;
            && (isNew && views != [] && views[0].lookup(h) == Found(true) ==>
                  && Requests(IfNeeded(s, views, views', true).steps) == [h]
                  && IfNeeded(s, views, views', true).after.prevHead == Some(h))
            && (!isNew && s.futs != [] ==> IfNeeded(s, views, views', true).steps == [])
            && (!isNew && s.futs == [] && views' != [] && views'[0].lookup(h) == Found(true) ==>
                  && Requests(IfNeeded(s, views, views', true).steps) == [h]
                  && IfNeeded(s, views, views', true).after.prevHead == s.prevHead)
  {
    assert Highest(s.queue) == h;
    if HasNewHead(s) && views != [] && views[0].lookup(h) == Found(true) {
      HighestIsScheduled(s, views, h);
      NewHeadIsRun(s, views, true);
      ScheduleIsRun(s, views, true);
      ScheduleOutcome(s, views, true);
    } else if !HasNewHead(s) && s.futs == [] && views' != [] && views'[0].lookup(h) == Found(true) {
      HighestIsScheduled(s, views', h);
      ScheduleIsRun(s, views', true);
      assert IfNeeded(s, views, views', true).steps == ScheduleTurn(s, views', true).steps;
      PrevHeadKept(s, views', true);
    }
  }

  // ---- a session -----------------------------------------------------------------------------

  /** The step an event causes, none if it is a failed update or nothing has happened. */
  ghost function EventSteps(s: State, e: Event): seq<Step> {
    match e
    case SamplingDone(choice, updated) => if s.futs != [] && updated then [Finish(choice % |s.futs|)] else []
    case NewHead(stored, accepted) => [Populate(Heights(stored) - Heights(accepted))]
    case _ => []
  }

  ghost predicate EventFails(s: State, e: Event) { e.SamplingDone? && s.futs != [] && !e.updated }

  lemma EventIsRun(s: State, e: Event)
    ensures IsRun(s, EventSteps(s, e)) && Requests(EventSteps(s, e)) == []
  {
    var steps := EventSteps(s, e);
    if steps != [] {
      OneIsRun(s, steps[0]);
      assert steps == [steps[0]];
    }
  }

  /** A session from event `n` on. `Failed` is an error that ends the worker. */
  ghost function Session(s: State, events: seq<Event>, n: nat, views: nat -> seq<StoreView>, recorded: nat -> bool): Turn
    requires n <= |events|
    decreases |events| - n
  {
    if n == |events| then Turn([], NothingQueued, s)
    else
      var t := IfNeeded(s, views(2 * n), views(2 * n + 1), recorded(n));
      if t.outcome.Failed? then t
      else if events[n].Disconnected? then Turn(t.steps, NothingQueued, t.after)
      else if EventFails(t.after, events[n]) then Turn(t.steps, Failed, t.after)
      else
        EventIsRun(t.after, events[n]);
        var steps := EventSteps(t.after, events[n]);
        var rest := Session(After(t.after, steps), events, n + 1, views, recorded);
        Turn(t.steps + steps + rest.steps, rest.outcome, rest.after)
  }

  lemma {:induction false} SessionIsRun(s: State, events: seq<Event>, n: nat, views: nat -> seq<StoreView>, recorded: nat -> bool)
    requires n <= |events|
    ensures IsTurn(s, Session(s, events, n, views, recorded))
    decreases |events| - n
  {
    if n < |events| {
      var t := IfNeeded(s, views(2 * n), views(2 * n + 1), recorded(n));
      IfNeededIsRun(s, views(2 * n), views(2 * n + 1), recorded(n));
      if !t.outcome.Failed? && !events[n].Disconnected? && !EventFails(t.after, events[n]) {
        EventIsRun(t.after, events[n]);
        var steps := EventSteps(t.after, events[n]);
        SessionIsRun(After(t.after, steps), events, n + 1, views, recorded);
        RunConcat(s, t.steps, steps);
        RunConcat(s, t.steps + steps, Session(After(t.after, steps), events, n + 1, views, recorded).steps);
      }
    }
  }

  // ---- heads are new only once ---------------------------------------------------------------

  function IsRemember(): Step -> bool { (step: Step) => step.Remember? }

  /** The heads that were scheduled as new, in order. */
  ghost function Heads(steps: seq<Step>): seq<Step> { Filtered(steps, IsRemember()) }

  ghost function LastHead(s: State): int { if s.prevHead.Some? then s.prevHead.value else 0 }

  ghost predicate RisingFrom(heads: seq<Step>, low: int) {
    && (forall i :: 0 <= i < |heads| ==> heads[i].Remember? && low < heads[i].head)
    && (forall i, j :: 0 <= i < j < |heads| && heads[i].Remember? && heads[j].Remember? ==> heads[i].head < heads[j].head)
  }

  lemma OneHead(step: Step)
    ensures Heads([step]) == if step.Remember? then [step] else []
  {
    assert [step][..0] == [] && Filtered([], IsRemember()) == [];
    assert IsRemember()(step) == step.Remember?;
  }

  lemma HeadsConcat(a: seq<Step>, b: seq<Step>)
    ensures Heads(a + b) == Heads(a) + Heads(b)
  {
    FilteredConcat(a, b, IsRemember());
  }

  lemma {:induction false} ScheduleHasNoHeads(s: State, views: seq<StoreView>, recorded: bool)
    ensures Heads(ScheduleTurn(s, views, recorded).steps) == []
    decreases |views|
  {
    if views != [] && s.queue != {} {
      var steps := ScheduleTurn(s, views, recorded).steps;
      OneHead(steps[0]);
      if views[0].lookup(Highest(s.queue)).NotFound? {
        var step := Populate(Candidates(views[0]));
        ScheduleHasNoHeads(Do(s, step), views[1..], recorded);
        HeadsConcat([step], ScheduleTurn(Do(s, step), views[1..], recorded).steps);
      } else {
        assert steps == [steps[0]];
      }
    }
  }

  lemma NewHeadHeads(s: State, views: seq<StoreView>, recorded: bool)
    requires s.queue != {}
    ensures var t := NewHeadTurn(s, views, recorded);
            if t.outcome.Failed? then Heads(t.steps) == [] && t.after.prevHead == s.prevHead
            else Heads(t.steps) == [Remember(Highest(s.queue))] && t.after.prevHead == Some(Highest(s.queue))
  {
    ScheduleHasNoHeads(s, views, recorded);
    PrevHeadKept(s, views, recorded);
    OneHead(Remember(Highest(s.queue)));
    HeadsConcat(ScheduleTurn(s, views, recorded).steps, [Remember(Highest(s.queue))]);
  }

  /** A turn remembers at most one head, and only if it is above the last one. */
  lemma TurnHeads(s: State, views: seq<StoreView>, views': seq<StoreView>, recorded: bool)
    ensures var t := IfNeeded(s, views, views', recorded);
            || (Heads(t.steps) == [] && t.after.prevHead == s.prevHead)
            || (exists h :: LastHead(s) < h && Heads(t.steps) == [Remember(h)] && t.after.prevHead == Some(h))
  {
    if HasNewHead(s) {
      var first := NewHeadTurn(s, views, recorded);
      NewHeadHeads(s, views, recorded);
      ScheduleAfter(first, views', recorded);
    } else {
      ScheduleAfter(Turn([], NothingQueued, s), views', recorded);
    }
  }

  lemma ScheduleAfter(first: Turn, views: seq<StoreView>, recorded: bool)
    ensures var second := ScheduleTurn(first.after, views, recorded);
            Heads(first.steps + second.steps) == Heads(first.steps) && second.after.prevHead == first.after.prevHead
  {
    ScheduleHasNoHeads(first.after, views, recorded);
    PrevHeadKept(first.after, views, recorded);
    HeadsConcat(first.steps, ScheduleTurn(first.after, views, recorded).steps);
  }

  /** Over every session the heads that count as new rise strictly: no head is new twice. */
  lemma {:induction false} NoHeadTwice(s: State, events: seq<Event>, n: nat, views: nat -> seq<StoreView>,
                                       recorded: nat -> bool)
    requires n <= |events|
    ensures RisingFrom(Heads(Session(s, events, n, views, recorded).steps), LastHead(s))
    decreases |events| - n
  {
    if n < |events| {
      var t := IfNeeded(s, views(2 * n), views(2 * n + 1), recorded(n));
      TurnHeads(s, views(2 * n), views(2 * n + 1), recorded(n));
      EventKeepsHead(t.after, events[n]);
      var steps := EventSteps(t.after, events[n]);
      if t.outcome.Failed? || events[n].Disconnected? || EventFails(t.after, events[n]) {
        assert Session(s, events, n, views, recorded).steps == t.steps;
      } else {
        var next := After(t.after, steps);
        NoHeadTwice(next, events, n + 1, views, recorded);
        RisingAround(t.steps, steps, Session(next, events, n + 1, views, recorded).steps, LastHead(s), LastHead(next));
      }
    }
  }

  lemma RisingAround(a: seq<Step>, b: seq<Step>, c: seq<Step>, low: int, middle: int)
    requires Heads(b) == [] && RisingFrom(Heads(c), middle)
    requires (Heads(a) == [] && middle == low) || (low < middle && Heads(a) == [Remember(middle)])
    ensures RisingFrom(Heads(a + b + c), low)
  {
    HeadsConcat(a, b);
    HeadsConcat(a + b, c);
    assert Heads(a + b + c) == Heads(a) + Heads(c);
  }

  lemma EventKeepsHead(s: State, e: Event)
    ensures IsRun(s, EventSteps(s, e)) && Heads(EventSteps(s, e)) == []
    ensures After(s, EventSteps(s, e)).prevHead == s.prevHead
  {
    EventIsRun(s, e);
    var steps := EventSteps(s, e);
    if steps != [] {
      OneIsRun(s, steps[0]);
      OneHead(steps[0]);
      assert steps == [steps[0]];
    }
  }

  // ---- every height gets its turn ------------------------------------------------------------

  /** The store finds every height, in the window, and metadata can be written. */
  ghost predicate Favourable(views: nat -> seq<StoreView>, recorded: nat -> bool) {
    forall n: nat :: recorded(n) && views(n) != [] && FindsAll(views(n)[0])
  }

  ghost predicate FindsAll(v: StoreView) { forall h :: v.lookup(h) == Found(true) }

  /** From event `n` on nothing happens but that futures finish. */
  ghost predicate OnlyFinishes(events: seq<Event>, n: nat) {
    forall i :: n <= i < |events| ==> events[i].Nothing? || (events[i].SamplingDone? && events[i].updated)
  }

  /** How many of the events from `n` on are finished futures. */
  ghost function Finishes(events: seq<Event>, n: nat): nat
    requires n <= |events|
    decreases |events| - n
  {
    if n == |events| then 0 else (if events[n].SamplingDone? then 1 else 0) + Finishes(events, n + 1)
  }

  /** Scheduling under favourable circumstances: the highest height, unless something is in flight. */
  lemma FavourableTurn(s: State, views: seq<StoreView>, views': seq<StoreView>)
    requires Coherent(s) && views != [] && views' != [] && FindsAll(views[0]) && FindsAll(views'[0])
    ensures var t := IfNeeded(s, views, views', true);
            && !t.outcome.Failed? && Coherent(t.after)
            && t.after.done == s.done && t.after.queue <= s.queue
            && t.after.ongoing == s.ongoing + (s.queue - t.after.queue)
            && Elements(Requests(t.steps)) == s.queue - t.after.queue
            && |t.after.queue| + |t.after.futs| == |s.queue| + |s.futs|
            && (s.queue != {} ==> t.after.futs != [])
  {
    var t := IfNeeded(s, views, views', true);
    FavourableOutcome(s, views, views');
    if t.after == s {
      assert Elements([]) == {};
    } else {
      StepKeepsCoherent(s, Schedule(Highest(s.queue)));
      OneScheduled(s, Highest(s.queue));
    }
  }

  lemma OneScheduled(s: State, h: int)
    requires IsHighest(s.queue, h)
    ensures Elements([h]) == {h} && s.queue - (s.queue - {h}) == {h} && |s.queue - {h}| == |s.queue| - 1
  {
    assert [h][0] == h;
  }

  lemma FavourableOutcome(s: State, views: seq<StoreView>, views': seq<StoreView>)
    requires views != [] && views' != [] && FindsAll(views[0]) && FindsAll(views'[0])
    ensures var t := IfNeeded(s, views, views', true);
            && !t.outcome.Failed?
            && if t.after == s then Requests(t.steps) == [] && (s.queue == {} || s.futs != [])
               else && s.queue != {} && Requests(t.steps) == [Highest(s.queue)]
                    && t.after == Do(s, Schedule(Highest(s.queue))).(prevHead := t.after.prevHead)
  {
    if s.queue != {} {
      WhenSamplingStarts(s, views, views', Highest(s.queue));
    }
  }

  /**
   If the store finds every height, metadata can be written and futures finish, then once as many
   futures have finished as heights were queued or in flight, exactly the queued heights have been
   requested and all of them are done.
   */
  lemma {:induction false} EveryQueuedIsSampled(s: State, events: seq<Event>, n: nat, views: nat -> seq<StoreView>,
                                                recorded: nat -> bool)
    requires Coherent(s) && n <= |events| && Favourable(views, recorded) && OnlyFinishes(events, n)
    requires Finishes(events, n) >= |s.queue| + |s.futs|
    ensures Served(s, Session(s, events, n, views, recorded))
    decreases |events| - n
  {
    if n == |events| {
      NothingLeft(s);
    } else {
      var t, next := FavourableStep(s, events, n, views, recorded);
      var rest := Session(next, events, n + 1, views, recorded);
      EveryQueuedIsSampled(next, events, n + 1, views, recorded);
      ServedLater(s, Requests(t.steps), next, rest, Session(s, events, n, views, recorded));
    }
  }

  /** The store finds every height, metadata can be written and at least `n` futures finish. */
  ghost predicate CanServe(events: seq<Event>, views: nat -> seq<StoreView>, recorded: nat -> bool, n: nat) {
    Favourable(views, recorded) && OnlyFinishes(events, 0) && Finishes(events, 0) >= n
  }

  lemma FirstQueue(candidates: set<int>)
    ensures Do(Idle(), Populate(candidates)) == Idle().(queue := candidates)
  {
  }

  /** What a session requests: nothing twice, and everything queued if it can. */
  lemma WholeSession(s: State, events: seq<Event>, views: nat -> seq<StoreView>, recorded: nat -> bool)
    requires Coherent(s)
    ensures var t := Session(s, events, 0, views, recorded);
            && NoDuplicates(Requests(t.steps))
            && (CanServe(events, views, recorded, |s.queue| + |s.futs|) ==> Served(s, t))
  {
    SessionIsRun(s, events, 0, views, recorded);
    NeverTwice(s, Session(s, events, 0, views, recorded).steps);
    if CanServe(events, views, recorded, |s.queue| + |s.futs|) {
      EveryQueuedIsSampled(s, events, 0, views, recorded);
    }
  }

  /** Exactly the queued heights have been requested, and all of them are done. */
  ghost predicate Served(s: State, t: Turn) {
    && Elements(Requests(t.steps)) == s.queue && !t.outcome.Failed?
    && t.after.queue == {} && t.after.done == s.done + s.ongoing + s.queue
  }

  lemma ServedLater(s: State, made: seq<int>, next: State, rest: Turn, whole: Turn)
    requires next.queue <= s.queue && Elements(made) == s.queue - next.queue
    requires next.done + next.ongoing == s.done + s.ongoing + (s.queue - next.queue)
    requires Served(next, rest) && SameRest(whole, made, rest)
    ensures Served(s, whole)
  {
    ElementsConcat(made, Requests(rest.steps));
    SplitOff(s.queue, next.queue);
    assert s.done + s.ongoing + (s.queue - next.queue) + next.queue == s.done + s.ongoing + s.queue;
  }

  /** A head that comes in during a session brings its heights their turn just as well. */
  lemma NewHeadIsSampled(s: State, events: seq<Event>, n: nat, views: nat -> seq<StoreView>, recorded: nat -> bool)
    requires Coherent(s) && n < |events| && events[n].NewHead? && Favourable(views, recorded) && OnlyFinishes(events, n + 1)
    requires Finishes(events, n + 1) >=
             |Heights(events[n].stored) - Heights(events[n].accepted)| + |s.queue| + |s.futs|
    ensures var t := Session(s, events, n, views, recorded);
            && t.after.queue == {} && Heights(events[n].stored) - Heights(events[n].accepted) <= t.after.done
            && Heights(events[n].stored) - Heights(events[n].accepted) - s.done - s.ongoing <= Elements(Requests(t.steps))
  {
    var candidates := Heights(events[n].stored) - Heights(events[n].accepted);
    var t := IfNeeded(s, views(2 * n), views(2 * n + 1), recorded(n));
    FavourableTurn(s, views(2 * n), views(2 * n + 1));
    var next := PopulateCovers(t.after, candidates);
    OneIsRun(t.after, Populate(candidates));
    SessionStep(s, events, n, views, recorded, t);
    EveryQueuedIsSampled(next, events, n + 1, views, recorded);
    ElementsConcat(Requests(t.steps), Requests(Session(next, events, n + 1, views, recorded).steps));
  }

  /** After a populate every stored height that is not accepted is queued, done or being sampled. */
  lemma PopulateCovers(s: State, candidates: set<int>) returns (next: State)
    requires Coherent(s)
    ensures next == Do(s, Populate(candidates)) && Coherent(next) && next.futs == s.futs
    ensures candidates <= next.queue + next.done + next.ongoing && next.queue <= candidates
    ensures next.done == s.done && next.ongoing == s.ongoing && |next.queue| <= |candidates|
  {
    next := Do(s, Populate(candidates));
    StepKeepsCoherent(s, Populate(candidates));
    SubsetSize(next.queue, candidates);
  }

  lemma NothingLeft(s: State)
    requires Coherent(s) && |s.queue| + |s.futs| == 0
    ensures s.queue == {} && s.ongoing == {}
  {
    assert Elements([]) == {};
  }

  lemma SplitOff(a: set<int>, b: set<int>)
    requires b <= a
    ensures (a - b) + b == a
  {
  }

  /** One turn of such a session: what it requests, and what is left to do. */
  lemma FavourableStep(s: State, events: seq<Event>, n: nat, views: nat -> seq<StoreView>, recorded: nat -> bool)
    returns (t: Turn, next: State)
    requires Coherent(s) && n < |events| && Favourable(views, recorded) && OnlyFinishes(events, n)
    ensures Coherent(next) && next.queue <= s.queue && Elements(Requests(t.steps)) == s.queue - next.queue
    ensures next.done + next.ongoing == s.done + s.ongoing + (s.queue - next.queue)
    ensures var left := |s.queue| + |s.futs|;
            |next.queue| + |next.futs| == if events[n].SamplingDone? && left > 0 then left - 1 else left
    ensures SameRest(Session(s, events, n, views, recorded), Requests(t.steps), Session(next, events, n + 1, views, recorded))
  {
    t := IfNeeded(s, views(2 * n), views(2 * n + 1), recorded(n));
    FavourableTurn(s, views(2 * n), views(2 * n + 1));
    FinishStep(t.after, events[n]);
    next := After(t.after, EventSteps(t.after, events[n]));
    SessionStep(s, events, n, views, recorded, t);
  }

  lemma ElementsConcat(a: seq<int>, b: seq<int>)
    ensures Elements(a + b) == Elements(a) + Elements(b)
  {
    forall h | h in Elements(a) + Elements(b) ensures h in Elements(a + b) {
      if h in Elements(a) {
        var i :| 0 <= i < |a| && a[i] == h;
        assert (a + b)[i] == h;
      } else {
        var i :| 0 <= i < |b| && b[i] == h;
        assert (a + b)[|a| + i] == h;
      }
    }
  }

  /** What is left after a future has finished, or after nothing. */
  lemma FinishStep(s: State, e: Event)
    requires Coherent(s) && (e.Nothing? || (e.SamplingDone? && e.updated))
    ensures IsRun(s, EventSteps(s, e)) && !EventFails(s, e)
    ensures var s' := After(s, EventSteps(s, e));
            && Coherent(s') && s'.queue == s.queue && s'.done + s'.ongoing == s.done + s.ongoing
            && |s'.futs| == if e.SamplingDone? && s.futs != [] then |s.futs| - 1 else |s.futs|
  {
    EventIsRun(s, e);
    if e.SamplingDone? && s.futs != [] {
      var step := Finish(e.choice % |s.futs|);
      OneIsRun(s, step);
      StepKeepsCoherent(s, step);
      assert s.futs[e.choice % |s.futs|] in Elements(s.futs);
    }
  }

  // ---- the worker ----------------------------------------------------------------------------

  class Worker {
    var queue: BlockRanges
    var done: BlockRanges
    var ongoing: BlockRanges
    var prevHead: Option<u64>
    /** The heights of the sampling futures in flight. */
    var samplingFuts: seq<u64>
    /** The heights whose samples were recorded in the store and requested, in order. */
    var requested: seq<u64>

    constructor ()
      ensures Valid() && State() == Idle() && requested == []
      ensures fresh(queue) && fresh(done) && fresh(ongoing)
    {
      queue := new BlockRanges();
      done := new BlockRanges();
      ongoing := new BlockRanges();
      prevHead := None;
      samplingFuts, requested := [], [];
      new;
      NoHeights({});
    }

    ghost function Parts(): set<BlockRanges>
      reads this
    {
      {queue, done, ongoing}
    }

    ghost function State(): State
      reads this, queue, done, ongoing
    {
      Sets(Heights(queue.ranges), Heights(done.ranges), Heights(ongoing.ranges), samplingFuts, prevHead)
    }

    ghost predicate Valid()
      reads this, queue, done, ongoing
    {
      && queue != done && queue != ongoing && done != ongoing
      && Canonical(queue.ranges) && Canonical(done.ranges) && Canonical(ongoing.ranges)
      && Coherent(State())
    }

    /** Rebuilds the queue: stored, not accepted, not done and not being sampled. */
    method PopulateQueue(stored: seq<BlockRange>, accepted: seq<BlockRange>)
      requires Valid() && Canonical(stored) && Canonical(accepted)
      modifies this`queue
      ensures Valid() && fresh(queue)
      ensures State() == Do(old(State()), Populate(Heights(stored) - Heights(accepted)))
      ensures Heights(queue.ranges) ==
              Heights(stored) - Heights(accepted) - Heights(done.ranges) - Heights(ongoing.ranges)
    {
      StepKeepsCoherent(State(), Populate(Heights(stored) - Heights(accepted)));
      var q := new BlockRanges();
      q.ranges := stored;
      var a := new BlockRanges();
      a.ranges := accepted;
      q.Subtract(a);
      q.Subtract(done);
      q.Subtract(ongoing);
      queue := q;
    }

    /** Takes the highest height off the queue. */
    method PopQueue() returns (popped: Option<u64>)
      requires Valid()
      modifies queue
      ensures Valid() && (popped.None? <==> old(State()).queue == {})
      ensures popped.None? ==> State() == old(State())
      ensures popped.Some? ==> 0 < popped.value && IsHighest(old(State()).queue, popped.value)
                               && State() == Do(old(State()), Drop(popped.value))
                               && Heights(queue.ranges) == old(Heights(queue.ranges)) - {popped.value as int}
    {
      ValidHeightSet(queue.ranges);
      popped := queue.PopHead();
    }

    /**
     Schedules the highest queued height that the store still has and whose header is in the
     sampling window. `views` is what the store looks like in each turn of the loop; `recorded`
     says whether the sampling metadata could be written.
     */
    method ScheduleNextSampleBlock(views: seq<StoreView>, recorded: bool) returns (r: Outcome)
      requires Valid() && ValidViews(views)
      modifies this`queue, this`samplingFuts, this`requested, Parts()
      ensures Valid() && done == old(done) && ongoing == old(ongoing)
      ensures queue == old(queue) || fresh(queue)
      ensures var t := ScheduleTurn(old(State()), views, recorded);
              && r == t.outcome && State() == t.after
              && requested == old(requested) + if r.Scheduled? then [r.height] else []
    {
      for i := 0 to |views|
        invariant Valid() && done == old(done) && ongoing == old(ongoing)
        invariant queue == old(queue) || fresh(queue)
        invariant requested == old(requested)
        invariant SameEnd(ScheduleTurn(old(State()), views, recorded), ScheduleTurn(State(), views[i..], recorded))
      {
        ghost var before := State();
        assert views[i..][0] == views[i] && views[i..][1..] == views[i + 1..];
        var popped := PopQueue();
        if popped.None? {
          return NothingQueued;
        }
        var height := popped.value;
        assert Highest(before.queue) == height;
        match views[i].lookup(height)
        case StoreError =>
          return Failed;
        case NotFound =>
          // The height was pruned and the queue is stale.
          PopulateQueue(views[i].stored, views[i].accepted);
        case Found(inWindow) =>
          r := OnFound(height, inWindow, recorded, before);
          return;
      }
      r := Pending;
    }

    /** What becomes of a height that was popped and that the store has. */
    method OnFound(height: u64, inWindow: bool, recorded: bool, ghost before: State) returns (r: Outcome)
      requires Valid() && 0 < height && Coherent(before) && IsHighest(before.queue, height)
      requires State() == Do(before, Drop(height))
      modifies this`samplingFuts, this`requested, queue, done, ongoing
      ensures Valid()
      ensures r == if !inWindow then OutOfWindow(height) else if recorded then Scheduled(height) else Failed
      ensures State() == Do(before, if !inWindow then Skip(height) else if recorded then Schedule(height) else Drop(height))
      ensures requested == old(requested) + if r.Scheduled? then [height] else []
    {
      if !inWindow {
        SkipUpTo(height, before);
        return OutOfWindow(height);
      }
      if !recorded {
        return Failed;
      }
      StartSampling(height, before);
      return Scheduled(height);
    }

    /** A height out of the sampling window: no older header is in it either. */
    method SkipUpTo(height: u64, ghost before: State)
      requires Valid() && 0 < height && Coherent(before) && IsHighest(before.queue, height)
      requires State() == Do(before, Drop(height))
      modifies queue, done
      ensures Valid() && State() == Do(before, Skip(height))
      ensures Heights(done.ranges) == old(Heights(done.ranges)) + Span(1, height)
      ensures forall h :: h in Heights(queue.ranges) <==> h in before.queue && height < h
    {
      StepKeepsCoherent(before, Skip(height));
      var upTo := BlockRange(1, height);
      var removed := queue.RemoveRelaxed(upTo);
      var inserted := done.InsertRelaxed(upTo);
      assert before.queue - {height as int} - Span(1, height) == before.queue - Span(1, height);
    }

    /** Records and requests the samples of a height just popped and starts its future. */
    method StartSampling(height: u64, ghost before: State)
      requires Valid() && 0 < height && Coherent(before) && IsHighest(before.queue, height)
      requires State() == Do(before, Drop(height))
      modifies this`samplingFuts, this`requested, ongoing
      ensures Valid() && State() == Do(before, Schedule(height)) && requested == old(requested) + [height]
      ensures samplingFuts == old(samplingFuts) + [height]
      ensures Heights(ongoing.ranges) == old(Heights(ongoing.ranges)) + {height as int}
    {
      StepKeepsCoherent(before, Schedule(height));
      assert BlockRange(height, height).Heights() == {height as int};
      requested := requested + [height];
      samplingFuts := samplingFuts + [height];
      var inserted := ongoing.InsertRelaxed(BlockRange(height, height));
    }

    /** A sampling future finished: its height moves from ongoing to done. */
    method OnSamplingDone(i: nat) returns (height: u64)
      requires Valid() && i < |samplingFuts|
      modifies this`samplingFuts, done, ongoing
      ensures Valid() && height == old(samplingFuts)[i] && State() == Do(old(State()), Finish(i))
      ensures Heights(done.ranges) == old(Heights(done.ranges)) + {height as int}
      ensures Heights(ongoing.ranges) == old(Heights(ongoing.ranges)) - {height as int}
    {
      height := samplingFuts[i];
      ValidHeightSet(ongoing.ranges);
      StepKeepsCoherent(State(), Finish(i));
      assert samplingFuts[i] as int in Elements(samplingFuts);
      assert BlockRange(height, height).Heights() == {height as int};
      var removed := ongoing.RemoveRelaxed(BlockRange(height, height));
      var inserted := done.InsertRelaxed(BlockRange(height, height));
      samplingFuts := samplingFuts[..i] + samplingFuts[i + 1..];
    }

    /** The end of a session: everything is forgotten. */
    method Reset()
      modifies this`queue, this`done, this`ongoing, this`prevHead, this`samplingFuts
      ensures Valid() && fresh(Parts()) && State() == Idle()
    {
      samplingFuts := [];
      queue := new BlockRanges();
      ongoing := new BlockRanges();
      done := new BlockRanges();
      prevHead := None;
      NoHeights({});
    }

    /**
     The head of each turn of the event loop: a new highest height is scheduled at once, beside
     whatever is being sampled; otherwise the next one only when nothing is being sampled.
     */
    method ScheduleIfNeeded(views: seq<StoreView>, views': seq<StoreView>, recorded: bool)
      returns (ok: bool)
      requires Valid() && ValidViews(views) && ValidViews(views')
      modifies this`queue, this`prevHead, this`samplingFuts, this`requested, Parts()
      ensures Valid() && fresh(Parts() - old(Parts()))
      ensures var t := IfNeeded(old(State()), views, views', recorded);
              && ok == !t.outcome.Failed? && State() == t.after
              && requested == old(requested) + Requests(t.steps)
    {
      ghost var s := State();
      IfNeededRequests(s, views, views', recorded);
      ok := true;
      var queueHead := queue.Head();
      assert queueHead.Some? ==> Highest(s.queue) == queueHead.value;
      if queueHead.Some? && queueHead.value > (if prevHead.Some? then prevHead.value else 0) {
        ok := ScheduleNewHead(queueHead.value, views, recorded);
        if !ok {
          return;
        }
      }
      if samplingFuts == [] {
        var r := ScheduleNextSampleBlock(views', recorded);
        ok := !r.Failed?;
      }
    }

    /** Schedules a new head of the queue and remembers it. */
    method ScheduleNewHead(head: u64, views: seq<StoreView>, recorded: bool) returns (ok: bool)
      requires Valid() && ValidViews(views) && IsHighest(State().queue, head)
      modifies this`queue, this`prevHead, this`samplingFuts, this`requested, Parts()
      ensures Valid() && done == old(done) && ongoing == old(ongoing)
      ensures queue == old(queue) || fresh(queue)
      ensures var t := NewHeadTurn(old(State()), views, recorded);
              && ok == !t.outcome.Failed? && State() == t.after
              && requested == old(requested) + if t.outcome.Scheduled? then [t.outcome.height] else []
    {
      assert Highest(State().queue) == head;
      var r := ScheduleNextSampleBlock(views, recorded);
      ok := !r.Failed?;
      if ok {
        prevHead := Some(head);
      }
    }

    /**
     One connected session over any sequence of events and any store underneath: exactly the
     requests of the session are made, and none of them twice.
     */
    method ConnectedEventLoop(events: seq<Event>, views: nat -> seq<StoreView>, recorded: nat -> bool,
                              stored: seq<BlockRange>, accepted: seq<BlockRange>)
      returns (ok: bool)
      requires Valid() && State() == Idle()
      requires Canonical(stored) && Canonical(accepted)
      requires forall i :: 0 <= i < |events| ==> ValidEvent(events[i])
      requires forall n: nat :: ValidViews(views(n))
      modifies this, Parts()
      ensures Valid()
      ensures var start := Do(Idle(), Populate(Heights(stored) - Heights(accepted)));
              var t := Session(start, events, 0, views, recorded);
              && ok == !t.outcome.Failed? && State() == (if ok then Idle() else t.after)
              && requested == old(requested) + Requests(t.steps) && NoDuplicates(Requests(t.steps))
              && (CanServe(events, views, recorded, |Heights(stored) - Heights(accepted)|) ==>
                    ok && Elements(Requests(t.steps)) == Heights(stored) - Heights(accepted))
    {
      PopulateQueue(stored, accepted);
      FirstQueue(Heights(stored) - Heights(accepted));
      WholeSession(State(), events, views, recorded);
      ok := RunSession(events, views, recorded);
    }

    /** The events of a session, and its end. */
    method RunSession(events: seq<Event>, views: nat -> seq<StoreView>, recorded: nat -> bool) returns (ok: bool)
      requires Valid()
      requires forall i :: 0 <= i < |events| ==> ValidEvent(events[i])
      requires forall n: nat :: ValidViews(views(n))
      modifies this, Parts()
      ensures Valid()
      ensures var t := Session(old(State()), events, 0, views, recorded);
              && ok == !t.outcome.Failed? && State() == (if ok then Idle() else t.after)
              && requested == old(requested) + Requests(t.steps)
    {
      ok := TakeEvents(events, views, recorded);
      if ok {
        Reset();
      }
    }

    /** The loop of a session, up to a disconnect, an error or the last event given. */
    method TakeEvents(events: seq<Event>, views: nat -> seq<StoreView>, recorded: nat -> bool) returns (ok: bool)
      requires Valid()
      requires forall i :: 0 <= i < |events| ==> ValidEvent(events[i])
      requires forall n: nat :: ValidViews(views(n))
      modifies this`queue, this`prevHead, this`samplingFuts, this`requested, Parts()
      ensures Valid() && fresh(Parts() - old(Parts()))
      ensures var t := Session(old(State()), events, 0, views, recorded);
              && ok == !t.outcome.Failed? && State() == t.after && requested == old(requested) + Requests(t.steps)
    {
      ghost var whole := Session(State(), events, 0, views, recorded);
      ghost var made: seq<int> := [];
      for n := 0 to |events|
        invariant Valid() && fresh(Parts() - old(Parts()))
        invariant requested == old(requested) + made
        invariant SameRest(whole, made, Session(State(), events, n, views, recorded))
      {
        ghost var s, rest := State(), Session(State(), events, n, views, recorded);
        ghost var t := IfNeeded(s, views(2 * n), views(2 * n + 1), recorded(n));
        ok := LoopTurn(events[n], views(2 * n), views(2 * n + 1), recorded(n));
        Regroup(old(requested), made, Requests(t.steps));
        SessionStep(s, events, n, views, recorded, t);
        if !ok || events[n].Disconnected? {
          return;
        }
        SameRestStep(whole, made, rest, Requests(t.steps), Session(State(), events, n + 1, views, recorded));
        made := made + Requests(t.steps);
      }
      Regroup(old(requested), made, []);
      ok := true;
    }

    /** One turn of the loop: schedules what is needed and then takes an event. */
    method LoopTurn(e: Event, views: seq<StoreView>, views': seq<StoreView>, recorded: bool) returns (ok: bool)
      requires Valid() && ValidEvent(e) && ValidViews(views) && ValidViews(views')
      modifies this`queue, this`prevHead, this`samplingFuts, this`requested, Parts()
      ensures Valid() && fresh(Parts() - old(Parts()))
      ensures var t := IfNeeded(old(State()), views, views', recorded);
              && requested == old(requested) + Requests(t.steps)
              && (ok <==> !t.outcome.Failed? && !EventFails(t.after, e))
              && IsRun(t.after, EventSteps(t.after, e))
              && State() == if ok then After(t.after, EventSteps(t.after, e)) else t.after
    {
      ghost var t := IfNeeded(State(), views, views', recorded);
      EventIsRun(t.after, e);
      ok := ScheduleIfNeeded(views, views', recorded);
      if ok {
        ok := OnEvent(e);
      }
    }

    /** What the loop does on an event other than a disconnect. */
    method OnEvent(e: Event) returns (ok: bool)
      requires Valid() && ValidEvent(e)
      modifies this`queue, this`samplingFuts, done, ongoing
      ensures Valid() && fresh(Parts() - old(Parts()))
      ensures ok <==> !(e.SamplingDone? && old(samplingFuts) != [] && !e.updated)
      ensures IsRun(old(State()), EventSteps(old(State()), e))
      ensures State() == After(old(State()), EventSteps(old(State()), e))
      ensures e.NewHead? ==>
                Heights(queue.ranges) ==
                Heights(e.stored) - Heights(e.accepted) - Heights(done.ranges) - Heights(ongoing.ranges)
      ensures e.SamplingDone? && e.updated && old(samplingFuts) != [] ==>
                && |samplingFuts| == |old(samplingFuts)| - 1
                && (Heights(done.ranges) + Heights(ongoing.ranges) == old(Heights(done.ranges) + Heights(ongoing.ranges)))
    {
      ghost var s := State();
      EventIsRun(s, e);
      ok := true;
      match e
      case SamplingDone(choice, updated) =>
        if samplingFuts != [] {
          if !updated {
            return false;
          }
          OneIsRun(s, Finish(choice % |samplingFuts|));
          var height := OnSamplingDone(choice % |samplingFuts|);
        }
      case NewHead(stored, accepted) =>
        OneIsRun(s, Populate(Heights(stored) - Heights(accepted)));
        PopulateQueue(stored, accepted);
      case _ =>
    }
  }

  lemma Regroup(a: seq<int>, b: seq<int>, c: seq<int>)
    ensures (a + b) + c == a + (b + c) && b + [] == b
  {
  }

  ghost predicate SameEnd(t: Turn, t': Turn) { t.outcome == t'.outcome && t.after == t'.after }

  lemma IfNeededRequests(s: State, views: seq<StoreView>, views': seq<StoreView>, recorded: bool)
    ensures var first := ScheduleTurn(s, views, recorded);
            var made := if HasNewHead(s) && first.outcome.Scheduled? then [first.outcome.height] else [];
            var then' := if HasNewHead(s) then NewHeadTurn(s, views, recorded).after else s;
            var second := ScheduleTurn(then', views', recorded);
            Requests(IfNeeded(s, views, views', recorded).steps) ==
              if (HasNewHead(s) && first.outcome.Failed?) || then'.futs != [] then made
              else made + if second.outcome.Scheduled? then [second.outcome.height] else []
  {
    ScheduleIsRun(s, views, recorded);
    var first := if HasNewHead(s) then NewHeadTurn(s, views, recorded) else Turn([], NothingQueued, s);
    if HasNewHead(s) { NewHeadIsRun(s, views, recorded); }
    ScheduleIsRun(first.after, views', recorded);
    RequestsConcat(first.steps, ScheduleTurn(first.after, views', recorded).steps);
  }

  /** The whole session is what has been done so far followed by the rest. */
  ghost predicate SameRest(whole: Turn, made: seq<int>, rest: Turn) {
    SameEnd(whole, rest) && Requests(whole.steps) == made + Requests(rest.steps)
  }

  /** A session goes on with the rest unless the turn or the event ends it. */
  lemma SessionStep(s: State, events: seq<Event>, n: nat, views: nat -> seq<StoreView>, recorded: nat -> bool, t: Turn)
    requires n < |events| && t == IfNeeded(s, views(2 * n), views(2 * n + 1), recorded(n))
    ensures var whole := Session(s, events, n, views, recorded);
            var steps := EventSteps(t.after, events[n]);
            && IsRun(t.after, steps)
            && (t.outcome.Failed? || EventFails(t.after, events[n]) || events[n].Disconnected? ==>
                  whole.steps == t.steps && whole.after == t.after)
            && (t.outcome.Failed? || EventFails(t.after, events[n]) ==> whole.outcome.Failed?)
            && (!t.outcome.Failed? && events[n].Disconnected? ==> !whole.outcome.Failed?)
            && (!t.outcome.Failed? && !EventFails(t.after, events[n]) && !events[n].Disconnected? ==>
                  SameRest(whole, Requests(t.steps), Session(After(t.after, steps), events, n + 1, views, recorded)))
  {
    EventIsRun(t.after, events[n]);
    var steps := EventSteps(t.after, events[n]);
    var rest := Session(After(t.after, steps), events, n + 1, views, recorded);
    RequestsAround(t.steps, steps, rest.steps);
  }

  lemma RequestsAround(a: seq<Step>, b: seq<Step>, c: seq<Step>)
    requires Requests(b) == []
    ensures Requests(a + b + c) == Requests(a) + Requests(c)
  {
    RequestsConcat(a, b);
    RequestsConcat(a + b, c);
  }

  lemma SameRestStep(whole: Turn, made: seq<int>, rest: Turn, more: seq<int>, rest': Turn)
    requires SameRest(whole, made, rest) && SameRest(rest, more, rest')
    ensures SameRest(whole, made + more, rest')
  {
  }
}
