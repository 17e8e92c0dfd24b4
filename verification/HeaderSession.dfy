/**
 The concurrent header fetch (node/src/p2p/header_session.rs).

 A session hands a range out in batches from the top, keeps up to eight requests in flight and
 re-asks for whatever an answer leaves out. Answers arrive in any order. Conservation is stated
 by counting, for every height, its occurrences in what is still to hand out, what is in flight
 and what has been received: together once for a height of the range, never for any other.
 */
module HeaderSessions {
  import opened Wrappers
  import opened BlockRangeSets

  const MIN_AMOUNT_PER_REQ := 8
  const MAX_AMOUNT_PER_REQ := 64
  const MAX_CONCURRENT_REQS := 8

  /** A header; everything but its height is opaque here. */
  datatype Header = Header(height: int, content: int)

  /** A request in flight: `amount` headers starting at `height`. */
  datatype Task = Task(height: int, amount: nat)

  /** The ways a request comes back: headers, a HeaderEx error, or any other error. */
  datatype Answer = Headers(headers: seq<Header>) | HeaderExError | FatalError

  /** How a session stands; a failure names the round and the request whose answer caused it. */
  datatype Outcome = Finished(headers: seq<Header>) | Failed(round: nat, task: Task) | Pending

  /** The headers of heights `from`, `from + 1`, and so on. */
  ghost predicate Consecutive(hs: seq<Header>, from: int) {
    forall i :: 0 <= i < |hs| ==> hs[i].height == from + i
  }

  /** What the HeaderEx client lets through: at most `amount` consecutive headers from `height`. */
  ghost predicate ValidAnswer(t: Task, a: Answer) {
    a.Headers? ==> |a.headers| <= t.amount && Consecutive(a.headers, t.height)
  }

  // ---- counting heights ----------------------------------------------------------------------

  /** How often `h` occurs among the `n` heights from `lo` on. */
  ghost function Within(lo: int, n: nat, h: int): nat { if lo <= h < lo + n then 1 else 0 }

  ghost function Remaining(toFetch: Option<BlockRange>, h: int): nat {
    match toFetch
    case None => 0
    case Some(r) => Within(r.start, r.Len(), h)
  }

  ghost function InFlight(tasks: seq<Task>, h: int): nat {
    if tasks == [] then 0
    else Within(tasks[0].height, tasks[0].amount, h) + InFlight(tasks[1..], h)
  }

  ghost function CountHeight(hs: seq<Header>, h: int): nat {
    if hs == [] then 0
    else CountHeight(hs[..|hs| - 1], h) + if hs[|hs| - 1].height == h then 1 else 0
  }

  ghost function Received(spans: seq<seq<Header>>, h: int): nat {
    if spans == [] then 0 else CountHeight(spans[0], h) + Received(spans[1..], h)
  }

  /** Total numbers of headers asked for and received. */
  ghost function Asked(tasks: seq<Task>): nat {
    if tasks == [] then 0 else tasks[0].amount + Asked(tasks[1..])
  }

  ghost function Gathered(spans: seq<seq<Header>>): nat {
    if spans == [] then 0 else |spans[0]| + Gathered(spans[1..])
  }

  lemma {:induction false} ConsecutiveCount(hs: seq<Header>, from: int, h: int)
    requires Consecutive(hs, from)
    ensures CountHeight(hs, h) == Within(from, |hs|, h)
  {
    if hs != [] { ConsecutiveCount(hs[..|hs| - 1], from, h); }
  }

  lemma {:induction false} TaskPushed(tasks: seq<Task>, t: Task, h: int)
    ensures InFlight(tasks + [t], h) == InFlight(tasks, h) + Within(t.height, t.amount, h)
    ensures Asked(tasks + [t]) == Asked(tasks) + t.amount
  {
    if tasks != [] {
      assert (tasks + [t])[1..] == tasks[1..] + [t];
      TaskPushed(tasks[1..], t, h);
    } else {
      assert (tasks + [t])[1..] == [];
    }
  }

  lemma {:induction false} TaskRemoved(tasks: seq<Task>, i: nat, h: int)
    requires i < |tasks|
    ensures InFlight(tasks, h)
            == InFlight(tasks[..i] + tasks[i + 1..], h) + Within(tasks[i].height, tasks[i].amount, h)
    ensures Asked(tasks) == Asked(tasks[..i] + tasks[i + 1..]) + tasks[i].amount
  {
    var rest := tasks[..i] + tasks[i + 1..];
    if i == 0 {
      assert rest == tasks[1..];
    } else {
      TaskRemoved(tasks[1..], i - 1, h);
      assert rest[1..] == tasks[1..][..i - 1] + tasks[1..][i..];
    }
  }

  lemma {:induction false} SpanPushed(spans: seq<seq<Header>>, s: seq<Header>, h: int)
    ensures Received(spans + [s], h) == Received(spans, h) + CountHeight(s, h)
    ensures Gathered(spans + [s]) == Gathered(spans) + |s|
  {
    if spans != [] {
      assert (spans + [s])[1..] == spans[1..] + [s];
      SpanPushed(spans[1..], s, h);
    } else {
      assert (spans + [s])[1..] == [];
    }
  }

  lemma {:induction false} SpanRemoved(spans: seq<seq<Header>>, i: nat, h: int)
    requires i < |spans|
    ensures Received(spans, h) == Received(spans[..i] + spans[i + 1..], h) + CountHeight(spans[i], h)
  {
    var rest := spans[..i] + spans[i + 1..];
    if i == 0 {
      assert rest == spans[1..];
    } else {
      SpanRemoved(spans[1..], i - 1, h);
      assert rest[1..] == spans[1..][..i - 1] + spans[1..][i..];
    }
  }

  // ---- the collected spans -------------------------------------------------------------------

  /** A received span is non-empty and consecutive. */
  ghost predicate IsSpan(s: seq<Header>) { s != [] && Consecutive(s, s[0].height) }

  ghost predicate AllSpans(spans: seq<seq<Header>>) {
    forall i :: 0 <= i < |spans| ==> IsSpan(spans[i])
  }

  ghost predicate AllGenuine(hs: seq<Header>, genuine: Header -> bool) {
    forall i :: 0 <= i < |hs| ==> genuine(hs[i])
  }

  /** The sort key: the height of the first header (no empty span is ever collected). */
  function FirstHeight(s: seq<Header>): int { if s == [] then 0 else s[0].height }

  ghost predicate SortedByFirst(spans: seq<seq<Header>>) {
    forall i, j :: 0 <= i < j < |spans| ==> FirstHeight(spans[i]) <= FirstHeight(spans[j])
  }

  function Flatten(spans: seq<seq<Header>>): seq<Header> {
    if spans == [] then [] else spans[0] + Flatten(spans[1..])
  }

  function InsertSpan(s: seq<Header>, sorted: seq<seq<Header>>): (r: seq<seq<Header>>)
    ensures multiset(r) == multiset(sorted) + multiset{s}
  {
    if sorted == [] then [s]
    else if FirstHeight(s) <= FirstHeight(sorted[0]) then [s] + sorted
    else
      assert sorted == [sorted[0]] + sorted[1..];
      [sorted[0]] + InsertSpan(s, sorted[1..])
  }

  /** Sorts the spans by the height of their first header. */
  function SortSpans(spans: seq<seq<Header>>): (r: seq<seq<Header>>)
    ensures multiset(r) == multiset(spans)
  {
    if spans == [] then []
    else
      assert spans == [spans[0]] + spans[1..];
      InsertSpan(spans[0], SortSpans(spans[1..]))
  }

  lemma {:induction false} InsertSpanSorted(s: seq<Header>, sorted: seq<seq<Header>>)
    requires SortedByFirst(sorted)
    ensures SortedByFirst(InsertSpan(s, sorted))
  {
    if sorted != [] && FirstHeight(s) > FirstHeight(sorted[0]) {
      InsertSpanSorted(s, sorted[1..]);
      var r := InsertSpan(s, sorted[1..]);
      forall i | 0 <= i < |r| ensures FirstHeight(sorted[0]) <= FirstHeight(r[i]) {
        assert r[i] in multiset(r);
        assert r[i] == s || r[i] in multiset(sorted[1..]);
        if r[i] != s {
          var k :| 0 <= k < |sorted[1..]| && sorted[1..][k] == r[i];
          assert sorted[k + 1] == r[i];
        }
      }
    }
  }

  lemma {:induction false} SortSpansSorted(spans: seq<seq<Header>>)
    ensures SortedByFirst(SortSpans(spans))
  {
    if spans != [] {
      SortSpansSorted(spans[1..]);
      InsertSpanSorted(spans[0], SortSpans(spans[1..]));
    }
  }

  lemma RemovedAt(b: seq<seq<Header>>, i: nat)
    requires i < |b|
    ensures multiset(b[..i] + b[i + 1..]) == multiset(b) - multiset{b[i]}
  {
    assert b == b[..i] + [b[i]] + b[i + 1..];
    assert multiset(b) == multiset(b[..i]) + multiset{b[i]} + multiset(b[i + 1..]);
  }

  lemma RemovedBoth(a: seq<seq<Header>>, b: seq<seq<Header>>, i: nat)
    requires multiset(a) == multiset(b) && a != [] && i < |b| && b[i] == a[0]
    ensures multiset(a[1..]) == multiset(b[..i] + b[i + 1..])
  {
    RemovedAt(a, 0);
    RemovedAt(b, i);
    assert a[..0] + a[1..] == a[1..];
  }

  /** Reordering spans does not change what was received. */
  lemma {:induction false} ReceivedPermuted(a: seq<seq<Header>>, b: seq<seq<Header>>, h: int)
    requires multiset(a) == multiset(b)
    ensures Received(a, h) == Received(b, h)
  {
    if a == [] {
      assert |multiset(b)| == 0;
    } else {
      assert a[0] in multiset(b);
      var i :| 0 <= i < |b| && b[i] == a[0];
      RemovedBoth(a, b, i);
      ReceivedPermuted(a[1..], b[..i] + b[i + 1..], h);
      SpanRemoved(b, i, h);
    }
  }

  lemma AllSpansPermuted(a: seq<seq<Header>>, b: seq<seq<Header>>)
    requires multiset(a) == multiset(b) && AllSpans(b)
    ensures AllSpans(a)
  {
    forall i | 0 <= i < |a| ensures IsSpan(a[i]) {
      assert a[i] in multiset(b);
      var k :| 0 <= k < |b| && b[k] == a[i];
    }
  }

  /** Every header of the joined spans comes from one of the collected ones. */
  lemma {:induction false} FlattenGenuine(spans: seq<seq<Header>>, genuine: Header -> bool)
    requires forall i :: 0 <= i < |spans| ==> AllGenuine(spans[i], genuine)
    ensures AllGenuine(Flatten(spans), genuine)
  {
    if spans != [] { FlattenGenuine(spans[1..], genuine); }
  }

  lemma {:induction false} ReceivedFrom(spans: seq<seq<Header>>, h: int) returns (j: nat)
    requires Received(spans, h) > 0
    ensures j < |spans| && CountHeight(spans[j], h) > 0
  {
    if CountHeight(spans[0], h) > 0 {
      j := 0;
    } else {
      j := ReceivedFrom(spans[1..], h);
      j := j + 1;
    }
  }

  /** The spans hold each of the `n` heights from `lo` on once, and no other height. */
  ghost predicate ReceivedAll(spans: seq<seq<Header>>, lo: int, n: nat) {
    forall h :: Received(spans, h) == Within(lo, n, h)
  }

  lemma FirstSpanStartsAt(spans: seq<seq<Header>>, lo: int, n: nat)
    requires spans != [] && AllSpans(spans) && SortedByFirst(spans)
    requires ReceivedAll(spans, lo, n)
    ensures FirstHeight(spans[0]) == lo && |spans[0]| <= n
  {
    var s := spans[0];
    assert IsSpan(s);
    var f, m := s[0].height, |s|;
    ConsecutiveCount(s, f, f);
    ConsecutiveCount(s, f, f + m - 1);
    assert Received(spans, f) == Within(lo, n, f);
    assert Received(spans, f + m - 1) == Within(lo, n, f + m - 1);
    assert Received(spans, lo) == Within(lo, n, lo);
    var j := ReceivedFrom(spans, lo);
    assert IsSpan(spans[j]);
    ConsecutiveCount(spans[j], spans[j][0].height, lo);
    assert f == FirstHeight(spans[0]) <= FirstHeight(spans[j]) <= lo;
  }

  /**
   Sorted spans that hold `n` consecutive heights, each once, join into exactly the headers of
   those heights in ascending order.
   */
  lemma {:induction false} SortedSpansJoin(spans: seq<seq<Header>>, lo: int, n: nat)
    requires AllSpans(spans) && SortedByFirst(spans)
    requires ReceivedAll(spans, lo, n)
    ensures |Flatten(spans)| == n && Consecutive(Flatten(spans), lo)
  {
    if spans == [] {
      assert Received(spans, lo) == Within(lo, n, lo);
    } else {
      var m := |spans[0]|;
      assert IsSpan(spans[0]);
      FirstSpanStartsAt(spans, lo, n);
      forall h ensures Received(spans[1..], h) == Within(lo + m, n - m, h) {
        ConsecutiveCount(spans[0], lo, h);
        assert Received(spans, h) == Within(lo, n, h);
      }
      SortedSpansJoin(spans[1..], lo + m, n - m);
      JoinConsecutive(spans[0], Flatten(spans[1..]), lo);
    }
  }

  lemma JoinConsecutive(a: seq<Header>, b: seq<Header>, lo: int)
    requires Consecutive(a, lo) && Consecutive(b, lo + |a|)
    ensures Consecutive(a + b, lo)
  {
  }

  lemma {:induction false} ManySpans(spans: seq<seq<Header>>)
    requires AllSpans(spans)
    ensures Gathered(spans) >= |spans|
  {
    if spans != [] {
      assert IsSpan(spans[0]);
      ManySpans(spans[1..]);
    }
  }

  // ---- handing out batches -------------------------------------------------------------------

  /** Takes up to `limit` heights from the top of what is left to fetch. */
  method TakeNextBatch(toFetch: Option<BlockRange>, limit: nat)
    returns (rest: Option<BlockRange>, batch: Option<BlockRange>)
    ensures forall h :: Remaining(toFetch, h) == Remaining(rest, h) + Remaining(batch, h)
    ensures batch.None? <==> limit == 0 || toFetch.None?
    ensures batch.None? ==> rest == toFetch
    ensures batch.Some? ==> batch.value.Len() == Min(limit, toFetch.value.Len())
                            && batch.value.end == toFetch.value.end
                            && batch.value.start + batch.value.Len() == toFetch.value.start + toFetch.value.Len()
    ensures batch.Some? ==> (rest.Some? <==> toFetch.value.Len() > limit)
    ensures batch.Some? && rest.Some? ==> rest.value.start == toFetch.value.start
                                          && rest.value.Len() == toFetch.value.Len() - limit
  {
    if limit == 0 || toFetch.None? {
      return toFetch, None;
    }
    var range := toFetch.value;
    if range.Len() <= limit {
      return None, Some(range);
    }
    rest := Some(BlockRange(range.start, range.end - limit));
    batch := Some(BlockRange(range.end - (limit - 1), range.end));
  }

  /** Batch size: the least number from 8 to 64 with which eight batches cover the range, or 64. */
  function BatchSize(range: BlockRange): (n: nat)
    ensures 8 <= n <= 64
    ensures n == 64 || range.Len() <= 8 * n
    ensures n == 8 || 8 * (n - 1) < range.Len()
  {
    var eighth := (range.Len() + MAX_CONCURRENT_REQS - 1) / MAX_CONCURRENT_REQS;
    if eighth < MIN_AMOUNT_PER_REQ then MIN_AMOUNT_PER_REQ
    else if eighth > MAX_AMOUNT_PER_REQ then MAX_AMOUNT_PER_REQ
    else eighth
  }

  ghost function Left(toFetch: Option<BlockRange>): nat {
    if toFetch.None? then 0 else toFetch.value.Len()
  }

  /** Every request of a session over `total` heights asks for 1 to 64 (0 only if `total` is 0). */
  ghost predicate WellSized(tasks: seq<Task>, total: nat) {
    forall i :: 0 <= i < |tasks| ==> (total == 0 || 1 <= tasks[i].amount) && tasks[i].amount <= 64
  }

  class HeaderSession {
    var toFetch: Option<BlockRange>
    var tasks: seq<Task>
    const batchSize: nat
    const range: BlockRange

    constructor (range: BlockRange)
      ensures toFetch == Some(range) && tasks == []
      ensures this.range == range && batchSize == BatchSize(range)
    {
      this.toFetch := Some(range);
      this.tasks := [];
      this.batchSize := BatchSize(range);
      this.range := range;
    }

    /** Every height of the range is in exactly one place exactly once, and no other height is. */
    ghost predicate Partitioned(responses: seq<seq<Header>>)
      reads this
    {
      IsPartition(toFetch, tasks, responses, range)
    }

    /** All eight slots are in use as long as something is left to hand out. */
    ghost predicate Busy()
      reads this
    {
      && |tasks| <= 8
      && WellSized(tasks, range.Len())
      && (toFetch.Some? ==> |tasks| == 8 && (range.Len() == 0 || 1 <= toFetch.value.Len()))
    }

    /**
     What holds of a session at every moment, between any two answers: the three parts partition
     the range; at most eight requests are in flight, each for 1 to 64 headers unless the
     range was empty; and nothing is left to hand out unless all eight slots are in use.
     */
    ghost predicate Conserved(responses: seq<seq<Header>>)
      reads this
    {
      batchSize == BatchSize(range) && Partitioned(responses) && AllSpans(responses) && Busy()
    }

    method SendRequest(height: int, amount: nat)
      modifies this`tasks
      ensures tasks == old(tasks) + [Task(height, amount)]
    {
      tasks := tasks + [Task(height, amount)];
    }

    /** Sends the next batch, if anything is left: the top `batchSize` heights go in flight. */
    method SendNextRequest()
      requires 0 < batchSize
      modifies this
      ensures forall h :: Remaining(toFetch, h) + InFlight(tasks, h) == old(Remaining(toFetch, h) + InFlight(tasks, h))
      ensures Left(toFetch) + Asked(tasks) == old(Left(toFetch) + Asked(tasks))
      ensures old(toFetch).None? ==> toFetch.None? && tasks == old(tasks)
      ensures old(toFetch).Some? ==>
                var amount := Min(batchSize, old(toFetch).value.Len());
                tasks == old(tasks) + [Task(old(toFetch).value.start + old(toFetch).value.Len() - amount, amount)]
      ensures old(toFetch).Some? ==> (toFetch.Some? <==> old(toFetch).value.Len() > batchSize)
      ensures toFetch.Some? ==> toFetch.value.Len() == old(toFetch).value.Len() - batchSize
    {
      var rest, batch := TakeNextBatch(toFetch, batchSize);
      if batch.Some? {
        forall h ensures InFlight(tasks + [Task(batch.value.start, batch.value.Len())], h)
                         == InFlight(tasks, h) + Within(batch.value.start, batch.value.Len(), h)
        {
          TaskPushed(tasks, Task(batch.value.start, batch.value.Len()), h);
        }
        TaskPushed(tasks, Task(batch.value.start, batch.value.Len()), 0);
        assert forall h :: Remaining(toFetch, h) == Remaining(rest, h) + Within(batch.value.start, batch.value.Len(), h);
        SendRequest(batch.value.start, batch.value.Len());
      }
      toFetch := rest;
    }

    /** The first eight requests; a range of at most 512 headers is handed out completely. */
    method Start()
      requires toFetch == Some(range) && tasks == [] && batchSize == BatchSize(range)
      modifies this
      ensures Conserved([])
      ensures range.Len() <= 512 ==> toFetch.None?
    {
      ghost var sent := 0;
      for i := 0 to MAX_CONCURRENT_REQS
        invariant Partitioned([])
        invariant |tasks| <= i && (toFetch.Some? ==> |tasks| == i)
        invariant WellSized(tasks, range.Len())
        invariant sent == i * batchSize
        invariant toFetch.Some? ==> toFetch.value.Len() == range.Len() - sent
        invariant toFetch.Some? && i > 0 ==> toFetch.value.Len() > 0
      {
        SendNextRequest();
        OneMore(i, batchSize);
        sent := sent + batchSize;
      }
    }

    /**
     One turn of the receiving loop: whatever the answer to whichever request, the session stays
     conserved, or it stops because of an error that is not a HeaderEx error.
     */
    method OnTaskResult(i: nat, answer: Answer, responses: seq<seq<Header>>)
      returns (responses': seq<seq<Header>>, failed: bool)
      requires Conserved(responses)
      requires i < |tasks| && ValidAnswer(tasks[i], answer)
      modifies this
      ensures failed <==> answer.FatalError?
      ensures !failed ==> Conserved(responses')
      ensures failed ==> toFetch == old(toFetch) && tasks == old(tasks)[..i] + old(tasks)[i + 1..]
      ensures responses' == if answer.Headers? && answer.headers != [] then responses + [answer.headers]
                            else responses
    {
      responses', failed := responses, false;
      match answer
      case Headers(headers) =>
        if |headers| > 0 {
          responses' := responses + [headers];
        }
        if |headers| < tasks[i].amount {
          Reschedule(i, headers, responses, responses');
        } else {
          Complete(i, headers, responses, responses');
        }
      case HeaderExError =>
        Reschedule(i, [], responses, responses);
      case FatalError =>
        tasks := tasks[..i] + tasks[i + 1..];
        failed := true;
    }

    /** Asks again for what the answer to request `i` left out. */
    method Reschedule(i: nat, headers: seq<Header>, ghost responses: seq<seq<Header>>, ghost responses': seq<seq<Header>>)
      requires Conserved(responses) && i < |tasks| && Consecutive(headers, tasks[i].height)
      requires |headers| < tasks[i].amount || headers == []
      requires responses' == if headers != [] then responses + [headers] else responses
      modifies this`tasks
      ensures Conserved(responses')
    {
      var t := tasks[i];
      Retried(toFetch, tasks, i, headers, responses, responses');
      tasks := tasks[..i] + tasks[i + 1..];
      SendRequest(t.height + |headers|, t.amount - |headers|);
    }

    /** Request `i` is answered in full: its slot goes to the next batch. */
    method Complete(i: nat, headers: seq<Header>, ghost responses: seq<seq<Header>>, ghost responses': seq<seq<Header>>)
      requires Conserved(responses) && i < |tasks| && Consecutive(headers, tasks[i].height)
      requires |headers| == tasks[i].amount
      requires responses' == if headers != [] then responses + [headers] else responses
      modifies this
      ensures Conserved(responses')
    {
      Answered(toFetch, tasks, i, headers, responses, responses');
      tasks := tasks[..i] + tasks[i + 1..];
      assert Partitioned(responses');
      SendNextRequest();
    }

    /**
     A whole session against any network: `pick` chooses which request is answered in each round
     and `answers` what comes back. If it finishes, it returns exactly the headers of the range
     in ascending order, each one taken from an answer, whatever the order of arrival. It fails
     only because of an error other than HeaderEx. If every answer brings at least one header,
     it is finished after as many rounds as the range has headers.
     */
    method Run(pick: nat -> nat, answers: (nat, Task) -> Answer, genuine: Header -> bool, rounds: nat)
      returns (r: Outcome)
      requires toFetch == Some(range) && tasks == [] && batchSize == BatchSize(range)
      requires forall k: nat, t: Task :: ValidAnswer(t, answers(k, t))
      requires forall k: nat, t: Task :: answers(k, t).Headers? ==> AllGenuine(answers(k, t).headers, genuine)
      modifies this
      ensures r.Finished? ==> |r.headers| == range.Len() && Consecutive(r.headers, range.start)
      ensures r.Finished? ==> AllGenuine(r.headers, genuine)
      ensures r.Failed? ==> r.round < rounds && answers(r.round, r.task).FatalError?
      ensures r.Failed? ==> WasInFlight(toFetch, tasks, pick(r.round) % (|tasks| + 1), r.task, range)
      ensures r.Pending? ==> tasks != [] && Busy() && HasPartition(toFetch, tasks, range)
      ensures r.Pending? && 0 < range.Len() && Productive(answers) ==>
                Left(toFetch) + Asked(tasks) + rounds <= range.Len()
      ensures range.Len() <= rounds && 0 < range.Len() && Productive(answers) ==> !r.Pending?
    {
      Start();
      var responses: seq<seq<Header>> := [];
      var k: nat := 0;
      while tasks != [] && k < rounds
        invariant Conserved(responses)
        invariant k <= rounds
        invariant forall i :: 0 <= i < |responses| ==> AllGenuine(responses[i], genuine)
        invariant Productive(answers) && 0 < range.Len() ==> |responses| >= k
        decreases rounds - k
      {
        var i := pick(k) % |tasks|;
        var task := tasks[i];
        var answer := answers(k, task);
        assert ValidAnswer(task, answer);
        ghost var before := tasks;
        var failed;
        responses, failed := OnTaskResult(i, answer, responses);
        if failed {
          PutBack(toFetch, before, i, responses, range);
          assert |tasks| + 1 == |before|;
          return Failed(k, task);
        }
        k := k + 1;
      }
      if tasks != [] {
        ManySpans(responses);
        assert Asked(tasks) >= tasks[0].amount;
        return Pending;
      }
      var headers := Assemble(responses, genuine);
      r := Finished(headers);
    }

    /** Nothing is left to ask for: the collected spans are sorted and joined. */
    method Assemble(responses: seq<seq<Header>>, ghost genuine: Header -> bool) returns (headers: seq<Header>)
      requires Conserved(responses) && tasks == []
      requires forall i :: 0 <= i < |responses| ==> AllGenuine(responses[i], genuine)
      ensures |headers| == range.Len() && Consecutive(headers, range.start) && AllGenuine(headers, genuine)
    {
      var sorted := SortSpans(responses);
      SortSpansSorted(responses);
      forall h ensures Received(sorted, h) == Within(range.start, range.Len(), h) {
        ReceivedPermuted(sorted, responses, h);
        assert Places(toFetch, tasks, responses, h) == Within(range.start, range.Len(), h);
      }
      AllSpansPermuted(sorted, responses);
      SortedSpansJoin(sorted, range.start, range.Len());
      forall i | 0 <= i < |sorted| ensures AllGenuine(sorted[i], genuine) {
        assert sorted[i] in multiset(responses);
      }
      FlattenGenuine(sorted, genuine);
      headers := Flatten(sorted);
    }
  }

  /** A network whose every answer brings at least one header. */
  ghost predicate Productive(answers: (nat, Task) -> Answer) {
    forall k: nat, t: Task :: t.amount > 0 ==> answers(k, t).Headers? && answers(k, t).headers != []
  }

  lemma OneMore(i: nat, n: nat)
    ensures (i + 1) * n == i * n + n
  {
  }

  /** The counts of a session state, for one height. */
  ghost function Places(toFetch: Option<BlockRange>, tasks: seq<Task>, spans: seq<seq<Header>>, h: int): nat {
    Remaining(toFetch, h) + InFlight(tasks, h) + Received(spans, h)
  }

  ghost function Total(toFetch: Option<BlockRange>, tasks: seq<Task>, spans: seq<seq<Header>>): nat {
    Left(toFetch) + Asked(tasks) + Gathered(spans)
  }

  /** Every height of the range is in exactly one place exactly once, and no other height is. */
  ghost predicate IsPartition(toFetch: Option<BlockRange>, tasks: seq<Task>, spans: seq<seq<Header>>, range: BlockRange) {
    && (forall h :: Places(toFetch, tasks, spans, h) == Within(range.start, range.Len(), h))
    && Total(toFetch, tasks, spans) == range.Len()
  }

  /** What is to fetch and in flight is, with some answers received, a partition of the range. */
  ghost predicate HasPartition(toFetch: Option<BlockRange>, tasks: seq<Task>, range: BlockRange) {
    exists spans :: AllSpans(spans) && IsPartition(toFetch, tasks, spans, range)
  }

  /** The requests in flight are what is left of a partition of the range without `task`. */
  ghost predicate WasInFlight(toFetch: Option<BlockRange>, tasks: seq<Task>, i: nat, task: Task, range: BlockRange) {
    i <= |tasks| && exists spans :: IsPartition(toFetch, tasks[..i] + [task] + tasks[i..], spans, range)
  }

  lemma PutBack(toFetch: Option<BlockRange>, tasks: seq<Task>, i: nat, spans: seq<seq<Header>>, range: BlockRange)
    requires i < |tasks| && IsPartition(toFetch, tasks, spans, range)
    ensures WasInFlight(toFetch, tasks[..i] + tasks[i + 1..], i, tasks[i], range)
  {
    var others := tasks[..i] + tasks[i + 1..];
    assert others[..i] + [tasks[i]] + others[i..] == tasks;
  }

  /** Taking request `i` out of flight and collecting its full answer moves its heights over. */
  lemma Answered(toFetch: Option<BlockRange>, tasks: seq<Task>, i: nat, headers: seq<Header>,
                 spans: seq<seq<Header>>, spans': seq<seq<Header>>)
    requires i < |tasks| && |headers| == tasks[i].amount && Consecutive(headers, tasks[i].height)
    requires spans' == if headers != [] then spans + [headers] else spans
    ensures forall h :: Places(toFetch, tasks[..i] + tasks[i + 1..], spans', h) == Places(toFetch, tasks, spans, h)
    ensures Total(toFetch, tasks[..i] + tasks[i + 1..], spans') == Total(toFetch, tasks, spans)
  {
    forall h
      ensures Places(toFetch, tasks[..i] + tasks[i + 1..], spans', h) == Places(toFetch, tasks, spans, h)
      ensures Total(toFetch, tasks[..i] + tasks[i + 1..], spans') == Total(toFetch, tasks, spans)
    {
      TaskRemoved(tasks, i, h);
      SpanPushed(spans, headers, h);
      ConsecutiveCount(headers, tasks[i].height, h);
    }
    assert Total(toFetch, tasks[..i] + tasks[i + 1..], spans') == Total(toFetch, tasks, spans) by {
      TaskRemoved(tasks, i, 0);
      SpanPushed(spans, headers, 0);
    }
  }

  /** Collecting a partial answer and asking again for the rest keeps every height in one place. */
  lemma Retried(toFetch: Option<BlockRange>, tasks: seq<Task>, i: nat, headers: seq<Header>,
                spans: seq<seq<Header>>, spans': seq<seq<Header>>)
    requires i < |tasks| && |headers| <= tasks[i].amount && Consecutive(headers, tasks[i].height)
    requires spans' == if headers != [] then spans + [headers] else spans
    ensures var again := Task(tasks[i].height + |headers|, tasks[i].amount - |headers|);
            var tasks' := tasks[..i] + tasks[i + 1..] + [again];
            && (forall h :: Places(toFetch, tasks', spans', h) == Places(toFetch, tasks, spans, h))
            && Total(toFetch, tasks', spans') == Total(toFetch, tasks, spans)
  {
    var again := Task(tasks[i].height + |headers|, tasks[i].amount - |headers|);
    var others := tasks[..i] + tasks[i + 1..];
    forall h ensures Places(toFetch, others + [again], spans', h) == Places(toFetch, tasks, spans, h) {
      TaskRemoved(tasks, i, h);
      TaskPushed(others, again, h);
      SpanPushed(spans, headers, h);
      ConsecutiveCount(headers, tasks[i].height, h);
    }
    TaskRemoved(tasks, i, 0);
    TaskPushed(others, again, 0);
    SpanPushed(spans, headers, 0);
  }
}
