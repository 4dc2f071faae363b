/**
  What becomes of replay requests: which are refused and why, how long an accepted one is,
  how its progress grows tick by tick, and how it ends, in terms of the request's own fields.
 */
module SessionOutcomes {
  import opened ReplaySessions
  import opened Wrappers

  /**
    Every refusal, with its reason: guests first, then incomplete requests; a retry or cancel
    of an unknown session; a retry of a session that is live or completed; a cancel of one
    that is finished. A refused request changes nothing.
   */
  lemma RefusalsMean(store: Store, r: Request, source: string, id: string)
    ensures CreateReply(r).PermissionDenied? <==> r.guest
    ensures CreateReply(r).ValidationError? <==> !r.guest && !(r.named && r.dated && r.hasStrategy)
    ensures RetryReply(store, source).NotFound? <==> source !in store
    ensures RetryReply(store, source).InvalidStatus? <==>
              source in store && store[source].status in {Pending, Running, Completed}
    ensures CancelReply(store, id).NotFound? <==> id !in store
    ensures CancelReply(store, id).InvalidStatus? <==>
              id in store && store[id].status in {Completed, Failed, Cancelled}
    ensures r.guest || !r.named || !r.dated || !r.hasStrategy ==> Apply(store, Create(r, id)) == store
    ensures RetryReply(store, source).NotFound? || RetryReply(store, source).InvalidStatus? ==>
              Apply(store, Retry(source, id)) == store
    ensures CancelReply(store, id).NotFound? || CancelReply(store, id).InvalidStatus? ==>
              Apply(store, Cancel(id)) == store
  {
    hide Created;
  }

  /** What is stored: a fresh session, a copy starting over, a stopped session; no other session changes. */
  lemma StoredMean(store: Store, r: Request, source: string, id: string)
    ensures !r.guest && r.named && r.dated && r.hasStrategy ==>
              var after := Apply(store, Create(r, id));
              id in after && after == store[id := after[id]] && after[id].status == Pending && after[id].progress == 0
              && after[id].errorCode == "" && after[id].partialSummary
    ensures source in store && store[source].status in {Failed, Cancelled} ==>
              var after := Apply(store, Retry(source, id));
              id in after && after == store[id := after[id]] && after[id].status == Pending && after[id].progress == 0
              && after[id].errorCode == "" && after[id].partialSummary && after[id].total == store[source].total
    ensures id in store && store[id].status in {Pending, Running} ==>
              Apply(store, Cancel(id))
              == store[id := store[id].(status := Cancelled, partialSummary := true, errorCode := "cancelled_by_user")]
  {
    hide TotalFor;
  }

  /** `h` is the range in hours, rounded to the nearest, halves up. */
  predicate NearestHours(h: int, rangeMs: int) {
    -1800000 < h * 3600000 - rangeMs <= 1800000
  }

  /** Every range has such a number of hours, and only one. */
  lemma HoursExist(rangeMs: int) returns (h: int)
    ensures NearestHours(h, rangeMs)
  {
    h := (rangeMs + 1800000) / 3600000;
  }

  /** Four batches for each hour of the range, rounded to whole hours, from six hours up. */
  lemma RangeMeans(fromMs: int, toMs: int, h: int)
    requires NearestHours(h, toMs - fromMs)
    ensures TotalFor(Some(fromMs), Some(toMs)) == Batches(if h < 6 then 24 else 4 * h)
  {
    assert (toMs - fromMs + MS_PER_HOUR / 2) / MS_PER_HOUR == h;
  }

  // -------------------------------------------------------------- progress

  /** The least whole number of batches, at least one, of which twenty-four make up the total. */
  predicate IsStride(stride: nat, total: nat) {
    stride >= 1 && 24 * stride >= total && (stride == 1 || 24 * (stride - 1) < total)
  }

  /** Where a session stops: at its total, or for a failing one at 52 per cent of it, rounded down. */
  predicate Reached(progress: nat, total: nat, failing: bool) {
    progress >= total || (failing && 100 * (progress + 1) > 52 * total)
  }

  function Least(a: nat, b: nat): nat { if a < b then a else b }

  lemma StrideIs(stride: nat, total: nat)
    requires IsStride(stride, total)
    ensures stride == if CeilDiv(total, TICKS) > 1 then CeilDiv(total, TICKS) else 1
  {
  }

  lemma TickMoves(s: Session, stride: nat)
    requires Live(s) && s.total.Batches? && s.progress <= s.total.count && IsStride(stride, s.total.count)
    ensures var t := Ticked(s);
            && t.progress == Least(s.total.count, s.progress + stride)
            && t.total == s.total && t.scenario == s.scenario
            && (Live(t) <==> !Reached(t.progress, s.total.count, s.scenario.SolverError?))
  {
    StrideIs(stride, s.total.count);
    hide CeilDiv;
  }

  /** Progress grows by the stride each tick and stops for good once the stop is reached. */
  lemma {:induction false} ProgressIsLinear(s: Session, stride: nat, n: nat)
    requires s.status.Pending? && s.progress == 0 && s.total.Batches? && IsStride(stride, s.total.count)
    ensures var t := AfterTicks(s, n);
            && t.total == s.total && t.scenario == s.scenario
            && (Live(t) ==> t.progress == Least(s.total.count, n * stride))
            && (Live(t) <==> n == 0 || !Reached(n * stride, s.total.count, s.scenario.SolverError?))
            && (n > 0 && !Live(t) && (n == 1 || Live(AfterTicks(s, n - 1))) ==>
                  t.progress == Least(s.total.count, n * stride))
  {
    if n > 0 {
      ProgressIsLinear(s, stride, n - 1);
      hide Ticked, Live, IsStride;
      OneStrideMore(n, stride);
      var t := AfterTicks(s, n - 1);
      ReachedOnce(s, stride, n, t);
    }
  }

  lemma OneStrideMore(n: nat, stride: nat)
    requires n > 0
    ensures n * stride == (n - 1) * stride + stride
  {
  }

  lemma ReachedOnce(s: Session, stride: nat, n: nat, t: Session)
    requires n > 0 && s.total.Batches? && IsStride(stride, s.total.count) && n * stride == (n - 1) * stride + stride
    requires t.total == s.total && t.scenario == s.scenario
    requires Live(t) ==> t.progress == Least(s.total.count, (n - 1) * stride)
    requires Live(t) <==> n - 1 == 0 || !Reached((n - 1) * stride, s.total.count, s.scenario.SolverError?)
    ensures var u := Ticked(t);
            && u.total == s.total && u.scenario == s.scenario
            && (Live(u) ==> u.progress == Least(s.total.count, n * stride))
            && (Live(u) <==> !Reached(n * stride, s.total.count, s.scenario.SolverError?))
            && (Live(t) ==> u.progress == Least(s.total.count, n * stride))
  {
    if Live(t) {
      TickMoves(t, stride);
      hide Ticked, IsStride;
    }
  }

  // ------------------------------------------------------------------ fate

  predicate CancelledDuring(events: seq<Event>, id: string) {
    exists k :: 0 <= k < |events| && events[k] == Cancel(id)
  }

  lemma {:induction false} TickedFirst(s: Session, n: nat)
    ensures AfterTicks(Ticked(s), n) == AfterTicks(s, n + 1)
  {
    hide Ticked;
    if n > 0 { TickedFirst(s, n - 1); }
  }

  /** A session nobody cancels or replaces sees of a run nothing but its ticks. */
  lemma {:induction false} RunIsTicks(store: Store, events: seq<Event>, id: string)
    requires id in store && !ReplacedDuring(store, events, id) && !CancelledDuring(events, id)
    ensures id in Run(store, events) && Run(store, events)[id] == AfterTicks(store[id], TicksIn(events))
    decreases |events|
  {
    if events != [] {
      var next := Apply(store, events[0]);
      assert events[0] != Cancel(id);
      assert !CancelledDuring(events[1..], id) by {
        assert forall k :: 0 <= k < |events| - 1 ==> events[1..][k] == events[k + 1];
      }
      OneEvent(store, events[0], id);
      hide Apply, Ticked, Replaces, CancelledDuring;
      RunIsTicks(next, events[1..], id);
      TickedFirst(store[id], TicksIn(events[1..]));
    }
  }

  lemma OneEvent(store: Store, e: Event, id: string)
    requires id in store && !Replaces(store, e, id) && e != Cancel(id)
    ensures id in Apply(store, e) && Apply(store, e)[id] == if e.Tick? then Ticked(store[id]) else store[id]
  {
  }

  /**
    How an accepted request ends, in any run that neither cancels nor replaces it, once the
    run has twenty-four ticks: with both dates readable, a tight risk limit makes it fail, the
    SOL/USDT instrument otherwise makes it cancel for lack of data, and else it completes;
    with a date that cannot be read it is never done.
   */
  lemma CreatedFate(store: Store, r: Request, id: string, events: seq<Event>)
    requires !r.guest && r.named && r.dated && r.hasStrategy && TicksIn(events) >= 24
    requires !ReplacedDuring(Apply(store, Create(r, id)), events, id) && !CancelledDuring(events, id)
    ensures id in Run(store, [Create(r, id)] + events)
    ensures var s := Run(store, [Create(r, id)] + events)[id];
            var readable := r.fromMs.Some? && r.toMs.Some?;
            && (readable && r.riskTight <==> s.status == Failed)
            && (readable && !r.riskTight && r.solUsdt <==> s.status == Cancelled)
            && (readable && !r.riskTight && !r.solUsdt <==> s.status == Completed)
            && (s.errorCode == if readable && r.riskTight then "solver_error" else "")
            && (s.partialSummary <==> s.status != Completed)
  {
    var all := [Create(r, id)] + events;
    assert all[1..] == events && all[0] == Create(r, id);
    var next := Apply(store, Create(r, id));
    assert id in next && next[id] == Created(r);
    assert Run(store, all) == Run(next, events);
    hide Apply, Run, Ticked;
    RunIsTicks(next, events, id);
    FateOfCreated(r, TicksIn(events));
  }

  lemma FateOfCreated(r: Request, n: nat)
    requires n >= 24
    ensures var s := AfterTicks(Created(r), n);
            var readable := r.fromMs.Some? && r.toMs.Some?;
            && (readable && r.riskTight <==> s.status == Failed)
            && (readable && !r.riskTight && r.solUsdt <==> s.status == Cancelled)
            && (readable && !r.riskTight && !r.solUsdt <==> s.status == Completed)
            && (s.errorCode == if readable && r.riskTight then "solver_error" else "")
            && (s.partialSummary <==> s.status != Completed)
  {
    var s := Created(r);
    assert Sound(s);
    TicksSound(s, n);
    NothingButFailures(s, n);
    if r.fromMs.Some? && r.toMs.Some? {
      ScenarioDecidesFate(s, n);
    } else {
      NaNNeverEnds(s, n);
    }
    hide AfterTicks, TotalFor;
  }

  lemma {:induction false} TicksSound(s: Session, n: nat)
    requires Sound(s)
    ensures Sound(AfterTicks(s, n))
  {
    if n > 0 {
      TicksSound(s, n - 1);
      TickedSound(AfterTicks(s, n - 1));
    }
  }

  /** The ticker gives error codes to failed sessions only. */
  lemma {:induction false} NothingButFailures(s: Session, n: nat)
    requires Live(s) && s.errorCode == ""
    ensures AfterTicks(s, n).status.Failed? || AfterTicks(s, n).errorCode == ""
  {
    if n > 0 { NothingButFailures(s, n - 1); }
  }
}
