/**
  The replay session store of the web gateway: the ticker that advances sessions, and the
  create, retry and cancel requests.

  Session ids come from the clock, so they are parameters, and nothing keeps them distinct.
 */
module ReplaySessions {
  import opened Wrappers

  datatype Status = Pending | Running | Completed | Failed | Cancelled

  datatype Scenario = Completes | SolverError | NoData

  /** The number of batches; unparsable dates make it NaN. */
  datatype Total = Batches(count: nat) | NotANumber

  datatype Session = Session(status: Status, progress: nat, total: Total, scenario: Scenario,
                             partialSummary: bool, errorCode: string)

  type Store = map<string, Session>

  const TICKS: nat := 24
  const MS_PER_HOUR: int := 3600000

  predicate Live(s: Session) { s.status.Pending? || s.status.Running? }

  predicate Final(s: Session) { !Live(s) }

  // ------------------------------------------------------------- the ticker

  function CeilDiv(a: nat, b: nat): nat
    requires b > 0
  {
    (a + b - 1) / b
  }

  /** How many batches one tick replays: none when the total is not a number. */
  function Step(progress: nat, total: Total): nat {
    if total.NotANumber? then 0
    else
      var remaining := if total.count > progress then total.count - progress else 0;
      var stride := if CeilDiv(total.count, TICKS) > 1 then CeilDiv(total.count, TICKS) else 1;
      if remaining < stride then remaining else stride
  }

  /** Where a failing session stops: the floor of 52 per cent of its batches. */
  function FailurePoint(total: nat): nat { total * 52 / 100 }

  function Settled(s: Session): Session
    requires s.status.Running?
  {
    if s.total.NotANumber? then s
    else if s.scenario.SolverError? && s.progress >= FailurePoint(s.total.count) then
      s.(status := Failed, errorCode := "solver_error", partialSummary := true)
    else if s.progress >= s.total.count then
      if s.scenario.NoData? then s.(status := Cancelled, partialSummary := true)
      else s.(status := Completed, partialSummary := false)
    else s
  }

  function Ticked(s: Session): Session {
    if Final(s) then s
    else Settled(s.(status := Running, progress := s.progress + Step(s.progress, s.total)))
  }

  // ------------------------------------------------------------ requests

  /** A create request after its texts have been read. */
  datatype Request = Request(guest: bool, named: bool, dated: bool, hasStrategy: bool,
                             fromMs: Option<int>, toMs: Option<int>, riskTight: bool, solUsdt: bool)

  datatype Event =
    | Tick
    | Create(request: Request, id: string)
    | Retry(source: string, id: string)
    | Cancel(id: string)

  datatype Reply = Stored(session: Session) | PermissionDenied | ValidationError | NotFound | InvalidStatus

  /** Batches for a date range: four an hour, at least six hours' worth. */
  function TotalFor(fromMs: Option<int>, toMs: Option<int>): Total {
    if fromMs.None? || toMs.None? then NotANumber
    else
      var rounded := (toMs.value - fromMs.value + MS_PER_HOUR / 2) / MS_PER_HOUR;
      var hours := if rounded > 6 then rounded else 6;
      Batches(if hours * 4 > 24 then hours * 4 else 24)
  }

  function Created(r: Request): Session {
    var scenario := if r.riskTight then SolverError else if r.solUsdt then NoData else Completes;
    Session(Pending, 0, TotalFor(r.fromMs, r.toMs), scenario, true, "")
  }

  function Retried(s: Session): Session {
    s.(status := Pending, progress := 0, partialSummary := true, errorCode := "",
       scenario := if s.scenario.NoData? then Completes else s.scenario)
  }

  function CancelledByUser(s: Session): Session {
    s.(status := Cancelled, partialSummary := true, errorCode := "cancelled_by_user")
  }

  function CreateReply(r: Request): Reply {
    if r.guest then PermissionDenied
    else if !r.named || !r.dated || !r.hasStrategy then ValidationError
    else Stored(Created(r))
  }

  function RetryReply(store: Store, source: string): Reply {
    if source !in store then NotFound
    else if !(store[source].status.Failed? || store[source].status.Cancelled?) then InvalidStatus
    else Stored(Retried(store[source]))
  }

  function CancelReply(store: Store, id: string): Reply {
    if id !in store then NotFound
    else if !Live(store[id]) then InvalidStatus
    else Stored(CancelledByUser(store[id]))
  }

  /** A range of whole hours has four batches an hour, and never fewer than 24. */
  lemma BatchesPerHour(fromMs: int, hours: int)
    ensures TotalFor(Some(fromMs), Some(fromMs + hours * MS_PER_HOUR))
            == Batches(if hours < 6 then 24 else 4 * hours)
  {
    assert (hours * MS_PER_HOUR + MS_PER_HOUR / 2) / MS_PER_HOUR == hours;
  }

  /** A request either stores one session under its id or changes nothing. */
  function Put(store: Store, id: string, reply: Reply): Store {
    if reply.Stored? then store[id := reply.session] else store
  }

  function Apply(store: Store, e: Event): Store {
    match e
    case Tick => map id | id in store :: Ticked(store[id])
    case Create(r, id) => Put(store, id, CreateReply(r))
    case Retry(source, id) => Put(store, id, RetryReply(store, source))
    case Cancel(id) => Put(store, id, CancelReply(store, id))
  }

  function Run(store: Store, events: seq<Event>): Store
    decreases |events|
  {
    if events == [] then store else Run(Apply(store, events[0]), events[1..])
  }

  // ----------------------------------------------------------- the store

  const DEMO_COMPLETED := "rpl-2026-0412-013"
  const DEMO_RUNNING := "rpl-2026-0412-014"
  const DEMO_FAILED := "rpl-2026-0411-021"
  const DEMO_CANCELLED := "rpl-2026-0410-005"

  function DemoSessions(): Store {
    map[DEMO_COMPLETED := Session(Completed, 1200, Batches(1200), Completes, false, ""),
        DEMO_RUNNING := Session(Running, 744, Batches(1200), Completes, true, ""),
        DEMO_FAILED := Session(Failed, 492, Batches(1200), SolverError, true, "solver_error"),
        DEMO_CANCELLED := Session(Cancelled, 16, Batches(80), NoData, true, "no_data")]
  }

  lemma DemoIdsDiffer()
    ensures DEMO_COMPLETED != DEMO_RUNNING && DEMO_COMPLETED != DEMO_FAILED && DEMO_COMPLETED != DEMO_CANCELLED
    ensures DEMO_RUNNING != DEMO_FAILED && DEMO_RUNNING != DEMO_CANCELLED && DEMO_FAILED != DEMO_CANCELLED
  {
    assert DEMO_COMPLETED[16] == '3' && DEMO_RUNNING[16] == '4' && DEMO_FAILED[16] == '1' && DEMO_CANCELLED[16] == '5';
  }

  /** The store while the ticker is at position `n` of the order. */
  ghost predicate HalfTicked(before: Store, now: Store, order: seq<string>, n: nat) {
    && now.Keys == before.Keys && n <= |order| && (forall j :: 0 <= j < |order| ==> order[j] in now)
    && (forall j :: 0 <= j < n ==> now[order[j]] == Ticked(before[order[j]]))
    && (forall j :: n <= j < |order| ==> now[order[j]] == before[order[j]])
  }

  lemma NoneTicked(before: Store, order: seq<string>)
    requires forall j :: 0 <= j < |order| ==> order[j] in before
    ensures HalfTicked(before, before, order, 0)
  {
  }

  lemma OneMoreTicked(before: Store, now: Store, order: seq<string>, n: nat)
    requires n < |order| && HalfTicked(before, now, order, n)
    requires forall i, j :: 0 <= i < j < |order| ==> order[i] != order[j]
    ensures order[n] in now
    ensures HalfTicked(before, now[order[n] := Ticked(now[order[n]])], order, n + 1)
  {
    hide Ticked;
  }

  lemma AllTicked(before: Store, now: Store, order: seq<string>)
    requires HalfTicked(before, now, order, |order|) && forall id :: id in before ==> id in order
    ensures now == Apply(before, Tick)
  {
    hide Ticked;
    forall id | id in now ensures now[id] == Ticked(before[id]) {
      var j :| 0 <= j < |order| && order[j] == id;
    }
  }

  /** A JavaScript Map: its entries, and the order in which keys were first set. */
  class SessionStore {
    var sessions: Store
    var order: seq<string>

    ghost predicate Valid()
      reads this
    {
      && (forall i, j :: 0 <= i < j < |order| ==> order[i] != order[j])
      && (forall id :: id in sessions <==> id in order)
    }

    /** The gateway starts with four demonstration sessions. */
    constructor ()
      ensures Valid() && sessions == DemoSessions() && AllSound(sessions)
    {
      sessions := DemoSessions();
      order := [DEMO_COMPLETED, DEMO_RUNNING, DEMO_FAILED, DEMO_CANCELLED];
      new;
      DemoIdsDiffer();
      hide Sound, AllSound;
      DemoSound();
    }

    method Set(id: string, session: Session)
      requires Valid()
      modifies this
      ensures Valid() && sessions == old(sessions)[id := session]
      ensures order == if id in old(sessions) then old(order) else old(order) + [id]
    {
      if id !in sessions {
        assert forall k :: k in order + [id] <==> k in order || k == id;
        order := order + [id];
      }
      sessions := sessions[id := session];
    }

    method TickAll()
      requires Valid()
      modifies this`sessions
      ensures Valid() && sessions == Apply(old(sessions), Tick)
    {
      ghost var before := sessions;
      hide Ticked, Apply, HalfTicked;
      NoneTicked(before, order);
      for i := 0 to |order|
        invariant Valid() && HalfTicked(before, sessions, order, i)
      {
        var session := sessions[order[i]];
        session := Advance(session);
        OneMoreTicked(before, sessions, order, i);
        sessions := sessions[order[i] := session];
      }
      AllTicked(before, sessions, order);
    }

    method CreateSession(r: Request, id: string) returns (reply: Reply)
      requires Valid()
      modifies this
      ensures Valid() && reply == CreateReply(r)
      ensures sessions == Apply(old(sessions), Create(r, id))
    {
      if r.guest { return PermissionDenied; }
      if !r.named { return ValidationError; }
      if !r.dated { return ValidationError; }
      if !r.hasStrategy { return ValidationError; }
      var session := Created(r);
      Set(id, session);
      reply := Stored(session);
    }

    method RetrySession(source: string, id: string) returns (reply: Reply)
      requires Valid()
      modifies this
      ensures Valid() && reply == RetryReply(old(sessions), source)
      ensures sessions == Apply(old(sessions), Retry(source, id))
    {
      if source !in sessions { return NotFound; }
      var session := sessions[source];
      if !(session.status.Failed? || session.status.Cancelled?) { return InvalidStatus; }
      Set(id, Retried(session));
      reply := Stored(Retried(session));
    }

    method CancelSession(id: string) returns (reply: Reply)
      requires Valid()
      modifies this
      ensures Valid() && reply == CancelReply(old(sessions), id)
      ensures sessions == Apply(old(sessions), Cancel(id)) && order == old(order)
    {
      if id !in sessions { return NotFound; }
      var session := sessions[id];
      if !(session.status.Pending? || session.status.Running?) { return InvalidStatus; }
      session := session.(status := Cancelled, partialSummary := true, errorCode := "cancelled_by_user");
      Set(id, session);
      reply := Stored(session);
    }
  }

  /** One session through one tick, batch by batch. */
  method Advance(start: Session) returns (s: Session)
    ensures s == Ticked(start)
  {
    s := start;
    if s.status.Pending? { s := s.(status := Running); }
    if !s.status.Running? { return; }
    var step := Step(s.progress, s.total);
    for index := 0 to step
      invariant s == start.(status := Running, progress := start.progress + index)
    {
      s := s.(progress := s.progress + 1);
    }
    if s.total.NotANumber? { return; }
    if s.scenario.SolverError? && s.progress >= FailurePoint(s.total.count) {
      s := s.(status := Failed, errorCode := "solver_error", partialSummary := true);
    } else if s.progress >= s.total.count {
      s := s.(status := if s.scenario.NoData? then Cancelled else Completed);
      s := s.(partialSummary := !s.status.Completed?);
    }
  }

  lemma DemoSound()
    ensures AllSound(DemoSessions())
  {
    DemoIdsDiffer();
    hide DEMO_COMPLETED, DEMO_RUNNING, DEMO_FAILED, DEMO_CANCELLED;
  }

  // ------------------------------------------------------------- safety

  /** What every session looks like, at all times. */
  predicate Sound(s: Session) {
    && (s.total.Batches? ==> s.progress <= s.total.count)
    && (s.total.NotANumber? ==> s.progress == 0 && !s.status.Completed? && !s.status.Failed?)
    && (s.status.Pending? ==> s.progress == 0)
    && (s.status.Completed? ==> s.scenario.Completes? && s.progress == s.total.count)
    && (s.status.Failed? ==> s.scenario.SolverError? && s.errorCode == "solver_error")
    && (s.partialSummary <==> !s.status.Completed?)
    && (Live(s) || s.status.Completed? ==> s.errorCode == "")
  }

  ghost predicate AllSound(store: Store) {
    forall id :: id in store ==> Sound(store[id])
  }

  lemma TickedSound(s: Session)
    requires Sound(s)
    ensures Sound(Ticked(s)) && Ticked(s).progress >= s.progress
    ensures Live(s) ==> !Ticked(s).status.Pending?
  {
  }

  lemma ApplySound(store: Store, e: Event)
    requires AllSound(store)
    ensures AllSound(Apply(store, e))
  {
    hide Ticked, TotalFor;
    if e.Tick? {
      forall id | id in store ensures Sound(Ticked(store[id])) { TickedSound(store[id]); }
    }
  }

  /** Whatever the interleaving: progress never passes the total, and statuses stay truthful. */
  lemma {:induction false} RunSound(store: Store, events: seq<Event>)
    requires AllSound(store)
    ensures AllSound(Run(store, events))
    decreases |events|
  {
    if events != [] {
      ApplySound(store, events[0]);
      RunSound(Apply(store, events[0]), events[1..]);
    }
  }

  /** The event stores a new session under `id`. */
  predicate Replaces(store: Store, e: Event, id: string) {
    || (e.Create? && e.id == id && CreateReply(e.request).Stored?)
    || (e.Retry? && e.id == id && RetryReply(store, e.source).Stored?)
  }

  predicate ReplacedDuring(store: Store, events: seq<Event>, id: string)
    decreases |events|
  {
    events != []
    && (Replaces(store, events[0], id) || ReplacedDuring(Apply(store, events[0]), events[1..], id))
  }

  /** A finished session survives an event unchanged exactly when the event does not reuse its id. */
  lemma FinalKeptIffIdNotReused(store: Store, e: Event, id: string)
    requires id in store && Final(store[id])
    ensures id in Apply(store, e)
    ensures Apply(store, e)[id] == store[id] <==> !Replaces(store, e, id)
  {
  }

  /** So over any run: a finished session is never changed again unless its id is reused. */
  lemma {:induction false} FinalNeverChanges(store: Store, events: seq<Event>, id: string)
    requires id in store && Final(store[id]) && !ReplacedDuring(store, events, id)
    ensures id in Run(store, events) && Run(store, events)[id] == store[id]
    decreases |events|
  {
    if events != [] {
      FinalKeptIffIdNotReused(store, events[0], id);
      FinalNeverChanges(Apply(store, events[0]), events[1..], id);
    }
  }

  /** Ids are not distinct: a retry within the same clock reading overwrites a finished session. */
  lemma ReusedIdOverwrites(store: Store, id: string)
    requires id in store && store[id].status.Failed?
    ensures id in Run(store, [Retry(id, id)]) && Run(store, [Retry(id, id)])[id].status.Pending?
  {
    var events := [Retry(id, id)];
    assert events[1..] == [];
    assert Run(store, events) == Run(Apply(store, events[0]), events[1..]);
  }

  // --------------------------------------------------------- termination

  function TicksIn(events: seq<Event>): nat {
    if events == [] then 0 else (if events[0].Tick? then 1 else 0) + TicksIn(events[1..])
  }

  /** After `k` ticks a live session has replayed at least its `k` twenty-fourths. */
  predicate OnSchedule(s: Session, k: nat) {
    && s.total.Batches?
    && (Live(s) ==> s.progress * TICKS >= k * s.total.count && (k > 0 ==> s.progress < s.total.count))
  }

  lemma StrideCovers(total: nat)
    ensures CeilDiv(total, TICKS) * TICKS >= total
  {
  }

  lemma TickKeepsSchedule(s: Session, k: nat)
    requires OnSchedule(s, k)
    ensures OnSchedule(Ticked(s), k + 1)
  {
    if Live(s) {
      StrideCovers(s.total.count);
      hide CeilDiv;
      assert (k + 1) * s.total.count == k * s.total.count + s.total.count;
    }
  }

  lemma OtherEventKeepsSchedule(store: Store, e: Event, id: string, k: nat)
    requires id in store && OnSchedule(store[id], k) && !e.Tick? && !Replaces(store, e, id)
    ensures id in Apply(store, e) && OnSchedule(Apply(store, e)[id], k)
  {
  }

  lemma {:induction false} RunKeepsSchedule(store: Store, events: seq<Event>, id: string, k: nat)
    requires id in store && OnSchedule(store[id], k) && !ReplacedDuring(store, events, id)
    ensures id in Run(store, events) && OnSchedule(Run(store, events)[id], k + TicksIn(events))
    decreases |events|
  {
    hide OnSchedule;
    if events != [] {
      var next := Apply(store, events[0]);
      if events[0].Tick? {
        TickKeepsSchedule(store[id], k);
        RunKeepsSchedule(next, events[1..], id, k + 1);
      } else {
        OtherEventKeepsSchedule(store, events[0], id, k);
        RunKeepsSchedule(next, events[1..], id, k);
      }
    }
  }

  lemma NatScale(a: nat, b: nat, c: nat)
    requires a <= b
    ensures a * c <= b * c
  {
  }

  lemma LateIsFinal(s: Session, k: nat)
    requires OnSchedule(s, k) && k >= TICKS
    ensures Final(s)
  {
    NatScale(TICKS, k, s.total.count);
  }

  /**
    Bounded termination: in any run, whatever else happens to whichever session, one with a
    numeric total is final once the run contains twenty-four ticks.
   */
  lemma FinalWithinTwentyFourTicks(store: Store, events: seq<Event>, id: string)
    requires id in store && store[id].total.Batches? && !ReplacedDuring(store, events, id)
    requires TicksIn(events) >= TICKS
    ensures id in Run(store, events) && Final(Run(store, events)[id])
  {
    RunKeepsSchedule(store, events, id, 0);
    LateIsFinal(Run(store, events)[id], TicksIn(events));
  }

  function AfterTicks(s: Session, n: nat): Session {
    if n == 0 then s else Ticked(AfterTicks(s, n - 1))
  }

  predicate EndsAfter(s: Session, n: nat) { Final(AfterTicks(s, n)) }

  lemma {:induction false} AfterTicksOnSchedule(s: Session, n: nat)
    requires s.total.Batches?
    ensures OnSchedule(AfterTicks(s, n), n)
  {
    if n > 0 {
      AfterTicksOnSchedule(s, n - 1);
      TickKeepsSchedule(AfterTicks(s, n - 1), n - 1);
    }
  }

  lemma {:induction false} NaNNeverEnds(s: Session, n: nat)
    requires Live(s) && s.total.NotANumber?
    ensures Live(AfterTicks(s, n)) && AfterTicks(s, n).total.NotANumber? && AfterTicks(s, n).progress == s.progress
  {
    if n > 0 { NaNNeverEnds(s, n - 1); }
  }

  /**
    Left to the ticker, a newly created session ends if and only if both its dates can be
    parsed; otherwise it runs, at no progress, for ever.
   */
  lemma CreatedEndsIffDatesParse(r: Request)
    ensures (exists n :: EndsAfter(Created(r), n)) <==> (r.fromMs.Some? && r.toMs.Some?)
  {
    var s := Created(r);
    if r.fromMs.Some? && r.toMs.Some? {
      AfterTicksOnSchedule(s, TICKS);
      LateIsFinal(AfterTicks(s, TICKS), TICKS);
      assert EndsAfter(s, TICKS);
    } else {
      forall n ensures !EndsAfter(s, n) { NaNNeverEnds(s, n); }
    }
  }

  lemma OneOfTwentyFour(s: Session)
    requires Live(s) && s.total == Batches(24) && s.scenario.Completes? && s.progress + 1 < 24
    ensures Ticked(s) == s.(status := Running, progress := s.progress + 1)
  {
  }

  /** The bound is reached: a session of 24 batches is still running after 23 ticks. */
  lemma {:induction false} TwentyFourTicksNeeded(s: Session, n: nat)
    requires s == Session(Pending, 0, Batches(24), Completes, true, "") && n < TICKS
    ensures Live(AfterTicks(s, n)) && AfterTicks(s, n) == s.(status := AfterTicks(s, n).status, progress := n)
  {
    hide Ticked;
    if n > 0 {
      TwentyFourTicksNeeded(s, n - 1);
      OneOfTwentyFour(AfterTicks(s, n - 1));
    }
  }

  // --------------------------------------------------------------- fate

  /** How an uncancelled session of a scenario ends. */
  predicate Fate(s: Session) {
    && s.total.Batches?
    && match s.scenario
       case Completes => s.status.Completed? && s.progress == s.total.count && !s.partialSummary
       case NoData => s.status.Cancelled? && s.progress == s.total.count && s.partialSummary
       case SolverError =>
         s.status.Failed? && s.total.count * 52 < (s.progress + 1) * 100 && s.progress <= s.total.count && s.partialSummary
  }

  predicate Underway(s: Session) {
    Live(s) && s.total.Batches? && s.progress <= s.total.count
  }

  lemma {:induction false} TickedTowardsFate(s: Session, n: nat)
    requires Underway(s)
    ensures var t := AfterTicks(s, n);
            t.scenario == s.scenario && t.total == s.total && (Underway(t) || Fate(t))
  {
    if n > 0 { TickedTowardsFate(s, n - 1); }
  }

  /** Uncancelled, a session ends as its scenario says, within twenty-four ticks. */
  lemma ScenarioDecidesFate(s: Session, n: nat)
    requires Underway(s) && n >= TICKS
    ensures Fate(AfterTicks(s, n)) && AfterTicks(s, n).scenario == s.scenario
  {
    TickedTowardsFate(s, n);
    AfterTicksOnSchedule(s, n);
    LateIsFinal(AfterTicks(s, n), n);
  }

  /** Retrying helps exactly the sessions whose dates could be read and that the solver did not stop. */
  lemma RetrySucceedsUnlessSolverFails(s: Session, n: nat)
    requires n >= TICKS
    ensures AfterTicks(Retried(s), n).status.Completed? <==> s.total.Batches? && !s.scenario.SolverError?
    ensures AfterTicks(Retried(s), n).status.Failed? <==> s.total.Batches? && s.scenario.SolverError?
  {
    if s.total.Batches? {
      ScenarioDecidesFate(Retried(s), n);
    } else {
      NaNNeverEnds(Retried(s), n);
    }
  }
}
