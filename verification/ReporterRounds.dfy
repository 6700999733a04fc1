/** The results of one due time among everything else that happens: which batch they form, and how it is reported. */
module ReporterRounds {
  import opened Sequences
  import opened Collector
  import opened Reporting
  import opened ReporterTheorems
  import ReporterMemory

  // ---------- Runs from any state ----------

  ghost function RunFrom(st: Settings, s: State, events: seq<Event>): State {
    if events == [] then s else Step(st, RunFrom(st, s, events[..|events| - 1]), events[|events| - 1])
  }

  /** Every event was possible when it happened. */
  ghost predicate LegalFrom(st: Settings, s: State, events: seq<Event>) {
    events == [] || (LegalFrom(st, s, events[..|events| - 1])
                     && Legal(RunFrom(st, s, events[..|events| - 1]), events[|events| - 1]))
  }

  lemma RunSnoc(st: Settings, events: seq<Event>, ev: Event)
    ensures Run(st, events + [ev]) == Step(st, Run(st, events), ev)
    ensures ValidRun(st, events + [ev]) ==> ValidRun(st, events) && Legal(Run(st, events), ev)
  {
    assert (events + [ev])[..|events|] == events;
    if ValidRun(st, events + [ev]) { ValidPrefix(st, events + [ev]); }
  }

  /** A run from the start is one from any of its states on. */
  lemma {:induction false} RunGoesOn(st: Settings, before: seq<Event>, events: seq<Event>)
    ensures Run(st, before + events) == RunFrom(st, Run(st, before), events)
    ensures ValidRun(st, before + events) ==> LegalFrom(st, Run(st, before), events)
  {
    if events == [] {
      assert before + events == before;
    } else {
      var front, last := events[..|events| - 1], events[|events| - 1];
      RunGoesOn(st, before, front);
      RunSnoc(st, before + front, last);
      ConcatSnoc(before, events);
    }
  }

  // ---------- What concerns one due time ----------

  /** The batch that a list of results builds up, later results overwriting earlier ones. */
  function Collected(rs: seq<Result>): Batch {
    if rs == [] then map[] else Collected(rs[..|rs| - 1])[rs[|rs| - 1].name := rs[|rs| - 1]]
  }

  ghost predicate DistinctNames(rs: seq<Result>) {
    forall i, j | 0 <= i < j < |rs| :: rs[i].name != rs[j].name
  }

  lemma {:induction false} CollectedExactly(rs: seq<Result>)
    requires DistinctNames(rs)
    ensures forall n :: n in Collected(rs) <==> exists r | r in rs :: r.name == n
    ensures forall r | r in rs :: Collected(rs)[r.name] == r
  {
    if rs != [] {
      var front, last := rs[..|rs| - 1], rs[|rs| - 1];
      CollectedExactly(front);
      assert rs == front + [last];
      assert last in rs;
      forall n | n in Collected(rs) ensures exists r | r in rs :: r.name == n {
        if n != last.name {
          assert n in Collected(front);
          var r :| r in front && r.name == n;
          assert r in rs;
        }
      }
    }
  }

  /** The results of one due time, one per expected collector. */
  ghost predicate FullRound(st: Settings, due: Time, rs: seq<Result>) {
    && rs != [] && DistinctNames(rs)
    && (forall r | r in rs :: r.due == due && r.name in Expected(st, due))
    && forall n | n in Expected(st, due) :: exists r | r in rs :: r.name == n
  }

  predicate Concerns(ev: Event, due: Time) { ev.Arrive? && ev.res.due == due }

  function NextResults(rs: seq<Result>, ev: Event, due: Time): seq<Result> {
    if Concerns(ev, due) then rs + [ev.res] else rs
  }

  /** The results for due among the events, in the order of their arrival. */
  function ResultsFor(events: seq<Event>, due: Time): seq<Result> {
    if events == [] then [] else NextResults(ResultsFor(events[..|events| - 1], due), events[|events| - 1], due)
  }

  function NextDeadline(st: Settings, deadline: Option<Time>, ev: Event, due: Time): Option<Time> {
    if deadline.None? && Concerns(ev, due) then Some(ev.now + BatchWait(st)) else deadline
  }

  /** The deadline of the batch for due, which the first of them fixes. */
  function Deadline(st: Settings, events: seq<Event>, due: Time): Option<Time> {
    if events == [] then None else NextDeadline(st, Deadline(st, events[..|events| - 1], due), events[|events| - 1], due)
  }

  /** No timer event comes when the deadline has passed. */
  predicate TimersInTime(st: Settings, events: seq<Event>, due: Time) {
    events == [] || (&& TimersInTime(st, events[..|events| - 1], due)
                     && var last, deadline := events[|events| - 1], Deadline(st, events[..|events| - 1], due);
                     (last.Fire? && deadline.Some? ==> last.now < deadline.value))
  }

  /** Not all the collectors expected at due have reported. */
  ghost predicate Incomplete(st: Settings, due: Time, rs: seq<Result>) { !(Expected(st, due) <= Collected(rs).Keys) }

  /** Everything about due is the same after as before, and nothing was reported for it. */
  ghost predicate Untouched(s: State, s': State, due: Time) {
    && (due in s'.pending <==> due in s.pending) && (due in s.pending ==> s'.pending[due] == s.pending[due])
    && (due in s'.deadlines <==> due in s.deadlines) && (due in s.deadlines ==> s'.deadlines[due] == s.deadlines[due])
    && (due in s'.flushedDue ==> due in s.flushedDue)
    && NoReport(s, s', due)
  }

  ghost predicate NoReport(s: State, s': State, due: Time) {
    s.emitted <= s'.emitted && forall k | |s.emitted| <= k < |s'.emitted| :: s'.emitted[k].due != due
  }

  lemma ArrivalElsewhere(st: Settings, s: State, res: Result, now: Time, clock: Time, due: Time)
    requires Core(st, s) && now > 0 && res.due != due
    ensures Untouched(s, AfterResult(st, s, res, now, clock), due)
  {
    if res.due !in s.flushedDue {
      JoinedCore(st, s, res, now);
      var s1 := Joined(st, s, res, now);
      if Expected(st, res.due) <= s1.pending[res.due].Keys { FlushedCore(st, s1, res.due, clock); }
    }
  }

  lemma TimerElsewhere(st: Settings, s: State, now: Time, clock: Time, order: seq<Time>, due: Time)
    requires Invariant(st, s) && Listing(order, s.deadlines.Keys) && !Expired(s, due, now)
    ensures Untouched(s, AfterTimer(st, s, now, clock, order), due)
  {
    SweptForm(st, s, order, now, clock);
    var s' := Swept(st, s, order, now, clock);
    forall k | |s.emitted| <= k < |s'.emitted| ensures s'.emitted[k].due != due {
      assert Since(s, s')[k - |s.emitted|] == s'.emitted[k];
      assert s'.emitted[k] in Since(s, s');
    }
    ReporterMemory.SweptMemory(st, s, order, now, clock);
    ReporterMemory.KeptIsKnown(s.flushedDue, ReporterMemory.DuesFlushed(s, order, now), due);
    ReporterMemory.DuesFlushedAreExpired(s, order, now, due);
  }

  /** Whatever else happens, a due time is left alone, until a result for it arrives or its deadline passes. */
  lemma OthersLeaveAlone(st: Settings, s: State, ev: Event, due: Time)
    requires Invariant(st, s) && Legal(s, ev) && !Concerns(ev, due)
    requires ev.Fire? ==> !Expired(s, due, ev.now)
    ensures Untouched(s, Step(st, s, ev), due)
  {
    match ev
    case Arrive(res, now, clock) => ArrivalElsewhere(st, s, res, now, clock, due);
    case Fire(now, clock, order) => TimerElsewhere(st, s, now, clock, order, due);
  }

  /** A result that leaves its batch incomplete joins it, and nothing is reported. */
  lemma ArrivalJoins(st: Settings, s: State, res: Result, now: Time, clock: Time)
    requires Core(st, s) && now > 0 && res.due !in s.flushedDue
    requires !(Expected(st, res.due) <= OpenBatch(s, res.due)[res.name := res].Keys)
    ensures var s' := AfterResult(st, s, res, now, clock);
            && res.due in s'.pending && s'.pending[res.due] == OpenBatch(s, res.due)[res.name := res]
            && res.due in s'.deadlines
            && s'.deadlines[res.due] == (if res.due in s.pending then s.deadlines[res.due] else now + BatchWait(st))
            && s'.flushedDue == s.flushedDue && s'.emitted == s.emitted
  {
    JoinedCore(st, s, res, now);
  }

  /** The state of due after the events: an open batch of exactly the results that arrived for it, or none. */
  ghost predicate OpenWith(st: Settings, s: State, due: Time, rs: seq<Result>, deadline: Option<Time>) {
    && due !in s.flushedDue
    && if rs == [] then due !in s.pending && deadline == None
       else && due in s.pending && s.pending[due] == Collected(rs)
            && due in s.deadlines && deadline == Some(s.deadlines[due])
  }

  ghost predicate Fresh(s: State, due: Time) { due !in s.pending && due !in s.flushedDue }

  lemma {:induction false} CollectedGrows(rs: seq<Result>, res: Result)
    ensures Collected(rs + [res]) == Collected(rs)[res.name := res]
  {
    assert (rs + [res])[..|rs|] == rs;
  }

  /** Until its batch is complete or its deadline passes, due collects its results, and nothing is reported for it. */
  lemma {:induction false} StaysOpen(st: Settings, s: State, events: seq<Event>, due: Time)
    requires Invariant(st, s) && Fresh(s, due) && LegalFrom(st, s, events)
    requires TimersInTime(st, events, due) && Incomplete(st, due, ResultsFor(events, due))
    ensures var s' := RunFrom(st, s, events);
            && Invariant(st, s') && NoReport(s, s', due)
            && OpenWith(st, s', due, ResultsFor(events, due), Deadline(st, events, due))
  {
    if events != [] {
      var before, ev := events[..|events| - 1], events[|events| - 1];
      IncompleteBefore(st, due, ResultsFor(before, due), ev);
      StaysOpen(st, s, before, due);
      StepStaysOpen(st, s, RunFrom(st, s, before), ev, due, ResultsFor(before, due), Deadline(st, before, due));
    }
  }

  lemma IncompleteBefore(st: Settings, due: Time, rs: seq<Result>, ev: Event)
    requires Incomplete(st, due, NextResults(rs, ev, due))
    ensures Incomplete(st, due, rs)
  {
    if Concerns(ev, due) { CollectedGrows(rs, ev.res); }
  }

  lemma NoReportMore(s: State, s1: State, s2: State, due: Time)
    requires NoReport(s, s1, due) && NoReport(s1, s2, due)
    ensures NoReport(s, s2, due)
  {
    forall k | |s.emitted| <= k < |s2.emitted| ensures s2.emitted[k].due != due {
      if k < |s1.emitted| { assert s1.emitted[k] == s2.emitted[k]; }
    }
  }

  lemma StepStaysOpen(st: Settings, s0: State, s: State, ev: Event, due: Time, rs: seq<Result>, deadline: Option<Time>)
    requires Invariant(st, s) && Legal(s, ev) && NoReport(s0, s, due) && OpenWith(st, s, due, rs, deadline)
    requires ev.Fire? && deadline.Some? ==> ev.now < deadline.value
    requires Incomplete(st, due, NextResults(rs, ev, due))
    ensures Invariant(st, Step(st, s, ev)) && NoReport(s0, Step(st, s, ev), due)
    ensures OpenWith(st, Step(st, s, ev), due, NextResults(rs, ev, due), NextDeadline(st, deadline, ev, due))
  {
    StepInvariant(st, s, ev);
    if Concerns(ev, due) {
      CollectedGrows(rs, ev.res);
      ArrivalJoins(st, s, ev.res, ev.now, ev.clock);
    } else {
      OthersLeaveAlone(st, s, ev, due);
    }
    NoReportMore(s0, s, Step(st, s, ev), due);
  }

  // ---------- How the batch is reported ----------

  /**
    * The events collect the results for due and end with what closes its batch: the result that completes
    * it, or a timer event when the deadline has passed. Anything may happen for other due times in between.
    */
  ghost predicate Closes(st: Settings, s: State, events: seq<Event>, due: Time) {
    && Invariant(st, s) && Fresh(s, due) && LegalFrom(st, s, events) && events != []
    && var before, last := events[..|events| - 1], events[|events| - 1];
    && TimersInTime(st, before, due) && Incomplete(st, due, ResultsFor(before, due))
    && if last.Arrive? then last.res.due == due && !Incomplete(st, due, ResultsFor(events, due))
       else Deadline(st, before, due).Some? && Deadline(st, before, due).value <= last.now
  }

  /** Report k is for due and holds this batch, and no other new report is for due. */
  ghost predicate OnlyReport(st: Settings, s: State, s': State, due: Time, batch: Batch, k: nat) {
    && |s.emitted| <= k < |s'.emitted| && s.emitted <= s'.emitted
    && s'.emitted[k].due == due && s'.emitted[k].batch == batch && Numbered(st, s'.emitted[k], k + 1)
    && forall m | |s.emitted| <= m < |s'.emitted| && m != k :: s'.emitted[m].due != due
  }

  lemma LastResultReports(st: Settings, s: State, res: Result, now: Time, clock: Time)
    requires Core(st, s) && res.due !in s.flushedDue && now > 0
    requires Expected(st, res.due) <= OpenBatch(s, res.due)[res.name := res].Keys
    ensures OnlyReport(st, s, AfterResult(st, s, res, now, clock), res.due, OpenBatch(s, res.due)[res.name := res],
                       |s.emitted|)
  {
    JoinedCore(st, s, res, now);
    FlushedCore(st, Joined(st, s, res, now), res.due, clock);
  }

  lemma ExpiryReports(st: Settings, s: State, now: Time, clock: Time, order: seq<Time>, due: Time) returns (k: nat)
    requires Invariant(st, s) && Listing(order, s.deadlines.Keys) && due in s.pending && Expired(s, due, now)
    ensures OnlyReport(st, s, AfterTimer(st, s, now, clock, order), due, s.pending[due], k)
  {
    SweptForm(st, s, order, now, clock);
    SweptCore(st, s, order, now, clock);
    var s' := Swept(st, s, order, now, clock);
    assert due in ExpiredAmong(s, order, now);
    k := ReportAmong(st, s, s', ExpiredAmong(s, order, now), due, clock);
    assert Numbered(st, s'.emitted[k], k + 1);
  }

  lemma OneAmong(st: Settings, s: State, es: seq<Emission>, dues: set<Time>, due: Time, clock: Time) returns (i: nat)
    requires ReportsExactly(st, s, es, dues, clock) && due in dues
    ensures i < |es| && es[i].due == due && FlushOf(st, s, es[i], clock)
    ensures forall m | 0 <= m < |es| && m != i :: es[m].due != due
  {
    var e :| e in es && e.due == due;
    i :| i < |es| && es[i] == e;
  }

  lemma ReportAmong(st: Settings, s: State, s': State, dues: set<Time>, due: Time, clock: Time) returns (k: nat)
    requires s.emitted <= s'.emitted && ReportsExactly(st, s, Since(s, s'), dues, clock) && due in dues
    ensures due in s.pending && |s.emitted| <= k < |s'.emitted|
    ensures s'.emitted[k].due == due && s'.emitted[k].batch == s.pending[due]
    ensures forall m | |s.emitted| <= m < |s'.emitted| && m != k :: s'.emitted[m].due != due
  {
    var n, es := |s.emitted|, Since(s, s');
    var i := OneAmong(st, s, es, dues, due, clock);
    k := n + i;
    forall m | n <= m < |s'.emitted| && m != k ensures s'.emitted[m].due != due {
      assert es[m - n] == s'.emitted[m];
    }
  }

  lemma OnlyReportAfter(st: Settings, s: State, s1: State, s': State, due: Time, batch: Batch, k: nat)
    requires NoReport(s, s1, due) && OnlyReport(st, s1, s', due, batch, k)
    ensures OnlyReport(st, s, s', due, batch, k)
  {
    forall m | |s.emitted| <= m < |s1.emitted| ensures s'.emitted[m].due != due {
      assert s'.emitted[m] == s1.emitted[m];
    }
  }

  /** The batch is then reported exactly once, with exactly the results that arrived for due. */
  lemma {:induction false} BatchIsReported(st: Settings, s: State, events: seq<Event>, due: Time) returns (k: nat)
    requires Closes(st, s, events, due)
    ensures OnlyReport(st, s, RunFrom(st, s, events), due, Collected(ResultsFor(events, due)), k)
  {
    var before, last := events[..|events| - 1], events[|events| - 1];
    var s1 := RunFrom(st, s, before);
    StaysOpen(st, s, before, due);
    k := ClosingReports(st, s1, last, due, ResultsFor(before, due), Deadline(st, before, due));
    OnlyReportAfter(st, s, s1, RunFrom(st, s, events), due, Collected(ResultsFor(events, due)), k);
  }

  lemma ClosingReports(st: Settings, s: State, ev: Event, due: Time, rs: seq<Result>, deadline: Option<Time>)
    returns (k: nat)
    requires Invariant(st, s) && Legal(s, ev) && OpenWith(st, s, due, rs, deadline)
    requires if ev.Arrive? then ev.res.due == due && !Incomplete(st, due, rs + [ev.res])
             else deadline.Some? && deadline.value <= ev.now
    ensures OnlyReport(st, s, Step(st, s, ev), due, Collected(if ev.Arrive? then rs + [ev.res] else rs), k)
  {
    match ev
    case Arrive(res, now, clock) =>
      CollectedGrows(rs, res);
      LastResultReports(st, s, res, now, clock);
      k := |s.emitted|;
    case Fire(now, clock, order) =>
      k := ExpiryReports(st, s, now, clock, order, due);
  }

  /** One result from each expected collector, in any order, and no timer event after the deadline: a full report. */
  lemma {:induction false} RoundIsReported(st: Settings, s: State, events: seq<Event>, due: Time) returns (k: nat)
    requires Invariant(st, s) && Fresh(s, due) && LegalFrom(st, s, events)
    requires FullRound(st, due, ResultsFor(events, due))
    requires events[|events| - 1].Arrive? && events[|events| - 1].res.due == due
    requires TimersInTime(st, events, due)
    ensures OnlyReport(st, s, RunFrom(st, s, events), due, Collected(ResultsFor(events, due)), k)
    ensures RunFrom(st, s, events).emitted[k].batch.Keys == Expected(st, due)
  {
    var all := ResultsFor(events, due);
    MissingFromPrefix(st, due, all, |all| - 1);
    CollectedExactly(all);
    assert all[..|all| - 1] == ResultsFor(events[..|events| - 1], due);
    k := BatchIsReported(st, s, events, due);
  }

  /** Before the last result of a round, an expected collector is missing. */
  lemma MissingFromPrefix(st: Settings, due: Time, all: seq<Result>, n: nat)
    requires FullRound(st, due, all) && n < |all|
    ensures Incomplete(st, due, all[..n])
  {
    CollectedExactly(all[..n]);
    assert all[n] in all;
    forall i | 0 <= i < n ensures all[..n][i].name != all[n].name { assert all[i].name != all[n].name; }
    assert all[n].name !in Collected(all[..n]);
  }

  /**
    * Whether it is completed or expires, a batch is reported the same, in whatever order its results arrive
    * and whatever happens in between: the same results, groups and start, and the same end if a group has one.
    */
  lemma {:induction false} ArrivalOrderIrrelevant(st: Settings, s: State, one: seq<Event>, t: State, two: seq<Event>,
                                                  due: Time) returns (k: nat, m: nat)
    requires Closes(st, s, one, due) && Closes(st, t, two, due)
    requires DistinctNames(ResultsFor(one, due)) && DistinctNames(ResultsFor(two, due))
    requires forall r :: r in ResultsFor(one, due) <==> r in ResultsFor(two, due)
    ensures OnlyReport(st, s, RunFrom(st, s, one), due, Collected(ResultsFor(one, due)), k)
    ensures OnlyReport(st, t, RunFrom(st, t, two), due, Collected(ResultsFor(two, due)), m)
    ensures var e, f := RunFrom(st, s, one).emitted[k], RunFrom(st, t, two).emitted[m];
            && e.batch == f.batch && e.report.groups == f.report.groups && e.report.start == f.report.start
            && (MaxEnd(e.report.groups, 0) != 0 ==> e.report.end == f.report.end)
  {
    k := BatchIsReported(st, s, one, due);
    m := BatchIsReported(st, t, two, due);
    CollectedExactly(ResultsFor(one, due));
    CollectedExactly(ResultsFor(two, due));
    SameBatch(Collected(ResultsFor(one, due)), Collected(ResultsFor(two, due)), ResultsFor(one, due), ResultsFor(two, due));
  }

  lemma SameBatch(a: Batch, b: Batch, rs: seq<Result>, ts: seq<Result>)
    requires forall n :: n in a <==> exists r | r in rs :: r.name == n
    requires forall n :: n in b <==> exists r | r in ts :: r.name == n
    requires (forall r | r in rs :: a[r.name] == r) && (forall r | r in ts :: b[r.name] == r)
    requires forall r :: r in rs <==> r in ts
    ensures a == b
  {
    forall n | n in a ensures n in b && a[n] == b[n] {
      var r :| r in rs && r.name == n;
    }
    forall n | n in b ensures n in a {
      var r :| r in ts && r.name == n;
    }
  }
}
