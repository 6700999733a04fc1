/** What a report contains, and how the scheduler and the reporter fit together. */
module ReporterBatches {
  import opened Sequences
  import opened Collector
  import opened Scheduler
  import opened Reporting
  import opened ReporterTheorems
  import opened ReporterHistory
  import opened ReporterRounds

  // ---------- The contents of one report ----------

  /** A report holds the groups of every healthy result of a known collector, and no other group. */
  lemma {:induction false} IncludedExactlyHealthy(collectors: seq<string>, batch: Batch, g: Group)
    ensures g in Included(collectors, batch) <==>
            exists c | c in collectors && c in batch :: !batch[c].failed && g in batch[c].groups
  {
    if collectors != [] {
      IncludedExactlyHealthy(collectors[1..], batch, g);
      assert collectors == [collectors[0]] + collectors[1..];
    }
  }

  function Flat(parts: seq<seq<Group>>): seq<Group> {
    if parts == [] then [] else parts[0] + Flat(parts[1..])
  }

  /** The groups of each collector, in the order of the collectors; none for one that failed or did not report. */
  function GroupsPer(collectors: seq<string>, batch: Batch): seq<seq<Group>> {
    seq(|collectors|, i requires 0 <= i < |collectors| =>
      if collectors[i] in batch && !batch[collectors[i]].failed then batch[collectors[i]].groups else [])
  }

  /** The report carries its number and, in the order of the collectors, the groups of each as it returned them. */
  lemma {:induction false} ReportHoldsGroups(st: Settings, seqNum: int, due: Time, batch: Batch, clock: Time)
    ensures Built(st, seqNum, due, batch, clock).seqNum == seqNum
    ensures Built(st, seqNum, due, batch, clock).groups == Flat(GroupsPer(st.collectors, batch))
  {
    IncludedIsFlat(st.collectors, batch);
  }

  lemma {:induction false} IncludedIsFlat(collectors: seq<string>, batch: Batch)
    ensures Included(collectors, batch) == Flat(GroupsPer(collectors, batch))
  {
    if collectors != [] {
      IncludedIsFlat(collectors[1..], batch);
      assert GroupsPer(collectors, batch)[1..] == GroupsPer(collectors[1..], batch);
    }
  }

  /** Time stamps are never Go's zero time, which the code uses to mean unset. */
  ghost predicate RealStamps(groups: seq<Group>) {
    forall g | g in groups :: g.start != Some(0) && g.end != Some(0)
  }

  lemma {:induction false} MinStartIsLeast(groups: seq<Group>, acc: Time)
    requires RealStamps(groups)
    ensures var m := MinStart(groups, acc);
            && (m == 0 <==> acc == 0 && forall g | g in groups :: g.start.None?)
            && (acc != 0 ==> m <= acc)
            && (forall g | g in groups && g.start.Some? :: m <= g.start.value)
            && (m == acc || exists g | g in groups :: g.start == Some(m))
  {
    if groups != [] {
      assert groups[0] in groups && groups == [groups[0]] + groups[1..];
      var t := groups[0].start;
      MinStartIsLeast(groups[1..], if t.Some? && (acc == 0 || t.value < acc) then t.value else acc);
    }
  }

  lemma {:induction false} MaxEndIsGreatest(groups: seq<Group>, acc: Time)
    requires RealStamps(groups)
    ensures var m := MaxEnd(groups, acc);
            && (m == 0 <==> acc == 0 && forall g | g in groups :: g.end.None?)
            && (acc != 0 ==> m >= acc)
            && (forall g | g in groups && g.end.Some? :: m >= g.end.value)
            && (m == acc || exists g | g in groups :: g.end == Some(m))
  {
    if groups != [] {
      assert groups[0] in groups && groups == [groups[0]] + groups[1..];
      var t := groups[0].end;
      MaxEndIsGreatest(groups[1..], if t.Some? && (acc == 0 || t.value > acc) then t.value else acc);
    }
  }

  /** The envelope is the tightest that covers the stamps; without stamps it is the due time and the clock. */
  lemma {:induction false} EnvelopeCoversGroups(st: Settings, seqNum: int, due: Time, batch: Batch, clock: Time)
    requires RealStamps(Included(st.collectors, batch))
    ensures var r := Built(st, seqNum, due, batch, clock);
            && (forall g | g in r.groups && g.start.Some? :: r.start <= g.start.value)
            && (forall g | g in r.groups && g.end.Some? :: g.end.value <= r.end)
            && (if exists g | g in r.groups :: g.start.Some? then exists g | g in r.groups :: g.start == Some(r.start)
                else r.start == due)
            && (if exists g | g in r.groups :: g.end.Some? then exists g | g in r.groups :: g.end == Some(r.end)
                else r.end == clock)
  {
    MinStartIsLeast(Included(st.collectors, batch), 0);
    MaxEndIsGreatest(Included(st.collectors, batch), 0);
  }

  // ---------- The scheduler and the reporter together ----------

  /** The loop of one collector: its interval, the ticks it sees and what its collections return. */
  datatype Loop = Loop(interval: int, ticks: seq<Time>, outcomes: seq<Outcome>)

  /** The loops run what the settings schedule, with at least one outcome per run. */
  ghost predicate LoopsOf(st: Settings, loops: map<string, Loop>) {
    forall n | n in loops ::
      && n in st.collectors && n in st.cfg.collectors && st.cfg.collectors[n].enabled
      && loops[n].interval == st.cfg.collectors[n].interval > 0
      && |loops[n].outcomes| == |loops[n].ticks| + 1
  }

  /** The results were sent by these loops, each collector's in order; the channel interleaves them freely. */
  ghost predicate SentBy(st: Settings, loops: map<string, Loop>, received: seq<Result>) {
    && (forall r | r in received ::
          && r.name in loops && 0 < r.runSeq <= |loops[r.name].outcomes| && |loops[r.name].outcomes| == |loops[r.name].ticks| + 1
          && r == LoopResult(r.name, loops[r.name].interval, st.epoch, loops[r.name].ticks, loops[r.name].outcomes, r.runSeq - 1))
    && forall i, j | 0 <= i < j < |received| && received[i].name == received[j].name ::
         received[i].runSeq < received[j].runSeq
  }

  /** Whatever its ticks, every result of a scheduled collector is expected at its due time. */
  lemma {:induction false} SentResultsAreExpected(st: Settings, loops: map<string, Loop>, received: seq<Result>, r: Result)
    requires LoopsOf(st, loops) && SentBy(st, loops, received) && r in received
    ensures r.name in Expected(st, r.due)
  {
    var l := loops[r.name];
    LoopDueOnGrid(r.name, l.interval, st.epoch, l.ticks, l.outcomes, r.runSeq - 1);
  }

  /** With every tick in its own window, the reporter expects a collector exactly when its loop has a run due then. */
  lemma {:induction false} ExpectedIffSent(st: Settings, loops: map<string, Loop>, n: string, due: Time)
    requires LoopsOf(st, loops) && n in loops
    requires TicksInWindows(st.epoch, loops[n].ticks, loops[n].interval)
    requires st.epoch <= due < st.epoch + |loops[n].outcomes| * loops[n].interval
    ensures n in Expected(st, due) <==>
            exists i | 0 <= i < |loops[n].outcomes| ::
              LoopResult(n, loops[n].interval, st.epoch, loops[n].ticks, loops[n].outcomes, i).due == due
  {
    var l := loops[n];
    if n in Expected(st, due) {
      var i := (due - st.epoch) / l.interval;
      assert due - st.epoch == i * l.interval;
      ScaleMonotone(i, 0, l.interval);
      ScaleMonotone(i, |l.outcomes|, l.interval);
      WindowedDue(n, l.interval, st.epoch, l.ticks, l.outcomes, i);
    }
    forall i | 0 <= i < |l.outcomes| && LoopResult(n, l.interval, st.epoch, l.ticks, l.outcomes, i).due == due
      ensures n in Expected(st, due)
    {
      LoopDueOnGrid(n, l.interval, st.epoch, l.ticks, l.outcomes, i);
    }
  }

  /** The loops are exactly those of the known collectors that are configured, enabled and have an interval. */
  ghost predicate Starts(st: Settings, loops: map<string, Loop>) {
    && LoopsOf(st, loops)
    && forall n :: n in loops <==>
         n in st.collectors && n in st.cfg.collectors && st.cfg.collectors[n].enabled && st.cfg.collectors[n].interval > 0
  }

  /** Some run of the loop of collector n is due then. */
  ghost predicate DueAt(st: Settings, loops: map<string, Loop>, n: string, due: Time)
    requires LoopsOf(st, loops)
  {
    n in loops && exists i | 0 <= i < |loops[n].outcomes| ::
      LoopResult(n, loops[n].interval, st.epoch, loops[n].ticks, loops[n].outcomes, i).due == due
  }

  /** Every tick of the loop of n is in its own window, and due lies within the runs of the loop. */
  ghost predicate Covers(st: Settings, loops: map<string, Loop>, n: string, due: Time)
    requires n in loops
  {
    && TicksInWindows(st.epoch, loops[n].ticks, loops[n].interval)
    && st.epoch <= due < st.epoch + |loops[n].outcomes| * loops[n].interval
  }

  /**
    * Of all collectors, known or not, enabled or not, the reporter expects exactly those whose started loop has
    * a run due then: none that is disabled, unconfigured or has no interval.
    */
  lemma {:induction false} ExpectedExactlyStarted(st: Settings, loops: map<string, Loop>, n: string, due: Time)
    requires Starts(st, loops) && (n in loops ==> Covers(st, loops, n, due))
    ensures n in Expected(st, due) <==> DueAt(st, loops, n, due)
  {
    if n in loops { ExpectedIffSent(st, loops, n, due); }
  }

  /**
    * So when the results due then from the started loops have arrived, in any order and among any other
    * events, without a timer event after the deadline, the last of them has the batch reported.
    */
  lemma {:induction false} StartedLoopsComplete(st: Settings, loops: map<string, Loop>, s: State, events: seq<Event>,
                                                due: Time) returns (k: nat)
    requires Starts(st, loops) && forall n | n in loops :: Covers(st, loops, n, due)
    requires Invariant(st, s) && Fresh(s, due) && LegalFrom(st, s, events) && TimersInTime(st, events, due)
    requires events != [] && events[|events| - 1].Arrive? && events[|events| - 1].res.due == due
    requires DistinctNames(ResultsFor(events, due))
    requires forall n :: (exists r | r in ResultsFor(events, due) :: r.name == n) <==> DueAt(st, loops, n, due)
    ensures OnlyReport(st, s, RunFrom(st, s, events), due, Collected(ResultsFor(events, due)), k)
    ensures forall n :: n in RunFrom(st, s, events).emitted[k].batch <==> DueAt(st, loops, n, due)
  {
    var rs := ResultsFor(events, due);
    forall n ensures n in Expected(st, due) <==> DueAt(st, loops, n, due) {
      ExpectedExactlyStarted(st, loops, n, due);
    }
    ResultsAreDue(events, due);
    assert rs[|rs| - 1] == events[|events| - 1].res;
    forall r | r in rs ensures r.due == due && r.name in Expected(st, due) { assert DueAt(st, loops, r.name, due); }
    k := RoundIsReported(st, s, events, due);
  }

  lemma {:induction false} ResultsAreDue(events: seq<Event>, due: Time)
    ensures forall r | r in ResultsFor(events, due) :: r.due == due
  {
    if events != [] { ResultsAreDue(events[..|events| - 1], due); }
  }

  ghost predicate DistinctRuns(received: seq<Result>) {
    forall i, j | 0 <= i < j < |received| :: received[i].name != received[j].name || received[i].due != received[j].due
  }

  /** With every tick in its own window, no collector sends two results for one due time. */
  lemma {:induction false} SentResultsAreDistinct(st: Settings, loops: map<string, Loop>, received: seq<Result>)
    requires LoopsOf(st, loops) && SentBy(st, loops, received)
    requires forall n | n in loops :: TicksInWindows(st.epoch, loops[n].ticks, loops[n].interval)
    ensures DistinctRuns(received)
  {
    forall i, j | 0 <= i < j < |received| && received[i].name == received[j].name
      ensures received[i].due != received[j].due
    {
      var a, b := received[i], received[j];
      assert a in received && b in received;
      var l := loops[a.name];
      WindowedDuesIncrease(a.name, l.interval, st.epoch, l.ticks, l.outcomes, a.runSeq - 1, b.runSeq - 1);
    }
  }

  ghost predicate PendingReceived(s: State, received: seq<Result>) {
    forall d, n | d in s.pending && n in s.pending[d] :: s.pending[d][n] in received
  }

  lemma {:induction false} PendingWasReceived(st: Settings, events: seq<Event>)
    requires ValidRun(st, events)
    ensures PendingReceived(Run(st, events), LogOf(st, events).received)
  {
    if events != [] {
      var before, ev := events[..|events| - 1], events[|events| - 1];
      ValidPrefix(st, events);
      InvariantOverRuns(st, before);
      PendingWasReceived(st, before);
      var s := Run(st, before);
      match ev
      case Fire(now, clock, order) => SweptForm(st, s, order, now, clock);
      case Arrive(res, now, clock) =>
        assert LogOf(st, events).received == LogOf(st, before).received + [res];
        ResultJoinsReceived(st, s, LogOf(st, before).received, res, now, clock);
    }
  }

  lemma ResultJoinsReceived(st: Settings, s: State, received: seq<Result>, res: Result, now: Time, clock: Time)
    requires PendingReceived(s, received)
    ensures PendingReceived(AfterResult(st, s, res, now, clock), received + [res])
  {
    var s', all := AfterResult(st, s, res, now, clock), received + [res];
    assert all[|received|] == res;
    forall d, n | d in s'.pending && n in s'.pending[d] ensures s'.pending[d][n] in all {
      if d != res.due || n != res.name || res.due in s.flushedDue { assert s'.pending[d][n] == s.pending[d][n]; }
    }
  }

  /** Results that differ in collector or due time never overwrite each other. */
  lemma {:induction false} DistinctResultsNeverOverwrite(st: Settings, events: seq<Event>)
    requires ValidRun(st, events) && DistinctRuns(LogOf(st, events).received)
    ensures LogOf(st, events).replaced == []
  {
    if events != [] {
      var before, ev := events[..|events| - 1], events[|events| - 1];
      ValidPrefix(st, events);
      var earlier, all := LogOf(st, before).received, LogOf(st, events).received;
      assert earlier <= all;
      assert DistinctRuns(earlier) by {
        forall i, j | 0 <= i < j < |earlier|
          ensures earlier[i].name != earlier[j].name || earlier[i].due != earlier[j].due
        {
          assert all[i] == earlier[i] && all[j] == earlier[j];
        }
      }
      DistinctResultsNeverOverwrite(st, before);
      InvariantOverRuns(st, before);
      PendingWasReceived(st, before);
      var s := Run(st, before);
      if ev.Arrive? {
        forall i | 0 <= i < |earlier| ensures earlier[i].name != ev.res.name || earlier[i].due != ev.res.due {
          assert all[i] == earlier[i] && all[|earlier|] == ev.res;
        }
      }
    }
  }

  /** Scheduler and reporter together: no result is overwritten, however the channel interleaves the collectors. */
  lemma {:induction false} SchedulerNeverOverwrites(st: Settings, loops: map<string, Loop>, events: seq<Event>)
    requires ValidRun(st, events) && LoopsOf(st, loops) && SentBy(st, loops, LogOf(st, events).received)
    requires forall n | n in loops :: TicksInWindows(st.epoch, loops[n].ticks, loops[n].interval)
    ensures LogOf(st, events).replaced == []
  {
    SentResultsAreDistinct(st, loops, LogOf(st, events).received);
    DistinctResultsNeverOverwrite(st, events);
  }

  /** And every batch holds expected collectors only, so an open batch holds some but not all of them. */
  lemma {:induction false} OpenBatchesArePartial(st: Settings, loops: map<string, Loop>, events: seq<Event>, due: Time)
    requires ValidRun(st, events) && LoopsOf(st, loops) && SentBy(st, loops, LogOf(st, events).received)
    requires due in Run(st, events).pending
    ensures Run(st, events).pending[due].Keys < Expected(st, due)
    ensures Run(st, events).pending[due] != map[]
  {
    InvariantOverRuns(st, events);
    PendingWasReceived(st, events);
    var b := Run(st, events).pending[due];
    forall n | n in b ensures n in Expected(st, due) {
      SentResultsAreExpected(st, loops, LogOf(st, events).received, b[n]);
    }
  }
}
