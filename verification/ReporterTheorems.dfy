/** What holds of the reporter over every sequence of events. */
module ReporterTheorems {
  import opened Sequences
  import opened Collector
  import opened Reporting

  ghost function Run(st: Settings, events: seq<Event>): State {
    if events == [] then EMPTY else Step(st, Run(st, events[..|events| - 1]), events[|events| - 1])
  }

  /** Every event of the run was possible when it happened. */
  ghost predicate ValidRun(st: Settings, events: seq<Event>) {
    forall i | 0 <= i < |events| :: Legal(Run(st, events[..i]), events[i])
  }

  lemma ValidPrefix(st: Settings, events: seq<Event>)
    requires ValidRun(st, events) && events != []
    ensures ValidRun(st, events[..|events| - 1])
    ensures Legal(Run(st, events[..|events| - 1]), events[|events| - 1])
  {
    var before := events[..|events| - 1];
    forall i | 0 <= i < |before| ensures Legal(Run(st, before[..i]), before[i]) {
      assert before[..i] == events[..i];
    }
  }

  // ---------- The invariant ----------

  ghost predicate Named(due: Time, batch: Batch) {
    forall n | n in batch :: batch[n].name == n && batch[n].due == due
  }

  ghost predicate Numbered(st: Settings, e: Emission, n: nat) {
    && e.batch != map[] && Named(e.due, e.batch)
    && exists clock :: e.report == Built(st, n, e.due, e.batch, clock)
  }

  /** What holds even between the parts of a step. */
  ghost predicate Core(st: Settings, s: State) {
    && s.pending.Keys == s.deadlines.Keys
    && s.pending.Keys !! s.flushedDue
    && (forall d | d in s.pending :: s.pending[d] != map[] && Named(d, s.pending[d]))
    && RealDeadlines(s.deadlines)
    && s.seqNum == |s.emitted|
    && forall i | 0 <= i < |s.emitted| :: Numbered(st, s.emitted[i], i + 1)
  }

  /** Every open batch still waits for a collector. */
  ghost predicate Waiting(st: Settings, s: State) {
    forall d | d in s.pending :: !(Expected(st, d) <= s.pending[d].Keys)
  }

  /** The timer as rearmed at a clock reading: for the earliest deadline, or at once when that has passed. */
  ghost predicate Armed(s: State, at: Time) {
    s.timer == if s.deadlines.Values == {} then None else Some(Max(Earliest(s.deadlines.Values), at))
  }

  /** The timer is set exactly when something is pending, and never before the earliest deadline. */
  ghost predicate NotEarly(s: State) {
    if s.deadlines.Values == {} then s.timer == None
    else s.timer.Some? && Earliest(s.deadlines.Values) <= s.timer.value
  }

  ghost predicate Invariant(st: Settings, s: State) {
    Core(st, s) && Waiting(st, s) && NotEarly(s)
  }

  lemma FlushedCore(st: Settings, s: State, due: Time, clock: Time)
    requires Core(st, s) && due in s.pending
    ensures Core(st, Flushed(st, s, due, clock))
    ensures Waiting(st, s) ==> Waiting(st, Flushed(st, s, due, clock))
    ensures var e := Emission(due, s.pending[due], Built(st, s.seqNum + 1, due, s.pending[due], clock));
            Flushed(st, s, due, clock).emitted == s.emitted + [e]
  {
    assert |s.pending[due]| > 0;
    var s' := Flushed(st, s, due, clock);
    assert s'.pending == s.pending - {due};
    forall i | 0 <= i < |s'.emitted| ensures Numbered(st, s'.emitted[i], i + 1) {
      if i < |s.emitted| { assert s'.emitted[i] == s.emitted[i]; }
    }
  }

  lemma JoinedCore(st: Settings, s: State, res: Result, now: Time)
    requires Core(st, s) && res.due !in s.flushedDue && now > 0
    ensures Core(st, Joined(st, s, res, now))
    ensures forall d | d in Joined(st, s, res, now).pending && d != res.due ::
              d in s.pending && Joined(st, s, res, now).pending[d] == s.pending[d]
  {
    var s' := Joined(st, s, res, now);
    assert res.name in s'.pending[res.due];
  }

  lemma {:induction false} SweptCore(st: Settings, s: State, order: seq<Time>, now: Time, clock: Time)
    requires Core(st, s) && Waiting(st, s)
    ensures Core(st, Swept(st, s, order, now, clock)) && Waiting(st, Swept(st, s, order, now, clock))
    decreases |order|
  {
    if order != [] {
      var due := order[0];
      if due in s.deadlines && s.deadlines[due] <= now {
        FlushedCore(st, s, due, clock);
        SweptCore(st, Flushed(st, s, due, clock), order[1..], now, clock);
      } else {
        SweptCore(st, s, order[1..], now, clock);
      }
    }
  }

  /** Every event rearms the timer, except a result that is dropped as late. */
  ghost predicate Rearms(s: State, ev: Event) { ev.Fire? || ev.res.due !in s.flushedDue }

  lemma StepInvariant(st: Settings, s: State, ev: Event)
    requires Invariant(st, s) && Legal(s, ev)
    ensures Invariant(st, Step(st, s, ev))
    ensures if Rearms(s, ev) then Armed(Step(st, s, ev), ev.clock) else Step(st, s, ev) == s
  {
    match ev
    case Arrive(res, now, clock) =>
      if res.due !in s.flushedDue {
        JoinedCore(st, s, res, now);
        var s' := Joined(st, s, res, now);
        if Expected(st, res.due) <= s'.pending[res.due].Keys { FlushedCore(st, s', res.due, clock); }
        assert Armed(Step(st, s, ev), clock);
      }
    case Fire(now, clock, order) =>
      SweptCore(st, s, order, now, clock);
      assert Armed(Step(st, s, ev), clock);
  }

  /** The invariant holds after every event of every run. */
  lemma {:induction false} InvariantOverRuns(st: Settings, events: seq<Event>)
    requires ValidRun(st, events)
    ensures Invariant(st, Run(st, events))
  {
    if events != [] {
      ValidPrefix(st, events);
      InvariantOverRuns(st, events[..|events| - 1]);
      StepInvariant(st, Run(st, events[..|events| - 1]), events[|events| - 1]);
    }
  }

  // ---------- The timer ----------

  ghost predicate RearmsAt(st: Settings, events: seq<Event>, i: nat)
    requires i < |events|
  {
    Rearms(Run(st, events[..i]), events[i])
  }

  /** The last of the first n events that rearmed the timer; the first event always does. */
  ghost function LastRearm(st: Settings, events: seq<Event>, n: nat): (i: nat)
    requires 0 < n <= |events|
    ensures i < n
  {
    if n == 1 || RearmsAt(st, events, n - 1) then n - 1 else LastRearm(st, events, n - 1)
  }

  lemma {:induction false} LastRearmIsLast(st: Settings, events: seq<Event>, n: nat)
    requires 0 < n <= |events|
    ensures RearmsAt(st, events, LastRearm(st, events, n))
    ensures forall k | LastRearm(st, events, n) < k < n :: !RearmsAt(st, events, k)
  {
    if n == 1 {
      assert RearmsAt(st, events, 0);
    } else if !RearmsAt(st, events, n - 1) {
      LastRearmIsLast(st, events, n - 1);
    }
  }

  lemma PrefixStep(st: Settings, events: seq<Event>, n: nat)
    requires ValidRun(st, events) && 0 < n <= |events|
    ensures ValidRun(st, events[..n - 1]) && Legal(Run(st, events[..n - 1]), events[n - 1])
    ensures Run(st, events[..n]) == Step(st, Run(st, events[..n - 1]), events[n - 1])
  {
    assert events[..n][..n - 1] == events[..n - 1];
    var before := events[..n - 1];
    forall i | 0 <= i < |before| ensures Legal(Run(st, before[..i]), before[i]) {
      assert before[..i] == events[..i];
    }
  }

  /** After the first n events of a run, the timer stands as the last event that rearmed it set it. */
  lemma {:induction false} TimerOverRuns(st: Settings, events: seq<Event>, n: nat)
    requires ValidRun(st, events) && 0 < n <= |events|
    ensures Armed(Run(st, events[..n]), events[LastRearm(st, events, n)].clock)
  {
    PrefixStep(st, events, n);
    InvariantOverRuns(st, events[..n - 1]);
    var s := Run(st, events[..n - 1]);
    StepInvariant(st, s, events[n - 1]);
    if n > 1 && !RearmsAt(st, events, n - 1) { TimerOverRuns(st, events, n - 1); }
  }

  /** So it is armed for the earliest deadline, delayed at most to the latest clock reading. */
  lemma {:induction false} TimerNeverLate(st: Settings, events: seq<Event>, latest: Time)
    requires ValidRun(st, events) && forall ev | ev in events :: ev.clock <= latest
    ensures var s := Run(st, events);
            if s.deadlines == map[] then s.timer == None
            else
              && s.timer.Some?
              && Earliest(s.deadlines.Values) <= s.timer.value <= Max(Earliest(s.deadlines.Values), latest)
  {
    InvariantOverRuns(st, events);
    var s, n := Run(st, events), |events|;
    if s.deadlines != map[] {
      var d := Pick(s.deadlines.Keys);
      assert s.deadlines[d] in s.deadlines.Values;
      TimerOverRuns(st, events, n);
      assert events[..n] == events;
      assert events[LastRearm(st, events, n)] in events;
    }
  }

  /** The event loop computes the run. */
  method RunReporter(r: Reporter, events: seq<Event>)
    requires r.Current() == EMPTY && ValidRun(r.settings, events)
    modifies r
    ensures r.Current() == Run(r.settings, events)
  {
    for i := 0 to |events|
      invariant r.Current() == Run(r.settings, events[..i])
    {
      assert events[..i + 1][..i] == events[..i];
      forall k | 0 <= k < i ensures Legal(Run(r.settings, events[..i][..k]), events[..i][k]) {
        assert events[..i][..k] == events[..k];
      }
      InvariantOverRuns(r.settings, events[..i]);
      match events[i]
      case Arrive(res, now, clock) => r.OnResult(res, now, clock);
      case Fire(now, clock, order) => r.OnTimer(now, clock, order);
    }
    assert events[..|events|] == events;
  }

  // ---------- What one timer event does ----------

  ghost predicate Expired(s: State, due: Time, now: Time) {
    due in s.deadlines && s.deadlines[due] <= now
  }

  function Since(s: State, s': State): seq<Emission>
    requires |s.emitted| <= |s'.emitted|
  {
    s'.emitted[|s.emitted|..]
  }

  /** A batch as it was pending, reported with the given clock. */
  ghost predicate FlushOf(st: Settings, s: State, e: Emission, clock: Time) {
    && e.due in s.pending && e.batch == s.pending[e.due]
    && e.report == Built(st, e.report.seqNum, e.due, e.batch, clock)
  }

  ghost predicate DistinctDues(es: seq<Emission>) {
    forall i, j | 0 <= i < j < |es| :: es[i].due != es[j].due
  }

  ghost function ExpiredAmong(s: State, order: seq<Time>, now: Time): set<Time> {
    set d | d in order && Expired(s, d, now)
  }

  /** The emissions es report exactly the batches of these due times, each once and as it was. */
  ghost predicate ReportsExactly(st: Settings, s: State, es: seq<Emission>, dues: set<Time>, clock: Time) {
    && DistinctDues(es)
    && (forall e | e in es :: e.due in dues && FlushOf(st, s, e, clock))
    && forall d | d in dues :: exists e | e in es :: e.due == d
  }

  /** A sweep flushes exactly the expired batches among those visited. */
  ghost predicate SweptExactly(st: Settings, s: State, s': State, order: seq<Time>, now: Time, clock: Time) {
    var gone := ExpiredAmong(s, order, now);
    && s'.pending == s.pending - gone
    && s'.deadlines == s.deadlines - gone
    && s.emitted <= s'.emitted
    && ReportsExactly(st, s, Since(s, s'), gone, clock)
  }

  lemma ReportsMore(st: Settings, s: State, s1: State, e: Emission, es: seq<Emission>, dues: set<Time>, clock: Time)
    requires FlushOf(st, s, e, clock) && e.due !in dues
    requires s1.pending == s.pending - {e.due} && ReportsExactly(st, s1, es, dues, clock)
    ensures ReportsExactly(st, s, [e] + es, {e.due} + dues, clock)
  {
    var all := [e] + es;
    assert all[0] == e;
    forall d | d in {e.due} + dues ensures exists f | f in all :: f.due == d {
      if d != e.due {
        var f :| f in es && f.due == d;
        assert f in all;
      }
    }
  }

  /** Flushing the first due time and sweeping the rest is sweeping them all. */
  lemma SweptAfterFlush(st: Settings, s: State, s': State, order: seq<Time>, now: Time, clock: Time)
    requires Core(st, s) && order != [] && Expired(s, order[0], now) && order[0] !in order[1..]
    requires SweptExactly(st, Flushed(st, s, order[0], clock), s', order[1..], now, clock)
    ensures SweptExactly(st, s, s', order, now, clock)
  {
    var due, rest := order[0], order[1..];
    FlushedCore(st, s, due, clock);
    var s1 := Flushed(st, s, due, clock);
    var gone := ExpiredAmong(s1, rest, now);
    assert ExpiredAmong(s, order, now) == {due} + gone by { assert order == [due] + rest; }
    RemoveTwice(s.pending, {due}, gone);
    RemoveTwice(s.deadlines, {due}, gone);
    var e, es := s1.emitted[|s.emitted|], Since(s1, s');
    assert Since(s, s') == [e] + es;
    ReportsMore(st, s, s1, e, es, gone, clock);
  }

  lemma {:induction false} SweptForm(st: Settings, s: State, order: seq<Time>, now: Time, clock: Time)
    requires Core(st, s) && Waiting(st, s) && NoDuplicates(order)
    ensures SweptExactly(st, s, Swept(st, s, order, now, clock), order, now, clock)
    decreases |order|
  {
    if order == [] {
      assert ExpiredAmong(s, order, now) == {};
    } else {
      var due, rest := order[0], order[1..];
      assert order == [due] + rest;
      NoDuplicatesCons(due, rest);
      if Expired(s, due, now) {
        FlushedCore(st, s, due, clock);
        var s1 := Flushed(st, s, due, clock);
        SweptForm(st, s1, rest, now, clock);
        SweptAfterFlush(st, s, Swept(st, s1, rest, now, clock), order, now, clock);
      } else {
        SweptForm(st, s, rest, now, clock);
        assert ExpiredAmong(s, order, now) == ExpiredAmong(s, rest, now);
      }
    }
  }

  /** After a timer event at now, every remaining deadline is later than now. */
  lemma {:induction false} TimerLeavesNoneExpired(st: Settings, s: State, now: Time, clock: Time, order: seq<Time>)
    requires Invariant(st, s) && Listing(order, s.deadlines.Keys)
    ensures var s' := AfterTimer(st, s, now, clock, order);
            forall d | d in s'.deadlines :: s'.deadlines[d] > now
  {
    SweptForm(st, s, order, now, clock);
  }

  /** The timer never fires in vain: when its moment has come, at least one batch is flushed. */
  lemma {:induction false} TimerMakesProgress(st: Settings, s: State, now: Time, clock: Time, order: seq<Time>)
    requires Invariant(st, s) && Listing(order, s.deadlines.Keys)
    requires s.timer.Some? && s.timer.value <= now
    ensures |AfterTimer(st, s, now, clock, order).emitted| > |s.emitted|
  {
    SweptForm(st, s, order, now, clock);
    var first := Earliest(s.deadlines.Values);
    var d := KeyOf(s.deadlines, first);
    assert d in ExpiredAmong(s, order, now);
  }

  /** A batch as reported, without its number. */
  function Content(e: Emission): (Time, Batch, Time, Time, seq<Group>) {
    (e.due, e.batch, e.report.start, e.report.end, e.report.groups)
  }

  function Dues(es: seq<Emission>): seq<Time> { seq(|es|, i requires 0 <= i < |es| => es[i].due) }

  lemma ReportCount(st: Settings, s: State, es: seq<Emission>, dues: set<Time>, clock: Time)
    requires ReportsExactly(st, s, es, dues, clock)
    ensures |es| == |dues|
  {
    var all := Dues(es);
    MembersSize(all);
    forall d | d in dues ensures d in all {
      var e :| e in es && e.due == d;
      var i :| 0 <= i < |es| && es[i] == e;
      assert all[i] == d;
    }
    forall d | d in all ensures d in dues {
      var i :| 0 <= i < |all| && all[i] == d;
      assert es[i] in es;
    }
    assert Members(all) == dues;
  }

  /** The order in which the map of deadlines is visited changes the numbers of the reports, nothing else about them. */
  lemma {:induction false} TimerOrderIrrelevant(st: Settings, s: State, now: Time, clock: Time, o1: seq<Time>, o2: seq<Time>)
    requires Invariant(st, s) && Listing(o1, s.deadlines.Keys) && Listing(o2, s.deadlines.Keys)
    ensures var s1, s2 := AfterTimer(st, s, now, clock, o1), AfterTimer(st, s, now, clock, o2);
            && s1.pending == s2.pending && s1.deadlines == s2.deadlines && s1.timer == s2.timer && s1.seqNum == s2.seqNum
            && |s.emitted| <= |s1.emitted| == |s2.emitted|
            && DistinctDues(Since(s, s1)) && DistinctDues(Since(s, s2))
            && (set e | e in Since(s, s1) :: Content(e)) == (set e | e in Since(s, s2) :: Content(e))
  {
    SweptForm(st, s, o1, now, clock);
    SweptForm(st, s, o2, now, clock);
    SweptCore(st, s, o1, now, clock);
    SweptCore(st, s, o2, now, clock);
    var s1, s2 := Swept(st, s, o1, now, clock), Swept(st, s, o2, now, clock);
    var gone := ExpiredAmong(s, o1, now);
    assert gone == ExpiredAmong(s, o2, now);
    ReportCount(st, s, Since(s, s1), gone, clock);
    ReportCount(st, s, Since(s, s2), gone, clock);
    SameContents(st, s, Since(s, s1), Since(s, s2), gone, clock);
  }

  lemma SameContents(st: Settings, s: State, es: seq<Emission>, fs: seq<Emission>, dues: set<Time>, clock: Time)
    requires ReportsExactly(st, s, es, dues, clock) && ReportsExactly(st, s, fs, dues, clock)
    ensures (set e | e in es :: Content(e)) == (set f | f in fs :: Content(f))
  {
    ContentsMatch(st, s, es, fs, dues, clock);
    ContentsMatch(st, s, fs, es, dues, clock);
  }

  lemma ContentsMatch(st: Settings, s: State, es: seq<Emission>, fs: seq<Emission>, dues: set<Time>, clock: Time)
    requires ReportsExactly(st, s, es, dues, clock) && ReportsExactly(st, s, fs, dues, clock)
    ensures forall e | e in es :: exists f | f in fs :: Content(f) == Content(e)
  {
    forall e | e in es ensures exists f | f in fs :: Content(f) == Content(e) {
      var f :| f in fs && f.due == e.due;
      assert Content(f) == Content(e);
    }
  }

  // ---------- What one result does ----------

  /** A batch of res.due that holds res and lacks no expected collector. */
  ghost predicate CompletedBy(st: Settings, e: Emission, res: Result) {
    && e.due == res.due && res.name in e.batch && e.batch[res.name] == res
    && Expected(st, e.due) <= e.batch.Keys
  }

  /** An arrival emits at most one batch, of its own due time, and only when that batch is complete. */
  lemma {:induction false} ArrivalFlushesOnlyComplete(st: Settings, s: State, res: Result, now: Time, clock: Time)
    requires Invariant(st, s) && now > 0
    ensures var s' := AfterResult(st, s, res, now, clock);
            s'.emitted == s.emitted || exists e :: s'.emitted == s.emitted + [e] && CompletedBy(st, e, res)
  {
    if res.due !in s.flushedDue {
      JoinedCore(st, s, res, now);
      var s1 := Joined(st, s, res, now);
      if Expected(st, res.due) <= s1.pending[res.due].Keys { FlushedCore(st, s1, res.due, clock); }
    }
  }
}
