/** What a run of the reporter did with every result. */
module ReporterHistory {
  import opened Collector
  import opened Reporting
  import opened ReporterTheorems
  import Tally

  // ---------- Conservation ----------

  datatype Replacement = Replacement(earlier: Result, later: Result)

  /** The bookkeeping of a run: what arrived, what was dropped as late, what was overwritten. */
  datatype Log = Log(received: seq<Result>, dropped: seq<Result>, replaced: seq<Replacement>)

  function Logged(s: State, log: Log, ev: Event): Log {
    match ev
    case Fire(_, _, _) => log
    case Arrive(res, _, _) =>
      var log' := log.(received := log.received + [res]);
      if res.due in s.flushedDue then log'.(dropped := log.dropped + [res])
      else if res.due in s.pending && res.name in s.pending[res.due] then
        log'.(replaced := log.replaced + [Replacement(s.pending[res.due][res.name], res)])
      else log'
  }

  ghost function LogOf(st: Settings, events: seq<Event>): Log {
    if events == [] then Log([], [], [])
    else
      var before := events[..|events| - 1];
      Logged(Run(st, before), LogOf(st, before), events[|events| - 1])
  }

  function Singles(b: Batch): map<string, multiset<Result>> { map n | n in b :: multiset{b[n]} }

  ghost function InBatch(b: Batch): multiset<Result> { Tally.Total(Singles(b)) }

  ghost function Contents(p: map<Time, Batch>): map<Time, multiset<Result>> { map d | d in p :: InBatch(p[d]) }

  ghost function InPending(p: map<Time, Batch>): multiset<Result> { Tally.Total(Contents(p)) }

  ghost function InEmitted(es: seq<Emission>): multiset<Result> {
    if es == [] then multiset{} else InEmitted(es[..|es| - 1]) + InBatch(es[|es| - 1].batch)
  }

  ghost function Overwritten(rs: seq<Replacement>): multiset<Result> {
    if rs == [] then multiset{} else Overwritten(rs[..|rs| - 1]) + multiset{rs[|rs| - 1].earlier}
  }

  /** Everything received is pending, emitted, overwritten or dropped, and nothing is counted twice. */
  ghost predicate Accounted(s: State, log: Log) {
    multiset(log.received)
      == InPending(s.pending) + InEmitted(s.emitted) + Overwritten(log.replaced) + multiset(log.dropped)
  }

  lemma SinglesUpdate(b: Batch, n: string, res: Result)
    ensures Singles(b[n := res]) == Singles(b)[n := multiset{res}]
  {
  }

  /** The results of a batch under names other than n. */
  ghost function Others(b: Batch, n: string): multiset<Result> { Tally.Total(Singles(b) - {n}) }

  /** What a result under the name n would overwrite. */
  function Overwrites(b: Batch, n: string): multiset<Result> { if n in b then multiset{b[n]} else multiset{} }

  lemma InBatchSplit(b: Batch, n: string)
    ensures InBatch(b) == Others(b, n) + Overwrites(b, n)
  {
    if n in b { Tally.TotalWithout(Singles(b), n); } else { assert Singles(b) - {n} == Singles(b); }
  }

  lemma InBatchUpdate(b: Batch, n: string, res: Result)
    ensures InBatch(b[n := res]) == Others(b, n) + multiset{res}
  {
    SinglesUpdate(b, n, res);
    Tally.TotalUpdate(Singles(b), n, multiset{res});
  }

  lemma InBatchInsert(b: Batch, n: string, res: Result)
    ensures InBatch(b[n := res]) + Overwrites(b, n) == InBatch(b) + multiset{res}
  {
    InBatchSplit(b, n);
    InBatchUpdate(b, n, res);
    Tally.Replace(InBatch(b), InBatch(b[n := res]), Others(b, n), Overwrites(b, n), multiset{res},
                  Overwrites(b, n), multiset{res});
  }

  lemma ContentsUpdate(p: map<Time, Batch>, d: Time, b: Batch)
    ensures Contents(p[d := b]) == Contents(p)[d := InBatch(b)]
    ensures Contents(p - {d}) == Contents(p) - {d}
  {
  }

  lemma InPendingUpdate(p: map<Time, Batch>, d: Time, b: Batch)
    ensures InPending(p[d := b]) == InPending(p - {d}) + InBatch(b)
  {
    ContentsUpdate(p, d, b);
    Tally.TotalUpdate(Contents(p), d, InBatch(b));
  }

  lemma InPendingWithout(p: map<Time, Batch>, d: Time)
    requires d in p
    ensures InPending(p) == InPending(p - {d}) + InBatch(p[d])
  {
    InPendingUpdate(p, d, p[d]);
    assert p[d := p[d]] == p;
  }

  /** What a joining result overwrites. */
  function Displaced(s: State, res: Result): multiset<Result> {
    if res.due in s.pending then Overwrites(s.pending[res.due], res.name) else multiset{}
  }

  lemma JoinedTally(st: Settings, s: State, res: Result, now: Time)
    ensures InPending(Joined(st, s, res, now).pending) + Displaced(s, res) == InPending(s.pending) + multiset{res}
  {
    if res.due in s.pending {
      JoinedOpen(s.pending, res);
    } else {
      JoinedNew(s.pending, res);
      var b: Batch := map[];
      assert b[res.name := res] == map[res.name := res];
    }
  }

  /** The result joins an open batch, in the place of an earlier one if there is one. */
  lemma JoinedOpen(p: map<Time, Batch>, res: Result)
    requires res.due in p
    ensures var b := p[res.due];
            InPending(p[res.due := b[res.name := res]]) + Overwrites(b, res.name) == InPending(p) + multiset{res}
  {
    var b := p[res.due];
    var b' := b[res.name := res];
    InPendingUpdate(p, res.due, b');
    InPendingWithout(p, res.due);
    InBatchInsert(b, res.name, res);
    Tally.Replace(InPending(p), InPending(p[res.due := b']), InPending(p - {res.due}), InBatch(b), InBatch(b'),
                  Overwrites(b, res.name), multiset{res});
  }

  lemma OneResult(res: Result)
    ensures InBatch(map[res.name := res]) == multiset{res}
  {
    var b: Batch := map[];
    assert b[res.name := res] == map[res.name := res];
    InBatchUpdate(b, res.name, res);
    assert Singles(b) - {res.name} == map[];
  }

  /** The result opens a batch. */
  lemma JoinedNew(p: map<Time, Batch>, res: Result)
    requires res.due !in p
    ensures InPending(p[res.due := map[res.name := res]]) == InPending(p) + multiset{res}
  {
    var b: Batch := map[res.name := res];
    assert InBatch(b) == multiset{res} by { OneResult(res); }
    assert p - {res.due} == p;
    InPendingUpdate(p, res.due, b);
  }

  lemma FlushedTally(st: Settings, s: State, due: Time, clock: Time)
    requires Core(st, s) && due in s.pending
    ensures var s' := Flushed(st, s, due, clock);
            InPending(s'.pending) + InEmitted(s'.emitted) == InPending(s.pending) + InEmitted(s.emitted)
  {
    FlushedCore(st, s, due, clock);
    InPendingWithout(s.pending, due);
    var s' := Flushed(st, s, due, clock);
    assert s'.emitted[..|s.emitted|] == s.emitted;
  }

  lemma {:induction false} SweptTally(st: Settings, s: State, order: seq<Time>, now: Time, clock: Time)
    requires Core(st, s) && Waiting(st, s)
    ensures var s' := Swept(st, s, order, now, clock);
            InPending(s'.pending) + InEmitted(s'.emitted) == InPending(s.pending) + InEmitted(s.emitted)
    decreases |order|
  {
    if order != [] {
      if Expired(s, order[0], now) {
        FlushedCore(st, s, order[0], clock);
        FlushedTally(st, s, order[0], clock);
        SweptTally(st, Flushed(st, s, order[0], clock), order[1..], now, clock);
      } else {
        SweptTally(st, s, order[1..], now, clock);
      }
    }
  }

  lemma ResultAccounts(st: Settings, s: State, log: Log, res: Result, now: Time, clock: Time)
    requires Invariant(st, s) && now > 0 && Accounted(s, log) && res.due !in s.flushedDue
    ensures Accounted(AfterResult(st, s, res, now, clock), Logged(s, log, Arrive(res, now, clock)))
  {
    var s', s1 := AfterResult(st, s, res, now, clock), Joined(st, s, res, now);
    JoinedCore(st, s, res, now);
    JoinedTally(st, s, res, now);
    OverwrittenMore(s, log, res);
    if Expected(st, res.due) <= s1.pending[res.due].Keys { FlushedTally(st, s1, res.due, clock); }
    assert InPending(s'.pending) + InEmitted(s'.emitted) == InPending(s1.pending) + InEmitted(s.emitted);
    Tally.Balance(InPending(s.pending), InPending(s1.pending), InEmitted(s.emitted), Overwritten(log.replaced),
                  multiset(log.dropped), multiset{res}, Displaced(s, res));
  }

  lemma TimerAccounts(st: Settings, s: State, log: Log, now: Time, clock: Time, order: seq<Time>)
    requires Invariant(st, s) && Accounted(s, log)
    ensures Accounted(AfterTimer(st, s, now, clock, order), log)
  {
    SweptTally(st, s, order, now, clock);
  }

  lemma StepAccounts(st: Settings, s: State, log: Log, ev: Event)
    requires Invariant(st, s) && Legal(s, ev) && Accounted(s, log)
    ensures Accounted(Step(st, s, ev), Logged(s, log, ev))
  {
    match ev
    case Fire(now, clock, order) => TimerAccounts(st, s, log, now, clock, order);
    case Arrive(res, now, clock) => if res.due !in s.flushedDue { ResultAccounts(st, s, log, res, now, clock); }
  }

  lemma OverwrittenMore(s: State, log: Log, res: Result)
    requires res.due !in s.flushedDue
    ensures forall now, clock ::
              Overwritten(Logged(s, log, Arrive(res, now, clock)).replaced) == Overwritten(log.replaced) + Displaced(s, res)
  {
    var more := Logged(s, log, Arrive(res, 0, 0)).replaced;
    if more != log.replaced { assert more[..|log.replaced|] == log.replaced; }
  }

  /** Conservation: over any run, every result received is in exactly one place. */
  lemma {:induction false} ResultsAreConserved(st: Settings, events: seq<Event>)
    requires ValidRun(st, events)
    ensures Accounted(Run(st, events), LogOf(st, events))
  {
    if events == [] {
      assert Contents(EMPTY.pending) == map[];
    } else {
      var before := events[..|events| - 1];
      ValidPrefix(st, events);
      InvariantOverRuns(st, before);
      ResultsAreConserved(st, before);
      StepAccounts(st, Run(st, before), LogOf(st, before), events[|events| - 1]);
    }
  }

  /** A result is only ever overwritten by a result of the same collector for the same due time. */
  lemma {:induction false} OverwrittenBySame(st: Settings, events: seq<Event>)
    requires ValidRun(st, events)
    ensures forall r | r in LogOf(st, events).replaced :: r.earlier.name == r.later.name && r.earlier.due == r.later.due
  {
    if events != [] {
      ValidPrefix(st, events);
      InvariantOverRuns(st, events[..|events| - 1]);
      OverwrittenBySame(st, events[..|events| - 1]);
    }
  }
}
