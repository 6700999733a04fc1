/** The metric buffer: concurrent recorders check the size, flush and add in separate critical sections. */
module MetricRegistry {
  import opened Sequences

  /** A message of the one type that the registry accepts. */
  datatype Metric = Metric(payload: int)

  /** One registry; every method is one critical section, except Flush, which sends outside the lock. */
  class Registry {
    const maxRecords: int
    var metrics: seq<Metric>

    constructor (maxRecords: int)
      ensures this.maxRecords == maxRecords && metrics == []
    {
      this.maxRecords := maxRecords;
      metrics := [];
    }

    method Size() returns (n: nat)
      ensures n == |metrics|
    {
      n := |metrics|;
    }

    method AddEntry(m: Metric)
      modifies this`metrics
      ensures metrics == old(metrics) + [m]
    {
      metrics := metrics + [m];
    }

    /** Takes the buffer; the caller sends it when it is not empty. */
    method TakeForFlush() returns (toFlush: seq<Metric>)
      modifies this`metrics
      ensures toFlush == old(metrics) && metrics == []
    {
      toFlush := metrics;
      metrics := [];
    }

    /** Record by a single recorder that nobody interrupts; sent is what it flushed. */
    method Record(m: Metric) returns (sent: seq<Metric>)
      modifies this`metrics
      ensures sent + metrics == old(metrics) + [m]
      ensures sent == if |old(metrics)| + 1 >= maxRecords then old(metrics) else []
    {
      sent := [];
      var n := Size();
      if n + 1 >= maxRecords { sent := TakeForFlush(); }
      AddEntry(m);
    }
  }

  /** Where a recorder stands in Record. */
  datatype Recorder = Idle | MustFlush(m: Metric) | MustAdd(m: Metric)

  /** added and flushed record what was ever added and taken, in order. */
  datatype State = State(buffer: seq<Metric>, recorders: seq<Recorder>, added: seq<Metric>, flushed: seq<seq<Metric>>)

  /** Check is the size test, Flush and Add follow it; Tick is the periodic flusher. */
  datatype Step = Check(r: nat, m: Metric) | Flush(r: nat) | Add(r: nat) | Tick

  function Start(n: nat): State { State([], seq(n, i => Idle), [], []) }

  predicate Enabled(s: State, step: Step) {
    match step
    case Check(r, _) => r < |s.recorders| && s.recorders[r].Idle?
    case Flush(r) => r < |s.recorders| && s.recorders[r].MustFlush?
    case Add(r) => r < |s.recorders| && s.recorders[r].MustAdd?
    case Tick => true
  }

  function Next(s: State, max: int, step: Step): State
    requires Enabled(s, step)
  {
    match step
    case Check(r, m) =>
      s.(recorders := s.recorders[r := if |s.buffer| + 1 >= max then MustFlush(m) else MustAdd(m)])
    case Flush(r) =>
      s.(buffer := [], flushed := s.flushed + [s.buffer], recorders := s.recorders[r := MustAdd(s.recorders[r].m)])
    case Add(r) =>
      s.(buffer := s.buffer + [s.recorders[r].m], added := s.added + [s.recorders[r].m], recorders := s.recorders[r := Idle])
    case Tick => s.(buffer := [], flushed := s.flushed + [s.buffer])
  }

  /** A schedule is a list of steps, each enabled when its turn comes. */
  ghost predicate IsSchedule(n: nat, max: int, steps: seq<Step>) {
    steps == [] || (IsSchedule(n, max, steps[..|steps| - 1])
                    && Enabled(Run(n, max, steps[..|steps| - 1]), steps[|steps| - 1]))
  }

  ghost function Run(n: nat, max: int, steps: seq<Step>): State {
    if steps == [] then Start(n)
    else
      var before := Run(n, max, steps[..|steps| - 1]);
      if Enabled(before, steps[|steps| - 1]) then Next(before, max, steps[|steps| - 1]) else before
  }

  lemma {:induction false} ScheduleStarts(n: nat, max: int, steps: seq<Step>, k: nat)
    requires IsSchedule(n, max, steps) && k <= |steps|
    ensures IsSchedule(n, max, steps[..k])
  {
    if k < |steps| {
      ScheduleStarts(n, max, steps[..|steps| - 1], k);
      assert steps[..|steps| - 1][..k] == steps[..k];
    } else {
      assert steps[..k] == steps;
    }
  }

  lemma RunNext(n: nat, max: int, steps: seq<Step>, k: nat)
    requires IsSchedule(n, max, steps) && k < |steps|
    ensures Enabled(Run(n, max, steps[..k]), steps[k])
    ensures Run(n, max, steps[..k + 1]) == Next(Run(n, max, steps[..k]), max, steps[k])
  {
    ScheduleStarts(n, max, steps, k + 1);
    assert steps[..k + 1][..k] == steps[..k];
  }

  /** Any schedule drives the registry through the buffers of its run; sent lists what was taken for sending. */
  method Drive(registry: Registry, n: nat, steps: seq<Step>) returns (sent: seq<seq<Metric>>, s: State)
    requires registry.metrics == [] && IsSchedule(n, registry.maxRecords, steps)
    modifies registry`metrics
    ensures s == Run(n, registry.maxRecords, steps) && registry.metrics == s.buffer && sent == s.flushed
  {
    s, sent := Start(n), [];
    for k := 0 to |steps|
      invariant s == Run(n, registry.maxRecords, steps[..k]) && registry.metrics == s.buffer && sent == s.flushed
    {
      RunNext(n, registry.maxRecords, steps, k);
      match steps[k] {
        case Check(r, m) =>
          var size := registry.Size();
          assert size + 1 >= registry.maxRecords <==> Next(s, registry.maxRecords, steps[k]).recorders[r].MustFlush?;
        case Add(r) => registry.AddEntry(s.recorders[r].m);
        case _ =>
          var toFlush := registry.TakeForFlush();
          sent := sent + [toFlush];
      }
      s := Next(s, registry.maxRecords, steps[k]);
    }
    assert steps[..|steps|] == steps;
  }

  /** How many recorders passed their check and have yet to add. */
  function Adding(rs: seq<Recorder>): nat {
    if rs == [] then 0 else Adding(rs[1..]) + if rs[0].MustAdd? then 1 else 0
  }

  function Flatten(batches: seq<seq<Metric>>): seq<Metric> {
    if batches == [] then [] else Flatten(batches[..|batches| - 1]) + batches[|batches| - 1]
  }

  lemma {:induction false} AddingBounded(rs: seq<Recorder>)
    ensures Adding(rs) <= |rs|
  {
    if rs != [] { AddingBounded(rs[1..]); }
  }

  lemma {:induction false} AddingUpdate(rs: seq<Recorder>, r: nat, x: Recorder)
    requires r < |rs|
    ensures Adding(rs[r := x])
         == Adding(rs) - (if rs[r].MustAdd? then 1 else 0) + (if x.MustAdd? then 1 else 0)
  {
    if r == 0 {
      assert rs[0 := x][1..] == rs[1..];
    } else {
      assert rs[r := x][1..] == rs[1..][r - 1 := x];
      AddingUpdate(rs[1..], r - 1, x);
    }
  }

  /** The buffer and the adds under way stay below the limit plus one per recorder. */
  ghost predicate Bounded(s: State, max: int) {
    |s.buffer| + Adding(s.recorders) <= Max(max - 2, 0) + |s.recorders|
  }

  ghost predicate Ordered(s: State) { s.added == Flatten(s.flushed) + s.buffer }

  lemma StepKeeps(s: State, max: int, step: Step)
    requires Bounded(s, max) && Ordered(s) && Enabled(s, step)
    ensures Bounded(Next(s, max, step), max) && Ordered(Next(s, max, step))
  {
    var s' := Next(s, max, step);
    AddingBounded(s'.recorders);
    match step
    case Check(r, m) => AddingUpdate(s.recorders, r, s'.recorders[r]);
    case Flush(r) =>
      AddingUpdate(s.recorders, r, s'.recorders[r]);
      assert s'.flushed[..|s.flushed|] == s.flushed;
    case Add(r) => AddingUpdate(s.recorders, r, Idle);
    case Tick => assert s'.flushed[..|s.flushed|] == s.flushed;
  }

  lemma {:induction false} KeptOverRuns(n: nat, max: int, steps: seq<Step>)
    requires IsSchedule(n, max, steps)
    ensures |Run(n, max, steps).recorders| == n
    ensures Bounded(Run(n, max, steps), max) && Ordered(Run(n, max, steps))
  {
    if steps == [] {
      NoneAdding(n);
    } else {
      KeptOverRuns(n, max, steps[..|steps| - 1]);
      StepKeeps(Run(n, max, steps[..|steps| - 1]), max, steps[|steps| - 1]);
    }
  }

  lemma {:induction false} NoneAdding(n: nat)
    ensures Adding(Start(n).recorders) == 0
  {
    if n > 0 {
      assert Start(n).recorders[1..] == Start(n - 1).recorders;
      NoneAdding(n - 1);
    }
  }

  /** In every interleaving of n recorders and the flusher, the buffer holds at most max - 2 + n entries. */
  lemma {:induction false} BufferBounded(n: nat, max: int, steps: seq<Step>)
    requires IsSchedule(n, max, steps)
    ensures |Run(n, max, steps).buffer| <= Max(max - 2, 0) + n
  {
    KeptOverRuns(n, max, steps);
  }

  /** No metric is lost, duplicated or reordered: what was added is what was flushed, followed by the buffer. */
  lemma {:induction false} MetricsConserved(n: nat, max: int, steps: seq<Step>)
    requires IsSchedule(n, max, steps)
    ensures Run(n, max, steps).added == Flatten(Run(n, max, steps).flushed) + Run(n, max, steps).buffer
  {
    KeptOverRuns(n, max, steps);
  }

  // ---------- The bound is reached ----------

  /** One recorder alone fills the buffer to max - 2. */
  function Filling(k: nat, m: Metric): seq<Step> {
    if k == 0 then [] else Filling(k - 1, m) + [Check(0, m)] + [Add(0)]
  }

  /** Then every recorder passes its check, flushing the empty buffer when the limit is below 2. */
  function Checking(k: nat, max: int, m: Metric): seq<Step> {
    if k == 0 then []
    else if max < 2 then Checking(k - 1, max, m) + [Check(k - 1, m)] + [Flush(k - 1)]
    else Checking(k - 1, max, m) + [Check(k - 1, m)]
  }

  /** After that every recorder adds. */
  function AddingAll(k: nat): seq<Step> { seq(k, r requires 0 <= r < k => Add(r)) }

  lemma Extend(n: nat, max: int, steps: seq<Step>, step: Step)
    requires IsSchedule(n, max, steps) && Enabled(Run(n, max, steps), step)
    ensures IsSchedule(n, max, steps + [step])
    ensures Run(n, max, steps + [step]) == Next(Run(n, max, steps), max, step)
  {
    assert (steps + [step])[..|steps|] == steps;
  }

  /** What a schedule reached: a buffer of the given size and these recorders. */
  ghost predicate Reached(n: nat, max: int, steps: seq<Step>, size: int, recorders: seq<Recorder>) {
    IsSchedule(n, max, steps) && |Run(n, max, steps).buffer| == size && Run(n, max, steps).recorders == recorders
  }

  lemma FillOne(n: nat, max: int, steps: seq<Step>, k: nat, m: Metric)
    requires n > 0 && 0 < k <= max - 2 && Reached(n, max, steps, k - 1, Start(n).recorders)
    ensures Reached(n, max, steps + [Check(0, m)] + [Add(0)], k, Start(n).recorders)
  {
    Extend(n, max, steps, Check(0, m));
    Extend(n, max, steps + [Check(0, m)], Add(0));
    var rs := Start(n).recorders;
    assert rs[0 := MustAdd(m)][0 := Idle] == rs;
  }

  lemma {:induction false} FillingReaches(n: nat, max: int, k: nat, m: Metric)
    requires n > 0 && k <= Max(max - 2, 0)
    ensures Reached(n, max, Filling(k, m), k, Start(n).recorders)
  {
    if k > 0 {
      FillingReaches(n, max, k - 1, m);
      FillOne(n, max, Filling(k - 1, m), k, m);
    }
  }

  /** The first k of n recorders are ready to add. */
  function Ready(n: nat, k: nat, m: Metric): seq<Recorder> { seq(n, r => if r < k then MustAdd(m) else Idle) }

  lemma ReadyStep(n: nat, k: nat, m: Metric)
    requires 0 < k <= n
    ensures Ready(n, k - 1, m)[k - 1] == Idle && Ready(n, k - 1, m)[k - 1 := MustAdd(m)] == Ready(n, k, m)
  {
  }

  lemma CheckOne(n: nat, max: int, steps: seq<Step>, k: nat, m: Metric)
    requires max >= 2 && 0 < k <= n && Reached(n, max, steps, max - 2, Ready(n, k - 1, m))
    ensures Reached(n, max, steps + [Check(k - 1, m)], max - 2, Ready(n, k, m))
  {
    ReadyStep(n, k, m);
    Extend(n, max, steps, Check(k - 1, m));
  }

  lemma CheckAndFlushOne(n: nat, max: int, steps: seq<Step>, k: nat, m: Metric)
    requires max < 2 && 0 < k <= n && Reached(n, max, steps, 0, Ready(n, k - 1, m))
    ensures Reached(n, max, steps + [Check(k - 1, m)] + [Flush(k - 1)], 0, Ready(n, k, m))
  {
    ReadyStep(n, k, m);
    Extend(n, max, steps, Check(k - 1, m));
    Extend(n, max, steps + [Check(k - 1, m)], Flush(k - 1));
    var rs := Ready(n, k - 1, m);
    assert rs[k - 1 := MustFlush(m)][k - 1 := MustAdd(m)] == rs[k - 1 := MustAdd(m)];
  }

  lemma {:induction false} CheckingReaches(n: nat, max: int, before: seq<Step>, k: nat, m: Metric)
    requires k <= n && Reached(n, max, before, Max(max - 2, 0), Start(n).recorders)
    ensures Reached(n, max, before + Checking(k, max, m), Max(max - 2, 0), Ready(n, k, m))
  {
    if k == 0 {
      assert before + Checking(0, max, m) == before;
      assert Ready(n, 0, m) == Start(n).recorders;
    } else {
      var earlier := Checking(k - 1, max, m);
      CheckingReaches(n, max, before, k - 1, m);
      if max < 2 {
        CheckAndFlushOne(n, max, before + earlier, k, m);
        assert before + (earlier + [Check(k - 1, m)] + [Flush(k - 1)]) == before + earlier + [Check(k - 1, m)] + [Flush(k - 1)];
      } else {
        CheckOne(n, max, before + earlier, k, m);
        assert before + (earlier + [Check(k - 1, m)]) == before + earlier + [Check(k - 1, m)];
      }
    }
  }

  /** The first k of n recorders have added. */
  function Added(n: nat, k: nat, m: Metric): seq<Recorder> { seq(n, r => if r < k then Idle else MustAdd(m)) }

  lemma AddedStep(n: nat, k: nat, m: Metric)
    requires 0 < k <= n
    ensures Added(n, k - 1, m)[k - 1] == MustAdd(m) && Added(n, k - 1, m)[k - 1 := Idle] == Added(n, k, m)
  {
  }

  lemma AddOne(n: nat, max: int, steps: seq<Step>, size: int, k: nat, m: Metric)
    requires 0 < k <= n && Reached(n, max, steps, size, Added(n, k - 1, m))
    ensures Reached(n, max, steps + [Add(k - 1)], size + 1, Added(n, k, m))
  {
    AddedStep(n, k, m);
    Extend(n, max, steps, Add(k - 1));
  }

  lemma AddingAllStep(before: seq<Step>, k: nat)
    requires k > 0
    ensures before + AddingAll(k) == before + AddingAll(k - 1) + [Add(k - 1)]
  {
    assert AddingAll(k) == AddingAll(k - 1) + [Add(k - 1)];
  }

  lemma {:induction false} AddingReaches(n: nat, max: int, before: seq<Step>, k: nat, m: Metric)
    requires k <= n && Reached(n, max, before, Max(max - 2, 0), Ready(n, n, m))
    ensures Reached(n, max, before + AddingAll(k), Max(max - 2, 0) + k, Added(n, k, m))
  {
    if k == 0 {
      assert before + AddingAll(0) == before;
      assert Added(n, 0, m) == Ready(n, n, m);
    } else {
      AddingReaches(n, max, before, k - 1, m);
      AddOne(n, max, before + AddingAll(k - 1), Max(max - 2, 0) + k - 1, k, m);
      AddingAllStep(before, k);
    }
  }

  /** The bound cannot be improved: with any recorder at all, some interleaving reaches it. */
  lemma BoundIsReached(n: nat, max: int, m: Metric) returns (steps: seq<Step>)
    requires n > 0
    ensures IsSchedule(n, max, steps) && |Run(n, max, steps).buffer| == Max(max - 2, 0) + n
  {
    var filled := Filling(Max(max - 2, 0), m);
    FillingReaches(n, max, Max(max - 2, 0), m);
    CheckingReaches(n, max, filled, n, m);
    AddingReaches(n, max, filled + Checking(n, max, m), n, m);
    steps := filled + Checking(n, max, m) + AddingAll(n);
  }

  /** Without one, the buffer stays empty. */
  lemma {:induction false} NobodyRecords(max: int, steps: seq<Step>)
    requires IsSchedule(0, max, steps)
    ensures Run(0, max, steps).buffer == []
  {
    KeptOverRuns(0, max, steps);
    if steps != [] {
      NobodyRecords(max, steps[..|steps| - 1]);
      KeptOverRuns(0, max, steps[..|steps| - 1]);
    }
  }

  // ---------- What was recorded ----------

  /** The metrics that the schedule records, in the order of the checks. */
  function Recorded(steps: seq<Step>): seq<Metric> {
    if steps == [] then []
    else
      var last := steps[|steps| - 1];
      Recorded(steps[..|steps| - 1]) + if last.Check? then [last.m] else []
  }

  function Carried(x: Recorder): multiset<Metric> { if x.Idle? then multiset{} else multiset{x.m} }

  /** The metrics of the recorders that have checked and have yet to add. */
  function Underway(rs: seq<Recorder>): multiset<Metric> {
    if rs == [] then multiset{} else Underway(rs[1..]) + Carried(rs[0])
  }

  lemma AddToBoth(a: multiset<Metric>, b: multiset<Metric>, c: multiset<Metric>, d: multiset<Metric>, e: multiset<Metric>)
    requires a + b == c + d
    ensures a + e + b == c + e + d
  {
    forall m: Metric ensures (a + e + b)[m] == (c + e + d)[m] { assert (a + b)[m] == (c + d)[m]; }
  }

  lemma {:induction false} UnderwayUpdate(rs: seq<Recorder>, r: nat, x: Recorder)
    requires r < |rs|
    ensures Underway(rs[r := x]) + Carried(rs[r]) == Underway(rs) + Carried(x)
  {
    var rs' := rs[r := x];
    if r == 0 {
      assert rs'[1..] == rs[1..];
    } else {
      assert rs'[1..] == rs[1..][r - 1 := x];
      UnderwayUpdate(rs[1..], r - 1, x);
      AddToBoth(Underway(rs'[1..]), Carried(rs[r]), Underway(rs[1..]), Carried(x), Carried(rs[0]));
    }
  }

  /** A recorder changes what it carries, and the rest of the account with it. */
  lemma Rebalance(recorded: multiset<Metric>, added: multiset<Metric>, under: multiset<Metric>, under': multiset<Metric>,
                  before: multiset<Metric>, after: multiset<Metric>, checked: multiset<Metric>, more: multiset<Metric>)
    requires recorded == added + under && under' + before == under + after && before + checked == after + more
    ensures recorded + checked == added + more + under'
  {
    forall m: Metric ensures (recorded + checked)[m] == (added + more + under')[m] {
      assert (under' + before)[m] == (under + after)[m] && (before + checked)[m] == (after + more)[m];
    }
  }

  lemma NextAccounts(s: State, max: int, step: Step, recorded: multiset<Metric>)
    requires Enabled(s, step) && recorded == multiset(s.added) + Underway(s.recorders)
    ensures var s' := Next(s, max, step);
            recorded + (if step.Check? then multiset{step.m} else multiset{})
              == multiset(s'.added) + Underway(s'.recorders)
  {
    if !step.Tick? {
      var s', r := Next(s, max, step), step.r;
      UnderwayUpdate(s.recorders, r, s'.recorders[r]);
      var checked := if step.Check? then multiset{step.m} else multiset{};
      var more := if step.Add? then multiset{s.recorders[r].m} else multiset{};
      Rebalance(recorded, multiset(s.added), Underway(s.recorders), Underway(s'.recorders),
                Carried(s.recorders[r]), Carried(s'.recorders[r]), checked, more);
      assert multiset(s'.added) == multiset(s.added) + more;
    }
  }

  lemma {:induction false} NothingUnderway(n: nat)
    ensures Underway(Start(n).recorders) == multiset{}
  {
    if n > 0 {
      assert Start(n).recorders[1..] == Start(n - 1).recorders;
      NothingUnderway(n - 1);
    }
  }

  /**
    * Nothing is invented: in every interleaving, what was recorded is what was sent for flushing, what the
    * buffer holds, and what is still on its way to it.
    */
  lemma {:induction false} RecordedIsAccounted(n: nat, max: int, steps: seq<Step>)
    requires IsSchedule(n, max, steps)
    ensures var s := Run(n, max, steps);
            && multiset(Recorded(steps)) == multiset(s.added) + Underway(s.recorders)
            && multiset(s.added) == multiset(Flatten(s.flushed) + s.buffer)
  {
    if steps == [] {
      NothingUnderway(n);
    } else {
      var before := steps[..|steps| - 1];
      RecordedIsAccounted(n, max, before);
      NextAccounts(Run(n, max, before), max, steps[|steps| - 1], multiset(Recorded(before)));
    }
    MetricsConserved(n, max, steps);
  }

  /** A flush, by the flusher or a recorder, empties the buffer. */
  lemma FlushEmpties(n: nat, max: int, steps: seq<Step>)
    requires IsSchedule(n, max, steps) && steps != []
    requires steps[|steps| - 1].Tick? || steps[|steps| - 1].Flush?
    ensures Run(n, max, steps).buffer == []
  {
  }

  ghost predicate WithinLimit(n: nat, max: int, steps: seq<Step>) {
    IsSchedule(n, max, steps) ==> |Run(n, max, steps).buffer| <= max
  }

  /** The limit itself is kept in every interleaving exactly when the bound does not exceed it. */
  lemma {:induction false} LimitKeptIff(n: nat, max: int)
    ensures (forall steps :: WithinLimit(n, max, steps)) <==> if n == 0 then max >= 0 else Max(max - 2, 0) + n <= max
  {
    if n > 0 {
      forall steps ensures IsSchedule(n, max, steps) ==> |Run(n, max, steps).buffer| <= Max(max - 2, 0) + n {
        if IsSchedule(n, max, steps) { BufferBounded(n, max, steps); }
      }
      var full := BoundIsReached(n, max, Metric(0));
      assert WithinLimit(n, max, full) <==> Max(max - 2, 0) + n <= max;
    } else {
      forall steps ensures IsSchedule(0, max, steps) ==> Run(0, max, steps).buffer == [] {
        if IsSchedule(0, max, steps) { NobodyRecords(max, steps); }
      }
      assert IsSchedule(0, max, []) && (WithinLimit(0, max, []) <==> 0 <= max);
    }
  }

  /** For a limit of at least 2, that is with at most two recorders. */
  lemma {:induction false} LimitKeptByTwo(n: nat, max: int)
    requires max >= 2
    ensures (forall steps :: WithinLimit(n, max, steps)) <==> n <= 2
  {
    LimitKeptIff(n, max);
  }
}
