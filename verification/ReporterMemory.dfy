/** What the reporter remembers as flushed, and how often a due time is reported. */
module ReporterMemory {
  import opened Sequences
  import opened Collector
  import opened TelemetryConfig
  import opened Reporting
  import opened ReporterTheorems

  // ---------- The memory after a timer event ----------

  /** What a flush leaves of the due times remembered. */
  function Kept(memory: set<Time>, due: Time): set<Time> { set d | d in memory + {due} && due - d <= 2 * MAX_RUN_TIMEOUT }

  /** No two of these due times are more than 2 * MAX_RUN_TIMEOUT apart. */
  ghost predicate Close(dues: set<Time>) {
    forall d, e | d in dues && e in dues :: e - d <= 2 * MAX_RUN_TIMEOUT
  }

  ghost predicate NoneMuchLater(dues: set<Time>, d: Time) { forall e | e in dues :: e - d <= 2 * MAX_RUN_TIMEOUT }

  /** The due times remembered after flushing close ones, in whatever order. */
  ghost function KeptAll(memory: set<Time>, dues: set<Time>): set<Time> {
    set d | d in memory + dues && NoneMuchLater(dues, d)
  }

  /** The due times that a sweep flushes, in the order of the visit. */
  ghost function DuesFlushed(s: State, order: seq<Time>, now: Time): seq<Time> {
    if order == [] then []
    else (if Expired(s, order[0], now) then [order[0]] else []) + DuesFlushed(s, order[1..], now)
  }

  ghost function KeptInOrder(memory: set<Time>, dues: seq<Time>): set<Time>
    decreases |dues|
  {
    if dues == [] then memory else KeptInOrder(Kept(memory, dues[0]), dues[1..])
  }

  lemma {:induction false} KeptIsKnown(memory: set<Time>, dues: seq<Time>, d: Time)
    ensures d in KeptInOrder(memory, dues) ==> d in memory || d in dues
    decreases |dues|
  {
    if dues != [] {
      KeptIsKnown(Kept(memory, dues[0]), dues[1..], d);
      assert dues == [dues[0]] + dues[1..];
    }
  }

  lemma {:induction false} FlushedElsewhere(st: Settings, s: State, due: Time, order: seq<Time>, now: Time, clock: Time)
    requires due !in order
    ensures DuesFlushed(Flushed(st, s, due, clock), order, now) == DuesFlushed(s, order, now)
  {
    if order != [] {
      assert order[0] in order;
      FlushedElsewhere(st, s, due, order[1..], now, clock);
    }
  }

  lemma {:induction false} SweptMemory(st: Settings, s: State, order: seq<Time>, now: Time, clock: Time)
    requires NoDuplicates(order)
    ensures Swept(st, s, order, now, clock).flushedDue == KeptInOrder(s.flushedDue, DuesFlushed(s, order, now))
    decreases |order|
  {
    if order != [] {
      var due, rest := order[0], order[1..];
      assert due !in rest && NoDuplicates(rest);
      if Expired(s, due, now) {
        FlushedElsewhere(st, s, due, rest, now, clock);
        SweptMemory(st, Flushed(st, s, due, clock), rest, now, clock);
        assert ([due] + DuesFlushed(s, rest, now))[1..] == DuesFlushed(s, rest, now);
      } else {
        SweptMemory(st, s, rest, now, clock);
        assert [] + DuesFlushed(s, rest, now) == DuesFlushed(s, rest, now);
      }
    }
  }

  lemma {:induction false} DuesFlushedAreExpired(s: State, order: seq<Time>, now: Time, d: Time)
    ensures d in DuesFlushed(s, order, now) <==> d in order && Expired(s, d, now)
  {
    if order != [] {
      DuesFlushedAreExpired(s, order[1..], now, d);
      assert order == [order[0]] + order[1..];
    }
  }

  lemma {:induction false} CloseDuesAreKept(memory: set<Time>, dues: seq<Time>)
    requires Close(Members(dues))
    ensures KeptInOrder(memory, dues) == KeptAll(memory, Members(dues))
    decreases |dues|
  {
    if dues == [] {
      assert KeptAll(memory, {}) == memory;
    } else {
      var due, rest := dues[0], dues[1..];
      assert Members(dues) == {due} + Members(rest);
      assert Members(rest) <= Members(dues);
      CloseDuesAreKept(Kept(memory, due), rest);
      KeptOneMore(memory, due, Members(rest));
    }
  }

  lemma KeptOneMore(memory: set<Time>, due: Time, dues: set<Time>)
    requires Close({due} + dues)
    ensures KeptAll(Kept(memory, due), dues) == KeptAll(memory, {due} + dues)
  {
    forall d ensures d in KeptAll(Kept(memory, due), dues) <==> d in KeptAll(memory, {due} + dues) {
      assert due in {due} + dues;
      assert NoneMuchLater({due} + dues, d) <==> due - d <= 2 * MAX_RUN_TIMEOUT && NoneMuchLater(dues, d);
    }
  }

  /** Any keys can be visited in an order that ends with a given one. */
  lemma ListingEndingIn(keys: set<Time>, last: Time) returns (order: seq<Time>)
    requires last in keys
    ensures Listing(order, keys) && order != [] && order[|order| - 1] == last
  {
    var front := AnyListing(keys - {last});
    order := front + [last];
  }

  lemma {:induction false} AnyListing(keys: set<Time>) returns (order: seq<Time>)
    ensures Listing(order, keys)
  {
    if keys == {} { return []; }
    var k := Pick(keys);
    var rest := AnyListing(keys - {k});
    order := [k] + rest;
    NoDuplicatesCons(k, rest);
  }

  lemma {:induction false} SweptConcat(st: Settings, s: State, a: seq<Time>, b: seq<Time>, now: Time, clock: Time)
    ensures Swept(st, s, a + b, now, clock) == Swept(st, Swept(st, s, a, now, clock), b, now, clock)
    decreases |a|
  {
    if a == [] {
      assert a + b == b;
    } else {
      assert (a + b)[1..] == a[1..] + b;
      SweptConcat(st, if Expired(s, a[0], now) then Flushed(st, s, a[0], clock) else s, a[1..], b, now, clock);
    }
  }

  /** The expired due time visited last is remembered, and decides what else is. */
  lemma LastVisitedDecides(st: Settings, s: State, order: seq<Time>, now: Time, clock: Time)
    requires Core(st, s) && Waiting(st, s) && NoDuplicates(order) && order != []
    requires Expired(s, order[|order| - 1], now)
    ensures var last := order[|order| - 1];
            var memory := Swept(st, s, order, now, clock).flushedDue;
            last in memory && forall d | d in memory :: last - d <= 2 * MAX_RUN_TIMEOUT
  {
    var front, last := order[..|order| - 1], order[|order| - 1];
    assert order == front + [last];
    SweptConcat(st, s, front, [last], now, clock);
    SweptForm(st, s, front, now, clock);
    assert last !in front;
    assert [last][1..] == [];
  }

  /** With two expired due times far enough apart, one order remembers the early one and another forgets it. */
  lemma TimerOrderDecidesMemory(st: Settings, s: State, now: Time, clock: Time, early: Time, late: Time)
    returns (o1: seq<Time>, o2: seq<Time>)
    requires Invariant(st, s) && late - early > 2 * MAX_RUN_TIMEOUT
    requires Expired(s, early, now) && Expired(s, late, now)
    ensures Listing(o1, s.deadlines.Keys) && early in AfterTimer(st, s, now, clock, o1).flushedDue
    ensures Listing(o2, s.deadlines.Keys) && early !in AfterTimer(st, s, now, clock, o2).flushedDue
  {
    o1 := ListingEndingIn(s.deadlines.Keys, early);
    o2 := ListingEndingIn(s.deadlines.Keys, late);
    LastVisitedDecides(st, s, o1, now, clock);
    LastVisitedDecides(st, s, o2, now, clock);
  }

  /** The order in which the deadlines are visited leaves what is remembered the same. */
  ghost predicate SameMemory(st: Settings, s: State, now: Time, clock: Time, o1: seq<Time>, o2: seq<Time>) {
    AfterTimer(st, s, now, clock, o1).flushedDue == AfterTimer(st, s, now, clock, o2).flushedDue
  }

  ghost function ExpiredDues(s: State, now: Time): set<Time> { set d | d in s.deadlines && Expired(s, d, now) }

  /** It does so exactly when no two expired due times lie more than 2 * MAX_RUN_TIMEOUT apart. */
  lemma {:induction false} TimerOrderIrrelevantForMemoryIff(st: Settings, s: State, now: Time, clock: Time)
    requires Invariant(st, s)
    ensures (forall o1, o2 | Listing(o1, s.deadlines.Keys) && Listing(o2, s.deadlines.Keys) ::
               SameMemory(st, s, now, clock, o1, o2))
        <==> Close(ExpiredDues(s, now))
  {
    if Close(ExpiredDues(s, now)) {
      forall o1, o2 | Listing(o1, s.deadlines.Keys) && Listing(o2, s.deadlines.Keys)
        ensures SameMemory(st, s, now, clock, o1, o2)
      {
        CloseMemory(st, s, now, clock, o1);
        CloseMemory(st, s, now, clock, o2);
      }
    } else {
      var early, late :| early in ExpiredDues(s, now) && late in ExpiredDues(s, now) && late - early > 2 * MAX_RUN_TIMEOUT;
      var o1, o2 := TimerOrderDecidesMemory(st, s, now, clock, early, late);
      assert !SameMemory(st, s, now, clock, o1, o2);
    }
  }

  lemma CloseMemory(st: Settings, s: State, now: Time, clock: Time, order: seq<Time>)
    requires Listing(order, s.deadlines.Keys) && Close(ExpiredDues(s, now))
    ensures AfterTimer(st, s, now, clock, order).flushedDue == KeptAll(s.flushedDue, ExpiredDues(s, now))
  {
    SweptMemory(st, s, order, now, clock);
    forall d ensures d in Members(DuesFlushed(s, order, now)) <==> d in ExpiredDues(s, now) {
      DuesFlushedAreExpired(s, order, now, d);
    }
    assert Members(DuesFlushed(s, order, now)) == ExpiredDues(s, now);
    CloseDuesAreKept(s.flushedDue, DuesFlushed(s, order, now));
  }

  // ---------- How often a due time is reported ----------

  /** Between two flushes of one due time, a due time more than 2 * MAX_RUN_TIMEOUT later was flushed. */
  ghost predicate Spaced(es: seq<Emission>) {
    forall i, k | 0 <= i < k < |es| && es[i].due == es[k].due :: Superseded(es[..k], i)
  }

  ghost predicate Superseded(es: seq<Emission>, i: nat)
    requires i < |es|
  {
    exists j | i < j < |es| :: es[j].due - es[i].due > 2 * MAX_RUN_TIMEOUT
  }

  /** A flushed due time is remembered until it is superseded. */
  ghost predicate Remembered(s: State) {
    forall i | 0 <= i < |s.emitted| :: s.emitted[i].due in s.flushedDue || Superseded(s.emitted, i)
  }

  lemma FlushedSpaced(st: Settings, s: State, due: Time, clock: Time)
    requires Core(st, s) && due in s.pending && Remembered(s) && Spaced(s.emitted)
    ensures Remembered(Flushed(st, s, due, clock)) && Spaced(Flushed(st, s, due, clock).emitted)
  {
    FlushedCore(st, s, due, clock);
    var s' := Flushed(st, s, due, clock);
    var n, es := |s.emitted|, s'.emitted;
    assert es[..n] == s.emitted && es[n].due == due;
    forall i | 0 <= i < |es| ensures es[i].due in s'.flushedDue || Superseded(es, i) {
      if i < n && es[i].due !in s'.flushedDue {
        if Superseded(s.emitted, i) {
          var j :| i < j < n && s.emitted[j].due - s.emitted[i].due > 2 * MAX_RUN_TIMEOUT;
          assert es[j].due - es[i].due > 2 * MAX_RUN_TIMEOUT;
        } else {
          assert es[n].due - es[i].due > 2 * MAX_RUN_TIMEOUT;
        }
      }
    }
    forall i, k | 0 <= i < k < |es| && es[i].due == es[k].due ensures Superseded(es[..k], i) {
      if k < n { assert es[..k] == s.emitted[..k]; }
    }
  }

  lemma {:induction false} SweptSpaced(st: Settings, s: State, order: seq<Time>, now: Time, clock: Time)
    requires Core(st, s) && Waiting(st, s) && Remembered(s) && Spaced(s.emitted)
    ensures Remembered(Swept(st, s, order, now, clock)) && Spaced(Swept(st, s, order, now, clock).emitted)
    decreases |order|
  {
    if order != [] {
      if Expired(s, order[0], now) {
        FlushedCore(st, s, order[0], clock);
        FlushedSpaced(st, s, order[0], clock);
        SweptSpaced(st, Flushed(st, s, order[0], clock), order[1..], now, clock);
      } else {
        SweptSpaced(st, s, order[1..], now, clock);
      }
    }
  }

  lemma {:induction false} RememberedOverRuns(st: Settings, events: seq<Event>)
    requires ValidRun(st, events)
    ensures Remembered(Run(st, events)) && Spaced(Run(st, events).emitted)
  {
    if events != [] {
      var before, ev := events[..|events| - 1], events[|events| - 1];
      ValidPrefix(st, events);
      InvariantOverRuns(st, before);
      RememberedOverRuns(st, before);
      var s := Run(st, before);
      match ev
      case Fire(now, clock, order) => SweptSpaced(st, s, order, now, clock);
      case Arrive(res, now, clock) =>
        if res.due !in s.flushedDue {
          JoinedCore(st, s, res, now);
          var s1 := Joined(st, s, res, now);
          if Expected(st, res.due) <= s1.pending[res.due].Keys { FlushedSpaced(st, s1, res.due, clock); }
        }
    }
  }

  ghost predicate SupersededBefore(es: seq<Emission>, i: nat, k: nat)
    requires i < k < |es|
  {
    exists j | i < j < k :: es[j].due - es[i].due > 2 * MAX_RUN_TIMEOUT
  }

  /** In every run, a second flush of a due time is preceded by the flush of a much later one. */
  lemma {:induction false} SecondFlushOnlyAfterLaterDue(st: Settings, events: seq<Event>)
    requires ValidRun(st, events)
    ensures var es := Run(st, events).emitted;
            forall i, k | 0 <= i < k < |es| && es[i].due == es[k].due :: SupersededBefore(es, i, k)
  {
    RememberedOverRuns(st, events);
    var es := Run(st, events).emitted;
    forall i, k | 0 <= i < k < |es| && es[i].due == es[k].due ensures SupersededBefore(es, i, k) {
      assert Superseded(es[..k], i);
      var j :| i < j < k && es[..k][j].due - es[..k][i].due > 2 * MAX_RUN_TIMEOUT;
      assert es[j].due - es[i].due > 2 * MAX_RUN_TIMEOUT;
    }
  }

  /** Each due time was reported at most once, and none that was reported is open again. */
  ghost predicate Once(s: State) {
    DistinctDues(s.emitted) && forall i | 0 <= i < |s.emitted| :: s.emitted[i].due !in s.pending
  }

  /** A reported due time is forgotten as soon as it is superseded. */
  ghost predicate MemoryExact(s: State) {
    forall i | 0 <= i < |s.emitted| && s.emitted[i].due in s.flushedDue :: !Superseded(s.emitted, i)
  }

  /** The due time was reported, and a much later one was reported after it. */
  ghost predicate ReportedAndSuperseded(s: State, due: Time) {
    exists i | 0 <= i < |s.emitted| :: s.emitted[i].due == due && Superseded(s.emitted, i)
  }

  lemma FlushedOnce(st: Settings, s: State, due: Time, clock: Time)
    requires Core(st, s) && due in s.pending
    ensures Once(s) <==> Once(Flushed(st, s, due, clock))
  {
    FlushedCore(st, s, due, clock);
    var es, es' := s.emitted, Flushed(st, s, due, clock).emitted;
    assert forall i | 0 <= i < |es| :: es[i] == es'[i];
    assert es'[|es|].due == due;
  }

  lemma FlushedMemoryExact(st: Settings, s: State, due: Time, clock: Time)
    requires Core(st, s) && due in s.pending && Once(s) && MemoryExact(s)
    ensures MemoryExact(Flushed(st, s, due, clock))
  {
    FlushedCore(st, s, due, clock);
    var s' := Flushed(st, s, due, clock);
    forall i | 0 <= i < |s'.emitted| && s'.emitted[i].due in s'.flushedDue ensures !Superseded(s'.emitted, i) {
      if i < |s.emitted| {
        assert s.emitted[i] in s.emitted && s.emitted[i].due in s.flushedDue;
        assert !Superseded(s.emitted, i);
      }
    }
  }

  lemma {:induction false} SweptOnce(st: Settings, s: State, order: seq<Time>, now: Time, clock: Time)
    requires Core(st, s) && Waiting(st, s)
    ensures Once(s) <==> Once(Swept(st, s, order, now, clock))
    ensures Once(s) && MemoryExact(s) ==> MemoryExact(Swept(st, s, order, now, clock))
    decreases |order|
  {
    if order != [] {
      if Expired(s, order[0], now) {
        FlushedCore(st, s, order[0], clock);
        FlushedOnce(st, s, order[0], clock);
        if Once(s) && MemoryExact(s) { FlushedMemoryExact(st, s, order[0], clock); }
        SweptOnce(st, Flushed(st, s, order[0], clock), order[1..], now, clock);
      } else {
        SweptOnce(st, s, order[1..], now, clock);
      }
    }
  }

  /** A due time not remembered is new, unless it was superseded. */
  lemma UnrememberedIsNew(s: State, due: Time)
    requires Remembered(s) && due !in s.flushedDue && !ReportedAndSuperseded(s, due)
    ensures forall i | 0 <= i < |s.emitted| :: s.emitted[i].due != due
  {
  }

  /** A due time reported and superseded is forgotten: a result for it opens a second batch. */
  lemma SupersededIsForgotten(s: State, due: Time)
    requires MemoryExact(s) && ReportedAndSuperseded(s, due)
    ensures due !in s.flushedDue && exists i | 0 <= i < |s.emitted| :: s.emitted[i].due == due
  {
    var i :| 0 <= i < |s.emitted| && s.emitted[i].due == due && Superseded(s.emitted, i);
  }

  /** What one arrival does to it. */
  lemma ArrivalOnce(st: Settings, s: State, res: Result, now: Time, clock: Time)
    requires Invariant(st, s) && now > 0 && Remembered(s) && (Once(s) ==> MemoryExact(s))
    ensures var s' := AfterResult(st, s, res, now, clock);
            && (Once(s') <==> Once(s) && !ReportedAndSuperseded(s, res.due))
            && (Once(s') ==> MemoryExact(s'))
  {
    if res.due in s.flushedDue {
      if Once(s) && ReportedAndSuperseded(s, res.due) { SupersededIsForgotten(s, res.due); }
    } else {
      JoinedCore(st, s, res, now);
      var s1 := Joined(st, s, res, now);
      assert Once(s1) <==> Once(s) && forall i | 0 <= i < |s.emitted| :: s.emitted[i].due != res.due;
      if Once(s) {
        if ReportedAndSuperseded(s, res.due) {
          SupersededIsForgotten(s, res.due);
        } else {
          UnrememberedIsNew(s, res.due);
        }
      }
      if Expected(st, res.due) <= s1.pending[res.due].Keys {
        FlushedOnce(st, s1, res.due, clock);
        if Once(s1) { FlushedMemoryExact(st, s1, res.due, clock); }
      }
    }
  }

  ghost predicate Reopens(s: State, ev: Event) { ev.Arrive? && ReportedAndSuperseded(s, ev.res.due) }

  lemma StepOnce(st: Settings, s: State, ev: Event)
    requires Invariant(st, s) && Legal(s, ev) && Remembered(s) && (Once(s) ==> MemoryExact(s))
    ensures Once(Step(st, s, ev)) <==> Once(s) && !Reopens(s, ev)
    ensures Once(Step(st, s, ev)) ==> MemoryExact(Step(st, s, ev))
  {
    match ev
    case Fire(now, clock, order) => SweptOnce(st, s, order, now, clock);
    case Arrive(res, now, clock) => ArrivalOnce(st, s, res, now, clock);
  }

  ghost predicate ReopensAt(st: Settings, events: seq<Event>, i: nat)
    requires i < |events|
  {
    Reopens(Run(st, events[..i]), events[i])
  }

  /** None of the first n events reopens a due time. */
  ghost predicate NoneReopens(st: Settings, events: seq<Event>, n: nat)
    requires n <= |events|
  {
    n == 0 || (NoneReopens(st, events, n - 1) && !ReopensAt(st, events, n - 1))
  }

  lemma {:induction false} NoneReopensAt(st: Settings, events: seq<Event>, n: nat, i: nat)
    requires i < n <= |events| && NoneReopens(st, events, n)
    ensures !ReopensAt(st, events, i)
  {
    var last := ReopensAt(st, events, n - 1);
    if i < n - 1 { NoneReopensAt(st, events, n - 1, i); } else { assert !last; }
  }

  lemma {:induction false} SomeReopens(st: Settings, events: seq<Event>, n: nat) returns (i: nat)
    requires n <= |events| && !NoneReopens(st, events, n)
    ensures i < n && ReopensAt(st, events, i)
  {
    if ReopensAt(st, events, n - 1) { return n - 1; }
    i := SomeReopens(st, events, n - 1);
  }

  lemma OnceNext(st: Settings, events: seq<Event>, n: nat)
    requires ValidRun(st, events) && 0 < n <= |events|
    requires Once(Run(st, events[..n - 1])) ==> MemoryExact(Run(st, events[..n - 1]))
    ensures Once(Run(st, events[..n])) <==> Once(Run(st, events[..n - 1])) && !ReopensAt(st, events, n - 1)
    ensures Once(Run(st, events[..n])) ==> MemoryExact(Run(st, events[..n]))
  {
    PrefixStep(st, events, n);
    InvariantOverRuns(st, events[..n - 1]);
    RememberedOverRuns(st, events[..n - 1]);
    StepOnce(st, Run(st, events[..n - 1]), events[n - 1]);
  }

  lemma {:induction false} OnceOverRuns(st: Settings, events: seq<Event>, n: nat)
    requires ValidRun(st, events) && n <= |events|
    ensures Once(Run(st, events[..n])) <==> NoneReopens(st, events, n)
    ensures Once(Run(st, events[..n])) ==> MemoryExact(Run(st, events[..n]))
  {
    if n > 0 {
      OnceOverRuns(st, events, n - 1);
      OnceNext(st, events, n);
    }
  }

  /**
    * In a run, each due time is reported at most once, with none of the reported ones open, exactly when
    * no result arrives for a due time that was reported and since superseded by a much later one.
    */
  lemma {:induction false} OneReportPerDueIff(st: Settings, events: seq<Event>)
    requires ValidRun(st, events)
    ensures Once(Run(st, events)) <==> forall i | 0 <= i < |events| :: !ReopensAt(st, events, i)
  {
    assert events[..|events|] == events;
    OnceOverRuns(st, events, |events|);
    if Once(Run(st, events)) {
      forall i | 0 <= i < |events| ensures !ReopensAt(st, events, i) { NoneReopensAt(st, events, |events|, i); }
    } else {
      var i := SomeReopens(st, events, |events|);
    }
  }

  /** No result arrives more than 2 * MAX_RUN_TIMEOUT behind a due time that was already flushed. */
  ghost predicate Timely(st: Settings, events: seq<Event>) {
    forall i | 0 <= i < |events| && events[i].Arrive? :: InTime(Run(st, events[..i]), events[i].res.due)
  }

  ghost predicate InTime(s: State, due: Time) {
    forall j | 0 <= j < |s.emitted| :: s.emitted[j].due - due <= 2 * MAX_RUN_TIMEOUT
  }

  /** So when results are timely, each due time yields at most one report, and the reports are numbered 1, 2, 3, ... */
  lemma {:induction false} OneReportPerDue(st: Settings, events: seq<Event>)
    requires ValidRun(st, events) && Timely(st, events)
    ensures var es := Run(st, events).emitted;
            && (forall i, k | 0 <= i < k < |es| :: es[i].due != es[k].due)
            && forall i | 0 <= i < |es| :: es[i].report.seqNum == i + 1
  {
    forall i | 0 <= i < |events| ensures !ReopensAt(st, events, i) {
      assert events[i].Arrive? ==> InTime(Run(st, events[..i]), events[i].res.due);
    }
    OneReportPerDueIff(st, events);
    InvariantOverRuns(st, events);
    var es := Run(st, events).emitted;
    forall i | 0 <= i < |es| ensures es[i].report.seqNum == i + 1 { assert Numbered(st, es[i], i + 1); }
  }

  // ---------- A due time reported twice ----------

  lemma FlushKeeps(st: Settings, s: State, due: Time, clock: Time)
    ensures Flushed(st, s, due, clock).flushedDue == Kept(s.flushedDue, due)
  {
  }

  /** A result that completes a new batch of its own is reported at once, alone. */
  lemma AloneIsReported(st: Settings, s: State, res: Result, now: Time, clock: Time)
    requires Core(st, s) && now > 0 && res.due !in s.flushedDue && res.due !in s.pending
    requires Expected(st, res.due) <= {res.name}
    ensures var s' := AfterResult(st, s, res, now, clock);
            && Core(st, s') && s'.pending == s.pending && s'.flushedDue == Kept(s.flushedDue, res.due)
            && |s'.emitted| == |s.emitted| + 1 && s.emitted <= s'.emitted && s'.emitted[|s.emitted|].due == res.due
  {
    JoinedCore(st, s, res, now);
    var s1 := Joined(st, s, res, now);
    assert res.name in s1.pending[res.due];
    FlushedCore(st, s1, res.due, clock);
    FlushKeeps(st, s1, res.due, clock);
    AddedAndRemoved(s.pending, res.due, s1.pending[res.due]);
  }

  lemma AddedAndRemoved(p: map<Time, Batch>, due: Time, b: Batch)
    requires due !in p
    ensures p[due := b] - {due} == p
  {
  }

  lemma RunMore(st: Settings, events: seq<Event>, ev: Event)
    requires ValidRun(st, events) && Legal(Run(st, events), ev)
    ensures Run(st, events + [ev]) == Step(st, Run(st, events), ev)
    ensures ValidRun(st, events + [ev])
  {
    var all := events + [ev];
    assert all[..|events|] == events;
    forall i | 0 <= i < |all| ensures Legal(Run(st, all[..i]), all[i]) {
      if i < |events| { assert all[..i] == events[..i]; }
    }
  }

  /** A run goes on with a result that is reported at once. */
  lemma AloneGoesOn(st: Settings, events: seq<Event>, res: Result, now: Time) returns (more: seq<Event>)
    requires ValidRun(st, events) && now > 0 && Expected(st, res.due) <= {res.name}
    requires res.due !in Run(st, events).flushedDue && Run(st, events).pending == map[]
    ensures more == events + [Arrive(res, now, now)] && ValidRun(st, more) && Run(st, more).pending == map[]
    ensures Run(st, more).flushedDue == Kept(Run(st, events).flushedDue, res.due)
    ensures var es, es' := Run(st, events).emitted, Run(st, more).emitted;
            |es'| == |es| + 1 && es <= es' && es'[|es|].due == res.due
  {
    more := events + [Arrive(res, now, now)];
    InvariantOverRuns(st, events);
    RunMore(st, events, Arrive(res, now, now));
    AloneIsReported(st, Run(st, events), res, now, now);
  }

  /** The memory does fail: a due time, a much later one, and the first again, each with a collector of its own. */
  lemma ForgottenDueIsReportedTwice(st: Settings, one: Result, later: Result, again: Result, now: Time)
    returns (events: seq<Event>)
    requires now > 0 && again.due == one.due && later.due - one.due > 2 * MAX_RUN_TIMEOUT
    requires Expected(st, one.due) <= {one.name} && Expected(st, later.due) <= {later.name} && again.name == one.name
    ensures events == [] + [Arrive(one, now, now)] + [Arrive(later, now, now)] + [Arrive(again, now, now)]
    ensures ValidRun(st, events) && |Run(st, events).emitted| == 3
    ensures Run(st, events).emitted[0].due == Run(st, events).emitted[2].due == one.due
  {
    events := AloneGoesOn(st, [], one, now);
    events := AloneGoesOn(st, events, later, now);
    events := AloneGoesOn(st, events, again, now);
  }

  // ---------- A straggler reported on its own ----------

  /** A result that leaves its new batch incomplete opens it. */
  lemma AloneOpens(st: Settings, s: State, res: Result, now: Time, clock: Time)
    requires Core(st, s) && now > 0 && s.pending == map[] && res.due !in s.flushedDue
    requires !(Expected(st, res.due) <= {res.name})
    ensures var s' := AfterResult(st, s, res, now, clock);
            && s'.pending == map[res.due := map[res.name := res]]
            && s'.deadlines == map[res.due := now + BatchWait(st)]
            && s'.flushedDue == s.flushedDue && s'.emitted == s.emitted
  {
    var b: Batch := map[];
    assert b[res.name := res].Keys == {res.name};
    assert s.deadlines == map[];
  }

  /** A timer event at the deadline of the only batch reports it. */
  lemma AloneExpires(st: Settings, s: State, due: Time, now: Time, clock: Time)
    requires Core(st, s) && s.pending.Keys == {due} && Expired(s, due, now)
    ensures Listing([due], s.deadlines.Keys)
    ensures var s' := AfterTimer(st, s, now, clock, [due]);
            && s'.pending == map[] && s'.flushedDue == Kept(s.flushedDue, due)
            && |s'.emitted| == |s.emitted| + 1 && s.emitted <= s'.emitted && s'.emitted[|s.emitted|].due == due
            && s'.emitted[|s.emitted|].batch == s.pending[due]
  {
    FlushedCore(st, s, due, clock);
    FlushKeeps(st, s, due, clock);
    assert [due][1..] == [];
    assert Swept(st, s, [due], now, clock) == Flushed(st, s, due, clock);
  }

  lemma OpensOn(st: Settings, events: seq<Event>, res: Result, now: Time) returns (more: seq<Event>)
    requires ValidRun(st, events) && now > 0 && !(Expected(st, res.due) <= {res.name})
    requires res.due !in Run(st, events).flushedDue && Run(st, events).pending == map[]
    ensures more == events + [Arrive(res, now, now)] && ValidRun(st, more)
    ensures Run(st, more).pending == map[res.due := map[res.name := res]]
    ensures Run(st, more).deadlines == map[res.due := now + BatchWait(st)]
    ensures Run(st, more).flushedDue == Run(st, events).flushedDue && Run(st, more).emitted == Run(st, events).emitted
  {
    more := events + [Arrive(res, now, now)];
    InvariantOverRuns(st, events);
    RunMore(st, events, Arrive(res, now, now));
    AloneOpens(st, Run(st, events), res, now, now);
  }

  lemma ExpiresOn(st: Settings, events: seq<Event>, due: Time, b: Batch, expiry: Time) returns (more: seq<Event>)
    requires ValidRun(st, events) && expiry > 0
    requires Run(st, events).pending == map[due := b] && Run(st, events).deadlines == map[due := expiry]
    ensures more == events + [Fire(expiry, expiry, [due])] && ValidRun(st, more)
    ensures Run(st, more).pending == map[] && Run(st, more).flushedDue == Kept(Run(st, events).flushedDue, due)
    ensures var es, es' := Run(st, events).emitted, Run(st, more).emitted;
            |es'| == |es| + 1 && es <= es' && es'[|es|].due == due && es'[|es|].batch == b
  {
    more := events + [Fire(expiry, expiry, [due])];
    InvariantOverRuns(st, events);
    AloneExpires(st, Run(st, events), due, expiry, expiry);
    RunMore(st, events, Fire(expiry, expiry, [due]));
  }

  /** A run goes on with a result that stays alone until the timer reports it. */
  lemma AloneTimesOut(st: Settings, events: seq<Event>, res: Result, now: Time) returns (more: seq<Event>)
    requires ValidRun(st, events) && now > 0 && !(Expected(st, res.due) <= {res.name})
    requires res.due !in Run(st, events).flushedDue && Run(st, events).pending == map[]
    ensures var expiry := now + BatchWait(st);
            more == events + [Arrive(res, now, now)] + [Fire(expiry, expiry, [res.due])]
    ensures ValidRun(st, more) && Run(st, more).pending == map[]
    ensures Run(st, more).flushedDue == Kept(Run(st, events).flushedDue, res.due)
    ensures var es, es' := Run(st, events).emitted, Run(st, more).emitted;
            && |es'| == |es| + 1 && es <= es' && es'[|es|].due == res.due && es'[|es|].batch == map[res.name := res]
  {
    more := OpensOn(st, events, res, now);
    more := ExpiresOn(st, more, res.due, map[res.name := res], now + BatchWait(st));
  }

  lemma NotAlone(names: set<string>, a: string, b: string)
    requires a != b && {a, b} <= names
    ensures !(names <= {a}) && !(names <= {b})
  {
    assert a in {a, b} && b in {a, b};
  }

  /**
    * How it fails in practice: the timer reports the batch of a due time without one of its collectors, a
    * much later due time is reported, and the first result of that collector then makes a second report.
    */
  lemma StragglerIsReportedAgain(st: Settings, one: Result, later: Result, straggler: Result, t: Time, u: Time, v: Time)
    returns (events: seq<Event>)
    requires 0 < t && t + BatchWait(st) <= u && u + BatchWait(st) <= v
    requires straggler.due == one.due && straggler.name != one.name
    requires {one.name, straggler.name} <= Expected(st, one.due) && !(Expected(st, later.due) <= {later.name})
    requires later.due - one.due > 2 * MAX_RUN_TIMEOUT
    ensures ValidRun(st, events)
    ensures var wait := BatchWait(st);
            events == [] + [Arrive(one, t, t)] + [Fire(t + wait, t + wait, [one.due])]
                    + [Arrive(later, u, u)] + [Fire(u + wait, u + wait, [later.due])]
                    + [Arrive(straggler, v, v)] + [Fire(v + wait, v + wait, [one.due])]
    ensures var es := Run(st, events).emitted;
            && |es| == 3 && es[0].due == es[2].due == one.due
            && es[0].batch == map[one.name := one] && es[2].batch == map[straggler.name := straggler]
  {
    NotAlone(Expected(st, one.due), one.name, straggler.name);
    var first := AloneTimesOut(st, [], one, t);
    var second := AloneTimesOut(st, first, later, u);
    assert one.due !in Run(st, second).flushedDue;
    events := AloneTimesOut(st, second, straggler, v);
    ghost var a, b, c := Run(st, first).emitted, Run(st, second).emitted, Run(st, events).emitted;
    assert |a| == 1 && |b| == 2 && |c| == 3;
    assert b[0] == a[0] && c[0] == b[0];
  }
}
