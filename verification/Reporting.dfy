/** The reporter: collector results are batched by due time, flushed once, numbered and reported. */
module Reporting {
  import opened Sequences
  import opened Collector
  import opened TelemetryConfig
  import opened Scheduler

  type Batch = map<string, Result>

  datatype Settings = Settings(collectors: seq<string>, cfg: PluginConfig, epoch: Time)

  datatype Report = Report(seqNum: int, start: Time, end: Time, groups: seq<Group>)

  datatype Emission = Emission(due: Time, batch: Batch, report: Report)

  /** timer is the moment the shared timer will fire; emitted lists the batches flushed so far. */
  datatype State = State(
    pending: map<Time, Batch>,
    deadlines: map<Time, Time>,
    flushedDue: set<Time>,
    seqNum: int,
    timer: Option<Time>,
    emitted: seq<Emission>)

  const EMPTY: State := State(map[], map[], {}, 0, None, [])

  /** The time that a batch may stay open: the configured one, or 15 seconds. */
  function BatchWait(st: Settings): (w: int)
    ensures w > 0 && (w == st.cfg.batchTimeout || (st.cfg.batchTimeout <= 0 && w == 15_000_000_000))
  {
    if st.cfg.batchTimeout <= 0 then DEFAULT_BATCH_WAIT else st.cfg.batchTimeout
  }

  // ---------- Expected collectors and reports ----------

  predicate Scheduled(st: Settings, due: Time, name: string) {
    name in st.cfg.collectors && st.cfg.collectors[name].enabled
      && OnGrid(st.epoch, due, st.cfg.collectors[name].interval)
  }

  function Expected(st: Settings, due: Time): set<string> {
    set name | name in st.collectors && Scheduled(st, due, name)
  }

  /** The groups of a report: healthy results only, in the order of the collectors. */
  function Included(collectors: seq<string>, batch: Batch): seq<Group> {
    if collectors == [] then []
    else
      var c := collectors[0];
      var first := if c in batch && !batch[c].failed then batch[c].groups else [];
      first + Included(collectors[1..], batch)
  }

  function MinStart(groups: seq<Group>, acc: Time): Time {
    if groups == [] then acc
    else
      var t := groups[0].start;
      MinStart(groups[1..], if t.Some? && (acc == 0 || t.value < acc) then t.value else acc)
  }

  function MaxEnd(groups: seq<Group>, acc: Time): Time {
    if groups == [] then acc
    else
      var t := groups[0].end;
      MaxEnd(groups[1..], if t.Some? && (acc == 0 || t.value > acc) then t.value else acc)
  }

  /** clock is the time read when no group carries an end stamp. */
  function Built(st: Settings, seqNum: int, due: Time, batch: Batch, clock: Time): Report {
    var groups := Included(st.collectors, batch);
    var start, end := MinStart(groups, 0), MaxEnd(groups, 0);
    Report(seqNum, if start == 0 then due else start, if end == 0 then clock else end, groups)
  }

  lemma MinMaxConcat(a: seq<Group>, b: seq<Group>, acc: Time)
    ensures MinStart(a + b, acc) == MinStart(b, MinStart(a, acc))
    ensures MaxEnd(a + b, acc) == MaxEnd(b, MaxEnd(a, acc))
  {
    MinConcat(a, b, acc);
    MaxConcat(a, b, acc);
  }

  lemma {:induction false} MinConcat(a: seq<Group>, b: seq<Group>, acc: Time)
    ensures MinStart(a + b, acc) == MinStart(b, MinStart(a, acc))
  {
    if a == [] {
      assert a + b == b;
    } else {
      assert (a + b)[1..] == a[1..] + b;
      var t := a[0].start;
      MinConcat(a[1..], b, if t.Some? && (acc == 0 || t.value < acc) then t.value else acc);
    }
  }

  lemma {:induction false} MaxConcat(a: seq<Group>, b: seq<Group>, acc: Time)
    ensures MaxEnd(a + b, acc) == MaxEnd(b, MaxEnd(a, acc))
  {
    if a == [] {
      assert a + b == b;
    } else {
      assert (a + b)[1..] == a[1..] + b;
      var t := a[0].end;
      MaxConcat(a[1..], b, if t.Some? && (acc == 0 || t.value > acc) then t.value else acc);
    }
  }

  /** Groups come in the order of the collectors: the collectors of a first part contribute a first part. */
  lemma {:induction false} IncludedInOrder(a: seq<string>, b: seq<string>, batch: Batch)
    ensures Included(a + b, batch) == Included(a, batch) + Included(b, batch)
  {
    if a == [] {
      assert a + b == b;
    } else {
      assert (a + b)[1..] == a[1..] + b;
      IncludedInOrder(a[1..], b, batch);
    }
  }

  lemma IncludedNext(collectors: seq<string>, i: nat, batch: Batch)
    requires i < |collectors|
    ensures var c := collectors[i];
            Included(collectors[..i + 1], batch) == Included(collectors[..i], batch)
              + if c in batch && !batch[c].failed then batch[c].groups else []
  {
    assert collectors[..i + 1] == collectors[..i] + [collectors[i]];
    IncludedInOrder(collectors[..i], [collectors[i]], batch);
    assert [collectors[i]][1..] == [];
  }

  // ---------- Steps ----------

  /** The batch pending for due, or an empty one. */
  function OpenBatch(s: State, due: Time): Batch { if due in s.pending then s.pending[due] else map[] }

  function Flushed(st: Settings, s: State, due: Time, clock: Time): State {
    var batch := OpenBatch(s, due);
    var s' := s.(
      pending := s.pending - {due},
      deadlines := s.deadlines - {due},
      flushedDue := set d | d in s.flushedDue + {due} && due - d <= 2 * MAX_RUN_TIMEOUT);
    if |batch| == 0 then s'
    else s'.(
      seqNum := s.seqNum + 1,
      emitted := s.emitted + [Emission(due, batch, Built(st, s.seqNum + 1, due, batch, clock))])
  }

  ghost function Earliest(times: set<Time>): (t: Time)
    requires times != {}
    ensures t in times && forall u | u in times :: t <= u
  {
    var t := Pick(times);
    if times == {t} then t
    else
      assert times == {t} + (times - {t});
      Min(t, Earliest(times - {t}))
  }

  /** The timer is armed for the earliest deadline, or at once when that has passed. */
  ghost function Rearmed(s: State, clock: Time): State {
    s.(timer := if s.deadlines.Values == {} then None else Some(Max(Earliest(s.deadlines.Values), clock)))
  }

  /** The result joins the batch of its due time; the first one fixes the deadline. */
  function Joined(st: Settings, s: State, res: Result, now: Time): State {
    s.(pending := s.pending[res.due := OpenBatch(s, res.due)[res.name := res]],
       deadlines := if res.due in s.pending then s.deadlines else s.deadlines[res.due := now + BatchWait(st)])
  }

  /** now is read when a batch is opened, clock when a report is built and the timer armed. */
  ghost function AfterResult(st: Settings, s: State, res: Result, now: Time, clock: Time): State {
    if res.due in s.flushedDue then s
    else
      var s' := Joined(st, s, res, now);
      Rearmed(if Expected(st, res.due) <= s'.pending[res.due].Keys then Flushed(st, s', res.due, clock) else s', clock)
  }

  /** Visiting the deadlines in the given order and flushing the expired ones. */
  function Swept(st: Settings, s: State, order: seq<Time>, now: Time, clock: Time): State
    decreases |order|
  {
    if order == [] then s
    else
      var due := order[0];
      Swept(st, if due in s.deadlines && s.deadlines[due] <= now then Flushed(st, s, due, clock) else s,
            order[1..], now, clock)
  }

  ghost function AfterTimer(st: Settings, s: State, now: Time, clock: Time, order: seq<Time>): State {
    Rearmed(Swept(st, s, order, now, clock), clock)
  }

  datatype Event =
    | Arrive(res: Result, now: Time, clock: Time)
    | Fire(now: Time, clock: Time, order: seq<Time>)

  /** The order of one pass over a map is any listing of its keys. */
  ghost predicate Listing(order: seq<Time>, keys: set<Time>) {
    NoDuplicates(order) && forall k :: k in order <==> k in keys
  }

  ghost predicate Legal(s: State, ev: Event) {
    0 < ev.now <= ev.clock && (ev.Fire? ==> Listing(ev.order, s.deadlines.Keys))
  }

  ghost function Step(st: Settings, s: State, ev: Event): State {
    match ev
    case Arrive(res, now, clock) => AfterResult(st, s, res, now, clock)
    case Fire(now, clock, order) => AfterTimer(st, s, now, clock, order)
  }

  /** No deadline is Go's zero time, which the code uses to mean that no deadline was found. */
  predicate RealDeadlines(deadlines: map<Time, Time>) {
    forall d | d in deadlines :: deadlines[d] > 0
  }

  class Reporter {
    const settings: Settings
    var pending: map<Time, Batch>
    var deadlines: map<Time, Time>
    var flushedDue: set<Time>
    var seqNum: int
    var timer: Option<Time>
    var emitted: seq<Emission>

    function Current(): State
      reads this
    {
      State(pending, deadlines, flushedDue, seqNum, timer, emitted)
    }

    constructor (settings: Settings)
      ensures this.settings == settings && Current() == EMPTY
    {
      this.settings := settings;
      pending, deadlines, flushedDue := map[], map[], {};
      seqNum, timer, emitted := 0, None, [];
    }

    method ExpectedAtDue(due: Time) returns (exp: set<string>)
      ensures exp == Expected(settings, due)
    {
      exp := {};
      var elapsed := due - settings.epoch;
      for i := 0 to |settings.collectors|
        invariant exp == set name | name in settings.collectors[..i] && Scheduled(settings, due, name)
      {
        var name := settings.collectors[i];
        assert settings.collectors[..i + 1] == settings.collectors[..i] + [name];
        if name !in settings.cfg.collectors { continue; }
        var cc := settings.cfg.collectors[name];
        if !cc.enabled || cc.interval <= 0 { continue; }
        if elapsed == 0 || elapsed % cc.interval == 0 { exp := exp + {name}; }
      }
      assert settings.collectors[..|settings.collectors|] == settings.collectors;
    }

    method BuildReport(due: Time, batch: Batch, clock: Time) returns (rep: Report)
      modifies this`seqNum
      ensures seqNum == old(seqNum) + 1
      ensures rep == Built(settings, seqNum, due, batch, clock)
    {
      seqNum := seqNum + 1;
      var groups: seq<Group> := [];
      var minStart, maxEnd := 0, 0;
      for i := 0 to |settings.collectors|
        invariant seqNum == old(seqNum) + 1 && groups == Included(settings.collectors[..i], batch)
        invariant minStart == MinStart(groups, 0) && maxEnd == MaxEnd(groups, 0)
      {
        var c := settings.collectors[i];
        IncludedNext(settings.collectors, i, batch);
        if c !in batch || batch[c].failed { continue; }
        MinMaxConcat(groups, batch[c].groups, 0);
        groups, minStart, maxEnd := AddGroups(groups, batch[c].groups, minStart, maxEnd);
      }
      assert settings.collectors[..|settings.collectors|] == settings.collectors;
      rep := Report(seqNum, if minStart == 0 then due else minStart, if maxEnd == 0 then clock else maxEnd, groups);
    }

    /** The inner loop over the groups of one result. */
    method AddGroups(groups: seq<Group>, own: seq<Group>, minStart: Time, maxEnd: Time)
      returns (all: seq<Group>, min: Time, max: Time)
      ensures all == groups + own && min == MinStart(own, minStart) && max == MaxEnd(own, maxEnd)
    {
      all, min, max := groups, minStart, maxEnd;
      for j := 0 to |own|
        invariant all == groups + own[..j]
        invariant MinStart(own, minStart) == MinStart(own[j..], min) && MaxEnd(own, maxEnd) == MaxEnd(own[j..], max)
      {
        var g := own[j];
        assert own[j..][0] == g && own[j..][1..] == own[j + 1..];
        all := all + [g];
        if g.start.Some? && (min == 0 || g.start.value < min) { min := g.start.value; }
        if g.end.Some? && (max == 0 || g.end.value > max) { max := g.end.value; }
      }
      assert own[..|own|] == own;
    }

    method ForgetOld(due: Time)
      modifies this`flushedDue
      ensures flushedDue == set d | d in old(flushedDue) && due - d <= 2 * MAX_RUN_TIMEOUT
    {
      var todo := flushedDue;
      while todo != {}
        invariant todo <= flushedDue <= old(flushedDue)
        invariant flushedDue == set d | d in old(flushedDue) && (d in todo || due - d <= 2 * MAX_RUN_TIMEOUT)
        decreases todo
      {
        var oldDue := Choose(todo);
        todo := todo - {oldDue};
        if due - oldDue > 2 * MAX_RUN_TIMEOUT { flushedDue := flushedDue - {oldDue}; }
      }
    }

    method FlushDue(due: Time, clock: Time)
      modifies this
      ensures Current() == Flushed(settings, old(Current()), due, clock)
      ensures RealDeadlines(old(deadlines)) ==> RealDeadlines(deadlines)
    {
      var batch: Batch := if due in pending then pending[due] else map[];
      pending := pending - {due};
      deadlines := deadlines - {due};
      flushedDue := flushedDue + {due};
      ForgetOld(due);
      if |batch| == 0 { return; }
      var rep := BuildReport(due, batch, clock);
      emitted := emitted + [Emission(due, batch, rep)];
    }

    method RearmTimer(clock: Time)
      requires RealDeadlines(deadlines)
      modifies this`timer
      ensures Current() == Rearmed(old(Current()), clock)
    {
      timer := None;
      var earliest := 0;
      var todo := deadlines.Keys;
      while todo != {}
        invariant timer == None && todo <= deadlines.Keys
        invariant earliest == 0 <==> todo == deadlines.Keys
        invariant earliest != 0 ==> earliest in deadlines.Values
        invariant forall d | d in deadlines && d !in todo :: earliest <= deadlines[d]
        decreases todo
      {
        var d := Choose(todo);
        todo := todo - {d};
        if earliest == 0 || deadlines[d] < earliest { earliest := deadlines[d]; }
      }
      if earliest != 0 {
        assert todo == {};
        assert forall d | d in deadlines :: d !in todo && earliest <= deadlines[d];
        assert earliest == Earliest(deadlines.Values);
        var wait := Max(earliest - clock, 0);
        timer := Some(clock + wait);
      } else {
        assert deadlines.Values == {};
      }
    }

    method OnResult(res: Result, now: Time, clock: Time)
      requires RealDeadlines(deadlines) && 0 < now <= clock
      modifies this
      ensures Current() == AfterResult(settings, old(Current()), res, now, clock)
    {
      if res.due in flushedDue { return; }
      var b: Batch := map[];
      if res.due in pending {
        b := pending[res.due];
      } else {
        deadlines := deadlines[res.due := now + BatchWait(settings)];
      }
      b := b[res.name := res];
      pending := pending[res.due := b];
      assert Current() == Joined(settings, old(Current()), res, now);

      var exp := ExpectedAtDue(res.due);
      var allArrived := true;
      var todo := exp;
      while todo != {}
        invariant Current() == Joined(settings, old(Current()), res, now)
        invariant RealDeadlines(deadlines) && todo <= exp
        invariant allArrived && forall name | name in exp && name !in todo :: name in b
        decreases todo
      {
        var name := Choose(todo);
        todo := todo - {name};
        if name !in b {
          allArrived := false;
          break;
        }
      }
      assert allArrived <==> exp <= b.Keys;
      if allArrived { FlushDue(res.due, clock); }
      RearmTimer(clock);
    }

    method OnTimer(now: Time, clock: Time, order: seq<Time>)
      requires RealDeadlines(deadlines) && 0 < now <= clock && Listing(order, deadlines.Keys)
      modifies this
      ensures Current() == AfterTimer(settings, old(Current()), now, clock, order)
    {
      for i := 0 to |order|
        invariant RealDeadlines(deadlines)
        invariant Swept(settings, old(Current()), order, now, clock) == Swept(settings, Current(), order[i..], now, clock)
      {
        var due := order[i];
        assert order[i..][0] == due && order[i..][1..] == order[i + 1..];
        if due in deadlines && deadlines[due] <= now { FlushDue(due, clock); }
      }
      RearmTimer(clock);
    }
  }
}
