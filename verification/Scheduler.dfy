/** Collector timers: each tick is snapped to the schedule grid that all collectors share. */
module Scheduler {
  import opened Sequences
  import opened Collector
  import opened TelemetryConfig

  /** The schedule point epoch + n * interval that a tick at time t stands for. */
  function NominalDue(epoch: Time, t: Time, interval: int): Time {
    if interval <= 0 || t <= epoch then epoch
    else epoch + ((t - epoch) - (t - epoch) % interval)
  }

  /** A due time at which a collector with this interval is scheduled. */
  predicate OnGrid(epoch: Time, due: Time, interval: int) {
    interval > 0 && (due - epoch == 0 || (due - epoch) % interval == 0)
  }

  lemma ScaleStep(d: int, m: int)
    requires m > 0 && d >= 1
    ensures d * m >= m
  {
    assert (d - 1) * m >= 0;
    assert d * m == (d - 1) * m + m;
  }

  lemma QuotientUnique(x: int, m: int, q: int, r: int)
    requires m > 0 && 0 <= r < m && x == q * m + r
    ensures x / m == q && x % m == r
  {
    var q', r' := x / m, x % m;
    assert x == q' * m + r';
    assert (q' - q) * m == q' * m - q * m;
    assert (q - q') * m == q * m - q' * m;
    if q' > q { ScaleStep(q' - q, m); }
    if q' < q { ScaleStep(q - q', m); }
  }

  lemma MultipleHasNoRemainder(q: int, m: int)
    requires m > 0
    ensures (q * m) % m == 0 && (q * m) / m == q
  {
    QuotientUnique(q * m, m, q, 0);
  }

  /** Snapping puts a tick after the epoch on the grid point at or before it. */
  lemma NominalDueSnaps(epoch: Time, t: Time, interval: int)
    requires interval > 0
    ensures OnGrid(epoch, NominalDue(epoch, t, interval), interval)
    ensures t > epoch ==> NominalDue(epoch, t, interval) <= t < NominalDue(epoch, t, interval) + interval
    ensures t > epoch ==> NominalDue(epoch, t, interval) == epoch + (t - epoch) / interval * interval
  {
    if t > epoch {
      var q := (t - epoch) / interval;
      assert t - epoch == q * interval + (t - epoch) % interval;
      assert q >= 0;
      MultipleHasNoRemainder(q, interval);
    }
  }

  lemma QuotientMonotone(x: int, y: int, m: int)
    requires m > 0 && x <= y
    ensures x / m <= y / m
  {
    var p, q := x / m, y / m;
    assert x == p * m + x % m && y == q * m + y % m;
    assert (p - q) * m == p * m - q * m;
    if q < p { ScaleStep(p - q, m); }
  }

  lemma ScaleMonotone(a: int, b: int, m: int)
    requires m > 0
    ensures a < b ==> a * m + m <= b * m
    ensures b < a ==> b * m + m <= a * m
  {
    if a < b {
      ScaleStep(b - a, m);
      assert (b - a) * m == b * m - a * m;
    }
    if b < a {
      ScaleStep(a - b, m);
      assert (a - b) * m == a * m - b * m;
    }
  }

  lemma NominalDueMonotone(epoch: Time, t: Time, u: Time, interval: int)
    requires t <= u
    ensures NominalDue(epoch, t, interval) <= NominalDue(epoch, u, interval)
  {
    if interval > 0 && t > epoch {
      NominalDueSnaps(epoch, t, interval);
      NominalDueSnaps(epoch, u, interval);
      QuotientMonotone(t - epoch, u - epoch, interval);
      ScaleMonotone((t - epoch) / interval, (u - epoch) / interval, interval);
    } else if interval > 0 && u > epoch {
      NominalDueSnaps(epoch, u, interval);
      QuotientMonotone(0, u - epoch, interval);
      ScaleMonotone(0, (u - epoch) / interval, interval);
    }
  }

  /** Two ticks after the epoch get the same due time exactly when they fall in the same window. */
  lemma SameDueIffSameWindow(epoch: Time, t: Time, u: Time, interval: int)
    requires interval > 0 && t > epoch && u > epoch
    ensures NominalDue(epoch, t, interval) == NominalDue(epoch, u, interval)
        <==> (t - epoch) / interval == (u - epoch) / interval
  {
    NominalDueSnaps(epoch, t, interval);
    NominalDueSnaps(epoch, u, interval);
    ScaleMonotone((t - epoch) / interval, (u - epoch) / interval, interval);
    ScaleMonotone((u - epoch) / interval, (t - epoch) / interval, interval);
  }

  /** Starting the loops: one for each known collector that is configured, enabled and has an interval. */
  method StartLoops(collectors: seq<string>, cfg: PluginConfig) returns (started: seq<string>)
    ensures forall n :: n in started <==>
              n in collectors && n in cfg.collectors && cfg.collectors[n].enabled && cfg.collectors[n].interval > 0
    ensures NoDuplicates(collectors) ==> NoDuplicates(started)
  {
    started := [];
    for i := 0 to |collectors|
      invariant forall n :: n in started <==>
                  n in collectors[..i] && n in cfg.collectors && cfg.collectors[n].enabled && cfg.collectors[n].interval > 0
      invariant NoDuplicates(collectors) ==> NoDuplicates(started)
    {
      var n := collectors[i];
      assert collectors[..i + 1] == collectors[..i] + [n];
      if n !in cfg.collectors || !cfg.collectors[n].enabled || cfg.collectors[n].interval <= 0 { continue; }
      started := started + [n];
    }
    assert collectors[..|collectors|] == collectors;
  }

  /** What one collection returned. */
  datatype Outcome = Outcome(failed: bool, groups: seq<Group>)

  /** The results of one collector: the initial run at the epoch, then one run per tick. */
  function LoopResult(name: string, interval: int, epoch: Time, ticks: seq<Time>, outcomes: seq<Outcome>, i: nat): Result
    requires i <= |ticks| && i < |outcomes|
  {
    Result(name, i + 1, if i == 0 then epoch else NominalDue(epoch, ticks[i - 1], interval),
           outcomes[i].failed, outcomes[i].groups)
  }

  /**
    * The loop of one collector until the context ends: ticks are the ticks it sees, outcomes what each
    * collection returns, and accepted how many results the channel takes before the context is done.
    */
  method RunCollectorLoop(name: string, interval: int, epoch: Time, ticks: seq<Time>, outcomes: seq<Outcome>,
                          accepted: nat)
    returns (out: seq<Result>)
    requires |outcomes| == |ticks| + 1
    ensures |out| == Min(accepted, |ticks| + 1)
    ensures forall i | 0 <= i < |out| :: out[i] == LoopResult(name, interval, epoch, ticks, outcomes, i)
    ensures forall i | 0 <= i < |out| ::
              && out[i].name == name && out[i].runSeq == i + 1
              && out[i].due == (if i == 0 then epoch else NominalDue(epoch, ticks[i - 1], interval))
              && out[i].failed == outcomes[i].failed && out[i].groups == outcomes[i].groups
  {
    out := [];
    var seqNo := 1;
    var res := Result(name, seqNo, epoch, outcomes[0].failed, outcomes[0].groups);
    if accepted == 0 { return; }
    out := out + [res];
    for i := 0 to |ticks|
      invariant seqNo == i + 1 && |out| == i + 1 <= accepted
      invariant forall k | 0 <= k < |out| :: out[k] == LoopResult(name, interval, epoch, ticks, outcomes, k)
    {
      seqNo := seqNo + 1;
      var due := NominalDue(epoch, ticks[i], interval);
      res := Result(name, seqNo, due, outcomes[i + 1].failed, outcomes[i + 1].groups);
      if |out| == accepted { return; }
      out := out + [res];
    }
  }

  /** Tick n arrives in its own window, no earlier than n intervals after the epoch. */
  ghost predicate TicksInWindows(epoch: Time, ticks: seq<Time>, interval: int) {
    forall n | 0 <= n < |ticks| :: epoch + (n + 1) * interval <= ticks[n] < epoch + (n + 2) * interval
  }

  /** A tick is snapped to grid point i exactly when it falls in window i. */
  lemma DueIffInWindow(epoch: Time, t: Time, interval: int, i: nat)
    requires interval > 0 && i > 0
    ensures NominalDue(epoch, t, interval) == epoch + i * interval
       <==> epoch + i * interval <= t < epoch + (i + 1) * interval
  {
    ScaleMonotone(0, i, interval);
    assert (i + 1) * interval == i * interval + interval;
    NominalDueSnaps(epoch, t, interval);
    if epoch + i * interval <= t < epoch + (i + 1) * interval {
      QuotientUnique(t - epoch, interval, i, t - epoch - i * interval);
    }
  }

  /** So when every tick is in its own window, run i of a collector is due i intervals after the epoch. */
  lemma {:induction false} WindowedDue(name: string, interval: int, epoch: Time, ticks: seq<Time>,
                                       outcomes: seq<Outcome>, i: nat)
    requires interval > 0 && TicksInWindows(epoch, ticks, interval)
    requires i <= |ticks| && |outcomes| == |ticks| + 1
    ensures LoopResult(name, interval, epoch, ticks, outcomes, i).due == epoch + i * interval
  {
    if i > 0 {
      var n := i - 1;
      assert epoch + (n + 1) * interval <= ticks[n] < epoch + (n + 2) * interval;
      DueIffInWindow(epoch, ticks[n], interval, i);
    }
  }

  /** The due times of one collector are then strictly increasing. */
  lemma {:induction false} WindowedDuesIncrease(name: string, interval: int, epoch: Time, ticks: seq<Time>,
                                              outcomes: seq<Outcome>, i: nat, j: nat)
    requires interval > 0 && TicksInWindows(epoch, ticks, interval)
    requires i < j <= |ticks| && |outcomes| == |ticks| + 1
    ensures LoopResult(name, interval, epoch, ticks, outcomes, i).due < LoopResult(name, interval, epoch, ticks, outcomes, j).due
  {
    WindowedDue(name, interval, epoch, ticks, outcomes, i);
    WindowedDue(name, interval, epoch, ticks, outcomes, j);
    ScaleMonotone(j, i, interval);
  }

  /** Every result of a collector is due on that collector's grid, whatever its ticks. */
  lemma {:induction false} LoopDueOnGrid(name: string, interval: int, epoch: Time, ticks: seq<Time>,
                                       outcomes: seq<Outcome>, i: nat)
    requires interval > 0 && i <= |ticks| && |outcomes| == |ticks| + 1
    ensures OnGrid(epoch, LoopResult(name, interval, epoch, ticks, outcomes, i).due, interval)
  {
    if i > 0 { NominalDueSnaps(epoch, ticks[i - 1], interval); }
  }
}
