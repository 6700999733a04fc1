/** The worker loop of the telemetry plugin: one period per config, at most one collection run per period. */
module Worker {
  import opened Sequences
  import opened TelemetryConfig
  import opened SendHealth

  /** Alive is running, Exited has put its result in the channel, Received has been taken from it. */
  datatype RunStatus = Alive | Exited | Received

  datatype CollectionRun = CollectionRun(cfg: PluginConfig, cancelled: bool, status: RunStatus)

  /** Where the loop stands: about to enter a period, in its select, or waiting for its run after cancelling it. */
  datatype Place = Entering | Selecting | Stopping | Leaving | Returned

  /** The result of one report send, with the number of the collection run that recorded it. */
  datatype Send = Send(run: int, success: bool)

  /** failures is the count of consecutive failed sends; sends records all of them for the proofs. */
  datatype State = State(
    place: Place,
    cfg: PluginConfig,
    want: PluginConfig,
    running: bool,
    paused: bool,
    done: bool,
    runs: seq<CollectionRun>,
    failures: nat,
    sends: seq<Send>)

  function Start(cfg: PluginConfig): State { State(Entering, cfg, cfg, false, false, false, [], 0, []) }

  /**
    * ContextDone ends the surrounding context. RunExits and SendRecorded are moves of the collection
    * run itself; the others are moves of the loop. A refresh carries the config it read, or None.
    */
  datatype Step =
    | ContextDone
    | RunExits
    | SendRecorded(success: bool)
    | Enter
    | SeesContext
    | SeesRun
    | Refreshes(read: Option<PluginConfig>)
    | SeesStoppedRun

  predicate LastIs(s: State, status: RunStatus) { s.runs != [] && s.runs[|s.runs| - 1].status == status }

  function WithStatus(s: State, status: RunStatus): State
    requires s.runs != []
  {
    s.(runs := s.runs[|s.runs| - 1 := s.runs[|s.runs| - 1].(status := status)])
  }

  /** Cancelling the context of this period, which the last run shares if one was started in it. */
  function CancelRun(s: State): State {
    if s.running && s.runs != [] then s.(runs := s.runs[|s.runs| - 1 := s.runs[|s.runs| - 1].(cancelled := true)]) else s
  }

  predicate Enabled(s: State, step: Step) {
    match step
    case ContextDone => true
    case RunExits => LastIs(s, Alive)
    case SendRecorded(_) => LastIs(s, Alive)
    case Enter => s.place == Entering
    case SeesContext => s.place == Selecting && s.done
    case SeesRun => s.place == Selecting && s.running && LastIs(s, Exited)
    case Refreshes(_) => s.place == Selecting
    case SeesStoppedRun => (s.place == Stopping || s.place == Leaving) && LastIs(s, Exited)
  }

  function Next(s: State, step: Step): State
    requires Enabled(s, step)
  {
    match step
    case ContextDone => s.(done := true)
    case RunExits => WithStatus(s, Exited)
    case SendRecorded(success) =>
      s.(failures := if success then 0 else s.failures + 1, sends := s.sends + [Send(|s.runs| - 1, success)])
    case Enter =>
      var on := AnyEnabled(s.cfg);
      State(Selecting, s.cfg, s.cfg, on, !on, s.done,
            if on then s.runs + [CollectionRun(s.cfg, false, Alive)] else s.runs,
            if on then 0 else s.failures, s.sends)
    case SeesContext =>
      if s.running then CancelRun(s).(place := Stopping) else s.(place := Returned, paused := false)
    case SeesRun => WithStatus(CancelRun(s), Received).(place := Returned, paused := false)
    case Refreshes(read) =>
      if read.None? || read.value == s.cfg then s.(want := s.cfg)
      else if s.running then CancelRun(s).(want := read.value, place := Leaving)
      else s.(want := read.value, cfg := read.value, place := Entering)
    case SeesStoppedRun =>
      var s' := WithStatus(s, Received);
      if s.place == Stopping then s'.(place := Returned, paused := false)
      else s'.(cfg := s.want, place := Entering)
  }

  /** The state that a list of steps leads to. */
  ghost function After(steps: seq<Step>, initial: PluginConfig): State {
    if steps == [] then Start(initial)
    else
      var before, step := After(steps[..|steps| - 1], initial), steps[|steps| - 1];
      if Enabled(before, step) then Next(before, step) else before
  }

  /** Each step is enabled when its turn comes. */
  ghost predicate IsSchedule(steps: seq<Step>, initial: PluginConfig) {
    steps == []
      || (IsSchedule(steps[..|steps| - 1], initial) && Enabled(After(steps[..|steps| - 1], initial), steps[|steps| - 1]))
  }

  lemma ScheduleNext(steps: seq<Step>, initial: PluginConfig, n: nat)
    requires IsSchedule(steps, initial) && n < |steps|
    ensures IsSchedule(steps[..n], initial) && IsSchedule(steps[..n + 1], initial)
    ensures Enabled(After(steps[..n], initial), steps[n])
    ensures After(steps[..n + 1], initial) == Next(After(steps[..n], initial), steps[n])
  {
    ScheduleStarts(steps, initial, n + 1);
    assert steps[..n + 1][..n] == steps[..n];
  }

  lemma {:induction false} ScheduleStarts(steps: seq<Step>, initial: PluginConfig, n: nat)
    requires IsSchedule(steps, initial) && n <= |steps|
    ensures IsSchedule(steps[..n], initial)
  {
    if n < |steps| {
      ScheduleStarts(steps[..|steps| - 1], initial, n);
      assert steps[..|steps| - 1][..n] == steps[..n];
    } else {
      assert steps[..n] == steps;
    }
  }

  /** Every run but the last has been received; the last belongs to the period when one is running. */
  ghost predicate Sound(s: State) {
    && (forall i | 0 <= i < |s.runs| - 1 :: s.runs[i].status == Received)
    && (forall i | 0 <= i < |s.runs| :: AnyEnabled(s.runs[i].cfg))
    && match s.place
       case Entering => s.runs != [] ==> LastIs(s, Received)
       case Selecting =>
         && s.want == s.cfg && s.running == AnyEnabled(s.cfg) && s.paused == !s.running
         && if s.running then s.runs != [] && s.runs[|s.runs| - 1].cfg == s.cfg && !s.runs[|s.runs| - 1].cancelled
                           && !LastIs(s, Received)
            else s.runs != [] ==> LastIs(s, Received)
       case Stopping => s.running && CancelledLast(s)
       case Leaving => s.running && s.want != s.cfg && CancelledLast(s)
       case Returned => (s.runs != [] ==> LastIs(s, Received)) && !s.paused
  }

  ghost predicate CancelledLast(s: State) {
    && s.runs != [] && s.runs[|s.runs| - 1].cfg == s.cfg && s.runs[|s.runs| - 1].cancelled
    && !LastIs(s, Received) && AnyEnabled(s.cfg) && !s.paused
  }

  lemma StepSound(s: State, step: Step)
    requires Sound(s) && Enabled(s, step)
    ensures Sound(Next(s, step))
  {
  }

  lemma {:induction false} SoundAfter(steps: seq<Step>, initial: PluginConfig)
    requires IsSchedule(steps, initial)
    ensures Sound(After(steps, initial))
  {
    if steps != [] {
      var before := steps[..|steps| - 1];
      SoundAfter(before, initial);
      StepSound(After(before, initial), steps[|steps| - 1]);
    }
  }

  /** The config that the last successful refresh read, or the initial one. */
  function LastRead(steps: seq<Step>, initial: PluginConfig): PluginConfig {
    if steps == [] then initial
    else
      var last := steps[|steps| - 1];
      if last.Refreshes? && last.read.Some? then last.read.value else LastRead(steps[..|steps| - 1], initial)
  }

  lemma NextWants(s: State, step: Step)
    requires Sound(s) && Enabled(s, step) && (s.place == Entering ==> s.want == s.cfg)
    ensures var s' := Next(s, step);
            && s'.want == (if step.Refreshes? && step.read.Some? then step.read.value else s.want)
            && (s'.place == Entering ==> s'.want == s'.cfg)
  {
  }

  /** What the loop wants is the config last read, and it enters every period with it. */
  lemma {:induction false} WantsLastRead(steps: seq<Step>, initial: PluginConfig)
    requires IsSchedule(steps, initial)
    ensures var s := After(steps, initial);
            && s.want == LastRead(steps, initial)
            && (s.place == Entering || s.place == Selecting ==> s.cfg == LastRead(steps, initial))
  {
    SoundAfter(steps, initial);
    if steps != [] {
      var before := steps[..|steps| - 1];
      WantsLastRead(before, initial);
      SoundAfter(before, initial);
      NextWants(After(before, initial), steps[|steps| - 1]);
    }
  }

  /** The context of a run ends when it is cancelled, and with the surrounding context, whose child it is. */
  predicate ContextEnded(s: State, r: nat)
    requires r < |s.runs|
  {
    s.runs[r].cancelled || s.done
  }

  /**
    * At most one collection run is alive, the last, and it was started with something enabled. While the loop is
    * in its select that was with the config last read; its context stands exactly then, unless the surrounding
    * context has ended: so a run with any other config has been cancelled.
    */
  lemma {:induction false} OneRunWithCurrentConfig(steps: seq<Step>, initial: PluginConfig, r: nat)
    requires IsSchedule(steps, initial) && r < |After(steps, initial).runs| && After(steps, initial).runs[r].status == Alive
    ensures var s := After(steps, initial);
            var run := s.runs[r];
            && r == |s.runs| - 1
            && (exists n | n in run.cfg.collectors :: run.cfg.collectors[n].enabled) && !s.paused
            && (s.place == Selecting ==> run.cfg == LastRead(steps, initial))
            && (!run.cancelled <==> s.place == Selecting)
            && (!ContextEnded(s, r) <==> s.place == Selecting && ContextDone !in steps)
            && (run.cfg != LastRead(steps, initial) ==> run.cancelled)
  {
    SoundAfter(steps, initial);
    WantsLastRead(steps, initial);
    DoneIffContextDone(steps, initial);
  }

  lemma {:induction false} DoneIffContextDone(steps: seq<Step>, initial: PluginConfig)
    requires IsSchedule(steps, initial)
    ensures After(steps, initial).done <==> ContextDone in steps
  {
    if steps != [] {
      DoneIffContextDone(steps[..|steps| - 1], initial);
      Snoc(steps);
      OnlyContextDone(After(steps[..|steps| - 1], initial), steps[|steps| - 1]);
    }
  }

  lemma OnlyContextDone(s: State, step: Step)
    requires Enabled(s, step)
    ensures Next(s, step).done <==> s.done || step == ContextDone
  {
  }

  /** How a run may change between two moments: it keeps its config, and its status only moves on. */
  ghost predicate Later(a: CollectionRun, b: CollectionRun) {
    && a.cfg == b.cfg && (a.cancelled ==> b.cancelled)
    && (a.status == Received ==> b.status == Received) && (b.status == Alive ==> a.status == Alive)
  }

  ghost predicate AllReceived(runs: seq<CollectionRun>) {
    forall r | 0 <= r < |runs| :: runs[r].status == Received
  }

  lemma StepMovesRuns(s: State, step: Step)
    requires Sound(s) && Enabled(s, step)
    ensures var s' := Next(s, step);
            && |s.runs| <= |s'.runs|
            && (forall r | 0 <= r < |s.runs| :: Later(s.runs[r], s'.runs[r]))
            && (|s'.runs| > |s.runs| ==> AllReceived(s.runs))
  {
  }

  /** A new run starts only when the completion of every earlier run has been received. */
  lemma EarlierRunsReceivedFirst(steps: seq<Step>, initial: PluginConfig)
    requires steps != [] && IsSchedule(steps, initial)
    requires |After(steps, initial).runs| > |After(steps[..|steps| - 1], initial).runs|
    ensures AllReceived(After(steps[..|steps| - 1], initial).runs)
  {
    SoundAfter(steps[..|steps| - 1], initial);
    StepMovesRuns(After(steps[..|steps| - 1], initial), steps[|steps| - 1]);
  }

  /** A completion is received at most once: a received run stays received, and no run disappears. */
  lemma {:induction false} RunsOnlyMoveOn(steps: seq<Step>, initial: PluginConfig, n: nat, r: nat)
    requires IsSchedule(steps, initial) && n <= |steps| && r < |After(steps[..n], initial).runs|
    ensures var s, s' := After(steps[..n], initial), After(steps, initial);
            r < |s'.runs| && Later(s.runs[r], s'.runs[r])
  {
    var before := steps[..|steps| - 1];
    if n < |steps| {
      assert before[..n] == steps[..n];
      RunsOnlyMoveOn(before, initial, n, r);
      SoundAfter(before, initial);
      StepMovesRuns(After(before, initial), steps[|steps| - 1]);
    } else {
      assert steps[..n] == steps;
    }
  }

  /** When the loop has returned, no run is left behind. */
  lemma {:induction false} NothingLeftBehind(steps: seq<Step>, initial: PluginConfig)
    requires IsSchedule(steps, initial) && After(steps, initial).place == Returned
    ensures AllReceived(After(steps, initial).runs)
  {
    SoundAfter(steps, initial);
    ReturnedIsReceived(After(steps, initial));
  }

  lemma ReturnedIsReceived(s: State)
    requires Sound(s) && s.place == Returned
    ensures AllReceived(s.runs)
  {
  }

  // ---------- Send failures ----------

  /** The sends that one collection run recorded, in order. */
  function SendsOf(sends: seq<Send>, run: int): seq<bool> {
    if sends == [] then []
    else
      var last := sends[|sends| - 1];
      SendsOf(sends[..|sends| - 1], run) + if last.run == run then [last.success] else []
  }

  ghost predicate Counted(s: State) {
    && (forall x | x in s.sends :: x.run < |s.runs|)
    && s.failures == FailingTail(SendsOf(s.sends, |s.runs| - 1))
  }

  lemma {:induction false} NoSendsYet(sends: seq<Send>, run: nat)
    requires forall x | x in sends :: x.run < run
    ensures SendsOf(sends, run) == []
  {
    if sends != [] {
      assert sends[|sends| - 1] in sends;
      NoSendsYet(sends[..|sends| - 1], run);
    }
  }

  lemma SendsOfMore(sends: seq<Send>, run: int, success: bool)
    ensures SendsOf(sends + [Send(run, success)], run) == SendsOf(sends, run) + [success]
    ensures FailingTail(SendsOf(sends, run) + [success]) == if success then 0 else FailingTail(SendsOf(sends, run)) + 1
  {
    assert (sends + [Send(run, success)])[..|sends|] == sends;
    var before := SendsOf(sends, run);
    assert (before + [success])[..|before|] == before;
  }

  lemma RecordedBelow(sends: seq<Send>, send: Send, n: int)
    requires (forall x | x in sends :: x.run < n) && send.run < n
    ensures forall x | x in sends + [send] :: x.run < n
  {
  }

  lemma SendCounts(s: State, success: bool)
    requires Counted(s) && Enabled(s, SendRecorded(success))
    ensures Counted(Next(s, SendRecorded(success)))
  {
    SendsOfMore(s.sends, |s.runs| - 1, success);
    RecordedBelow(s.sends, Send(|s.runs| - 1, success), |s.runs|);
  }

  lemma EnterCounts(s: State)
    requires Counted(s) && Enabled(s, Enter)
    ensures Counted(Next(s, Enter))
  {
    var s' := Next(s, Enter);
    assert s'.sends == s.sends;
    if s'.running {
      assert |s'.runs| == |s.runs| + 1 && s'.failures == 0;
      NoSendsYet(s.sends, |s.runs|);
    } else {
      assert s'.runs == s.runs && s'.failures == s.failures;
    }
  }

  lemma StepCounts(s: State, step: Step)
    requires Counted(s) && Enabled(s, step)
    ensures Counted(Next(s, step))
  {
    if step.SendRecorded? {
      SendCounts(s, step.success);
    } else if step.Enter? {
      EnterCounts(s);
    } else {
      OtherStepsKeepCount(s, step);
    }
  }

  lemma OtherStepsKeepCount(s: State, step: Step)
    requires Enabled(s, step) && !step.SendRecorded? && !step.Enter?
    ensures var s' := Next(s, step); |s'.runs| == |s.runs| && s'.sends == s.sends && s'.failures == s.failures
  {
  }

  /** The sends that the schedule records, each for the run that was started last. */
  function Recorded(steps: seq<Step>, initial: PluginConfig): seq<Send> {
    if steps == [] then []
    else
      var before, last := steps[..|steps| - 1], steps[|steps| - 1];
      Recorded(before, initial)
        + if last.SendRecorded? then [Send(|Started(before, initial)| - 1, last.success)] else []
  }

  /** The runs that the schedule starts: with the config last read, each time a period is entered and it enables something. */
  function Started(steps: seq<Step>, initial: PluginConfig): seq<PluginConfig> {
    if steps == [] then []
    else
      var before := steps[..|steps| - 1];
      var cfg := LastRead(before, initial);
      Started(before, initial)
        + if steps[|steps| - 1] == Enter && (exists n | n in cfg.collectors :: cfg.collectors[n].enabled) then [cfg] else []
  }

  ghost predicate RunsHave(runs: seq<CollectionRun>, configs: seq<PluginConfig>) {
    |runs| == |configs| && forall r | 0 <= r < |runs| :: runs[r].cfg == configs[r]
  }

  lemma StartsOrKeeps(s: State, step: Step)
    requires Enabled(s, step)
    ensures var s' := Next(s, step);
            var starts := step == Enter && exists n | n in s.cfg.collectors :: s.cfg.collectors[n].enabled;
            && |s'.runs| == |s.runs| + (if starts then 1 else 0)
            && (forall r | 0 <= r < |s.runs| :: s'.runs[r].cfg == s.runs[r].cfg)
            && (starts ==> s'.runs[|s.runs|] == CollectionRun(s.cfg, false, Alive))
            && s'.sends == s.sends + if step.SendRecorded? then [Send(|s.runs| - 1, step.success)] else []
  {
  }

  /** The runs are those that the schedule starts, and the sends those that it records. */
  lemma {:induction false} RunsAreStarted(steps: seq<Step>, initial: PluginConfig)
    requires IsSchedule(steps, initial)
    ensures RunsHave(After(steps, initial).runs, Started(steps, initial))
    ensures After(steps, initial).sends == Recorded(steps, initial)
  {
    if steps != [] {
      var before := steps[..|steps| - 1];
      RunsAreStarted(before, initial);
      WantsLastRead(before, initial);
      StartsOrKeeps(After(before, initial), steps[|steps| - 1]);
    }
  }

  lemma {:induction false} CountedAfter(steps: seq<Step>, initial: PluginConfig)
    requires IsSchedule(steps, initial)
    ensures Counted(After(steps, initial))
  {
    if steps != [] {
      var before := steps[..|steps| - 1];
      CountedAfter(before, initial);
      StepCounts(After(before, initial), steps[|steps| - 1]);
    }
  }

  /** The plugin reports failing sends exactly when the latest run's last ten recorded sends all failed. */
  lemma {:induction false} FailingMeansLastTenOfThisRun(steps: seq<Step>, initial: PluginConfig)
    requires IsSchedule(steps, initial)
    ensures After(steps, initial).failures >= MAX_CONSECUTIVE_FAILURES
        <==> LastAllFailed(SendsOf(Recorded(steps, initial), |Started(steps, initial)| - 1))
  {
    CountedAfter(steps, initial);
    RunsAreStarted(steps, initial);
    TailBelow(SendsOf(Recorded(steps, initial), |Started(steps, initial)| - 1), MAX_CONSECUTIVE_FAILURES);
  }

  // ---------- The loop as an object ----------

  class Loop {
    var place: Place
    var cfg: PluginConfig
    var want: PluginConfig
    var running: bool
    var paused: bool
    var done: bool
    var runs: seq<CollectionRun>
    const health: Health
    ghost var sends: seq<Send>

    ghost predicate Valid()
      reads this, health
    {
      health.Valid()
    }

    ghost function Current(): State
      reads this, health
    {
      State(place, cfg, want, running, paused, done, runs, health.consecutiveFailures, sends)
    }

    constructor (initial: PluginConfig)
      ensures Valid() && fresh(health) && Current() == Start(initial)
    {
      place, cfg, want := Entering, initial, initial;
      running, paused, done := false, false, false;
      runs, sends := [], [];
      health := new Health();
    }

    method EnterPeriod()
      requires Valid() && Enabled(Current(), Enter)
      modifies this, health
      ensures Valid() && Current() == Next(old(Current()), Enter)
    {
      running := AnyEnabled(cfg);
      paused := !running;
      if running {
        health.Reset();
        runs := runs + [CollectionRun(cfg, false, Alive)];
      }
      want := cfg;
      place := Selecting;
    }

    method CancelCurrentRun()
      modifies this`runs
      ensures Current() == CancelRun(old(Current()))
    {
      if running && runs != [] { runs := runs[|runs| - 1 := runs[|runs| - 1].(cancelled := true)]; }
    }

    method ReceiveRun()
      requires runs != []
      modifies this`runs
      ensures Current() == WithStatus(old(Current()), Received)
    {
      runs := runs[|runs| - 1 := runs[|runs| - 1].(status := Received)];
    }

    method OnContextDone()
      requires Enabled(Current(), SeesContext)
      modifies this
      ensures Current() == Next(old(Current()), SeesContext)
    {
      CancelCurrentRun();
      if running {
        place := Stopping;
        return;
      }
      paused := false;
      place := Returned;
    }

    method OnRunDone()
      requires Enabled(Current(), SeesRun)
      modifies this
      ensures Current() == Next(old(Current()), SeesRun)
    {
      CancelCurrentRun();
      ReceiveRun();
      paused := false;
      place := Returned;
    }

    method OnRefresh(read: Option<PluginConfig>)
      requires Enabled(Current(), Refreshes(read)) && want == cfg
      modifies this
      ensures Current() == Next(old(Current()), Refreshes(read))
    {
      if read.None? { return; }
      want := read.value;
      if want == cfg { return; }
      CancelCurrentRun();
      if running {
        place := Leaving;
      } else {
        cfg := want;
        place := Entering;
      }
    }

    method OnStoppedRun()
      requires Enabled(Current(), SeesStoppedRun)
      modifies this
      ensures Current() == Next(old(Current()), SeesStoppedRun)
    {
      ReceiveRun();
      if place == Stopping {
        paused := false;
        place := Returned;
      } else {
        cfg := want;
        place := Entering;
      }
    }

    /** What the dispatcher of the current run does after a send. */
    method OnSend(success: bool)
      requires Valid() && Enabled(Current(), SendRecorded(success))
      modifies this, health
      ensures Valid() && Current() == Next(old(Current()), SendRecorded(success))
    {
      health.Record(success);
      sends := sends + [Send(|runs| - 1, success)];
    }

    /** The context ends, or the current run exits. */
    method OnOutside(step: Step)
      requires Enabled(Current(), step) && (step.ContextDone? || step.RunExits?)
      modifies this
      ensures Current() == Next(old(Current()), step)
    {
      if step.ContextDone? {
        done := true;
      } else {
        runs := runs[|runs| - 1 := runs[|runs| - 1].(status := Exited)];
      }
    }

    method Perform(step: Step)
      requires Valid() && Enabled(Current(), step) && (step.Refreshes? ==> want == cfg)
      modifies this, health
      ensures Valid() && Current() == Next(old(Current()), step)
    {
      match step
      case ContextDone => OnOutside(step);
      case RunExits => OnOutside(step);
      case SendRecorded(success) => OnSend(success);
      case Enter => EnterPeriod();
      case SeesContext => OnContextDone();
      case SeesRun => OnRunDone();
      case Refreshes(read) => OnRefresh(read);
      case SeesStoppedRun => OnStoppedRun();
    }
  }

  /** Driving the loop by any schedule leaves it in the state that the schedule reaches. */
  method Drive(loop: Loop, steps: seq<Step>)
    requires loop.Valid() && loop.Current() == Start(loop.cfg) && IsSchedule(steps, loop.cfg)
    modifies loop, loop.health
    ensures loop.Valid() && loop.Current() == After(steps, old(loop.cfg))
  {
    ghost var initial := loop.cfg;
    for i := 0 to |steps|
      invariant loop.Valid() && loop.Current() == After(steps[..i], initial)
    {
      ScheduleNext(steps, initial, i);
      SoundAfter(steps[..i], initial);
      loop.Perform(steps[i]);
    }
    assert steps[..|steps|] == steps;
  }
}
