/** The worker loop, said from the steps before alone: the config last read, the period since the loop last entered one. */
module WorkerHistory {
  import opened Sequences
  import opened TelemetryConfig
  import opened SendHealth
  import opened Worker

  // ---------- What the steps say ----------

  /** The steps since a period was last entered. */
  function Period(steps: seq<Step>): seq<Step> {
    if steps == [] || steps[|steps| - 1] == Enter then [] else Period(steps[..|steps| - 1]) + [steps[|steps| - 1]]
  }

  /** The config last read when that period was entered. */
  function InForce(steps: seq<Step>, initial: PluginConfig): PluginConfig {
    if steps == [] then initial
    else
      var front := steps[..|steps| - 1];
      if steps[|steps| - 1] == Enter then LastRead(front, initial) else InForce(front, initial)
  }

  predicate On(cfg: PluginConfig) { exists n | n in cfg.collectors :: cfg.collectors[n].enabled }

  predicate ReadsOther(step: Step, cfg: PluginConfig) {
    step.Refreshes? && step.read.Some? && step.read.value != cfg
  }

  /** In this period with this config, a refresh has read another one. */
  predicate Replaced(period: seq<Step>, cfg: PluginConfig) { exists step | step in period :: ReadsOther(step, cfg) }

  /** The loop is in the select of a period that nothing has ended. */
  predicate InSelect(steps: seq<Step>, initial: PluginConfig) {
    var period, cfg := Period(steps), InForce(steps, initial);
    Enter in steps && SeesContext !in period && SeesRun !in period && !Replaced(period, cfg)
  }

  /** What may happen after these steps. */
  predicate Allowed(steps: seq<Step>, initial: PluginConfig, step: Step) {
    var period, cfg := Period(steps), InForce(steps, initial);
    match step
    case ContextDone => true
    case RunExits => Enter in steps && On(cfg) && RunExits !in period
    case SendRecorded(_) => Enter in steps && On(cfg) && RunExits !in period
    case Enter => Enter !in steps || (Replaced(period, cfg) && (On(cfg) ==> SeesStoppedRun in period))
    case SeesContext => InSelect(steps, initial) && ContextDone in steps
    case SeesRun => InSelect(steps, initial) && On(cfg) && RunExits in period
    case Refreshes(_) => InSelect(steps, initial)
    case SeesStoppedRun =>
      && Enter in steps && (Replaced(period, cfg) || SeesContext in period)
      && On(cfg) && RunExits in period && SeesStoppedRun !in period
  }

  // ---------- Where the loop stands ----------

  ghost predicate Stands(s: State, steps: seq<Step>, initial: PluginConfig) {
    var period, cfg := Period(steps), InForce(steps, initial);
    var stopped := SeesStoppedRun in period;
    && s.want == LastRead(steps, initial) && (s.done <==> ContextDone in steps)
    && match s.place
       case Entering =>
         && s.cfg == s.want && (Enter !in steps ==> s.runs == [])
         && (Enter in steps ==> Replaced(period, cfg) && SeesContext !in period && SeesRun !in period
                                && (On(cfg) ==> stopped && RunExits in period))
       case Selecting => s.cfg == cfg && InSelect(steps, initial) && !stopped && RunStands(s, steps, cfg)
       case Stopping =>
         && s.cfg == cfg && Enter in steps && SeesContext in period && SeesRun !in period && !Replaced(period, cfg)
         && !stopped && On(cfg) && RunStands(s, steps, cfg)
       case Leaving =>
         && s.cfg == cfg && Enter in steps && SeesContext !in period && SeesRun !in period && Replaced(period, cfg)
         && !stopped && On(cfg) && RunStands(s, steps, cfg)
       case Returned =>
         && Enter in steps && !Replaced(period, cfg)
         && if SeesRun in period then SeesContext !in period && RunExits in period && !stopped
            else SeesContext in period && (On(cfg) ==> stopped && RunExits in period)
  }

  /** The run of the period is alive until it exits, and has not been received. */
  ghost predicate RunStands(s: State, steps: seq<Step>, cfg: PluginConfig) {
    && (s.running <==> On(cfg))
    && (On(cfg) ==> LastIs(s, if RunExits in Period(steps) then Exited else Alive))
  }

  lemma LastIn(steps: seq<Step>, step: Step)
    requires steps != []
    ensures step in steps <==> step in steps[..|steps| - 1] || step == steps[|steps| - 1]
  {
    Snoc(steps);
  }

  lemma ReplacedMore(period: seq<Step>, step: Step, cfg: PluginConfig)
    ensures Replaced(period + [step], cfg) <==> Replaced(period, cfg) || ReadsOther(step, cfg)
  {
    if ReadsOther(step, cfg) { assert step in period + [step]; }
    if Replaced(period, cfg) {
      var other :| other in period && ReadsOther(other, cfg);
      assert other in period + [step];
    }
  }

  lemma EnterStands(steps: seq<Step>, initial: PluginConfig)
    requires steps != [] && steps[|steps| - 1] == Enter
    requires var s := After(steps[..|steps| - 1], initial);
             Sound(s) && Enabled(s, Enter) && Stands(s, steps[..|steps| - 1], initial)
    ensures Stands(After(steps, initial), steps, initial)
  {
    LastIn(steps, Enter);
    LastIn(steps, ContextDone);
  }

  lemma RefreshStands(steps: seq<Step>, initial: PluginConfig)
    requires steps != [] && steps[|steps| - 1].Refreshes?
    requires var s := After(steps[..|steps| - 1], initial);
             Sound(s) && Enabled(s, steps[|steps| - 1]) && Stands(s, steps[..|steps| - 1], initial)
    ensures Stands(After(steps, initial), steps, initial)
  {
    var before, step := steps[..|steps| - 1], steps[|steps| - 1];
    LastIn(steps, Enter);
    LastIn(steps, ContextDone);
    ReplacedMore(Period(before), step, InForce(before, initial));
  }

  lemma StandsNext(steps: seq<Step>, initial: PluginConfig)
    requires steps != [] && steps[|steps| - 1] != Enter && !steps[|steps| - 1].Refreshes?
    requires var s := After(steps[..|steps| - 1], initial);
             Sound(s) && Enabled(s, steps[|steps| - 1]) && Stands(s, steps[..|steps| - 1], initial)
    ensures Stands(After(steps, initial), steps, initial)
  {
    var before, step := steps[..|steps| - 1], steps[|steps| - 1];
    LastIn(steps, Enter);
    LastIn(steps, ContextDone);
    ReplacedMore(Period(before), step, InForce(before, initial));
  }

  lemma {:induction false} LoopStands(steps: seq<Step>, initial: PluginConfig)
    requires IsSchedule(steps, initial)
    ensures Stands(After(steps, initial), steps, initial)
  {
    if steps != [] {
      LoopStands(steps[..|steps| - 1], initial);
      SoundAfter(steps[..|steps| - 1], initial);
      match steps[|steps| - 1]
      case Enter => EnterStands(steps, initial);
      case Refreshes(_) => RefreshStands(steps, initial);
      case _ => StandsNext(steps, initial);
    }
  }

  lemma AllowedIff(steps: seq<Step>, initial: PluginConfig, step: Step)
    requires IsSchedule(steps, initial)
    ensures Enabled(After(steps, initial), step) <==> Allowed(steps, initial, step)
  {
    LoopStands(steps, initial);
    SoundAfter(steps, initial);
  }

  /** Every step is allowed by those before it. */
  ghost predicate IsHistory(steps: seq<Step>, initial: PluginConfig) {
    forall n | 0 <= n < |steps| :: Allowed(steps[..n], initial, steps[n])
  }

  lemma HistoryGrows(steps: seq<Step>, initial: PluginConfig)
    requires steps != []
    ensures var k := |steps| - 1;
            IsHistory(steps, initial) <==> IsHistory(steps[..k], initial) && Allowed(steps[..k], initial, steps[k])
  {
    var k := |steps| - 1;
    forall n | 0 <= n < k ensures steps[..k][..n] == steps[..n] && steps[..k][n] == steps[n] {}
    if IsHistory(steps, initial) {
      forall n | 0 <= n < k ensures Allowed(steps[..k][..n], initial, steps[..k][n]) {
        assert Allowed(steps[..n], initial, steps[n]);
      }
    }
    if IsHistory(steps[..k], initial) && Allowed(steps[..k], initial, steps[k]) {
      forall n | 0 <= n < |steps| ensures Allowed(steps[..n], initial, steps[n]) {
        if n < k { assert Allowed(steps[..k][..n], initial, steps[..k][n]); }
      }
    }
  }

  /** The schedules of the loop are exactly the step lists in which every step is allowed by those before it. */
  lemma {:induction false} SchedulesAreHistories(steps: seq<Step>, initial: PluginConfig)
    ensures IsSchedule(steps, initial) <==> IsHistory(steps, initial)
  {
    if steps != [] {
      var k := |steps| - 1;
      HistoryGrows(steps, initial);
      SchedulesAreHistories(steps[..k], initial);
      if IsSchedule(steps[..k], initial) { AllowedIff(steps[..k], initial, steps[k]); }
    }
  }

  // ---------- What becomes of the runs ----------

  /** Run r was started in the period that the loop entered last. */
  predicate OfPeriod(steps: seq<Step>, initial: PluginConfig, r: nat) {
    r + 1 == |Started(steps, initial)| && Enter in steps && On(InForce(steps, initial))
  }

  /** Runs of earlier periods are cancelled and received; the one of this period as its steps say. */
  ghost predicate RunsStand(s: State, steps: seq<Step>, initial: PluginConfig) {
    && |s.runs| == |Started(steps, initial)|
    && (forall r: nat | r < |s.runs| && !OfPeriod(steps, initial, r) :: s.runs[r].cancelled && s.runs[r].status == Received)
    && (Enter in steps && On(InForce(steps, initial)) ==> s.runs != [] && LastStands(s.runs[|s.runs| - 1], steps, initial))
    && (s.paused <==> Enter in steps && !On(InForce(steps, initial)) && SeesContext !in Period(steps))
  }

  ghost predicate LastStands(run: CollectionRun, steps: seq<Step>, initial: PluginConfig) {
    var period := Period(steps);
    && run.cfg == InForce(steps, initial)
    && (run.cancelled <==> !InSelect(steps, initial))
    && (run.status == Alive <==> RunExits !in period)
    && (run.status == Received <==> SeesRun in period || SeesStoppedRun in period)
  }

  lemma EnterRunsStand(steps: seq<Step>, initial: PluginConfig)
    requires steps != [] && steps[|steps| - 1] == Enter && IsSchedule(steps, initial)
    requires RunsStand(After(steps[..|steps| - 1], initial), steps[..|steps| - 1], initial)
    ensures RunsStand(After(steps, initial), steps, initial)
  {
    LastIn(steps, Enter);
    LoopStands(steps[..|steps| - 1], initial);
    RunsAreStarted(steps, initial);
    RunsAreStarted(steps[..|steps| - 1], initial);
  }

  lemma RefreshRunsStand(steps: seq<Step>, initial: PluginConfig)
    requires steps != [] && steps[|steps| - 1].Refreshes? && IsSchedule(steps, initial)
    requires RunsStand(After(steps[..|steps| - 1], initial), steps[..|steps| - 1], initial)
    ensures RunsStand(After(steps, initial), steps, initial)
  {
    var before, step := steps[..|steps| - 1], steps[|steps| - 1];
    LastIn(steps, Enter);
    LoopStands(before, initial);
    SoundAfter(before, initial);
    ReplacedMore(Period(before), step, InForce(before, initial));
  }

  /** A step of the context or the run itself. */
  predicate Outside(step: Step) { step.ContextDone? || step.RunExits? || step.SendRecorded? }

  lemma OutsideRunsStand(steps: seq<Step>, initial: PluginConfig)
    requires steps != [] && Outside(steps[|steps| - 1]) && IsSchedule(steps, initial)
    requires RunsStand(After(steps[..|steps| - 1], initial), steps[..|steps| - 1], initial)
    ensures RunsStand(After(steps, initial), steps, initial)
  {
    var before, step := steps[..|steps| - 1], steps[|steps| - 1];
    LastIn(steps, Enter);
    ReplacedMore(Period(before), step, InForce(before, initial));
    if step.RunExits? {
      LoopStands(before, initial);
      SoundAfter(before, initial);
    }
  }

  lemma SeenRunsStand(steps: seq<Step>, initial: PluginConfig)
    requires steps != [] && IsSchedule(steps, initial)
    requires steps[|steps| - 1] in {SeesContext, SeesRun, SeesStoppedRun}
    requires RunsStand(After(steps[..|steps| - 1], initial), steps[..|steps| - 1], initial)
    ensures RunsStand(After(steps, initial), steps, initial)
  {
    var before, step := steps[..|steps| - 1], steps[|steps| - 1];
    LastIn(steps, Enter);
    LoopStands(before, initial);
    SoundAfter(before, initial);
    ReplacedMore(Period(before), step, InForce(before, initial));
  }

  /** What has become of every run, and when the collection is paused. */
  lemma {:induction false} RunsFollowSteps(steps: seq<Step>, initial: PluginConfig)
    requires IsSchedule(steps, initial)
    ensures RunsStand(After(steps, initial), steps, initial)
  {
    if steps != [] {
      RunsFollowSteps(steps[..|steps| - 1], initial);
      match steps[|steps| - 1]
      case Enter => EnterRunsStand(steps, initial);
      case Refreshes(_) => RefreshRunsStand(steps, initial);
      case SeesContext => SeenRunsStand(steps, initial);
      case SeesRun => SeenRunsStand(steps, initial);
      case SeesStoppedRun => SeenRunsStand(steps, initial);
      case _ => OutsideRunsStand(steps, initial);
    }
  }

  // ---------- A new config takes over ----------

  lemma Extend(steps: seq<Step>, initial: PluginConfig, step: Step) returns (more: seq<Step>)
    requires IsSchedule(steps, initial) && Enabled(After(steps, initial), step)
    ensures more == steps + [step] && IsSchedule(more, initial)
    ensures After(more, initial) == Next(After(steps, initial), step)
  {
    more := steps + [step];
    assert more[..|steps|] == steps;
  }

  /** The loop waits for the run that it has cancelled. */
  lemma RunIsStopped(steps: seq<Step>, initial: PluginConfig) returns (more: seq<Step>)
    requires IsSchedule(steps, initial) && After(steps, initial).place == Leaving
    ensures steps <= more && IsSchedule(more, initial)
    ensures var s, s' := After(steps, initial), After(more, initial);
            && s'.place == Entering && s'.cfg == s.want && |s'.runs| == |s.runs|
  {
    SoundAfter(steps, initial);
    more := steps;
    if LastIs(After(steps, initial), Alive) { more := Extend(more, initial, RunExits); }
    more := Extend(more, initial, SeesStoppedRun);
  }

  /**
    * From the select, a refresh that reads another config can always be followed up: the run, if any, is
    * cancelled and received, and the next period has the new config, with a new run when something is enabled.
    */
  lemma {:induction false} NewConfigTakesOver(steps: seq<Step>, initial: PluginConfig, cfg: PluginConfig)
    returns (more: seq<Step>)
    requires IsSchedule(steps, initial) && InSelect(steps, initial) && cfg != LastRead(steps, initial)
    ensures IsSchedule(more, initial) && steps + [Refreshes(Some(cfg))] <= more && InSelect(more, initial)
    ensures InForce(more, initial) == LastRead(more, initial) == cfg
    ensures var s, s' := After(steps, initial), After(more, initial);
            && |s.runs| <= |s'.runs|
            && (forall r | 0 <= r < |s.runs| :: s'.runs[r].cancelled && s'.runs[r].status == Received)
            && if On(cfg) then |s'.runs| == |s.runs| + 1 && s'.runs[|s.runs|] == CollectionRun(cfg, false, Alive)
               else |s'.runs| == |s.runs| && s'.paused
  {
    AllowedIff(steps, initial, Refreshes(Some(cfg)));
    WantsLastRead(steps, initial);
    more := Extend(steps, initial, Refreshes(Some(cfg)));
    SoundAfter(steps, initial);
    if After(more, initial).place == Leaving { more := RunIsStopped(more, initial); }
    more := Extend(more, initial, Enter);
    LoopStands(more, initial);
    RunsFollowSteps(more, initial);
    WantsLastRead(more, initial);
    RunsAreStarted(more, initial);
  }
}
