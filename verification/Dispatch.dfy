/** Handing finished reports to the sender: a bounded queue between the reporter and one worker. */
module Dispatch {
  import opened Sequences
  import opened Reporting
  import opened ReporterTheorems

  const QUEUE_CAPACITY: nat := 16

  /**
    * How many emissions of the reporter were built so far, the one it is trying to enqueue, the queue, the
    * item the worker holds and whether it decided to send it, what was handed to the send function, and
    * whether the context is done.
    */
  datatype State = State(built: nat, blocked: Option<Emission>, queue: seq<Emission>, held: Option<Emission>,
                         checked: bool, dispatched: seq<Emission>, cancelled: bool)

  const START: State := State.State(0, None, [], None, false, [], false)

  /**
    * Build takes the next emission of the reporter; Enqueue and Abandon are the two ways the blocked send
    * ends; Take removes the head of the queue; Check and Skip are the worker's look at the context, and Send
    * follows a Check even when the context ends in between.
    */
  datatype Step = Build | Enqueue | Abandon | Take | Check | Skip | Send | Cancel

  predicate Enabled(emitted: seq<Emission>, s: State, step: Step) {
    match step
    case Build => s.blocked.None? && s.built < |emitted|
    case Enqueue => s.blocked.Some? && |s.queue| < QUEUE_CAPACITY
    case Abandon => s.blocked.Some? && s.cancelled
    case Take => s.held.None? && s.queue != []
    case Check => s.held.Some? && !s.checked && !s.cancelled
    case Skip => s.held.Some? && !s.checked && s.cancelled
    case Send => s.held.Some? && s.checked
    case Cancel => true
  }

  function Next(emitted: seq<Emission>, s: State, step: Step): State
    requires Enabled(emitted, s, step)
  {
    match step
    case Build => s.(built := s.built + 1, blocked := Some(emitted[s.built]))
    case Enqueue => s.(queue := s.queue + [s.blocked.value], blocked := None)
    case Abandon => s.(blocked := None)
    case Take => s.(held := Some(s.queue[0]), queue := s.queue[1..])
    case Check => s.(checked := true)
    case Skip => s.(held := None)
    case Send => s.(dispatched := s.dispatched + [s.held.value], held := None, checked := false)
    case Cancel => s.(cancelled := true)
  }

  /** A run lists its states; each follows from the one before by some step. */
  ghost predicate IsRun(emitted: seq<Emission>, states: seq<State>) {
    && states != [] && states[0] == START
    && forall i {:trigger Follows(emitted, states[i], states[i + 1])} | 0 <= i < |states| - 1 ::
         Follows(emitted, states[i], states[i + 1])
  }

  ghost predicate Follows(emitted: seq<Emission>, s: State, s': State) {
    exists step :: Enabled(emitted, s, step) && s' == Next(emitted, s, step)
  }

  function AsList(o: Option<Emission>): seq<Emission> { if o.Some? then [o.value] else [] }

  /** The reports on their way, in the order in which they will be sent. */
  function InFlight(s: State): seq<Emission> { s.dispatched + AsList(s.held) + s.queue + AsList(s.blocked) }

  ghost predicate Sound(emitted: seq<Emission>, s: State) {
    && s.built <= |emitted| && |s.queue| <= QUEUE_CAPACITY
    && s.dispatched <= emitted
    && (s.checked ==> s.held.Some? && s.dispatched + [s.held.value] <= emitted)
    && (!s.cancelled ==> InFlight(s) == emitted[..s.built])
  }

  lemma StepKeepsOrder(emitted: seq<Emission>, s: State, step: Step)
    requires Enabled(emitted, s, step) && !s.cancelled
    ensures InFlight(Next(emitted, s, step)) == InFlight(s) + if step == Build then [emitted[s.built]] else []
  {
    if step == Take { assert [s.queue[0]] + s.queue[1..] == s.queue; }
  }

  /** The report in hand is the next one: it stands right behind those already dispatched. */
  lemma HeldIsNext(emitted: seq<Emission>, s: State)
    requires s.built <= |emitted| && InFlight(s) == emitted[..s.built] && s.held.Some?
    ensures s.dispatched + [s.held.value] <= emitted
  {
    assert InFlight(s) == s.dispatched + [s.held.value] + (s.queue + AsList(s.blocked));
  }

  lemma StepSound(emitted: seq<Emission>, s: State, step: Step)
    requires Sound(emitted, s) && Enabled(emitted, s, step)
    ensures Sound(emitted, Next(emitted, s, step))
  {
    if !s.cancelled { StepKeepsOrder(emitted, s, step); }
    if step == Check { HeldIsNext(emitted, s); }
  }

  lemma {:induction false} SoundAlongRun(emitted: seq<Emission>, states: seq<State>, i: nat)
    requires IsRun(emitted, states) && i < |states|
    ensures Sound(emitted, states[i])
  {
    if i > 0 {
      var k := i - 1;
      SoundAlongRun(emitted, states, k);
      assert Follows(emitted, states[k], states[k + 1]);
      var step :| Enabled(emitted, states[k], step) && states[k + 1] == Next(emitted, states[k], step);
      StepSound(emitted, states[k], step);
    }
  }

  /**
    * For any run of the reporter: what is handed to the sender is a first part of what the reporter emitted,
    * in its order, and is numbered 1, 2, 3, ... without gaps, before and after cancellation.
    */
  lemma {:induction false} DispatchedWithoutGaps(st: Settings, events: seq<Event>, states: seq<State>, i: nat)
    requires ValidRun(st, events) && IsRun(Run(st, events).emitted, states) && i < |states|
    ensures states[i].dispatched <= Run(st, events).emitted
    ensures forall k | 0 <= k < |states[i].dispatched| :: states[i].dispatched[k].report.seqNum == k + 1
    ensures |states[i].queue| <= 16
  {
    var emitted := Run(st, events).emitted;
    SoundAlongRun(emitted, states, i);
    InvariantOverRuns(st, events);
    forall k | 0 <= k < |states[i].dispatched| ensures states[i].dispatched[k].report.seqNum == k + 1 {
      assert Numbered(st, emitted[k], k + 1);
    }
  }

  /** Before cancellation nothing is lost: every report built was dispatched or is still on its way, in order. */
  lemma {:induction false} NothingLostBeforeCancel(st: Settings, events: seq<Event>, states: seq<State>, i: nat)
    requires IsRun(Run(st, events).emitted, states) && i < |states| && !states[i].cancelled
    ensures states[i].built <= |Run(st, events).emitted|
    ensures InFlight(states[i]) == Run(st, events).emitted[..states[i].built]
  {
    SoundAlongRun(Run(st, events).emitted, states, i);
  }

  // ---------- Progress and cancellation ----------

  /** What is left to do before everything is handed to the sender. */
  function Work(emitted: seq<Emission>, s: State): int {
    5 * (|emitted| - s.built) + 4 * |AsList(s.blocked)| + 3 * |s.queue| + 2 * |AsList(s.held)| - if s.checked then 1 else 0
  }

  /** The step that brings the first report in flight nearer to the sender, or builds the next one. */
  function Forward(s: State): Step {
    if s.checked then Send
    else if s.held.Some? then Check
    else if s.queue != [] then Take
    else if s.blocked.Some? then Enqueue
    else Build
  }

  lemma NothingOnTheWay(emitted: seq<Emission>, s: State)
    requires Sound(emitted, s) && !s.cancelled && s.held.None? && s.queue == [] && s.blocked.None?
    ensures s.dispatched == emitted[..s.built]
  {
    assert InFlight(s) == s.dispatched;
  }

  lemma ForwardWorks(emitted: seq<Emission>, s: State)
    requires Sound(emitted, s) && !s.cancelled && s.dispatched != emitted
    ensures Enabled(emitted, s, Forward(s))
    ensures !Next(emitted, s, Forward(s)).cancelled && 0 <= Work(emitted, Next(emitted, s, Forward(s))) < Work(emitted, s)
  {
    if s.held.None? && s.queue == [] && s.blocked.None? {
      NothingOnTheWay(emitted, s);
      assert emitted[..|emitted|] == emitted;
    }
  }

  /** The worker is never stuck: before cancellation, any run can go on until everything emitted has been sent. */
  lemma {:induction false} AllCanBeDispatched(emitted: seq<Emission>, states: seq<State>) returns (more: seq<State>)
    requires IsRun(emitted, states) && !states[|states| - 1].cancelled
    ensures IsRun(emitted, more) && states <= more && more[|more| - 1].dispatched == emitted
    decreases Work(emitted, states[|states| - 1])
  {
    var s := states[|states| - 1];
    SoundAlongRun(emitted, states, |states| - 1);
    if s.dispatched == emitted { return states; }
    ForwardWorks(emitted, s);
    var next := RunGrows(emitted, states, Forward(s));
    more := AllCanBeDispatched(emitted, next);
  }

  lemma RunGrows(emitted: seq<Emission>, states: seq<State>, step: Step) returns (more: seq<State>)
    requires IsRun(emitted, states) && Enabled(emitted, states[|states| - 1], step)
    ensures more == states + [Next(emitted, states[|states| - 1], step)] && IsRun(emitted, more)
  {
    more := states + [Next(emitted, states[|states| - 1], step)];
    forall i | 0 <= i < |more| - 1 ensures Follows(emitted, more[i], more[i + 1]) {
      if i < |states| - 1 { assert Follows(emitted, states[i], states[i + 1]); }
    }
  }

  /** The queue takes sixteen reports without the worker having taken any. */
  lemma {:induction false} QueueTakesSixteen(emitted: seq<Emission>, n: nat) returns (states: seq<State>)
    requires n <= 16 && n <= |emitted|
    ensures IsRun(emitted, states) && states[|states| - 1] == State.State(n, None, emitted[..n], None, false, [], false)
  {
    if n == 0 { return [START]; }
    states := QueueTakesSixteen(emitted, n - 1);
    states := RunGrows(emitted, states, Build);
    states := RunGrows(emitted, states, Enqueue);
    assert emitted[..n] == emitted[..n - 1] + [emitted[n - 1]];
  }

  /** After cancellation, at most the one report that the worker had already decided to send is sent. */
  lemma {:induction false} AtMostOneAfterCancel(emitted: seq<Emission>, states: seq<State>, i: nat, j: nat)
    requires IsRun(emitted, states) && i <= j < |states| && states[i].cancelled
    ensures states[j].cancelled
    ensures |states[j].dispatched| + (if states[j].checked then 1 else 0)
         <= |states[i].dispatched| + (if states[i].checked then 1 else 0)
    decreases j
  {
    if i < j {
      AtMostOneAfterCancel(emitted, states, i, j - 1);
      SoundAlongRun(emitted, states, j - 1);
      var k := j - 1;
      assert Follows(emitted, states[k], states[k + 1]);
    }
  }
}
