/** What holds of the snapshot handler in every interleaving. */
module SnapshotTheorems {
  import opened Sequences
  import opened Snapshot
  import Lru

  /** A schedule is a list of steps, each enabled when its turn comes. */
  ghost predicate IsSchedule(steps: seq<Step>) {
    steps == [] || (IsSchedule(steps[..|steps| - 1]) && Enabled(Run(steps[..|steps| - 1]), steps[|steps| - 1]))
  }

  ghost function Run(steps: seq<Step>): State {
    if steps == [] then START
    else
      var before, step := Run(steps[..|steps| - 1]), steps[|steps| - 1];
      if Enabled(before, step) then Next(before, step) else before
  }

  // ---------- The invariant ----------

  /** A change of one handler that keeps its role keeps every timer in order. */
  lemma HandlerMoves(s: State, s': State, h: nat)
    requires Sound(s) && h < |s.handlers| && s'.watchdogs == s.watchdogs && s'.pending == s.pending
    requires s'.rootDone == s.rootDone
    requires |s'.handlers| == |s.handlers| && forall i | 0 <= i < |s.handlers| && i != h :: s'.handlers[i] == s.handlers[i]
    requires var x, y := s.handlers[h], s'.handlers[h];
             && y.kind == x.kind && y.opId == x.opId && y.watchdog == x.watchdog
             && (Committed(x) ==> Committed(y))
             && (x.watchdog.Some? ==> x.frozen && y.frozen && x.place != Spawning && y.place in {Responding, Finished})
    requires HandlerOk(s', h)
    ensures Sound(s')
  {
    forall w | 0 <= w < |s'.watchdogs| ensures TimerOk(s', w) { assert TimerOk(s, w); }
    forall i | 0 <= i < |s'.handlers| ensures HandlerOk(s', i) { assert HandlerOk(s, i); }
  }

  /** A change of one timer that keeps its identity keeps everything else in order. */
  lemma TimerMoves(s: State, s': State, w: nat)
    requires Sound(s) && w < |s.watchdogs| && s'.handlers == s.handlers
    requires s'.rootDone == s.rootDone && s'.pending.Keys <= s.pending.Keys
    requires forall id | id in s'.pending :: s'.pending[id] == s.pending[id]
    requires |s'.watchdogs| == |s.watchdogs| && forall i | 0 <= i < |s.watchdogs| && i != w :: s'.watchdogs[i] == s.watchdogs[i]
    requires var d, e := s.watchdogs[w], s'.watchdogs[w];
             && e.opId == d.opId && e.owner == d.owner && e.cancelledBy == d.cancelledBy
             && d.place != Created && e.place != Created
    requires Accounted(s', w)
    ensures Sound(s')
  {
    forall i | 0 <= i < |s'.watchdogs| ensures TimerOk(s', i) { assert TimerOk(s, i); }
    forall h | 0 <= h < |s'.handlers| ensures HandlerOk(s', h) { assert HandlerOk(s, h); }
  }

  lemma ReceiveSound(s: State, kind: Kind, opId: int)
    requires Sound(s)
    ensures Sound(Next(s, Receive(kind, opId)))
  {
    var s' := Next(s, Receive(kind, opId));
    forall w | 0 <= w < |s'.watchdogs| ensures TimerOk(s', w) { assert TimerOk(s, w); }
    forall h | 0 <= h < |s'.handlers| ensures HandlerOk(s', h) {
      if h < |s.handlers| { assert HandlerOk(s, h); }
    }
  }

  lemma CancelSound(s: State, h: nat)
    requires Sound(s) && Enabled(s, Cancel(h))
    ensures Sound(Next(s, Cancel(h)))
  {
    var s', id := Next(s, Cancel(h)), s.handlers[h].opId;
    forall w | 0 <= w < |s'.watchdogs| ensures TimerOk(s', w) {
      assert TimerOk(s, w);
      assert HandlerOk(s, h);
    }
    forall i | 0 <= i < |s'.handlers| ensures HandlerOk(s', i) { assert HandlerOk(s, i); }
    forall i | i in s'.pending ensures s'.pending[i] < |s'.watchdogs| && s'.watchdogs[s'.pending[i]].opId == i
                                       && s'.watchdogs[s'.pending[i]].cancelledBy.None?
    {
      assert i in s.pending && i != id;
    }
  }

  lemma RegisterSound(s: State, h: nat)
    requires Sound(s) && Enabled(s, Register(h))
    ensures Sound(Next(s, Register(h)))
  {
    var s' := Next(s, Register(h));
    assert HandlerOk(s, h);
    forall w | 0 <= w < |s'.watchdogs| ensures TimerOk(s', w) {
      if w < |s.watchdogs| { assert TimerOk(s, w); }
    }
    forall i | 0 <= i < |s'.handlers| ensures HandlerOk(s', i) { assert HandlerOk(s, i); }
  }

  lemma SpawnSound(s: State, h: nat)
    requires Sound(s) && Enabled(s, Spawn(h))
    ensures Sound(Next(s, Spawn(h)))
  {
    var s' := Next(s, Spawn(h));
    assert HandlerOk(s, h);
    forall w | 0 <= w < |s'.watchdogs| ensures TimerOk(s', w) { assert TimerOk(s, w); }
    forall i | 0 <= i < |s'.handlers| ensures HandlerOk(s', i) { assert HandlerOk(s, i); }
  }

  lemma RootDoneSound(s: State)
    requires Sound(s)
    ensures Sound(Next(s, RootDone))
  {
    var s' := Next(s, RootDone);
    forall w | 0 <= w < |s'.watchdogs| ensures TimerOk(s', w) { assert TimerOk(s, w); }
    forall h | 0 <= h < |s'.handlers| ensures HandlerOk(s', h) { assert HandlerOk(s, h); }
  }

  lemma HandlerStepSound(s: State, step: Step)
    requires Sound(s) && Enabled(s, step)
    requires step.Check? || step.Mark? || step.RunScript? || step.Respond?
    ensures Sound(Next(s, step))
  {
    assert HandlerOk(s, step.h);
    HandlerMoves(s, Next(s, step), step.h);
  }

  lemma TimerStepSound(s: State, step: Step)
    requires Sound(s) && Enabled(s, step)
    requires step.Exit? || step.Fire? || step.Unregister? || step.MarkPost? || step.AttemptPost?
    ensures Sound(Next(s, step))
  {
    TimerMoves(s, Next(s, step), step.w);
  }

  lemma StepSound(s: State, step: Step)
    requires Sound(s) && Enabled(s, step)
    ensures Sound(Next(s, step))
  {
    match step
    case Receive(kind, opId) => ReceiveSound(s, kind, opId);
    case Cancel(h) => CancelSound(s, h);
    case Register(h) => RegisterSound(s, h);
    case Spawn(h) => SpawnSound(s, h);
    case RootDone => RootDoneSound(s);
    case Check(_) => HandlerStepSound(s, step);
    case Mark(_) => HandlerStepSound(s, step);
    case RunScript(_, _) => HandlerStepSound(s, step);
    case Respond(_) => HandlerStepSound(s, step);
    case _ => TimerStepSound(s, step);
  }

  lemma {:induction false} SoundOverRuns(steps: seq<Step>)
    requires IsSchedule(steps)
    ensures Sound(Run(steps))
  {
    if steps != [] {
      SoundOverRuns(steps[..|steps| - 1]);
      StepSound(Run(steps[..|steps| - 1]), steps[|steps| - 1]);
    }
  }

  // ---------- What the steps say ----------

  datatype Incoming = Incoming(kind: Kind, opId: int)

  /** The requests that a schedule receives, in order; request h is the one of handler h. */
  function Received(steps: seq<Step>): seq<Incoming> {
    if steps == [] then []
    else
      var last := steps[|steps| - 1];
      Received(steps[..|steps| - 1]) + if last.Receive? then [Incoming(last.kind, last.opId)] else []
  }

  predicate Handles(s: State, requests: seq<Incoming>) {
    |s.handlers| == |requests|
      && forall h | 0 <= h < |requests| :: s.handlers[h].kind == requests[h].kind && s.handlers[h].opId == requests[h].opId
  }

  lemma {:induction false} HandlersAreRequests(steps: seq<Step>)
    requires IsSchedule(steps)
    ensures Handles(Run(steps), Received(steps))
  {
    if steps != [] {
      var before, last := steps[..|steps| - 1], steps[|steps| - 1];
      HandlersAreRequests(before);
      StepHandles(Run(before), last, Received(before));
    }
  }

  lemma StepHandles(s: State, step: Step, requests: seq<Incoming>)
    requires Enabled(s, step) && Handles(s, requests)
    ensures Handles(Next(s, step), requests + if step.Receive? then [Incoming(step.kind, step.opId)] else [])
  {
  }

  /** The handlers that registered a timer, in order; timer w is the one of handler Armed(steps)[w]. */
  function Armed(steps: seq<Step>): seq<nat> {
    if steps == [] then []
    else
      var last := steps[|steps| - 1];
      Armed(steps[..|steps| - 1]) + if last.Register? then [last.h] else []
  }

  /** Handler h is the one of a PRE request, and its script succeeded. */
  predicate Froze(steps: seq<Step>, h: nat) {
    h < |Received(steps)| && Received(steps)[h].kind == Pre && RunScript(h, true) in steps
  }

  lemma LastIn(steps: seq<Step>, step: Step)
    requires steps != []
    ensures step in steps <==> step in steps[..|steps| - 1] || step == steps[|steps| - 1]
  {
    Snoc(steps);
  }

  lemma {:induction false} ScriptsAreReceived(steps: seq<Step>, h: nat, ok: bool)
    requires IsSchedule(steps) && RunScript(h, ok) in steps
    ensures h < |Run(steps).handlers|
  {
    var before := steps[..|steps| - 1];
    LastIn(steps, RunScript(h, ok));
    if RunScript(h, ok) in before {
      ScriptsAreReceived(before, h, ok);
      HandlersStay(Run(before), steps[|steps| - 1]);
    }
  }

  lemma HandlersStay(s: State, step: Step)
    requires Enabled(s, step)
    ensures |Next(s, step).handlers| == |s.handlers| + if step.Receive? then 1 else 0
  {
  }

  lemma NextFrozen(s: State, step: Step, h: nat)
    requires Sound(s) && Enabled(s, step) && h < |Next(s, step).handlers|
    ensures Next(s, step).handlers[h].frozen <==>
              (h < |s.handlers| && s.handlers[h].frozen)
              || (h < |s.handlers| && s.handlers[h].kind == Pre && step == RunScript(h, true))
  {
    if step.RunScript? { assert HandlerOk(s, step.h); }
  }

  /** A handler counts as frozen exactly when its request is a PRE and its script succeeded. */
  lemma {:induction false} FrozenIff(steps: seq<Step>, h: nat)
    requires IsSchedule(steps) && h < |Run(steps).handlers|
    ensures h < |Received(steps)|
    ensures Run(steps).handlers[h].frozen <==> Received(steps)[h].kind == Pre && RunScript(h, true) in steps
  {
    HandlersAreRequests(steps);
    var before, last := steps[..|steps| - 1], steps[|steps| - 1];
    SoundOverRuns(before);
    NextFrozen(Run(before), last, h);
    LastIn(steps, RunScript(h, true));
    if h < |Run(before).handlers| {
      FrozenIff(before, h);
      HandlersAreRequests(before);
    } else if RunScript(h, true) in before {
      ScriptsAreReceived(before, h, true);
    }
  }

  // ---------- Main results ----------

  /**
    * A successful PRE is never abandoned: its handler is about to register the timer; or the timer waits
    * uncancelled; or it fired and goes on to attempt post.sh; or another handler of the same operation
    * cancelled it and attempts its own script; or the whole service is shutting down.
    */
  lemma {:induction false} FreezeNeverAbandoned(steps: seq<Step>, h: nat)
    requires IsSchedule(steps) && h < |Received(steps)| && Received(steps)[h].kind == Pre && RunScript(h, true) in steps
    ensures var s := Run(steps);
            && h < |s.handlers|
            && (|| s.handlers[h].place == Arming
                || (&& s.handlers[h].watchdog.Some? && s.handlers[h].watchdog.value < |s.watchdogs|
                    && var d := s.watchdogs[s.handlers[h].watchdog.value];
                    && d.opId == Received(steps)[h].opId
                    && (|| (d.place in {Created, Waiting} && d.cancelledBy.None?)
                        || d.place in {Unregistering, MarkingPost, AttemptingPost, Attempted}
                        || (&& d.cancelledBy.Some? && d.cancelledBy.value < |s.handlers| && d.cancelledBy.value != h
                            && s.handlers[d.cancelledBy.value].opId == d.opId && Committed(s.handlers[d.cancelledBy.value]))
                        || (d.place == Exited && s.rootDone))))
  {
    SoundOverRuns(steps);
    HandlersAreRequests(steps);
    FrozenIff(steps, h);
    var s := Run(steps);
    assert HandlerOk(s, h);
    if s.handlers[h].place != Arming { assert TimerOk(s, s.handlers[h].watchdog.value); }
  }

  /** Every cancel function on file belongs to a timer that has not been cancelled. */
  lemma {:induction false} PendingTimersAreUncancelled(steps: seq<Step>, opId: int)
    requires IsSchedule(steps) && opId in Run(steps).pending
    ensures Run(steps).pending[opId] < |Run(steps).watchdogs|
    ensures var d := Run(steps).watchdogs[Run(steps).pending[opId]]; d.opId == opId && d.cancelledBy.None?
  {
    SoundOverRuns(steps);
  }

  // ---------- The shared object ----------

  lemma CancelIsCall(s: State, h: nat)
    requires PendingOk(s) && Enabled(s, Cancel(h))
    ensures SharedOf(Next(s, Cancel(h))) == Effect(SharedOf(s), CallOf(s, Cancel(h)))
  {
    var s', id := Next(s, Cancel(h)), s.handlers[h].opId;
    if id in s.pending {
      assert forall w: nat | w < |s.watchdogs| ::
        s'.watchdogs[w].cancelledBy.Some? <==> s.watchdogs[w].cancelledBy.Some? || w == s.pending[id];
    }
    assert SharedOf(s').cancelled == Effect(SharedOf(s), CallOf(s, Cancel(h))).cancelled;
  }

  /** A step other than Cancel cancels no timer. */
  lemma OthersCancelNone(s: State, step: Step)
    requires Enabled(s, step) && !step.Cancel?
    ensures SharedOf(Next(s, step)).cancelled == SharedOf(s).cancelled
  {
    var s' := Next(s, step);
    assert forall w: nat | w < |s.watchdogs| :: s'.watchdogs[w].cancelledBy == s.watchdogs[w].cancelledBy;
    assert forall w: nat | |s.watchdogs| <= w < |s'.watchdogs| :: s'.watchdogs[w].cancelledBy.None?;
  }

  /** A step changes the shared part of the state exactly as the critical section it enters. */
  lemma StepsAreCalls(s: State, step: Step)
    requires PendingOk(s) && Enabled(s, step)
    ensures SharedOf(Next(s, step)) == Effect(SharedOf(s), CallOf(s, step))
  {
    if step.Cancel? { CancelIsCall(s, step.h); } else { OthersCancelNone(s, step); }
  }

  lemma RunNext(steps: seq<Step>, n: nat)
    requires IsSchedule(steps) && n < |steps|
    ensures IsSchedule(steps[..n]) && IsSchedule(steps[..n + 1]) && Enabled(Run(steps[..n]), steps[n])
    ensures Run(steps[..n + 1]) == Next(Run(steps[..n]), steps[n])
  {
    ScheduleStarts(steps, n + 1);
    assert steps[..n + 1][..n] == steps[..n];
  }

  lemma {:induction false} ScheduleStarts(steps: seq<Step>, n: nat)
    requires IsSchedule(steps) && n <= |steps|
    ensures IsSchedule(steps[..n])
  {
    if n < |steps| {
      ScheduleStarts(steps[..|steps| - 1], n);
      assert steps[..|steps| - 1][..n] == steps[..n];
    } else {
      assert steps[..n] == steps;
    }
  }

  /** Any schedule drives the object through the shared part of the states of its run. */
  method Drive(c: Client, steps: seq<Step>) returns (s: State)
    requires c.Valid() && c.Current() == SharedOf(START) && IsSchedule(steps)
    modifies c, c.seenPre, c.seenPost
    ensures c.Valid() && s == Run(steps) && c.Current() == SharedOf(s)
  {
    s := START;
    for i := 0 to |steps|
      invariant c.Valid() && s == Run(steps[..i]) && c.Current() == SharedOf(s)
    {
      RunNext(steps, i);
      SoundOverRuns(steps[..i]);
      StepsAreCalls(s, steps[i]);
      KnownKind(s, steps[i]);
      c.Perform(CallOf(s, steps[i]));
      s := Next(s, steps[i]);
    }
    assert steps[..|steps|] == steps;
  }

  lemma KnownKind(s: State, step: Step)
    requires Sound(s) && Enabled(s, step)
    ensures CallOf(s, step).CheckSeen? || CallOf(s, step).MarkSeen? ==> CallOf(s, step).kind != Unknown
  {
    if step.Check? || step.Mark? { assert HandlerOk(s, step.h); }
  }

  // ---------- When the failsafe survives ----------

  predicate Accepted(x: Handler) { x.place != Checking && x.place != Rejected }

  /** No two accepted PRE requests share an operation. */
  ghost predicate DistinctPres(s: State) {
    forall i, j | 0 <= i < j < |s.handlers| && s.handlers[i].kind == Pre == s.handlers[j].kind
      && Accepted(s.handlers[i]) && Accepted(s.handlers[j]) :: s.handlers[i].opId != s.handlers[j].opId
  }

  /**
    * While no two accepted PRE requests share an operation, a cancelled freeze was cancelled by a POST,
    * which attempts post.sh: so every freeze is followed by an attempt at post.sh or still has its timer.
    */
  lemma {:induction false} CancelledByPost(steps: seq<Step>, w: nat)
    requires IsSchedule(steps) && DistinctPres(Run(steps))
    requires w < |Run(steps).watchdogs| && Run(steps).watchdogs[w].cancelledBy.Some?
    ensures var s := Run(steps);
            var c := s.watchdogs[w].cancelledBy.value;
            && c < |s.handlers| && s.handlers[c].kind == Post && s.handlers[c].opId == s.watchdogs[w].opId
            && Committed(s.handlers[c])
  {
    SoundOverRuns(steps);
    var s := Run(steps);
    assert TimerOk(s, w);
    assert HandlerOk(s, s.watchdogs[w].cancelledBy.value);
  }

  /** Post.sh is assured for handler h: by its timer, or by the POST that cancelled it. */
  ghost predicate FreezeKept(s: State, h: nat) {
    && h < |s.handlers|
    && (|| s.handlers[h].place == Arming
        || (&& s.handlers[h].watchdog.Some? && s.handlers[h].watchdog.value < |s.watchdogs|
            && var d := s.watchdogs[s.handlers[h].watchdog.value];
            && (|| (d.place in {Created, Waiting} && d.cancelledBy.None?)
                || d.place in {Unregistering, MarkingPost, AttemptingPost, Attempted}
                || (&& d.cancelledBy.Some? && d.cancelledBy.value < |s.handlers|
                    && var c := s.handlers[d.cancelledBy.value];
                    && c.kind == Post && c.opId == s.handlers[h].opId && Committed(c))
                || (d.place == Exited && s.rootDone))))
  }

  /** Every PRE whose script succeeded is kept. */
  ghost predicate FreezesKept(steps: seq<Step>) {
    forall h: nat | Froze(steps, h) :: FreezeKept(Run(steps), h)
  }

  /** A POST of the operation has been received, and has neither been rejected nor attempted its script. */
  ghost predicate PostToCome(s: State, opId: int) {
    exists c | 0 <= c < |s.handlers| ::
      s.handlers[c].kind == Post && s.handlers[c].opId == opId
      && s.handlers[c].place in {Checking, Marking, Cancelling, Scripting}
  }

  /** Nothing is left that would run post.sh for a PRE that froze the guest. */
  ghost predicate FreezeLost(steps: seq<Step>, h: nat) {
    Froze(steps, h) && !FreezeKept(Run(steps), h) && !PostToCome(Run(steps), Received(steps)[h].opId)
  }

  /** The host sends no two PRE requests for one operation. */
  predicate NoPreRepeated(requests: seq<Incoming>) {
    forall i, j | 0 <= i < j < |requests| && requests[i].kind == Pre == requests[j].kind ::
      requests[i].opId != requests[j].opId
  }

  /** If the schedule is one for these requests, it ends with no freeze lost. */
  ghost predicate LosesNone(steps: seq<Step>, requests: seq<Incoming>) {
    IsSchedule(steps) && Received(steps) == requests ==>
      forall h: nat :: !FreezeLost(steps, h)
  }

  /** If the schedule is one for these requests, every freeze has its timer, or the POST that cancelled it. */
  ghost predicate KeepsFreezes(steps: seq<Step>, requests: seq<Incoming>) {
    IsSchedule(steps) && Received(steps) == requests ==> FreezesKept(steps)
  }

  /**
    * Exactly when no PRE is repeated among the requests, no schedule for them loses a freeze, and exactly
    * then every schedule for them keeps every freeze by its own timer or the POST that cancelled it.
    */
  lemma {:induction false} FreezesKeptIffNoPreRepeated(requests: seq<Incoming>)
    ensures (forall steps :: LosesNone(steps, requests)) <==> NoPreRepeated(requests)
    ensures (forall steps :: KeepsFreezes(steps, requests)) <==> NoPreRepeated(requests)
  {
    if NoPreRepeated(requests) {
      forall steps ensures KeepsFreezes(steps, requests) && LosesNone(steps, requests) {
        if IsSchedule(steps) && Received(steps) == requests { DistinctKeepsFreezes(steps); }
      }
    } else {
      var i, j :| 0 <= i < j < |requests| && requests[i].kind == Pre == requests[j].kind
        && requests[i].opId == requests[j].opId;
      var steps := RepeatedPreLosesFreeze(requests, i, j);
      assert FreezeLost(steps, i);
      assert !LosesNone(steps, requests) && !KeepsFreezes(steps, requests);
    }
  }

  lemma DistinctKeepsFreezes(steps: seq<Step>)
    requires IsSchedule(steps) && NoPreRepeated(Received(steps))
    ensures FreezesKept(steps)
  {
    var s := Run(steps);
    HandlersAreRequests(steps);
    assert DistinctPres(s);
    forall h: nat | Froze(steps, h) ensures FreezeKept(s, h) {
      FreezeNeverAbandoned(steps, h);
      if s.handlers[h].place != Arming {
        var w := s.handlers[h].watchdog.value;
        if s.watchdogs[w].cancelledBy.Some? { CancelledByPost(steps, w); }
      }
    }
  }

  // ---------- What a repeated PRE does ----------

  lemma Extend(steps: seq<Step>, step: Step) returns (more: seq<Step>)
    requires IsSchedule(steps) && Enabled(Run(steps), step)
    ensures IsSchedule(more) && Run(more) == Next(Run(steps), step)
    ensures Received(more) == Received(steps) + if step.Receive? then [Incoming(step.kind, step.opId)] else []
  {
    more := steps + [step];
    assert more[..|steps|] == steps;
  }

  predicate New(x: Handler) { x.place in {Checking, Rejected} }

  predicate Done(x: Handler) { x.place in {Finished, Rejected} }

  /** All the requests have been received, and nothing has been done yet. */
  ghost predicate Untouched(s: State, requests: seq<Incoming>) {
    && s.seenPre == [] && s.pending == map[] && s.watchdogs == [] && !s.rootDone
    && |s.handlers| == |requests|
    && forall h | 0 <= h < |requests| ::
         && New(s.handlers[h])
         && (requests[h].kind == Pre ==> s.handlers[h] == Handler(Pre, requests[h].opId, Checking, false, None))
  }

  lemma ReceiveMore(s: State, requests: seq<Incoming>, request: Incoming)
    requires Untouched(s, requests)
    ensures Untouched(Next(s, Receive(request.kind, request.opId)), requests + [request])
  {
  }

  lemma ReceiveOne(steps: seq<Step>, requests: seq<Incoming>, request: Incoming) returns (more: seq<Step>)
    requires IsSchedule(steps) && Received(steps) == requests && Untouched(Run(steps), requests)
    ensures IsSchedule(more) && Received(more) == requests + [request] && Untouched(Run(more), requests + [request])
  {
    ReceiveMore(Run(steps), requests, request);
    more := Extend(steps, Receive(request.kind, request.opId));
  }

  lemma {:induction false} ReceiveAll(requests: seq<Incoming>) returns (steps: seq<Step>)
    ensures IsSchedule(steps) && Received(steps) == requests && Untouched(Run(steps), requests)
  {
    if requests == [] { return []; }
    var front, last := requests[..|requests| - 1], requests[|requests| - 1];
    steps := ReceiveAll(front);
    steps := ReceiveOne(steps, front, last);
    Snoc(requests);
  }

  /** Two of the handlers with everything that concerns their timers; of the others, the first n are done, the rest new. */
  ghost predicate Stage(steps: seq<Step>, requests: seq<Incoming>, i: nat, j: nat, x: Handler, y: Handler,
                        pending: map<int, nat>, watchdogs: seq<Watchdog>, n: nat)
  {
    && IsSchedule(steps) && Received(steps) == requests
    && var s := Run(steps);
    && i < j < |s.handlers| && s.handlers[i] == x && s.handlers[j] == y
    && s.pending == pending && s.watchdogs == watchdogs && !s.rootDone
    && forall h | 0 <= h < |s.handlers| && h != i && h != j :: if h < n then Done(s.handlers[h]) else New(s.handlers[h])
  }

  /** Check and mark are separate critical sections: two PRE requests for one operation can both pass the check. */
  lemma BothPresAccepted(requests: seq<Incoming>, i: nat, j: nat) returns (steps: seq<Step>)
    requires i < j < |requests| && requests[i] == requests[j] && requests[i].kind == Pre
    ensures var x := Handler(Pre, requests[i].opId, Marking, false, None);
            Stage(steps, requests, i, j, x, x, map[], [], 0)
  {
    steps := ReceiveAll(requests);
    steps := Extend(steps, Check(i));
    assert Run(steps).seenPre == [];
    steps := Extend(steps, Check(j));
  }

  /** As a stage with the first n others done and no timers, except that handler n is anywhere on its way. */
  ghost predicate Busy(steps: seq<Step>, requests: seq<Incoming>, i: nat, j: nat, x: Handler, y: Handler, n: nat) {
    && IsSchedule(steps) && Received(steps) == requests
    && var s := Run(steps);
    && i < j < |s.handlers| && s.handlers[i] == x && s.handlers[j] == y
    && s.pending == map[] && s.watchdogs == [] && !s.rootDone
    && n < |s.handlers| && n != i && n != j
    && forall h | 0 <= h < |s.handlers| && h != i && h != j && h != n ::
         if h < n then Done(s.handlers[h]) else New(s.handlers[h])
  }

  /** A step of handler n that freezes nothing leaves the others alone. */
  lemma OtherStep(before: seq<Step>, requests: seq<Incoming>, i: nat, j: nat, x: Handler, y: Handler, n: nat, step: Step)
    returns (steps: seq<Step>)
    requires Busy(before, requests, i, j, x, y, n) && Enabled(Run(before), step)
    requires step in {Check(n), Mark(n), Cancel(n), RunScript(n, false), Respond(n)}
    ensures Busy(steps, requests, i, j, x, y, n) && Run(steps) == Next(Run(before), step)
  {
    steps := Extend(before, step);
    assert Run(before).pending - {Run(before).handlers[n].opId} == map[];
  }

  /** Once accepted, handler n goes on to the end, and its script fails. */
  lemma OtherGoesOn(before: seq<Step>, requests: seq<Incoming>, i: nat, j: nat, x: Handler, y: Handler, n: nat)
    returns (steps: seq<Step>)
    requires Busy(before, requests, i, j, x, y, n) && Run(before).handlers[n].place == Marking
    ensures Busy(steps, requests, i, j, x, y, n) && Run(steps).handlers[n].place == Finished
  {
    steps := OtherStep(before, requests, i, j, x, y, n, Mark(n));
    steps := OtherStep(steps, requests, i, j, x, y, n, Cancel(n));
    steps := OtherStep(steps, requests, i, j, x, y, n, RunScript(n, false));
    steps := OtherStep(steps, requests, i, j, x, y, n, Respond(n));
  }

  lemma BusyEnds(steps: seq<Step>, requests: seq<Incoming>, i: nat, j: nat, x: Handler, y: Handler, n: nat)
    requires Busy(steps, requests, i, j, x, y, n) && Done(Run(steps).handlers[n])
    ensures Stage(steps, requests, i, j, x, y, map[], [], n + 1)
  {
  }

  /** Handler n runs to its end: it is rejected, or its script fails. */
  lemma OtherFinishes(before: seq<Step>, requests: seq<Incoming>, i: nat, j: nat, x: Handler, y: Handler, n: nat)
    returns (steps: seq<Step>)
    requires Stage(before, requests, i, j, x, y, map[], [], n) && n < |Run(before).handlers|
    ensures Stage(steps, requests, i, j, x, y, map[], [], n + 1)
  {
    steps := before;
    if n != i && n != j {
      assert Busy(steps, requests, i, j, x, y, n) && New(Run(steps).handlers[n]);
      if Run(steps).handlers[n].place == Checking {
        steps := OtherStep(steps, requests, i, j, x, y, n, Check(n));
        if Run(steps).handlers[n].place == Marking { steps := OtherGoesOn(steps, requests, i, j, x, y, n); }
      }
      BusyEnds(steps, requests, i, j, x, y, n);
    }
  }

  lemma {:induction false} OthersFinish(before: seq<Step>, requests: seq<Incoming>, i: nat, j: nat, x: Handler, y: Handler,
                                        n: nat) returns (steps: seq<Step>)
    requires Stage(before, requests, i, j, x, y, map[], [], 0) && n <= |requests|
    ensures Stage(steps, requests, i, j, x, y, map[], [], n)
  {
    steps := before;
    if n > 0 {
      steps := OthersFinish(before, requests, i, j, x, y, n - 1);
      HandlersAreRequests(steps);
      steps := OtherFinishes(steps, requests, i, j, x, y, n - 1);
    }
  }

  /** The first one runs its script. */
  lemma FirstPreSucceeds(before: seq<Step>, requests: seq<Incoming>, i: nat, j: nat, id: int, n: nat)
    returns (steps: seq<Step>)
    requires Stage(before, requests, i, j, Handler(Pre, id, Marking, false, None), Handler(Pre, id, Marking, false, None),
                   map[], [], n)
    ensures Stage(steps, requests, i, j, Handler(Pre, id, Arming, true, None), Handler(Pre, id, Marking, false, None),
                  map[], [], n)
  {
    steps := Extend(before, Mark(i));
    steps := Extend(steps, Cancel(i));
    steps := Extend(steps, RunScript(i, true));
  }

  /** It has frozen the guest, and arms its timer. */
  lemma FirstPreArms(before: seq<Step>, requests: seq<Incoming>, i: nat, j: nat, id: int, n: nat)
    returns (steps: seq<Step>)
    requires Stage(before, requests, i, j, Handler(Pre, id, Arming, true, None), Handler(Pre, id, Marking, false, None),
                   map[], [], n)
    ensures Stage(steps, requests, i, j, Handler(Pre, id, Finished, true, Some(0)), Handler(Pre, id, Marking, false, None),
                  map[id := 0], [Watchdog(id, i, Waiting, None)], n)
  {
    steps := Extend(before, Register(i));
    steps := Extend(steps, Spawn(i));
    steps := Extend(steps, Respond(i));
  }

  /** The second one then cancels that timer, and its own script fails. */
  lemma SecondPreCancels(before: seq<Step>, requests: seq<Incoming>, i: nat, j: nat, id: int, n: nat)
    returns (steps: seq<Step>)
    requires Stage(before, requests, i, j, Handler(Pre, id, Finished, true, Some(0)), Handler(Pre, id, Marking, false, None),
                   map[id := 0], [Watchdog(id, i, Waiting, None)], n)
    ensures Stage(steps, requests, i, j, Handler(Pre, id, Finished, true, Some(0)), Handler(Pre, id, Finished, false, None),
                  map[], [Watchdog(id, i, Exited, Some(j))], n)
  {
    var x := Handler(Pre, id, Finished, true, Some(0));
    steps := Extend(before, Mark(j));
    steps := Extend(steps, Cancel(j));
    assert map[id := 0] - {id} == map[];
    assert Stage(steps, requests, i, j, x, Handler(Pre, id, Scripting, false, None),
                 map[], [Watchdog(id, i, Waiting, Some(j))], n);
    steps := Extend(steps, RunScript(j, false));
    steps := Extend(steps, Respond(j));
    steps := Extend(steps, Exit(0));
  }

  /** The end of a schedule: all handlers are finished or rejected, and all timers have ended. */
  ghost predicate Ended(s: State) {
    && (forall h | 0 <= h < |s.handlers| :: Done(s.handlers[h]))
    && forall w | 0 <= w < |s.watchdogs| :: s.watchdogs[w].place in {Attempted, Exited}
  }

  /**
    * When a PRE is repeated, some schedule for these requests comes to its end, without a shutdown, with the
    * first freeze standing, its timer cancelled by the second PRE, and nobody left to run post.sh.
    */
  lemma RepeatedPreLosesFreeze(requests: seq<Incoming>, i: nat, j: nat) returns (steps: seq<Step>)
    requires i < j < |requests| && requests[i] == requests[j] && requests[i].kind == Pre
    ensures IsSchedule(steps) && Received(steps) == requests
    ensures var s, id := Run(steps), requests[i].opId;
            && Ended(s) && !s.rootDone && |s.handlers| == |requests|
            && s.handlers[i] == Handler(Pre, id, Finished, true, Some(0))
            && s.handlers[j] == Handler(Pre, id, Finished, false, None)
            && s.watchdogs == [Watchdog(id, i, Exited, Some(j))]
            && Froze(steps, i) && FreezeLost(steps, i)
  {
    var id, n := requests[i].opId, |requests|;
    var x := Handler(Pre, id, Marking, false, None);
    steps := BothPresAccepted(requests, i, j);
    steps := OthersFinish(steps, requests, i, j, x, x, n);
    steps := FirstPreSucceeds(steps, requests, i, j, id, n);
    steps := FirstPreArms(steps, requests, i, j, id, n);
    steps := SecondPreCancels(steps, requests, i, j, id, n);
    HandlersAreRequests(steps);
    FrozenIff(steps, i);
    EndedLoses(Run(steps), i, j, id);
  }

  lemma EndedLoses(s: State, i: nat, j: nat, id: int)
    requires i < |s.handlers| && j < |s.handlers| && !s.rootDone
    requires forall h | 0 <= h < |s.handlers| && h != i && h != j :: Done(s.handlers[h])
    requires s.handlers[i] == Handler(Pre, id, Finished, true, Some(0)) && s.handlers[j].kind == Pre
    requires s.handlers[j].place == Finished && s.watchdogs == [Watchdog(id, i, Exited, Some(j))]
    ensures Ended(s) && !FreezeKept(s, i) && !PostToCome(s, id)
  {
  }

  // ---------- The window in which an operation counts as a duplicate ----------

  /** With check and mark as one step: a request, or the mark that a fired timer leaves in the POST cache. */
  datatype CacheEvent = Request(opId: int) | Failsafe(opId: int)

  /** The cache operations of a list of events: a request looks up and, when it misses, marks. */
  ghost function Ops(events: seq<CacheEvent>): seq<Lru.Op<int, bool>> {
    if events == [] then []
    else
      var before, e := Ops(events[..|events| - 1]), events[|events| - 1];
      match e
      case Failsafe(id) => before + [Lru.Put(id, true)]
      case Request(id) =>
        if id in Lru.Run(MAX_ID_CACHE_SIZE, before).table then before + [Lru.Get(id)]
        else before + [Lru.Get(id)] + [Lru.Put(id, true)]
  }

  ghost predicate IsDuplicate(events: seq<CacheEvent>, opId: int) {
    opId in Lru.Run(MAX_ID_CACHE_SIZE, Ops(events)).table
  }

  /** The other operations that were requested or marked since opId last was; None when it never was. */
  function OthersSince(events: seq<CacheEvent>, opId: int): Option<set<int>> {
    if events == [] then None
    else
      var last := events[|events| - 1].opId;
      var earlier := OthersSince(events[..|events| - 1], opId);
      if last == opId then Some({}) else if earlier.Some? then Some(earlier.value + {last}) else None
  }

  lemma UsedAfter(ops: seq<Lru.Op<int, bool>>, op: Lru.Op<int, bool>, opId: int)
    ensures Lru.Run(MAX_ID_CACHE_SIZE, ops + [op]) == Lru.Step(Lru.Run(MAX_ID_CACHE_SIZE, ops), MAX_ID_CACHE_SIZE, op)
    ensures var earlier := Lru.UsedSince(MAX_ID_CACHE_SIZE, ops, opId);
            Lru.UsedSince(MAX_ID_CACHE_SIZE, ops + [op], opId) ==
              if !Lru.Uses(Lru.Run(MAX_ID_CACHE_SIZE, ops), op) then earlier
              else if op.key == opId then Some({})
              else if earlier.Some? then Some(earlier.value + {op.key})
              else None
  {
    assert (ops + [op])[..|ops|] == ops;
  }

  lemma {:induction false} UsedSinceIsOthersSince(events: seq<CacheEvent>, opId: int)
    ensures Lru.UsedSince(MAX_ID_CACHE_SIZE, Ops(events), opId) == OthersSince(events, opId)
  {
    if events != [] {
      var front, e := events[..|events| - 1], events[|events| - 1];
      UsedSinceIsOthersSince(front, opId);
      var ops := Ops(front);
      match e
      case Failsafe(id) => UsedAfter(ops, Lru.Put(id, true), opId);
      case Request(id) =>
        UsedAfter(ops, Lru.Get(id), opId);
        if id !in Lru.Run(MAX_ID_CACHE_SIZE, ops).table {
          UsedAfter(ops + [Lru.Get(id)], Lru.Put(id, true), opId);
        }
    }
  }

  /**
    * A request is a duplicate exactly when its operation was requested or marked before and fewer than
    * 128 other operations were since: it is accepted a second time only after 128 others.
    */
  lemma {:induction false} DuplicateExactlyWithinWindow(events: seq<CacheEvent>, opId: int)
    ensures IsDuplicate(events, opId) <==>
            OthersSince(events, opId).Some? && |OthersSince(events, opId).value| < 128
  {
    UsedSinceIsOthersSince(events, opId);
    Lru.CachedExactlyWhenRecent(MAX_ID_CACHE_SIZE, Ops(events), opId);
  }

  // ---------- The window when check and mark are separate steps ----------

  /** What a step after these does to the cache of one kind: its request, or the one its timer serves, says which cache. */
  ghost function CacheOps(steps: seq<Step>, step: Step, kind: Kind): seq<Lru.Op<int, bool>> {
    match step
    case Check(h) => if Asks(steps, h, kind) then [Lru.Get(Received(steps)[h].opId)] else []
    case Mark(h) => if Asks(steps, h, kind) then [Lru.Put(Received(steps)[h].opId, true)] else []
    case MarkPost(w) => if kind == Post && Serves(steps, w) then [Lru.Put(Served(steps, w), true)] else []
    case _ => []
  }

  predicate Asks(steps: seq<Step>, h: nat, kind: Kind) { h < |Received(steps)| && Received(steps)[h].kind == kind }

  predicate Serves(steps: seq<Step>, w: nat) { w < |Armed(steps)| && Armed(steps)[w] < |Received(steps)| }

  /** The operation of timer w is the one of the request whose handler registered it. */
  function Served(steps: seq<Step>, w: nat): int
    requires Serves(steps, w)
  {
    Received(steps)[Armed(steps)[w]].opId
  }

  ghost predicate TimersServe(s: State, steps: seq<Step>) {
    && |s.watchdogs| == |Armed(steps)|
    && forall w | 0 <= w < |s.watchdogs| ::
         s.watchdogs[w].owner == Armed(steps)[w] && Serves(steps, w) && s.watchdogs[w].opId == Served(steps, w)
  }

  /** At any moment, timer w carries the operation of the request whose handler registered it. */
  lemma {:induction false} TimersAreArmed(steps: seq<Step>)
    requires IsSchedule(steps)
    ensures TimersServe(Run(steps), steps)
  {
    if steps != [] {
      var before, last := steps[..|steps| - 1], steps[|steps| - 1];
      TimersAreArmed(before);
      HandlersAreRequests(before);
      NextServes(Run(before), last);
    }
  }

  lemma NextServes(s: State, step: Step)
    requires Enabled(s, step)
    ensures var s' := Next(s, step);
            && |s'.watchdogs| == |s.watchdogs| + (if step.Register? then 1 else 0)
            && (forall w | 0 <= w < |s.watchdogs| ::
                  s'.watchdogs[w].owner == s.watchdogs[w].owner && s'.watchdogs[w].opId == s.watchdogs[w].opId)
            && (step.Register? ==>
                  s'.watchdogs[|s.watchdogs|].owner == step.h && s'.watchdogs[|s.watchdogs|].opId == s.handlers[step.h].opId)
  {
  }

  /** The operations on the cache of one kind in the first n steps. */
  ghost function Trace(steps: seq<Step>, n: nat, kind: Kind): seq<Lru.Op<int, bool>>
    requires n <= |steps|
  {
    if n == 0 then [] else Trace(steps, n - 1, kind) + CacheOps(steps[..n - 1], steps[n - 1], kind)
  }

  ghost function Cached(ops: seq<Lru.Op<int, bool>>): Lru.Cache<int, bool> { Lru.Run(MAX_ID_CACHE_SIZE, ops) }

  lemma SeenNext(before: seq<Step>, step: Step, kind: Kind, ops: seq<Lru.Op<int, bool>>)
    requires IsSchedule(before) && Enabled(Run(before), step) && kind != Unknown
    requires Seen(Run(before), kind) == Cached(ops).ring
    ensures Seen(Next(Run(before), step), kind) == Cached(ops + CacheOps(before, step, kind)).ring
  {
    SoundOverRuns(before);
    KnownKind(Run(before), step);
    HandlersAreRequests(before);
    TimersAreArmed(before);
    var more := CacheOps(before, step, kind);
    if more == [] {
      assert ops + more == ops;
    } else {
      UsedAfter(ops, more[0], more[0].key);
    }
  }

  /** The caches of the machine are the caches that these operations leave. */
  lemma {:induction false} SeenIsCached(steps: seq<Step>, n: nat, kind: Kind)
    requires IsSchedule(steps) && n <= |steps| && kind != Unknown
    ensures Seen(Run(steps[..n]), kind) == Cached(Trace(steps, n, kind)).ring
  {
    if n > 0 {
      RunNext(steps, n - 1);
      SeenIsCached(steps, n - 1, kind);
      SeenNext(steps[..n - 1], steps[n - 1], kind, Trace(steps, n - 1, kind));
    }
  }

  /** The other operations looked up successfully or marked in these operations since opId last was, if it ever was. */
  ghost function Since(ops: seq<Lru.Op<int, bool>>, opId: int): Option<set<int>> {
    Lru.UsedSince(MAX_ID_CACHE_SIZE, ops, opId)
  }

  /** At least 128 of them: the window in which opId counts as a duplicate has passed. */
  ghost predicate WindowPassed(steps: seq<Step>, n: nat, kind: Kind, opId: int)
    requires n <= |steps|
  {
    var since := Since(Trace(steps, n, kind), opId);
    since.Some? && |since.value| >= 128
  }

  lemma UsedNext(before: seq<Step>, step: Step, kind: Kind, opId: int, ops: seq<Lru.Op<int, bool>>)
    ensures Since(ops, opId).Some? ==> Since(ops + CacheOps(before, step, kind), opId).Some?
    ensures CacheOps(before, step, kind) == [Lru.Put(opId, true)] ==> Since(ops + CacheOps(before, step, kind), opId).Some?
  {
    var more := CacheOps(before, step, kind);
    if more == [] {
      assert ops + more == ops;
    } else {
      UsedAfter(ops, more[0], opId);
    }
  }

  /** Once used, an operation stays used. */
  lemma {:induction false} UsedStays(steps: seq<Step>, m: nat, n: nat, kind: Kind, opId: int)
    requires m <= n <= |steps|
    requires Since(Trace(steps, m, kind), opId).Some?
    ensures Since(Trace(steps, n, kind), opId).Some?
    decreases n
  {
    if m < n {
      UsedStays(steps, m, n - 1, kind, opId);
      UsedNext(steps[..n - 1], steps[n - 1], kind, opId, Trace(steps, n - 1, kind));
    }
  }

  lemma {:induction false} ReceivedStarts(steps: seq<Step>, n: nat)
    requires n <= |steps|
    ensures Received(steps[..n]) <= Received(steps)
  {
    if n < |steps| {
      ReceivedStarts(steps[..|steps| - 1], n);
      assert steps[..|steps| - 1][..n] == steps[..n];
    } else {
      assert steps[..n] == steps;
    }
  }

  /** At any moment, a handler carries the kind and the operation of its request. */
  lemma HandlerCarries(steps: seq<Step>, n: nat, h: nat)
    requires IsSchedule(steps) && n <= |steps| && h < |Run(steps[..n]).handlers|
    ensures h < |Received(steps)|
    ensures Run(steps[..n]).handlers[h].kind == Received(steps)[h].kind
    ensures Run(steps[..n]).handlers[h].opId == Received(steps)[h].opId
  {
    ScheduleStarts(steps, n);
    HandlersAreRequests(steps[..n]);
    ReceivedStarts(steps, n);
  }

  /** Step n marks the request of handler h. */
  ghost predicate MarksAt(steps: seq<Step>, n: nat, h: nat, request: Incoming) {
    && n < |steps| && steps[n] == Mark(h) && h < |Received(steps)| && Received(steps)[h] == request
  }

  /** Step n checks the request of handler h, and does not reject it. */
  ghost predicate PassesAt(steps: seq<Step>, n: nat, h: nat, request: Incoming) {
    && n < |steps| && steps[n] == Check(h) && h < |Received(steps)| && Received(steps)[h] == request
    && h < |Run(steps[..n + 1]).handlers| && Run(steps[..n + 1]).handlers[h].place != Rejected
  }

  lemma MarkUses(steps: seq<Step>, n: nat, h: nat, request: Incoming)
    requires IsSchedule(steps) && MarksAt(steps, n, h, request)
    ensures Since(Trace(steps, n + 1, request.kind), request.opId).Some?
  {
    RunNext(steps, n);
    HandlerCarries(steps, n, h);
    HandlersAreRequests(steps[..n]);
    UsedNext(steps[..n], steps[n], request.kind, request.opId, Trace(steps, n, request.kind));
  }

  lemma PassedMeansAbsent(steps: seq<Step>, n: nat, h: nat, request: Incoming)
    requires IsSchedule(steps) && request.kind != Unknown && PassesAt(steps, n, h, request)
    ensures request.opId !in Cached(Trace(steps, n, request.kind)).ring
  {
    RunNext(steps, n);
    HandlerCarries(steps, n, h);
    SeenIsCached(steps, n, request.kind);
  }

  /** A request marked before another one for the same operation is checked lets it pass only after the window. */
  lemma MarkedBeforeChecked(steps: seq<Step>, request: Incoming, i: nat, a: nat, j: nat, c: nat)
    requires IsSchedule(steps) && request.kind != Unknown && a < c
    requires MarksAt(steps, a, i, request) && PassesAt(steps, c, j, request)
    ensures WindowPassed(steps, c, request.kind, request.opId)
  {
    MarkUses(steps, a, i, request);
    UsedStays(steps, a + 1, c, request.kind, request.opId);
    PassedMeansAbsent(steps, c, j, request);
    Lru.CachedExactlyWhenRecent(MAX_ID_CACHE_SIZE, Trace(steps, c, request.kind), request.opId);
  }

  /**
    * In every interleaving, two accepted requests of one kind for one operation either were both checked
    * before the other was marked, or one of them came after the window of 128 other operations.
    */
  lemma {:induction false} AcceptedTwice(steps: seq<Step>, request: Incoming, i: nat, c: nat, a: nat,
                                         j: nat, d: nat, b: nat)
    requires IsSchedule(steps) && request.kind != Unknown
    requires PassesAt(steps, c, i, request) && MarksAt(steps, a, i, request)
    requires PassesAt(steps, d, j, request) && MarksAt(steps, b, j, request)
    ensures || (d < a && c < b)
            || WindowPassed(steps, d, request.kind, request.opId)
            || WindowPassed(steps, c, request.kind, request.opId)
  {
    if a < d {
      MarkedBeforeChecked(steps, request, i, a, j, d);
    } else if b < c {
      MarkedBeforeChecked(steps, request, j, b, i, c);
    }
  }
}
