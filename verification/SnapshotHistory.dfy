/** Which steps a schedule of the snapshot handler allows, said from the steps before alone. */
module SnapshotHistory {
  import opened Sequences
  import opened Snapshot
  import opened SnapshotTheorems
  import Lru

  // ---------- The course of a handler ----------

  predicate OfHandler(step: Step, h: nat) {
    (step.Check? || step.Mark? || step.Cancel? || step.RunScript? || step.Register? || step.Spawn? || step.Respond?)
      && step.h == h
  }

  /** The steps that handler h has taken, in order. */
  function Own(steps: seq<Step>, h: nat): seq<Step> {
    if steps == [] then []
    else
      var last := steps[|steps| - 1];
      Own(steps[..|steps| - 1], h) + if OfHandler(last, h) then [last] else []
  }

  /** All the steps of an accepted request whose script ends with ok: only a PRE that succeeds arms a timer. */
  function Course(h: nat, kind: Kind, ok: bool): seq<Step> {
    UpToScript(h, ok) + Arms(h, kind, ok) + [Respond(h)]
  }

  function UpToScript(h: nat, ok: bool): seq<Step> { [Check(h), Mark(h), Cancel(h), RunScript(h, ok)] }

  function Arms(h: nat, kind: Kind, ok: bool): seq<Step> {
    if kind == Pre && ok then [Register(h), Spawn(h)] else []
  }

  /** A request is a duplicate when its operation was used before, and fewer than 128 others since. */
  ghost predicate Duplicate(steps: seq<Step>, request: Incoming) {
    var since := Since(Trace(steps, |steps|, request.kind), request.opId);
    since.Some? && |since.value| < 128
  }

  /** Handler h has checked its request when it was a duplicate. */
  ghost predicate Refused(steps: seq<Step>, h: nat) {
    && steps != []
    && var before := steps[..|steps| - 1];
    || Refused(before, h)
    || (steps[|steps| - 1] == Check(h) && h < |Received(before)| && Duplicate(before, Received(before)[h]))
  }

  /** Handler h may take the step next: its request has a known type, was not refused, and the course goes on so. */
  ghost predicate GoesOn(steps: seq<Step>, h: nat, step: Step) {
    && h < |Received(steps)| && Received(steps)[h].kind != Unknown && !Refused(steps, h)
    && exists ok: bool :: Own(steps, h) + [step] <= Course(h, Received(steps)[h].kind, ok)
  }

  /** Where a handler stands after these steps of its own. */
  ghost predicate Stands(x: Handler, h: nat, own: seq<Step>, refused: bool) {
    && (x.kind == Unknown ==> x.place == Rejected && own == [] && !refused)
    && (refused <==> x.kind != Unknown && x.place == Rejected)
    && match x.place
       case Checking => own == []
       case Marking => own == [Check(h)]
       case Cancelling => own == [Check(h), Mark(h)]
       case Scripting => own == [Check(h), Mark(h), Cancel(h)]
       case Arming => x.kind == Pre && own == [Check(h), Mark(h), Cancel(h), RunScript(h, true)]
       case Spawning => x.kind == Pre && own == [Check(h), Mark(h), Cancel(h), RunScript(h, true), Register(h)]
       case Responding => exists ok: bool :: x.frozen == (x.kind == Pre && ok) && own == UpToScript(h, ok) + Arms(h, x.kind, ok)
       case Finished => exists ok: bool :: x.frozen == (x.kind == Pre && ok) && own == Course(h, x.kind, ok)
       case Rejected => true
  }

  lemma StandsNext(s: State, step: Step, h: nat, own: seq<Step>, refused: bool)
    requires Sound(s) && Enabled(s, step) && h < |s.handlers| && OfHandler(step, h)
    requires Stands(s.handlers[h], h, own, refused)
    ensures !refused
    ensures Stands(Next(s, step).handlers[h], h, own + [step],
                   step.Check? && s.handlers[h].opId in Seen(s, s.handlers[h].kind))
  {
    assert HandlerOk(s, h);
    var x := Next(s, step).handlers[h];
    if step.RunScript? {
      assert own + [step] == UpToScript(h, step.ok);
      if x.place == Responding { assert own + [step] == UpToScript(h, step.ok) + Arms(h, x.kind, step.ok); }
    } else if step.Spawn? {
      assert own + [step] == UpToScript(h, true) + Arms(h, x.kind, true);
    } else if step.Respond? {
      var ok: bool :| x.frozen == (x.kind == Pre && ok) && own == UpToScript(h, ok) + Arms(h, x.kind, ok);
      assert own + [step] == Course(h, x.kind, ok);
    }
  }

  /** A handler is moved by its own steps only. */
  lemma OthersKeepPlace(s: State, step: Step, h: nat)
    requires Enabled(s, step) && h < |s.handlers| && !OfHandler(step, h)
    ensures Next(s, step).handlers[h] == s.handlers[h]
  {
  }

  lemma DuplicateIsSeen(steps: seq<Step>, request: Incoming)
    requires IsSchedule(steps) && request.kind != Unknown
    ensures Duplicate(steps, request) <==> request.opId in Seen(Run(steps), request.kind)
  {
    assert steps[..|steps|] == steps;
    SeenIsCached(steps, |steps|, request.kind);
    Lru.CachedExactlyWhenRecent(MAX_ID_CACHE_SIZE, Trace(steps, |steps|, request.kind), request.opId);
  }

  lemma {:induction false} NotYet(steps: seq<Step>, h: nat)
    requires IsSchedule(steps) && h >= |Run(steps).handlers|
    ensures Own(steps, h) == [] && !Refused(steps, h)
  {
    if steps != [] {
      var before, last := steps[..|steps| - 1], steps[|steps| - 1];
      HandlersStay(Run(before), last);
      NotYet(before, h);
    }
  }

  lemma {:induction false} HandlersStand(steps: seq<Step>, h: nat)
    requires IsSchedule(steps) && h < |Run(steps).handlers|
    ensures Stands(Run(steps).handlers[h], h, Own(steps, h), Refused(steps, h))
  {
    var before, last := steps[..|steps| - 1], steps[|steps| - 1];
    var s := Run(before);
    HandlersStay(s, last);
    if h >= |s.handlers| {
      NotYet(before, h);
    } else {
      HandlersStand(before, h);
      SoundOverRuns(before);
      if OfHandler(last, h) {
        StandsNext(s, last, h, Own(before, h), Refused(before, h));
        if last.Check? {
          HandlersAreRequests(before);
          DuplicateIsSeen(before, Received(before)[h]);
        }
      } else {
        OthersKeepPlace(s, last, h);
      }
    }
  }

  lemma StandingAllows(s: State, step: Step, h: nat, own: seq<Step>, refused: bool)
    requires Sound(s) && h < |s.handlers| && OfHandler(step, h) && Stands(s.handlers[h], h, own, refused)
    ensures Enabled(s, step) <==>
            s.handlers[h].kind != Unknown && !refused && exists ok: bool :: own + [step] <= Course(h, s.handlers[h].kind, ok)
  {
    assert HandlerOk(s, h);
    var x := s.handlers[h];
    if Enabled(s, step) {
      EnabledGoesOn(s, step, h, own, refused);
    }
    if x.kind != Unknown && !refused {
      forall ok: bool | own + [step] <= Course(h, x.kind, ok) ensures Enabled(s, step) {
        var c := Course(h, x.kind, ok);
        assert own <= c && step == c[|own|];
        CourseGoesOn(s, step, h, own, refused, ok);
      }
    }
  }

  lemma EnabledGoesOn(s: State, step: Step, h: nat, own: seq<Step>, refused: bool)
    requires Sound(s) && h < |s.handlers| && OfHandler(step, h) && Stands(s.handlers[h], h, own, refused)
    requires Enabled(s, step)
    ensures s.handlers[h].kind != Unknown && !refused
    ensures exists ok: bool :: own + [step] <= Course(h, s.handlers[h].kind, ok)
  {
    var x := s.handlers[h];
    if step.RunScript? {
      assert own + [step] <= Course(h, x.kind, step.ok);
    } else if step.Respond? {
      var ok: bool :| x.frozen == (x.kind == Pre && ok) && own == UpToScript(h, ok) + Arms(h, x.kind, ok);
      assert own + [step] == Course(h, x.kind, ok);
    } else {
      assert own + [step] <= Course(h, x.kind, true);
    }
  }

  lemma CourseGoesOn(s: State, step: Step, h: nat, own: seq<Step>, refused: bool, ok: bool)
    requires Sound(s) && h < |s.handlers| && Stands(s.handlers[h], h, own, refused) && !refused
    requires s.handlers[h].kind != Unknown
    requires var c := Course(h, s.handlers[h].kind, ok); |own| < |c| && own <= c && step == c[|own|]
    ensures Enabled(s, step)
  {
    assert HandlerOk(s, h);
    var x, c := s.handlers[h], Course(h, s.handlers[h].kind, ok);
    assert c[3] == RunScript(h, ok);
    if |own| > 3 { assert own[3] == RunScript(h, ok); }
    if x.place == Responding {
      assert own == UpToScript(h, ok) + Arms(h, x.kind, ok);
      assert c == own + [Respond(h)];
    } else {
      assert x.place != Finished;
    }
  }

  /** A step of a handler is possible exactly when its course goes on with it. */
  lemma HandlerCourse(steps: seq<Step>, h: nat, step: Step)
    requires IsSchedule(steps) && OfHandler(step, h)
    ensures Enabled(Run(steps), step) <==> GoesOn(steps, h, step)
  {
    HandlersAreRequests(steps);
    if h < |Received(steps)| {
      SoundOverRuns(steps);
      HandlersStand(steps, h);
      StandingAllows(Run(steps), step, h, Own(steps, h), Refused(steps, h));
    }
  }

  // ---------- The timer on file, and who cancelled a timer ----------

  predicate AsksFor(steps: seq<Step>, h: nat, opId: int) { h < |Received(steps)| && Received(steps)[h].opId == opId }

  /** The timer registered last for the operation, if no request cancelled it and no timer took it off the file since. */
  function OnFile(steps: seq<Step>, opId: int): Option<nat> {
    if steps == [] then None
    else
      var before, last := steps[..|steps| - 1], steps[|steps| - 1];
      if last.Register? && AsksFor(before, last.h, opId) then Some(|Armed(before)|)
      else if last.Cancel? && AsksFor(before, last.h, opId) then None
      else if last.Unregister? && Serves(before, last.w) && Served(before, last.w) == opId then None
      else OnFile(before, opId)
  }

  lemma {:induction false} FileIs(steps: seq<Step>, opId: int)
    requires IsSchedule(steps)
    ensures OnFile(steps, opId) == if opId in Run(steps).pending then Some(Run(steps).pending[opId]) else None
  {
    if steps != [] {
      var before, last := steps[..|steps| - 1], steps[|steps| - 1];
      FileIs(before, opId);
      HandlersAreRequests(before);
      TimersAreArmed(before);
      NextFile(Run(before), last, opId);
    }
  }

  lemma NextFile(s: State, step: Step, opId: int)
    requires Enabled(s, step)
    ensures var now := Next(s, step).pending;
            if step.Register? && s.handlers[step.h].opId == opId then opId in now && now[opId] == |s.watchdogs|
            else if step.Cancel? && s.handlers[step.h].opId == opId then opId !in now
            else if step.Unregister? && s.watchdogs[step.w].opId == opId then opId !in now
            else (opId in now <==> opId in s.pending) && (opId in now ==> now[opId] == s.pending[opId])
  {
  }

  /** The handler whose request found timer w on file when it cancelled. */
  function Canceller(steps: seq<Step>, w: nat): Option<nat> {
    if steps == [] then None
    else
      var before, last := steps[..|steps| - 1], steps[|steps| - 1];
      if last.Cancel? && last.h < |Received(before)| && OnFile(before, Received(before)[last.h].opId) == Some(w)
      then Some(last.h)
      else Canceller(before, w)
  }

  lemma NextCancelled(s: State, step: Step, w: nat)
    requires PendingOk(s) && Enabled(s, step) && w < |Next(s, step).watchdogs|
    ensures Next(s, step).watchdogs[w].cancelledBy ==
            if w >= |s.watchdogs| then None
            else if step.Cancel? && s.handlers[step.h].opId in s.pending && s.pending[s.handlers[step.h].opId] == w
            then Some(step.h)
            else s.watchdogs[w].cancelledBy
  {
  }

  lemma {:induction false} CancellerIs(steps: seq<Step>, w: nat)
    requires IsSchedule(steps)
    ensures Canceller(steps, w) == if w < |Run(steps).watchdogs| then Run(steps).watchdogs[w].cancelledBy else None
  {
    if steps != [] {
      var before, last := steps[..|steps| - 1], steps[|steps| - 1];
      CancellerIs(before, w);
      SoundOverRuns(before);
      HandlersAreRequests(before);
      if last.Cancel? { FileIs(before, Received(before)[last.h].opId); }
      NextServes(Run(before), last);
      if w < |Run(steps).watchdogs| { NextCancelled(Run(before), last, w); }
    }
  }

  lemma {:induction false} ShutdownIs(steps: seq<Step>)
    requires IsSchedule(steps)
    ensures Run(steps).rootDone <==> RootDone in steps
  {
    if steps != [] {
      ShutdownIs(steps[..|steps| - 1]);
      LastIn(steps, RootDone);
      OnlyRootDone(Run(steps[..|steps| - 1]), steps[|steps| - 1]);
    }
  }

  lemma OnlyRootDone(s: State, step: Step)
    requires Enabled(s, step)
    ensures Next(s, step).rootDone <==> s.rootDone || step == RootDone
  {
  }

  // ---------- The course of a timer ----------

  predicate OfTimer(step: Step, w: nat) {
    (step.Exit? || step.Fire? || step.Unregister? || step.MarkPost? || step.AttemptPost?) && step.w == w
  }

  function OwnOfTimer(steps: seq<Step>, w: nat): seq<Step> {
    if steps == [] then []
    else
      var last := steps[|steps| - 1];
      OwnOfTimer(steps[..|steps| - 1], w) + if OfTimer(last, w) then [last] else []
  }

  /** All the steps of a timer that fires. */
  function Firing(w: nat): seq<Step> { [Fire(w), Unregister(w), MarkPost(w), AttemptPost(w)] }

  /** Timer w, once spawned, may fire and goes on as in Firing; it may end instead when cancelled or at shutdown. */
  ghost predicate TimerGoesOn(steps: seq<Step>, w: nat, step: Step) {
    && w < |Armed(steps)| && Spawn(Armed(steps)[w]) in steps
    && (|| OwnOfTimer(steps, w) + [step] <= Firing(w)
        || (OwnOfTimer(steps, w) == [] && step == Exit(w) && (Canceller(steps, w).Some? || RootDone in steps)))
  }

  ghost predicate TimerStands(d: Watchdog, w: nat, own: seq<Step>) {
    match d.place
    case Created => own == []
    case Waiting => own == []
    case Unregistering => own == [Fire(w)]
    case MarkingPost => own == [Fire(w), Unregister(w)]
    case AttemptingPost => own == [Fire(w), Unregister(w), MarkPost(w)]
    case Attempted => own == Firing(w)
    case Exited => own == [Exit(w)]
  }

  lemma TimerStandsNext(s: State, step: Step, w: nat, own: seq<Step>)
    requires Sound(s) && Enabled(s, step) && w < |s.watchdogs| && TimerStands(s.watchdogs[w], w, own)
    ensures TimerStands(Next(s, step).watchdogs[w], w, own + if OfTimer(step, w) then [step] else [])
  {
    if !OfTimer(step, w) {
      OthersKeepTimer(s, step, w);
      assert own + [] == own;
    } else {
      assert Next(s, step).watchdogs[w].place != Created;
    }
  }

  /** A timer is moved by its own steps only, after it has been spawned. */
  lemma OthersKeepTimer(s: State, step: Step, w: nat)
    requires Sound(s) && Enabled(s, step) && w < |s.watchdogs| && !OfTimer(step, w)
    ensures var d, e := s.watchdogs[w], Next(s, step).watchdogs[w];
            e.place == d.place || (d.place == Created && e.place == Waiting)
  {
    assert TimerOk(s, w);
    if step.Spawn? {
      assert HandlerOk(s, step.h);
      assert TimerOk(s, s.handlers[step.h].watchdog.value);
    }
  }

  lemma {:induction false} TimerNotYet(steps: seq<Step>, w: nat)
    requires IsSchedule(steps) && w >= |Run(steps).watchdogs|
    ensures OwnOfTimer(steps, w) == []
  {
    if steps != [] {
      NextServes(Run(steps[..|steps| - 1]), steps[|steps| - 1]);
      TimerNotYet(steps[..|steps| - 1], w);
    }
  }

  lemma {:induction false} TimersStand(steps: seq<Step>, w: nat)
    requires IsSchedule(steps) && w < |Run(steps).watchdogs|
    ensures TimerStands(Run(steps).watchdogs[w], w, OwnOfTimer(steps, w))
  {
    var before, last := steps[..|steps| - 1], steps[|steps| - 1];
    NextServes(Run(before), last);
    if w < |Run(before).watchdogs| {
      TimersStand(before, w);
      SoundOverRuns(before);
      TimerStandsNext(Run(before), last, w, OwnOfTimer(before, w));
    } else {
      TimerNotYet(before, w);
    }
  }

  lemma {:induction false} OwnIn(steps: seq<Step>, h: nat, step: Step)
    requires OfHandler(step, h)
    ensures step in Own(steps, h) <==> step in steps
  {
    if steps != [] {
      OwnIn(steps[..|steps| - 1], h, step);
      LastIn(steps, step);
    }
  }

  lemma SpawnedIff(steps: seq<Step>, w: nat)
    requires IsSchedule(steps) && w < |Run(steps).watchdogs|
    ensures Run(steps).watchdogs[w].place != Created <==> Spawn(Run(steps).watchdogs[w].owner) in steps
  {
    SoundOverRuns(steps);
    var s, h := Run(steps), Run(steps).watchdogs[w].owner;
    assert TimerOk(s, w);
    HandlersStand(steps, h);
    OwnIn(steps, h, Spawn(h));
    StandsSpawned(s.handlers[h], h, Own(steps, h), Refused(steps, h));
  }

  lemma StandsSpawned(x: Handler, h: nat, own: seq<Step>, refused: bool)
    requires Stands(x, h, own, refused) && x.kind == Pre && x.frozen && x.place in {Spawning, Responding, Finished}
    ensures Spawn(h) in own <==> x.place != Spawning
  {
    if x.place != Spawning {
      assert own[5] == Spawn(h);
    }
  }

  /** A step of a timer is possible exactly when its course goes on with it. */
  lemma TimerCourse(steps: seq<Step>, w: nat, step: Step)
    requires IsSchedule(steps) && OfTimer(step, w)
    ensures Enabled(Run(steps), step) <==> TimerGoesOn(steps, w, step)
  {
    TimersAreArmed(steps);
    if w < |Armed(steps)| {
      SpawnedIff(steps, w);
      TimersStand(steps, w);
      CancellerIs(steps, w);
      ShutdownIs(steps);
      TimerStandingAllows(Run(steps), step, w, OwnOfTimer(steps, w));
    }
  }

  lemma TimerStandingAllows(s: State, step: Step, w: nat, own: seq<Step>)
    requires w < |s.watchdogs| && OfTimer(step, w) && TimerStands(s.watchdogs[w], w, own)
    ensures var d := s.watchdogs[w];
            var ends := d.cancelledBy.Some? || s.rootDone;
            Enabled(s, step) <==>
              (d.place != Created && (own + [step] <= Firing(w) || (own == [] && step == Exit(w) && ends)))
  {
    var f := Firing(w);
    if |own| < |f| {
      Extends(own, step, f);
      if own != [] && own <= f { assert own[0] == f[0]; }
    }
  }

  lemma Extends<T>(s: seq<T>, x: T, t: seq<T>)
    requires |s| < |t|
    ensures s + [x] <= t <==> s <= t && x == t[|s|]
  {
    if s + [x] <= t { assert t[..|s|] == (s + [x])[..|s|]; }
  }

  // ---------- Schedules ----------

  /** What may happen after these steps: a request arrives, the service shuts down, or a course goes on. */
  ghost predicate Allowed(steps: seq<Step>, step: Step) {
    match step
    case Receive(_, _) => true
    case RootDone => true
    case Exit(w) => TimerGoesOn(steps, w, step)
    case Fire(w) => TimerGoesOn(steps, w, step)
    case Unregister(w) => TimerGoesOn(steps, w, step)
    case MarkPost(w) => TimerGoesOn(steps, w, step)
    case AttemptPost(w) => TimerGoesOn(steps, w, step)
    case _ => GoesOn(steps, step.h, step)
  }

  lemma AllowedIff(steps: seq<Step>, step: Step)
    requires IsSchedule(steps)
    ensures Enabled(Run(steps), step) <==> Allowed(steps, step)
  {
    if !step.Receive? && !step.RootDone? {
      if step.Exit? || step.Fire? || step.Unregister? || step.MarkPost? || step.AttemptPost? {
        TimerCourse(steps, step.w, step);
      } else {
        HandlerCourse(steps, step.h, step);
      }
    }
  }

  /** Every step is allowed by those before it. */
  ghost predicate IsHistory(steps: seq<Step>) {
    forall n | 0 <= n < |steps| :: Allowed(steps[..n], steps[n])
  }

  lemma HistoryGrows(steps: seq<Step>)
    requires steps != []
    ensures var k := |steps| - 1; IsHistory(steps) <==> IsHistory(steps[..k]) && Allowed(steps[..k], steps[k])
  {
    var k := |steps| - 1;
    forall n | 0 <= n < k ensures Allowed(steps[..k][..n], steps[..k][n]) == Allowed(steps[..n], steps[n]) {
      assert steps[..k][..n] == steps[..n];
    }
    if IsHistory(steps) {
      forall n | 0 <= n < k ensures Allowed(steps[..k][..n], steps[..k][n]) { assert Allowed(steps[..n], steps[n]); }
    }
    if IsHistory(steps[..k]) && Allowed(steps[..k], steps[k]) {
      forall n | 0 <= n < |steps| ensures Allowed(steps[..n], steps[n]) {
        if n < k { assert Allowed(steps[..k][..n], steps[..k][n]); }
      }
    }
  }

  /** The schedules of the machine are exactly the step lists in which every step is allowed by those before it. */
  lemma {:induction false} SchedulesAreHistories(steps: seq<Step>)
    ensures IsSchedule(steps) <==> IsHistory(steps)
  {
    if steps != [] {
      var k := |steps| - 1;
      HistoryGrows(steps);
      SchedulesAreHistories(steps[..k]);
      if IsSchedule(steps[..k]) { AllowedIff(steps[..k], steps[k]); }
    }
  }

  // ---------- When nothing more can happen ----------

  /** Nothing can happen after these steps but a new request or a shutdown. */
  ghost predicate Over(steps: seq<Step>) {
    forall step | Allowed(steps, step) :: step.Receive? || step.RootDone?
  }

  lemma HandlerIsDone(s: State, h: nat)
    requires Sound(s) && h < |s.handlers|
    requires !Enabled(s, Check(h)) && !Enabled(s, Mark(h)) && !Enabled(s, Cancel(h)) && !Enabled(s, RunScript(h, true))
    requires !Enabled(s, Register(h)) && !Enabled(s, Spawn(h)) && !Enabled(s, Respond(h))
    ensures Done(s.handlers[h])
  {
    assert HandlerOk(s, h);
  }

  lemma TimerIsDone(s: State, w: nat)
    requires Sound(s) && w < |s.watchdogs| && !Enabled(s, Spawn(s.watchdogs[w].owner))
    requires !Enabled(s, Fire(w)) && !Enabled(s, Unregister(w)) && !Enabled(s, MarkPost(w)) && !Enabled(s, AttemptPost(w))
    ensures s.watchdogs[w].place in {Attempted, Exited}
  {
    assert TimerOk(s, w);
  }

  lemma NotEnabled(steps: seq<Step>, step: Step)
    requires IsSchedule(steps) && Over(steps) && !step.Receive? && !step.RootDone?
    ensures !Enabled(Run(steps), step)
  {
    AllowedIff(steps, step);
  }

  lemma OverIsDone(steps: seq<Step>, h: nat)
    requires IsSchedule(steps) && Over(steps) && h < |Run(steps).handlers|
    ensures Done(Run(steps).handlers[h])
  {
    SoundOverRuns(steps);
    NotEnabled(steps, Check(h));
    NotEnabled(steps, Mark(h));
    NotEnabled(steps, Cancel(h));
    NotEnabled(steps, RunScript(h, true));
    NotEnabled(steps, Register(h));
    NotEnabled(steps, Spawn(h));
    NotEnabled(steps, Respond(h));
    HandlerIsDone(Run(steps), h);
  }

  lemma OverIsEnded(steps: seq<Step>)
    requires IsSchedule(steps) && Over(steps)
    ensures Ended(Run(steps))
  {
    SoundOverRuns(steps);
    var s := Run(steps);
    forall h | 0 <= h < |s.handlers| ensures Done(s.handlers[h]) { OverIsDone(steps, h); }
    forall w | 0 <= w < |s.watchdogs| ensures s.watchdogs[w].place in {Attempted, Exited} {
      assert TimerOk(s, w);
      NotEnabled(steps, Spawn(s.watchdogs[w].owner));
      NotEnabled(steps, Fire(w));
      NotEnabled(steps, Unregister(w));
      NotEnabled(steps, MarkPost(w));
      NotEnabled(steps, AttemptPost(w));
      TimerIsDone(s, w);
    }
  }

  lemma {:induction false} TimerOwnIn(steps: seq<Step>, w: nat, step: Step)
    requires OfTimer(step, w)
    ensures step in OwnOfTimer(steps, w) <==> step in steps
  {
    if steps != [] {
      TimerOwnIn(steps[..|steps| - 1], w, step);
      LastIn(steps, step);
    }
  }

  /** A handler that is finished has attempted its script. */
  lemma FinishedAttempted(steps: seq<Step>, h: nat)
    requires IsSchedule(steps) && h < |Run(steps).handlers| && Run(steps).handlers[h].place == Finished
    ensures exists ok :: RunScript(h, ok) in steps
  {
    HandlersStand(steps, h);
    var x := Run(steps).handlers[h];
    var ok: bool :| x.frozen == (x.kind == Pre && ok) && Own(steps, h) == Course(h, x.kind, ok);
    assert Course(h, x.kind, ok)[3] == RunScript(h, ok);
    OwnIn(steps, h, RunScript(h, ok));
  }

  lemma AttemptedPost(steps: seq<Step>, w: nat)
    requires IsSchedule(steps) && w < |Run(steps).watchdogs| && Run(steps).watchdogs[w].place == Attempted
    ensures AttemptPost(w) in steps
  {
    TimersStand(steps, w);
    assert OwnOfTimer(steps, w)[3] == AttemptPost(w);
    TimerOwnIn(steps, w, AttemptPost(w));
  }

  /** Another request of the operation cancelled timer w, and attempted its script. */
  ghost predicate TakenOver(steps: seq<Step>, w: nat, h: nat) {
    && h < |Received(steps)| && Canceller(steps, w).Some? && Canceller(steps, w).value != h
    && AsksFor(steps, Canceller(steps, w).value, Received(steps)[h].opId)
    && exists ok :: RunScript(Canceller(steps, w).value, ok) in steps
  }

  /**
    * When nothing more can happen, every PRE whose script succeeded registered a timer that attempted post.sh,
    * or that another request of the operation took over from, or the service has been shut down.
    */
  lemma {:induction false} FreezeIsAnswered(steps: seq<Step>, h: nat)
    requires IsHistory(steps) && Over(steps)
    requires h < |Received(steps)| && Received(steps)[h].kind == Pre && RunScript(h, true) in steps
    ensures exists w: nat :: w < |Armed(steps)| && Armed(steps)[w] == h
              && (AttemptPost(w) in steps || TakenOver(steps, w, h) || RootDone in steps)
  {
    SchedulesAreHistories(steps);
    OverIsEnded(steps);
    var w := AnsweredBy(steps, h);
  }

  lemma AnsweredBy(steps: seq<Step>, h: nat) returns (w: nat)
    requires IsSchedule(steps) && Ended(Run(steps)) && Froze(steps, h)
    ensures w < |Armed(steps)| && Armed(steps)[w] == h
    ensures AttemptPost(w) in steps || TakenOver(steps, w, h) || RootDone in steps
  {
    SoundOverRuns(steps);
    HandlersAreRequests(steps);
    TimersAreArmed(steps);
    FrozenIff(steps, h);
    var s := Run(steps);
    assert HandlerOk(s, h);
    w := s.handlers[h].watchdog.value;
    assert TimerOk(s, w);
    CancellerIs(steps, w);
    ShutdownIs(steps);
    if s.watchdogs[w].place == Attempted { AttemptedPost(steps, w); }
    if s.watchdogs[w].cancelledBy.Some? { FinishedAttempted(steps, s.watchdogs[w].cancelledBy.value); }
  }
}
