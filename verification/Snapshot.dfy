/** The snapshot handler: concurrent requests freeze and unfreeze the guest, with a failsafe timer per freeze. */
module Snapshot {
  import opened Sequences
  import Lru

  const MAX_ID_CACHE_SIZE: nat := 128

  datatype Kind = Pre | Post | Unknown

  /** What handlers and timers share: the two caches, the timer on file for each operation, the timers told to stop. */
  datatype Shared = Shared(seenPre: seq<int>, seenPost: seq<int>, pending: map<int, nat>, cancelled: set<nat>)

  /** The critical sections on it. */
  datatype Call =
    | CheckSeen(kind: Kind, opId: int)
    | MarkSeen(kind: Kind, opId: int)
    | CancelWatchdog(opId: int)
    | RegisterWatchdog(opId: int, w: nat)
    | UnregisterWatchdog(opId: int)
    | NoCall

  function Effect(sh: Shared, call: Call): Shared {
    match call
    case CheckSeen(kind, opId) =>
      if kind == Pre then sh.(seenPre := Checked(sh.seenPre, opId)) else sh.(seenPost := Checked(sh.seenPost, opId))
    case MarkSeen(kind, opId) =>
      if kind == Pre then sh.(seenPre := Marked(sh.seenPre, opId)) else sh.(seenPost := Marked(sh.seenPost, opId))
    case CancelWatchdog(opId) =>
      sh.(pending := sh.pending - {opId},
          cancelled := sh.cancelled + if opId in sh.pending then {sh.pending[opId]} else {})
    case RegisterWatchdog(opId, w) => sh.(pending := sh.pending[opId := w])
    case UnregisterWatchdog(opId) => sh.(pending := sh.pending - {opId})
    case NoCall => sh
  }

  /** The shared state as an object; every method is one critical section. */
  class Client {
    const seenPre: Lru.Handle<int, bool>
    const seenPost: Lru.Handle<int, bool>
    var pendingWatchdogs: map<int, nat>
    var cancelled: set<nat>

    ghost predicate Valid()
      reads this, seenPre, seenPost
    {
      && seenPre != seenPost && seenPre.Valid() && seenPost.Valid()
      && seenPre.capacity == seenPost.capacity == MAX_ID_CACHE_SIZE
    }

    function Current(): Shared
      reads this, seenPre, seenPost
    {
      Shared(seenPre.ring, seenPost.ring, pendingWatchdogs, cancelled)
    }

    constructor ()
      ensures Valid() && fresh(seenPre) && fresh(seenPost) && Current() == Shared([], [], map[], {})
    {
      seenPre := new Lru.Handle(MAX_ID_CACHE_SIZE);
      seenPost := new Lru.Handle(MAX_ID_CACHE_SIZE);
      pendingWatchdogs, cancelled := map[], {};
    }

    function Cache(kind: Kind): Lru.Handle<int, bool>
    {
      if kind == Pre then seenPre else seenPost
    }

    method CheckSeen(kind: Kind, opID: int) returns (duplicate: bool)
      requires Valid() && kind != Unknown
      modifies Cache(kind)
      ensures Valid() && Current() == Effect(old(Current()), Call.CheckSeen(kind, opID))
      ensures duplicate <==> opID in old(Cache(kind).ring)
    {
      var found := Cache(kind).Get(opID);
      duplicate := found.Some?;
    }

    method MarkSeen(kind: Kind, opID: int)
      requires Valid() && kind != Unknown
      modifies Cache(kind)
      ensures Valid() && Current() == Effect(old(Current()), Call.MarkSeen(kind, opID))
    {
      Cache(kind).Put(opID, true);
    }

    method CancelWatchdog(opID: int)
      modifies this`pendingWatchdogs, this`cancelled
      ensures Current() == Effect(old(Current()), Call.CancelWatchdog(opID))
    {
      if opID in pendingWatchdogs {
        cancelled := cancelled + {pendingWatchdogs[opID]};
        pendingWatchdogs := pendingWatchdogs - {opID};
      }
    }

    method RegisterWatchdog(opID: int, w: nat)
      modifies this`pendingWatchdogs
      ensures Current() == Effect(old(Current()), Call.RegisterWatchdog(opID, w))
    {
      pendingWatchdogs := pendingWatchdogs[opID := w];
    }

    method UnregisterWatchdog(opID: int)
      modifies this`pendingWatchdogs
      ensures Current() == Effect(old(Current()), Call.UnregisterWatchdog(opID))
    {
      pendingWatchdogs := pendingWatchdogs - {opID};
    }

    method Perform(call: Call)
      requires Valid() && (call.CheckSeen? || call.MarkSeen? ==> call.kind != Unknown)
      modifies this, seenPre, seenPost
      ensures Valid() && Current() == Effect(old(Current()), call)
    {
      match call
      case CheckSeen(kind, opId) => var duplicate := CheckSeen(kind, opId);
      case MarkSeen(kind, opId) => MarkSeen(kind, opId);
      case CancelWatchdog(opId) => CancelWatchdog(opId);
      case RegisterWatchdog(opId, w) => RegisterWatchdog(opId, w);
      case UnregisterWatchdog(opId) => UnregisterWatchdog(opId);
      case NoCall =>
    }
  }

  /** The recency list after looking an ID up, and after marking it. */
  function Checked(ring: seq<int>, opId: int): seq<int> {
    if opId in ring then Marked(ring, opId) else ring
  }

  function Marked(ring: seq<int>, opId: int): seq<int> { Lru.Touch(ring, opId, MAX_ID_CACHE_SIZE) }

  // ---------- Handlers and timers as interleaved steps ----------

  /**
    * The next thing a handler does. Arming means that a PRE script succeeded and the timer is about to
    * be registered; Spawning that it is registered but its goroutine has not started.
    */
  datatype Place = Checking | Marking | Cancelling | Scripting | Arming | Spawning | Responding | Finished | Rejected

  /** frozen says that a PRE script succeeded; watchdog is the timer then registered. */
  datatype Handler = Handler(kind: Kind, opId: int, place: Place, frozen: bool, watchdog: Option<nat>)

  datatype TimerPlace = Created | Waiting | Unregistering | MarkingPost | AttemptingPost | Attempted | Exited

  datatype Watchdog = Watchdog(opId: int, owner: nat, place: TimerPlace, cancelledBy: Option<nat>)

  datatype State = State(seenPre: seq<int>, seenPost: seq<int>, pending: map<int, nat>,
                         handlers: seq<Handler>, watchdogs: seq<Watchdog>, rootDone: bool)

  const START: State := State([], [], map[], [], [], false)

  datatype Step =
    | Receive(kind: Kind, opId: int)
    | Check(h: nat)
    | Mark(h: nat)
    | Cancel(h: nat)
    | RunScript(h: nat, ok: bool)
    | Register(h: nat)
    | Spawn(h: nat)
    | Respond(h: nat)
    | Exit(w: nat)
    | Fire(w: nat)
    | Unregister(w: nat)
    | MarkPost(w: nat)
    | AttemptPost(w: nat)
    | RootDone

  predicate HandlerAt(s: State, h: nat, place: Place) { h < |s.handlers| && s.handlers[h].place == place }

  predicate TimerAt(s: State, w: nat, place: TimerPlace) { w < |s.watchdogs| && s.watchdogs[w].place == place }

  /** A timer that is both told to stop and expired may take either branch of its select. */
  predicate Enabled(s: State, step: Step) {
    match step
    case Receive(_, _) => true
    case Check(h) => HandlerAt(s, h, Checking)
    case Mark(h) => HandlerAt(s, h, Marking)
    case Cancel(h) => HandlerAt(s, h, Cancelling)
    case RunScript(h, _) => HandlerAt(s, h, Scripting)
    case Register(h) => HandlerAt(s, h, Arming)
    case Spawn(h) => HandlerAt(s, h, Spawning) && s.handlers[h].watchdog.Some? && s.handlers[h].watchdog.value < |s.watchdogs|
    case Respond(h) => HandlerAt(s, h, Responding)
    case Exit(w) => TimerAt(s, w, Waiting) && (s.watchdogs[w].cancelledBy.Some? || s.rootDone)
    case Fire(w) => TimerAt(s, w, Waiting)
    case Unregister(w) => TimerAt(s, w, Unregistering)
    case MarkPost(w) => TimerAt(s, w, MarkingPost)
    case AttemptPost(w) => TimerAt(s, w, AttemptingPost)
    case RootDone => true
  }

  function Moved(s: State, h: nat, place: Place): State
    requires h < |s.handlers|
  {
    s.(handlers := s.handlers[h := s.handlers[h].(place := place)])
  }

  function TimerMoved(s: State, w: nat, place: TimerPlace): State
    requires w < |s.watchdogs|
  {
    s.(watchdogs := s.watchdogs[w := s.watchdogs[w].(place := place)])
  }

  function Seen(s: State, kind: Kind): seq<int> { if kind == Pre then s.seenPre else s.seenPost }

  function WithSeen(s: State, kind: Kind, ring: seq<int>): State {
    if kind == Pre then s.(seenPre := ring) else s.(seenPost := ring)
  }

  function Next(s: State, step: Step): State
    requires Enabled(s, step)
  {
    match step
    case Receive(kind, opId) =>
      s.(handlers := s.handlers + [Handler(kind, opId, if kind == Unknown then Rejected else Checking, false, None)])
    case Check(h) =>
      var x := s.handlers[h];
      WithSeen(Moved(s, h, if x.opId in Seen(s, x.kind) then Rejected else Marking), x.kind, Checked(Seen(s, x.kind), x.opId))
    case Mark(h) =>
      var x := s.handlers[h];
      WithSeen(Moved(s, h, Cancelling), x.kind, Marked(Seen(s, x.kind), x.opId))
    case Cancel(h) =>
      var s' := Moved(s, h, Scripting);
      var id := s.handlers[h].opId;
      if id in s.pending && s.pending[id] < |s.watchdogs| then
        s'.(pending := s.pending - {id},
            watchdogs := s.watchdogs[s.pending[id] := s.watchdogs[s.pending[id]].(cancelledBy := Some(h))])
      else s'.(pending := s.pending - {id})
    case RunScript(h, ok) =>
      var x := s.handlers[h];
      var freeze := x.kind == Pre && ok;
      s.(handlers := s.handlers[h := x.(place := if freeze then Arming else Responding, frozen := freeze)])
    case Register(h) =>
      var x, w := s.handlers[h], |s.watchdogs|;
      s.(handlers := s.handlers[h := x.(place := Spawning, watchdog := Some(w))],
         watchdogs := s.watchdogs + [Watchdog(x.opId, h, Created, None)],
         pending := s.pending[x.opId := w])
    case Spawn(h) => TimerMoved(Moved(s, h, Responding), s.handlers[h].watchdog.value, Waiting)
    case Respond(h) => Moved(s, h, Finished)
    case Exit(w) => TimerMoved(s, w, Exited)
    case Fire(w) => TimerMoved(s, w, Unregistering)
    case Unregister(w) => TimerMoved(s, w, MarkingPost).(pending := s.pending - {s.watchdogs[w].opId})
    case MarkPost(w) => TimerMoved(s, w, AttemptingPost).(seenPost := Marked(s.seenPost, s.watchdogs[w].opId))
    case AttemptPost(w) => TimerMoved(s, w, Attempted)
    case RootDone => s.(rootDone := true)
  }

  /** The part of the state that the handlers and timers share. */
  function SharedOf(s: State): Shared {
    Shared(s.seenPre, s.seenPost, s.pending, set w: nat | w < |s.watchdogs| && s.watchdogs[w].cancelledBy.Some?)
  }

  /** The critical section that a step enters. */
  function CallOf(s: State, step: Step): Call
    requires Enabled(s, step)
  {
    match step
    case Check(h) => CheckSeen(s.handlers[h].kind, s.handlers[h].opId)
    case Mark(h) => MarkSeen(s.handlers[h].kind, s.handlers[h].opId)
    case Cancel(h) => CancelWatchdog(s.handlers[h].opId)
    case Register(h) => RegisterWatchdog(s.handlers[h].opId, |s.watchdogs|)
    case Unregister(w) => UnregisterWatchdog(s.watchdogs[w].opId)
    case MarkPost(w) => MarkSeen(Post, s.watchdogs[w].opId)
    case _ => NoCall
  }

  // ---------- A freeze is never abandoned ----------

  /** The handler has passed its cancel step: it is about to attempt its script, or has attempted it. */
  predicate Committed(x: Handler) { x.place in {Scripting, Arming, Spawning, Responding, Finished} }

  /** What becomes of a registered timer. */
  ghost predicate Accounted(s: State, w: nat)
    requires w < |s.watchdogs|
  {
    var d := s.watchdogs[w];
    || (d.place in {Created, Waiting} && d.cancelledBy.None?)
    || d.place in {Unregistering, MarkingPost, AttemptingPost, Attempted}
    || d.cancelledBy.Some?
    || (d.place == Exited && s.rootDone)
  }

  /** A timer belongs to the frozen PRE handler that registered it; a canceller is another, committed handler. */
  ghost predicate TimerOk(s: State, w: nat)
    requires w < |s.watchdogs|
  {
    var d := s.watchdogs[w];
    && d.owner < |s.handlers|
    && var x := s.handlers[d.owner];
    && x.kind == Pre && x.opId == d.opId && x.frozen && x.watchdog == Some(w)
    && x.place in {Spawning, Responding, Finished}
    && (d.place == Created <==> x.place == Spawning)
    && (d.cancelledBy.Some? ==>
          && d.cancelledBy.value < |s.handlers| && d.cancelledBy.value != d.owner
          && s.handlers[d.cancelledBy.value].opId == d.opId && Committed(s.handlers[d.cancelledBy.value]))
    && Accounted(s, w)
  }

  ghost predicate HandlerOk(s: State, h: nat)
    requires h < |s.handlers|
  {
    var x := s.handlers[h];
    && (x.kind == Unknown ==> x.place == Rejected)
    && (x.frozen ==> x.kind == Pre && x.place in {Arming, Spawning, Responding, Finished})
    && (x.place == Arming ==> x.frozen && x.watchdog.None?)
    && (x.place == Spawning ==> x.frozen)
    && (x.place == Rejected || x.place == Checking ==> x.watchdog.None?)
    && (x.watchdog.Some? <==> x.frozen && x.place != Arming)
    && (x.watchdog.Some? ==> x.watchdog.value < |s.watchdogs| && s.watchdogs[x.watchdog.value].owner == h)
  }

  /** Every cancel function on file belongs to a timer of that operation which nobody has cancelled. */
  ghost predicate PendingOk(s: State) {
    forall id | id in s.pending ::
      s.pending[id] < |s.watchdogs| && s.watchdogs[s.pending[id]].opId == id && s.watchdogs[s.pending[id]].cancelledBy.None?
  }

  ghost predicate Sound(s: State) {
    && (forall w | 0 <= w < |s.watchdogs| :: TimerOk(s, w))
    && (forall h | 0 <= h < |s.handlers| :: HandlerOk(s, h))
    && PendingOk(s)
  }
}
