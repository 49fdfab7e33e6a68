/** The worker dispatcher's queue as a state machine (ruvia-core/src/worker_dispatcher.cpp).
    Every step is one critical section, or one move between critical sections, so that
    any interleaving of threads and any reentrant call is some sequence of steps; what
    a caller holds between two sections is part of the state. Moving, running or
    destroying a task runs user code: that is the steps taken in between. */
module DispatcherSteps {
  import opened Tally
  import opened Wrappers

  datatype Status = Accepted | QueueFull | Stopping

  datatype Step =
    | Reserve
    | Publish(postFails: bool)
    | GiveUp                              // post_factory's factory threw
    | Release(task: Option<nat>)          // release_abandoned_node
    | BeginDrain
    | StartTask
    | FinishTask(throws: bool)
    | EndBatch(postFails: bool)
    | BeginStop(abandon: bool)            // close (false) or worker failure (true)
    | FinishNotify
    | Splice                              // abandon_queued takes the ready list
    | TakeIdle                            // the last section of drain's failure path
    | Detach
    | WhenIdle
    | WhenNotified
    | WaitForReservations

  /** Tasks are numbered in the order they were moved into a node; of the slab's nodes
      only the number in each place matters here. */
  datatype Slab = Slab(
    capacity: nat,
    free: int,
    reserved: int,                      // between reserve and publish
    ready: seq<nat>,
    batch: seq<nat>,                    // the batch being run, empty when there is none
    started: nat, completed: nat,       // of the batch
    loose: multiset<nat>,               // tasks the abandon loops still have to release
    looseEmpty: int,                    // ... and nodes given up before they had a task
    pending: int, active: int)

  datatype Gate = Gate(
    accepting: bool, attached: bool, drainScheduled: bool, abandonDrain: bool, notifying: bool,
    drains: int,                        // drain handlers queued on the io_context
    failing: bool,                      // an exception is on its way to the worker's failure handling
    spliceOwed: int, idleOwed: int,     // abandon_queued calls and idle sections still to come
    stops: nat)                         // notification batches opened

  datatype Waiters = Waiters(
    count: nat,                         // when_idle calls so far
    idle: seq<nat>,                     // queued
    called: seq<nat>, refused: seq<nat>,
    notify: nat,                        // queued when_shutdown_notifications_complete callbacks
    reservations: bool)                 // a thread is blocked in wait_for_reservations

  datatype Order = Order(
    published: seq<nat>, publishedAt: seq<nat>,
    ran: seq<nat>, ranAt: seq<nat>,
    rounds: nat)                        // batches begun

  datatype Log = Log(
    tasks: nat,
    destroyed: seq<nat>,
    undelivered: set<nat>,              // tasks whose publication failed to post a drain
    order: Order)

  datatype State = State(slab: Slab, gate: Gate, waiters: Waiters, log: Log)

  // ----- the steps

  function Notify(w: Waiters, callbacks: seq<nat>): Waiters {
    w.(called := w.called + callbacks)
  }

  /** take_idle_callbacks_locked, and the invocation of what it took. */
  function TakeIdleCallbacks(w: Waiters, pending: int, active: int): Waiters {
    if pending == 0 && active == 0 then Notify(w.(idle := []), w.idle) else w
  }

  function Idle(s: State): State {
    s.(waiters := TakeIdleCallbacks(s.waiters, s.slab.pending, s.slab.active))
  }

  /** begin_stopping_locked: the first stop opens the one notification batch. */
  function Stop(g: Gate, abandon: bool): Gate {
    var g1 := if abandon then g.(drainScheduled := false, abandonDrain := true) else g;
    if g1.accepting then g1.(accepting := false, notifying := true, stops := g1.stops + 1) else g1
  }

  function Admission(s: State): Status {
    if !s.gate.attached || !s.gate.accepting then Stopping
    else if s.slab.pending == s.slab.capacity then QueueFull
    else Accepted
  }

  function Rest(b: Slab): seq<nat>
    requires b.started <= |b.batch|
  {
    b.batch[b.started..]
  }

  predicate Enabled(s: State, step: Step) {
    var b := s.slab;
    match step
    case Publish(_) => b.reserved > 0
    case GiveUp => b.reserved > 0
    case Release(task) => if task.Some? then task.value in b.loose else b.looseEmpty > 0
    case BeginDrain => s.gate.drains > 0
    case StartTask => b.started == b.completed < |b.batch|
    case FinishTask(_) => b.completed < b.started <= |b.batch|
    case EndBatch(_) => b.batch != [] && b.completed == b.started == |b.batch|
    case FinishNotify => s.gate.notifying
    case Splice => s.gate.spliceOwed > 0
    case TakeIdle => s.gate.idleOwed > 0
    case WaitForReservations => !s.gate.attached
    case _ => true
  }

  function ApplyReserve(s: State): State {
    if !Admission(s).Accepted? then s
    else s.(slab := s.slab.(free := s.slab.free - 1, reserved := s.slab.reserved + 1, pending := s.slab.pending + 1))
  }

  function PublishOrder(o: Order, t: nat): Order {
    o.(published := o.published + [t], publishedAt := o.publishedAt + [o.rounds])
  }

  function ApplyPublish(s: State, postFails: bool): State {
    var t, g, b := s.log.tasks, s.gate, s.slab.(reserved := s.slab.reserved - 1);
    var log := s.log.(tasks := t + 1);
    if g.abandonDrain || !g.attached then
      s.(slab := b.(loose := b.loose + multiset{t}), log := log)
    else if !g.drainScheduled && postFails then
      s.(slab := b.(loose := b.loose + multiset{t}), log := log.(undelivered := log.undelivered + {t}))
    else
      s.(slab := b.(ready := b.ready + [t]),
         gate := g.(drainScheduled := true, drains := if g.drainScheduled then g.drains else g.drains + 1),
         log := log.(order := PublishOrder(log.order, t)))
  }

  function ApplyGiveUp(s: State): State {
    s.(slab := s.slab.(reserved := s.slab.reserved - 1, looseEmpty := s.slab.looseEmpty + 1))
  }

  function ApplyRelease(s: State, task: Option<nat>): State {
    var b := s.slab.(free := s.slab.free + 1, pending := s.slab.pending - 1);
    var w := s.waiters.(reservations := s.waiters.reservations && b.pending != 0);
    Idle(match task
         case Some(t) => State(b.(loose := b.loose - multiset{t}), s.gate, w,
                               s.log.(destroyed := s.log.destroyed + [t]))
         case None => State(b.(looseEmpty := b.looseEmpty - 1), s.gate, w, s.log))
  }

  function ApplyBeginDrain(s: State): State {
    var g, b := s.gate.(drains := s.gate.drains - 1), s.slab;
    if g.abandonDrain then Idle(s.(gate := g.(drainScheduled := false, spliceOwed := g.spliceOwed + 1)))
    else if b.ready == [] then Idle(s.(gate := g.(drainScheduled := false)))
    else s.(gate := g,
            slab := b.(batch := b.ready, ready := [], started := 0, completed := 0,
                       pending := b.pending - |b.ready|, active := b.active + |b.ready|),
            log := s.log.(order := s.log.order.(rounds := s.log.order.rounds + 1)))
  }

  function RunOrder(o: Order, t: nat): Order {
    o.(ran := o.ran + [t], ranAt := o.ranAt + [o.rounds])
  }

  function ApplyStartTask(s: State): State
    requires Enabled(s, StartTask)
  {
    s.(slab := s.slab.(started := s.slab.started + 1),
       log := s.log.(order := RunOrder(s.log.order, s.slab.batch[s.slab.started])))
  }

  function ApplyFinishTask(s: State, throws: bool): State
    requires Enabled(s, FinishTask(throws))
  {
    var b := s.slab;
    if !throws then s.(slab := b.(completed := b.completed + 1))
    else
      var g := Stop(s.gate, true);
      s.(slab := b.(free := b.free + b.completed + 1, loose := b.loose + multiset(b.batch[b.completed + 1..]),
                    batch := [], started := 0, completed := 0, active := b.active - |b.batch|,
                    pending := b.pending + |b.batch| - b.completed - 1),
         gate := g.(spliceOwed := g.spliceOwed + 1, idleOwed := g.idleOwed + 1, failing := true))
  }

  /** Posting the next drain fails, with something published meanwhile. */
  predicate EndThrows(g: Gate, ready: bool, postFails: bool) {
    !g.abandonDrain && ready && postFails
  }

  function EndGate(g: Gate, ready: bool, postFails: bool): Gate {
    if g.abandonDrain then g.(drainScheduled := false, spliceOwed := g.spliceOwed + 1)
    else if !ready then g.(drainScheduled := false)
    else if postFails then g.(drainScheduled := false, failing := true)
    else g.(drainScheduled := true, drains := g.drains + 1)
  }

  function ApplyEndBatch(s: State, postFails: bool): State {
    var b := s.slab;
    var s1 := s.(slab := b.(free := b.free + |b.batch|, batch := [], started := 0, completed := 0,
                            active := b.active - |b.batch|),
                 gate := EndGate(s.gate, b.ready != [], postFails));
    if EndThrows(s.gate, b.ready != [], postFails) then s1 else Idle(s1)
  }

  function ApplyBeginStop(s: State, abandon: bool): State {
    var g := Stop(s.gate, abandon);
    s.(gate := if abandon then g.(spliceOwed := g.spliceOwed + 1, failing := false) else g)
  }

  function ApplySplice(s: State): State {
    s.(slab := s.slab.(ready := [], loose := s.slab.loose + multiset(s.slab.ready)),
       gate := s.gate.(spliceOwed := s.gate.spliceOwed - 1))
  }

  function ApplyTakeIdle(s: State): State {
    Idle(s.(gate := s.gate.(idleOwed := s.gate.idleOwed - 1)))
  }

  function ApplyDetach(s: State): State {
    if !s.gate.attached then s
    else s.(gate := s.gate.(accepting := false, attached := false, abandonDrain := true,
                            spliceOwed := s.gate.spliceOwed + 1))
  }

  function ApplyWhenIdle(s: State): State {
    var n, w := s.waiters.count, s.waiters.(count := s.waiters.count + 1);
    if !s.gate.attached then s.(waiters := w.(refused := w.refused + [n]))
    else if s.slab.pending != 0 || s.slab.active != 0 then s.(waiters := w.(idle := w.idle + [n]))
    else s.(waiters := Notify(w, [n]))
  }

  function ApplyFinishNotify(s: State): State {
    s.(gate := s.gate.(notifying := false), waiters := s.waiters.(notify := 0))
  }

  function ApplyWhenNotified(s: State): State {
    if s.gate.notifying then s.(waiters := s.waiters.(notify := s.waiters.notify + 1)) else s
  }

  function Apply(s: State, step: Step): State
    requires Enabled(s, step)
  {
    match step
    case Reserve => ApplyReserve(s)
    case Publish(postFails) => ApplyPublish(s, postFails)
    case GiveUp => ApplyGiveUp(s)
    case Release(task) => ApplyRelease(s, task)
    case BeginDrain => ApplyBeginDrain(s)
    case StartTask => ApplyStartTask(s)
    case FinishTask(throws) => ApplyFinishTask(s, throws)
    case EndBatch(postFails) => ApplyEndBatch(s, postFails)
    case BeginStop(abandon) => ApplyBeginStop(s, abandon)
    case FinishNotify => ApplyFinishNotify(s)
    case Splice => ApplySplice(s)
    case TakeIdle => ApplyTakeIdle(s)
    case Detach => ApplyDetach(s)
    case WhenIdle => ApplyWhenIdle(s)
    case WhenNotified => ApplyWhenNotified(s)
    case WaitForReservations =>
      s.(waiters := s.waiters.(reservations := s.waiters.reservations || s.slab.pending != 0))
  }

  // ----- the invariant

  /** Every node is in exactly one place, and the counters count the places. */
  ghost predicate NodesOk(b: Slab, abandonDrain: bool) {
    && b.capacity > 0 && b.free >= 0 && b.reserved >= 0 && b.looseEmpty >= 0
    && b.free + b.reserved + |b.ready| + |b.batch| + |b.loose| + b.looseEmpty == 2 * b.capacity
    && b.pending == b.reserved + |b.ready| + |b.loose| + b.looseEmpty
    && b.active == |b.batch| <= b.capacity
    && (!abandonDrain ==> b.pending <= b.capacity)
    && b.completed <= b.started <= b.completed + 1 && b.started <= |b.batch|
  }

  ghost predicate GateOk(g: Gate) {
    && (g.accepting ==> g.attached && !g.abandonDrain && g.stops == 0)
    && (!g.attached ==> g.abandonDrain)
    && g.stops <= 1 && (g.notifying ==> g.stops == 1)
    && g.idleOwed >= 0 && g.spliceOwed >= 0 && (g.spliceOwed > 0 ==> g.abandonDrain)
  }

  /** Whatever is queued, some handler or some owed section will see to. */
  ghost predicate ScheduleOk(g: Gate, ready: bool, running: bool) {
    && 0 <= g.drains && g.drains + (if running then 1 else 0) <= 1
    && (!g.abandonDrain ==> (g.drainScheduled <==> g.drains == 1 || running))
    && (!g.abandonDrain && ready ==> g.drainScheduled || g.failing)
    && (g.abandonDrain && ready ==> g.spliceOwed > 0)
  }

  ghost predicate WaitersOk(w: Waiters, pending: int, active: int, g: Gate) {
    && (w.idle != [] ==> pending > 0 || active > 0 || g.idleOwed > 0)
    && multiset(w.idle) + multiset(w.called) + multiset(w.refused) == AllBelow(w.count)
    && (w.notify > 0 ==> g.notifying)
    && (w.reservations ==> pending > 0 && !g.attached)
  }

  /** Each task is in one node, or has run, or was destroyed, and only one of these. */
  ghost predicate FatesOk(log: Log, rest: seq<nat>, ready: seq<nat>, loose: multiset<nat>) {
    multiset(log.order.ran) + multiset(log.destroyed) + multiset(rest) + multiset(ready) + loose == AllBelow(log.tasks)
  }

  /** Tasks run in publication order, each in a later batch than it was published in. */
  ghost predicate OrderOk(o: Order, rest: seq<nat>, ready: seq<nat>, abandonDrain: bool) {
    && |o.publishedAt| == |o.published| && |o.ranAt| == |o.ran|
    && o.ran + rest <= o.published
    && (!abandonDrain ==> o.published == o.ran + rest + ready)
    && (forall k :: 0 <= k < |o.publishedAt| ==> o.publishedAt[k] <= o.rounds)
    && (forall k :: 0 <= k < |o.ran| + |rest| ==> o.publishedAt[k] < o.rounds)
    && (forall k :: 0 <= k < |o.ran| ==> o.publishedAt[k] < o.ranAt[k] <= o.rounds)
  }

  /** Without failure or detachment only undelivered publications are destroyed. */
  ghost predicate LossOk(log: Log, loose: multiset<nat>, abandonDrain: bool) {
    !abandonDrain ==>
      && (forall t :: t in log.destroyed ==> t in log.undelivered)
      && (forall t :: t in loose ==> t in log.undelivered)
  }

  ghost predicate Inv(s: State) {
    && NodesOk(s.slab, s.gate.abandonDrain) && GateOk(s.gate)
    && ScheduleOk(s.gate, s.slab.ready != [], s.slab.batch != [])
    && WaitersOk(s.waiters, s.slab.pending, s.slab.active, s.gate)
    && FatesOk(s.log, Rest(s.slab), s.slab.ready, s.slab.loose)
    && OrderOk(s.log.order, Rest(s.slab), s.slab.ready, s.gate.abandonDrain)
    && LossOk(s.log, s.slab.loose, s.gate.abandonDrain)
  }

  function Initial(capacity: nat): State {
    State(Slab(capacity, 2 * capacity, 0, [], [], 0, 0, multiset{}, 0, 0, 0),
          Gate(true, true, false, false, false, 0, false, 0, 0, 0),
          Waiters(0, [], [], [], 0, false),
          Log(0, [], {}, Order([], [], [], [], 0)))
  }

  lemma InitialHolds(capacity: nat)
    requires capacity > 0
    ensures Inv(Initial(capacity))
  {
  }

  /** An accepted reservation always finds a free node, although the failure path can
      push the pending count past the capacity. */
  lemma AdmissionFindsNode(s: State)
    requires NodesOk(s.slab, s.gate.abandonDrain) && GateOk(s.gate) && Admission(s).Accepted?
    ensures s.slab.free > 0
  {
  }

  // ----- the accounting of tasks and waiters, move by move

  lemma TaskToReady(log: Log, rest: seq<nat>, ready: seq<nat>, loose: multiset<nat>, order: Order)
    requires FatesOk(log, rest, ready, loose) && order.ran == log.order.ran
    ensures FatesOk(log.(tasks := log.tasks + 1, order := order), rest, ready + [log.tasks], loose)
  {
    assert multiset(ready + [log.tasks]) == multiset(ready) + multiset{log.tasks};
  }

  lemma TaskToLoose(log: Log, rest: seq<nat>, ready: seq<nat>, loose: multiset<nat>)
    requires FatesOk(log, rest, ready, loose)
    ensures FatesOk(log.(tasks := log.tasks + 1), rest, ready, loose + multiset{log.tasks})
  {
  }

  lemma LooseToDestroyed(log: Log, rest: seq<nat>, ready: seq<nat>, loose: multiset<nat>, t: nat)
    requires FatesOk(log, rest, ready, loose) && t in loose
    ensures FatesOk(log.(destroyed := log.destroyed + [t]), rest, ready, loose - multiset{t})
  {
    assert multiset(log.destroyed + [t]) == multiset(log.destroyed) + multiset{t};
  }

  lemma RestToRan(log: Log, rest: seq<nat>, ready: seq<nat>, loose: multiset<nat>)
    requires FatesOk(log, rest, ready, loose) && rest != []
    ensures FatesOk(log.(order := RunOrder(log.order, rest[0])), rest[1..], ready, loose)
  {
    SplitFirst(rest);
    assert multiset(log.order.ran + [rest[0]]) == multiset(log.order.ran) + multiset{rest[0]};
  }

  lemma WaiterQueued(w: Waiters)
    requires multiset(w.idle) + multiset(w.called) + multiset(w.refused) == AllBelow(w.count)
    ensures multiset(w.idle + [w.count]) + multiset(w.called) + multiset(w.refused) == AllBelow(w.count + 1)
    ensures multiset(w.idle) + multiset(w.called + [w.count]) + multiset(w.refused) == AllBelow(w.count + 1)
    ensures multiset(w.idle) + multiset(w.called) + multiset(w.refused + [w.count]) == AllBelow(w.count + 1)
    ensures multiset([]) + multiset(w.called + w.idle) + multiset(w.refused) == AllBelow(w.count)
  {
    assert multiset(w.idle + [w.count]) == multiset(w.idle) + multiset{w.count};
    assert multiset(w.called + [w.count]) == multiset(w.called) + multiset{w.count};
    assert multiset(w.refused + [w.count]) == multiset(w.refused) + multiset{w.count};
    assert multiset(w.called + w.idle) == multiset(w.called) + multiset(w.idle);
  }

  lemma IdleKeepsWaiters(w: Waiters, pending: int, active: int, g: Gate, g': Gate)
    requires WaitersOk(w, pending, active, g) && g'.notifying == g.notifying && g'.attached == g.attached
    requires pending >= 0 && active >= 0
    ensures WaitersOk(TakeIdleCallbacks(w, pending, active), pending, active, g')
  {
    WaiterQueued(w);
  }

  // ----- each step keeps the invariant

  lemma ReserveKeeps(s: State)
    requires Inv(s)
    ensures Inv(ApplyReserve(s))
  {
    hide ScheduleOk, FatesOk, OrderOk, LossOk;
  }

  lemma PublishKeeps(s: State, postFails: bool)
    requires Inv(s) && s.slab.reserved > 0
    ensures Inv(ApplyPublish(s, postFails))
  {
    hide Inv, ApplyPublish;
    if s.gate.abandonDrain || !s.gate.attached {
      RefusedPublishKeeps(s, postFails);
    } else if !s.gate.drainScheduled && postFails {
      FailedPublishKeeps(s);
    } else {
      QueuedPublishKeeps(s, postFails);
    }
  }

  lemma RefusedPublishKeeps(s: State, postFails: bool)
    requires Inv(s) && s.slab.reserved > 0 && (s.gate.abandonDrain || !s.gate.attached)
    ensures Inv(ApplyPublish(s, postFails))
  {
    hide FatesOk, OrderOk, LossOk, NodesOk, WaitersOk;
    var b, t := s.slab, s.log.tasks;
    NodesAfterPublish(b, s.gate.abandonDrain, t);
    SameWaiters(s.waiters, b.pending, b.active, s.gate, s.gate);
    TaskToLoose(s.log, Rest(b), b.ready, b.loose);
    NoLoss(s.log.(tasks := t + 1), b.loose + multiset{t});
  }

  lemma FailedPublishKeeps(s: State)
    requires Inv(s) && s.slab.reserved > 0 && !s.gate.abandonDrain && s.gate.attached && !s.gate.drainScheduled
    ensures Inv(ApplyPublish(s, true))
  {
    hide FatesOk, OrderOk, LossOk, NodesOk, WaitersOk;
    var b, t := s.slab, s.log.tasks;
    NodesAfterPublish(b, s.gate.abandonDrain, t);
    SameWaiters(s.waiters, b.pending, b.active, s.gate, s.gate);
    TaskToLoose(s.log, Rest(b), b.ready, b.loose);
    UndeliveredFate(s.log.(tasks := t + 1), Rest(b), b.ready, b.loose + multiset{t}, t);
    LossUndelivered(s.log, b.loose, t);
  }

  lemma QueuedPublishKeeps(s: State, postFails: bool)
    requires Inv(s) && s.slab.reserved > 0 && !s.gate.abandonDrain && s.gate.attached
    requires s.gate.drainScheduled || !postFails
    ensures Inv(ApplyPublish(s, postFails))
  {
    hide FatesOk, OrderOk, LossOk, NodesOk, WaitersOk, GateOk, ScheduleOk;
    var b, t, g := s.slab, s.log.tasks, s.gate;
    NodesAfterPublish(b, g.abandonDrain, t);
    GateAfterPublish(g, b.ready, b.batch != [], t);
    SameWaiters(s.waiters, b.pending, b.active, g, ApplyPublish(s, postFails).gate);
    TaskToReady(s.log, Rest(b), b.ready, b.loose, PublishOrder(s.log.order, t));
    PublicationIsLast(s.log.order, Rest(b), b.ready, g.abandonDrain, t);
    LossIgnoresOrder(s.log, b.loose, g.abandonDrain, t + 1, PublishOrder(s.log.order, t));
  }

  lemma GateAfterPublish(g: Gate, ready: seq<nat>, running: bool, t: nat)
    requires GateOk(g) && ScheduleOk(g, ready != [], running) && !g.abandonDrain
    ensures var g' := g.(drainScheduled := true, drains := if g.drainScheduled then g.drains else g.drains + 1);
            GateOk(g') && ScheduleOk(g', ready + [t] != [], running)
  {
  }

  lemma NodesAfterPublish(b: Slab, abandonDrain: bool, t: nat)
    requires NodesOk(b, abandonDrain) && b.reserved > 0
    ensures b.started <= |b.batch|
    ensures NodesOk(b.(reserved := b.reserved - 1, ready := b.ready + [t]), abandonDrain)
    ensures NodesOk(b.(reserved := b.reserved - 1, loose := b.loose + multiset{t}), abandonDrain)
  {
  }

  lemma UndeliveredFate(log: Log, rest: seq<nat>, ready: seq<nat>, loose: multiset<nat>, t: nat)
    ensures FatesOk(log, rest, ready, loose) ==> FatesOk(log.(undelivered := log.undelivered + {t}), rest, ready, loose)
  {
  }

  lemma PublicationIsLast(o: Order, rest: seq<nat>, ready: seq<nat>, abandonDrain: bool, t: nat)
    requires OrderOk(o, rest, ready, abandonDrain)
    ensures OrderOk(PublishOrder(o, t), rest, ready + [t], abandonDrain)
    ensures OrderOk(o, rest, [], true)
  {
    assert o.ran + rest + (ready + [t]) == o.ran + rest + ready + [t];
  }

  lemma LossIgnoresOrder(log: Log, loose: multiset<nat>, abandonDrain: bool, tasks: nat, order: Order)
    requires LossOk(log, loose, abandonDrain)
    ensures LossOk(log.(tasks := tasks, order := order), loose, abandonDrain)
  {
  }

  lemma LossUndelivered(log: Log, loose: multiset<nat>, t: nat)
    requires LossOk(log, loose, false)
    ensures LossOk(log.(tasks := log.tasks + 1, undelivered := log.undelivered + {t}), loose + multiset{t}, false)
  {
  }

  lemma NoLoss(log: Log, loose: multiset<nat>)
    ensures LossOk(log, loose, true)
  {
  }

  lemma GiveUpKeeps(s: State)
    requires Inv(s) && s.slab.reserved > 0
    ensures Inv(ApplyGiveUp(s))
  {
    hide GateOk, ScheduleOk, FatesOk, OrderOk, LossOk, WaitersOk;
  }

  lemma ReleaseKeeps(s: State, task: Option<nat>)
    requires Inv(s) && Enabled(s, Release(task))
    ensures Inv(ApplyRelease(s, task))
  {
    hide Inv, ApplyRelease;
    if task.Some? {
      ReleaseTaskKeeps(s, task.value);
    } else {
      ReleaseEmptyKeeps(s);
    }
  }

  lemma ReleaseEmptyKeeps(s: State)
    requires Inv(s) && s.slab.looseEmpty > 0
    ensures Inv(ApplyRelease(s, None))
  {
    hide NodesOk, GateOk, ScheduleOk, WaitersOk, FatesOk, OrderOk, LossOk, TakeIdleCallbacks;
    NodesAfterRelease(s.slab, s.gate.abandonDrain, None);
    ReleaseKeepsWaiters(s.waiters, s.slab.pending, s.slab.active, s.gate);
  }

  lemma ReleaseTaskKeeps(s: State, t: nat)
    requires Inv(s) && t in s.slab.loose
    ensures Inv(ApplyRelease(s, Some(t)))
  {
    hide NodesOk, GateOk, ScheduleOk, WaitersOk, FatesOk, OrderOk, LossOk, TakeIdleCallbacks;
    NodesAfterRelease(s.slab, s.gate.abandonDrain, Some(t));
    LooseToDestroyed(s.log, Rest(s.slab), s.slab.ready, s.slab.loose, t);
    LossAfterRelease(s.log, s.slab.loose, s.gate.abandonDrain, t);
    ReleaseKeepsWaiters(s.waiters, s.slab.pending, s.slab.active, s.gate);
  }

  lemma NodesAfterRelease(b: Slab, abandonDrain: bool, task: Option<nat>)
    requires NodesOk(b, abandonDrain) && if task.Some? then task.value in b.loose else b.looseEmpty > 0
    ensures b.pending >= 1 && b.active >= 0 && b.started <= |b.batch|
    ensures task.Some? ==>
      NodesOk(b.(free := b.free + 1, pending := b.pending - 1, loose := b.loose - multiset{task.value}), abandonDrain)
    ensures task.None? ==>
      NodesOk(b.(free := b.free + 1, pending := b.pending - 1, looseEmpty := b.looseEmpty - 1), abandonDrain)
  {
    assert task.Some? ==> |b.loose - multiset{task.value}| == |b.loose| - 1;
  }

  lemma LossAfterRelease(log: Log, loose: multiset<nat>, abandonDrain: bool, t: nat)
    requires LossOk(log, loose, abandonDrain) && t in loose
    ensures LossOk(log.(destroyed := log.destroyed + [t]), loose - multiset{t}, abandonDrain)
  {
  }

  lemma ReleaseKeepsWaiters(w: Waiters, pending: int, active: int, g: Gate)
    requires WaitersOk(w, pending, active, g) && pending >= 1 && active >= 0
    ensures WaitersOk(TakeIdleCallbacks(w.(reservations := w.reservations && pending - 1 != 0), pending - 1, active),
                      pending - 1, active, g)
  {
    WaiterQueued(w);
  }

  /** A drain that starts finds no batch under way. */
  lemma BeginDrainKeeps(s: State)
    requires Inv(s) && Enabled(s, BeginDrain)
    ensures Inv(ApplyBeginDrain(s)) && s.slab.batch == []
  {
    hide FatesOk, OrderOk, LossOk, WaitersOk, TakeIdleCallbacks;
    var g := s.gate.(drains := s.gate.drains - 1, drainScheduled := false);
    IdleKeepsWaiters(s.waiters, s.slab.pending, s.slab.active, s.gate, g.(spliceOwed := g.spliceOwed + 1));
    IdleKeepsWaiters(s.waiters, s.slab.pending, s.slab.active, s.gate, g);
    assert Rest(s.slab) == [];
    ReadyToRest(s.log, s.slab.ready, s.slab.loose, s.gate.abandonDrain);
    if !s.gate.abandonDrain && s.slab.ready != [] {
      BatchHasWaiters(s.waiters, s.slab.pending, s.slab.active, s.gate, ApplyBeginDrain(s));
    }
  }

  lemma BatchHasWaiters(w: Waiters, pending: int, active: int, g: Gate, s': State)
    requires WaitersOk(w, pending, active, g) && g.attached && s'.slab.active > 0
    requires s'.gate.attached == g.attached && s'.gate.notifying == g.notifying
    ensures WaitersOk(w, s'.slab.pending, s'.slab.active, s'.gate)
  {
  }

  lemma ReadyToRest(log: Log, ready: seq<nat>, loose: multiset<nat>, abandonDrain: bool)
    requires FatesOk(log, [], ready, loose) && OrderOk(log.order, [], ready, abandonDrain)
             && LossOk(log, loose, abandonDrain)
    ensures var log' := log.(order := log.order.(rounds := log.order.rounds + 1));
      && FatesOk(log', ready[0..], [], loose) && LossOk(log', loose, abandonDrain)
      && (!abandonDrain ==> OrderOk(log'.order, ready[0..], [], abandonDrain))
  {
    assert ready[0..] == ready;
    assert log.order.ran + [] + ready == log.order.ran + ready + [];
  }

  lemma StartTaskKeeps(s: State)
    requires Inv(s) && Enabled(s, StartTask)
    ensures Inv(ApplyStartTask(s))
  {
    hide FatesOk, OrderOk, LossOk, GateOk, ScheduleOk, WaitersOk, NodesOk, RunOrder, Rest;
    StartIsInBatch(s.slab, s.gate.abandonDrain);
    RestToRan(s.log, Rest(s.slab), s.slab.ready, s.slab.loose);
    NextToRun(s.log.order, Rest(s.slab), s.slab.ready, s.gate.abandonDrain);
    LossIgnoresOrder(s.log, s.slab.loose, s.gate.abandonDrain, s.log.tasks, ApplyStartTask(s).log.order);
  }

  lemma StartIsInBatch(b: Slab, abandonDrain: bool)
    requires NodesOk(b, abandonDrain) && b.started == b.completed < |b.batch|
    ensures NodesOk(b.(started := b.started + 1), abandonDrain)
    ensures Rest(b) != [] && Rest(b)[0] == b.batch[b.started] && Rest(b.(started := b.started + 1)) == Rest(b)[1..]
  {
  }

  lemma NextToRun(o: Order, rest: seq<nat>, ready: seq<nat>, abandonDrain: bool)
    requires OrderOk(o, rest, ready, abandonDrain) && rest != []
    ensures OrderOk(RunOrder(o, rest[0]), rest[1..], ready, abandonDrain)
  {
    assert (o.ran + [rest[0]]) + rest[1..] == o.ran + rest;
  }

  lemma FinishTaskKeeps(s: State, throws: bool)
    requires Inv(s) && Enabled(s, FinishTask(throws))
    ensures Inv(ApplyFinishTask(s, throws))
  {
    hide FatesOk, OrderOk, LossOk, WaitersOk, NodesOk;
    var b := s.slab;
    if throws {
      NodesAfterFailure(b, s.gate.abandonDrain);
      RestToLoose(s.log, Rest(b), b.ready, b.loose);
      NoLoss(s.log, b.loose + multiset(Rest(b)));
      FailureKeepsWaiters(s.waiters, b.pending, b.active, s.gate, ApplyFinishTask(s, throws));
      RestIsLost(s.log.order, Rest(b), b.ready, s.gate.abandonDrain);
    } else {
      NodesAfterFinish(b, s.gate.abandonDrain);
    }
  }

  lemma NodesAfterFinish(b: Slab, abandonDrain: bool)
    requires NodesOk(b, abandonDrain) && b.completed < b.started
    ensures NodesOk(b.(completed := b.completed + 1), abandonDrain)
  {
  }

  lemma NodesAfterFailure(b: Slab, abandonDrain: bool)
    requires NodesOk(b, abandonDrain) && b.completed < b.started
    ensures b.batch[b.completed + 1..] == Rest(b)
    ensures NodesOk(b.(free := b.free + b.completed + 1, loose := b.loose + multiset(Rest(b)),
                       batch := [], started := 0, completed := 0, active := b.active - |b.batch|,
                       pending := b.pending + |b.batch| - b.completed - 1), true)
    ensures b.pending >= 0 && |b.batch| >= b.completed + 1
  {
    assert |multiset(Rest(b))| == |Rest(b)|;
  }

  lemma RestIsLost(o: Order, rest: seq<nat>, ready: seq<nat>, abandonDrain: bool)
    requires OrderOk(o, rest, ready, abandonDrain)
    ensures OrderOk(o, [], ready, true)
  {
    assert o.ran + [] == o.ran;
  }

  lemma FailureKeepsWaiters(w: Waiters, pending: int, active: int, g: Gate, s': State)
    requires WaitersOk(w, pending, active, g) && s'.gate.attached == g.attached && (g.notifying ==> s'.gate.notifying)
    requires s'.slab.pending >= pending && s'.gate.idleOwed > 0
    ensures WaitersOk(w, s'.slab.pending, s'.slab.active, s'.gate)
  {
  }

  lemma RestToLoose(log: Log, rest: seq<nat>, ready: seq<nat>, loose: multiset<nat>)
    ensures FatesOk(log, rest, ready, loose) ==> FatesOk(log, [], ready, loose + multiset(rest))
    ensures FatesOk(log, rest, ready, loose) ==> FatesOk(log, rest, [], loose + multiset(ready))
  {
  }

  lemma EndBatchKeeps(s: State, postFails: bool)
    requires Inv(s) && Enabled(s, EndBatch(postFails))
    ensures Inv(ApplyEndBatch(s, postFails))
  {
    hide FatesOk, LossOk, OrderOk, WaitersOk, TakeIdleCallbacks;
    assert Rest(s.slab) == [];
    BatchKeepsWaiters(s.waiters, s.slab.pending, s.slab.active, s.gate, EndGate(s.gate, s.slab.ready != [], postFails),
                      s.slab.active - |s.slab.batch|);
  }

  lemma BatchKeepsWaiters(w: Waiters, pending: int, active: int, g: Gate, g': Gate, active': int)
    requires WaitersOk(w, pending, active, g) && g'.notifying == g.notifying && g'.attached == g.attached
    requires pending >= 0 && active' >= 0
    ensures WaitersOk(TakeIdleCallbacks(w, pending, active'), pending, active', g')
    ensures pending > 0 ==> WaitersOk(w, pending, active', g')
  {
    WaiterQueued(w);
  }

  lemma BeginStopKeeps(s: State, abandon: bool)
    requires Inv(s)
    ensures Inv(ApplyBeginStop(s, abandon))
  {
    hide FatesOk, OrderOk, LossOk, WaitersOk, NodesOk;
    NodesAbandoned(s.slab, s.gate.abandonDrain, ApplyBeginStop(s, abandon).gate.abandonDrain);
    AbandonmentKeeps(s.log, Rest(s.slab), s.slab.ready, s.slab.loose, s.gate.abandonDrain,
                     ApplyBeginStop(s, abandon).gate.abandonDrain);
    SameWaiters(s.waiters, s.slab.pending, s.slab.active, s.gate, ApplyBeginStop(s, abandon).gate);
  }

  lemma NodesAbandoned(b: Slab, before: bool, after: bool)
    requires NodesOk(b, before) && (before ==> after)
    ensures NodesOk(b, after) && b.started <= |b.batch|
  {
  }

  lemma AbandonmentKeeps(log: Log, rest: seq<nat>, ready: seq<nat>, loose: multiset<nat>, before: bool, after: bool)
    requires OrderOk(log.order, rest, ready, before) && LossOk(log, loose, before) && (before ==> after)
    ensures OrderOk(log.order, rest, ready, after) && LossOk(log, loose, after)
  {
  }

  lemma SpliceKeeps(s: State)
    requires Inv(s) && Enabled(s, Splice)
    ensures Inv(ApplySplice(s))
  {
    hide FatesOk, OrderOk, LossOk, WaitersOk;
    RestToLoose(s.log, Rest(s.slab), s.slab.ready, s.slab.loose);
    PublicationIsLast(s.log.order, Rest(s.slab), s.slab.ready, s.gate.abandonDrain, 0);
    NoLoss(s.log, s.slab.loose + multiset(s.slab.ready));
    SameWaiters(s.waiters, s.slab.pending, s.slab.active, s.gate, ApplySplice(s).gate);
  }

  lemma SameWaiters(w: Waiters, pending: int, active: int, g: Gate, g': Gate)
    requires WaitersOk(w, pending, active, g) && g'.attached == g.attached && (g.notifying ==> g'.notifying)
    requires g'.idleOwed >= g.idleOwed
    ensures WaitersOk(w, pending, active, g')
  {
  }

  lemma DetachKeeps(s: State)
    requires Inv(s)
    ensures Inv(ApplyDetach(s))
  {
    hide FatesOk, OrderOk, LossOk, WaitersOk, NodesOk;
    NodesAbandoned(s.slab, s.gate.abandonDrain, ApplyDetach(s).gate.abandonDrain);
    AbandonmentKeeps(s.log, Rest(s.slab), s.slab.ready, s.slab.loose, s.gate.abandonDrain,
                     ApplyDetach(s).gate.abandonDrain);
    DetachedWaiters(s.waiters, s.slab.pending, s.slab.active, s.gate, ApplyDetach(s).gate);
  }

  lemma DetachedWaiters(w: Waiters, pending: int, active: int, g: Gate, g': Gate)
    requires WaitersOk(w, pending, active, g) && (g'.attached ==> g.attached) && g'.notifying == g.notifying
    requires g'.idleOwed == g.idleOwed
    ensures WaitersOk(w, pending, active, g')
  {
  }

  lemma WhenIdleKeeps(s: State)
    requires Inv(s)
    ensures Inv(ApplyWhenIdle(s))
  {
    hide FatesOk, OrderOk, LossOk, GateOk, ScheduleOk, WaitersOk;
    IdleCallKeepsWaiters(s.waiters, s.slab.pending, s.slab.active, s.gate, ApplyWhenIdle(s).waiters);
  }

  lemma IdleCallKeepsWaiters(w: Waiters, pending: int, active: int, g: Gate, w': Waiters)
    requires WaitersOk(w, pending, active, g) && pending >= 0 && active >= 0
    requires var w1 := w.(count := w.count + 1);
      w' == if !g.attached then w1.(refused := w.refused + [w.count])
            else if pending != 0 || active != 0 then w1.(idle := w.idle + [w.count])
            else Notify(w1, [w.count])
    ensures WaitersOk(w', pending, active, g)
  {
    WaiterQueued(w);
  }

  lemma StepKeeps(s: State, step: Step)
    requires Inv(s) && Enabled(s, step)
    ensures Inv(Apply(s, step))
  {
    hide Inv;
    match step
    case Reserve => ReserveKeeps(s);
    case Publish(postFails) => PublishKeeps(s, postFails);
    case GiveUp => GiveUpKeeps(s);
    case Release(task) => ReleaseKeeps(s, task);
    case BeginDrain => BeginDrainKeeps(s);
    case StartTask => StartTaskKeeps(s);
    case FinishTask(throws) => FinishTaskKeeps(s, throws);
    case EndBatch(postFails) => EndBatchKeeps(s, postFails);
    case BeginStop(abandon) => BeginStopKeeps(s, abandon);
    case Splice => SpliceKeeps(s);
    case TakeIdle => TakeIdleKeeps(s);
    case Detach => DetachKeeps(s);
    case WhenIdle => WhenIdleKeeps(s);
    case FinishNotify => RestKeeps(s, step);
    case WhenNotified => RestKeeps(s, step);
    case WaitForReservations => RestKeeps(s, step);
  }

  lemma TakeIdleKeeps(s: State)
    requires Inv(s) && Enabled(s, TakeIdle)
    ensures Inv(ApplyTakeIdle(s))
  {
    hide FatesOk, OrderOk, LossOk, WaitersOk, TakeIdleCallbacks;
    IdleKeepsWaiters(s.waiters, s.slab.pending, s.slab.active, s.gate, s.gate.(idleOwed := s.gate.idleOwed - 1));
  }

  lemma RestKeeps(s: State, step: Step)
    requires Inv(s) && Enabled(s, step) && (step.FinishNotify? || step.WhenNotified? || step.WaitForReservations?)
    ensures Inv(Apply(s, step))
  {
    hide FatesOk, OrderOk, LossOk;
  }

  // ----- whole runs

  /** Any interleaving: steps that are not possible when their turn comes do nothing. */
  ghost function Run(s: State, steps: seq<Step>): State
    decreases |steps|
  {
    if steps == [] then s
    else Run(if Enabled(s, steps[0]) then Apply(s, steps[0]) else s, steps[1..])
  }

  lemma {:induction false} RunKeeps(s: State, steps: seq<Step>)
    requires Inv(s)
    ensures Inv(Run(s, steps))
    decreases |steps|
  {
    hide Inv, Apply;
    if steps != [] {
      if Enabled(s, steps[0]) { StepKeeps(s, steps[0]); }
      RunKeeps(if Enabled(s, steps[0]) then Apply(s, steps[0]) else s, steps[1..]);
    }
  }

  ghost function Times(t: nat, s: seq<nat>): nat { multiset(s)[t] }

  /** In every run each task moved into a node is run once or destroyed once or still
      held by one node, and nothing else happens to it. */
  lemma EachTaskHasOneFate(capacity: nat, steps: seq<Step>, t: nat)
    requires capacity > 0
    ensures var s := Run(Initial(capacity), steps);
      && s.slab.started <= |s.slab.batch|
      && Times(t, s.log.order.ran) + Times(t, s.log.destroyed)
         + Times(t, Rest(s.slab)) + Times(t, s.slab.ready) + s.slab.loose[t] == if t < s.log.tasks then 1 else 0
  {
    InitialHolds(capacity);
    RunKeeps(Initial(capacity), steps);
    var s := Run(Initial(capacity), steps);
    assert (multiset(s.log.order.ran) + multiset(s.log.destroyed) + multiset(Rest(s.slab)) + multiset(s.slab.ready)
            + s.slab.loose)[t] == AllBelow(s.log.tasks)[t];
  }

  /** In every run tasks run in publication order, and a task published while a batch
      runs never runs in that batch. */
  lemma RunsFollowPublication(capacity: nat, steps: seq<Step>)
    requires capacity > 0
    ensures var o := Run(Initial(capacity), steps).log.order;
      && |o.publishedAt| == |o.published| && |o.ranAt| == |o.ran|
      && o.ran <= o.published
      && (forall k :: 0 <= k < |o.ran| ==> o.publishedAt[k] < o.ranAt[k])
  {
    InitialHolds(capacity);
    RunKeeps(Initial(capacity), steps);
  }

  /** No node holds anything: none is reserved, ready, in a batch, or still to be released. */
  predicate NoWork(b: Slab) {
    b.reserved == 0 && b.ready == [] && b.batch == [] && b.loose == multiset{} && b.looseEmpty == 0
  }

  /** Only sections that found both counters at zero call anybody. */
  lemma CallersSawZero(s: State, step: Step)
    requires Inv(s) && Enabled(s, step) && Apply(s, step).waiters.called != s.waiters.called
    ensures Apply(s, step).slab.pending == 0 && Apply(s, step).slab.active == 0
  {
    hide NodesOk, GateOk, ScheduleOk, WaitersOk, FatesOk, OrderOk, LossOk;
  }

  /** Whenever any step of any run calls an idle callback, no work exists: every node is free, and every task that was
      moved into a node has run or was destroyed. Each callback is called at most once. */
  lemma IdleMeansIdle(capacity: nat, steps: seq<Step>, step: Step, w: nat, t: nat)
    requires capacity > 0 && Enabled(Run(Initial(capacity), steps), step)
    ensures var s := Run(Initial(capacity), steps);
            var s' := Apply(s, step);
            && (s'.waiters.called != s.waiters.called ==>
                  NoWork(s'.slab) && s'.slab.free == 2 * capacity
                  && (t < s'.log.tasks ==> t in s'.log.order.ran || t in s'.log.destroyed))
            && s'.gate.stops <= 1
            && Times(w, s'.waiters.idle) + Times(w, s'.waiters.called) + Times(w, s'.waiters.refused)
               == if w < s'.waiters.count then 1 else 0
  {
    hide Inv, Enabled, Apply, NoWork, Times;
    InitialHolds(capacity);
    RunKeeps(Initial(capacity), steps);
    CapacityIsFixed(Initial(capacity), steps);
    IdleCallsAreRight(Run(Initial(capacity), steps), step, w, t);
  }

  lemma IdleCallsAreRight(s: State, step: Step, w: nat, t: nat)
    requires Inv(s) && Enabled(s, step)
    ensures var s' := Apply(s, step);
            && (s'.waiters.called != s.waiters.called ==>
                  NoWork(s'.slab) && s'.slab.free == 2 * s.slab.capacity
                  && (t < s'.log.tasks ==> t in s'.log.order.ran || t in s'.log.destroyed))
            && s'.gate.stops <= 1
            && Times(w, s'.waiters.idle) + Times(w, s'.waiters.called) + Times(w, s'.waiters.refused)
               == if w < s'.waiters.count then 1 else 0
  {
    hide Enabled, Apply, NodesOk, ScheduleOk, FatesOk, OrderOk, LossOk;
    var s' := Apply(s, step);
    StepKeeps(s, step);
    SameCapacity(s, step);
    if s'.waiters.called != s.waiters.called {
      CallersSawZero(s, step);
      NothingHeld(s', t);
    }
    assert (multiset(s'.waiters.idle) + multiset(s'.waiters.called) + multiset(s'.waiters.refused))[w]
        == AllBelow(s'.waiters.count)[w];
  }

  lemma SameCapacity(s: State, step: Step)
    requires Enabled(s, step)
    ensures Apply(s, step).slab.capacity == s.slab.capacity
  {
  }

  lemma NothingHeld(s: State, t: nat)
    requires Inv(s) && s.slab.pending == 0 && s.slab.active == 0
    ensures NoWork(s.slab) && s.slab.free == 2 * s.slab.capacity
    ensures t < s.log.tasks ==> t in s.log.order.ran || t in s.log.destroyed
  {
    assert t < s.log.tasks ==> AllBelow(s.log.tasks)[t] == 1;
    assert t in s.log.destroyed <==> t in multiset(s.log.destroyed);
    assert t in s.log.order.ran <==> t in multiset(s.log.order.ran);
  }

  /** Nobody is in the middle of anything: no claim, batch, abandon loop, queued drain
      or owed section. */
  predicate Quiet(s: State) {
    && s.slab.reserved == 0 && s.slab.batch == [] && s.slab.loose == multiset{} && s.slab.looseEmpty == 0
    && s.gate.drains == 0 && !s.gate.failing && s.gate.spliceOwed == 0 && s.gate.idleOwed == 0
  }

  /** Then nothing was left behind: no task is queued, every node is free, no idle
      callback waits, and every task ran or was destroyed; with neither failure nor
      detachment every task whose publication returned normally ran. */
  lemma NothingIsLeftBehind(capacity: nat, steps: seq<Step>, t: nat)
    requires capacity > 0 && Quiet(Run(Initial(capacity), steps))
    ensures var s := Run(Initial(capacity), steps);
      && s.slab.ready == [] && s.slab.free == 2 * capacity && s.slab.pending == 0 && s.slab.active == 0
      && s.waiters.idle == [] && !s.waiters.reservations
      && (t < s.log.tasks ==> t in s.log.order.ran || t in s.log.destroyed)
      && (t < s.log.tasks && !s.gate.abandonDrain && t !in s.log.undelivered ==> t in s.log.order.ran)
  {
    InitialHolds(capacity);
    RunKeeps(Initial(capacity), steps);
    CapacityIsFixed(Initial(capacity), steps);
    var s := Run(Initial(capacity), steps);
    assert t < s.log.tasks ==> AllBelow(s.log.tasks)[t] == 1;
    assert t in s.log.destroyed <==> t in multiset(s.log.destroyed);
    assert t in s.log.order.ran <==> t in multiset(s.log.order.ran);
  }

  lemma {:induction false} CapacityIsFixed(s: State, steps: seq<Step>)
    ensures Run(s, steps).slab.capacity == s.slab.capacity
    decreases |steps|
  {
    if steps != [] {
      CapacityIsFixed(if Enabled(s, steps[0]) then Apply(s, steps[0]) else s, steps[1..]);
    }
  }

  predicate Abandons(step: Step) {
    step == FinishTask(true) || step == BeginStop(true) || step == Detach
  }

  /** Closing alone abandons nothing: only a failure or a detachment does. */
  lemma {:induction false} CloseAloneAbandonsNothing(s: State, steps: seq<Step>)
    requires !s.gate.abandonDrain && forall k :: 0 <= k < |steps| ==> !Abandons(steps[k])
    ensures !Run(s, steps).gate.abandonDrain
    decreases |steps|
  {
    if steps != [] {
      CloseAloneAbandonsNothing(if Enabled(s, steps[0]) then Apply(s, steps[0]) else s, steps[1..]);
    }
  }

  // ----- what a failure and a detachment owe

  /** A task that throws, and a drain that cannot post the next one, fail the worker, and nothing else does. */
  lemma FailureIsRaised(s: State, step: Step)
    requires Inv(s) && Enabled(s, step) && !s.gate.failing
    ensures Apply(s, step).gate.failing <==>
            step == FinishTask(true) || (step == EndBatch(true) && !s.gate.abandonDrain && s.slab.ready != [])
  {
    hide FatesOk, OrderOk, LossOk, WaitersOk, ScheduleOk, TakeIdleCallbacks;
  }

  /** The failure is on its way until the worker's failure handling takes it. */
  lemma {:induction false} FailureIsHandled(s: State, steps: seq<Step>)
    requires s.gate.failing && forall k :: 0 <= k < |steps| ==> steps[k] != BeginStop(true)
    ensures Run(s, steps).gate.failing && !ApplyBeginStop(Run(s, steps), true).gate.failing
    decreases |steps|
  {
    hide Apply, Enabled, ApplyBeginStop;
    HandlingEndsFailure(s);
    if steps != [] {
      if Enabled(s, steps[0]) { FailureGoesOn(s, steps[0]); }
      FailureIsHandled(if Enabled(s, steps[0]) then Apply(s, steps[0]) else s, steps[1..]);
    }
  }

  lemma HandlingEndsFailure(s: State)
    ensures !ApplyBeginStop(s, true).gate.failing
  {
  }

  lemma FailureGoesOn(s: State, step: Step)
    requires Enabled(s, step) && s.gate.failing && step != BeginStop(true)
    ensures Apply(s, step).gate.failing
  {
    hide TakeIdleCallbacks;
  }

  /** wait_for_reservations returns only when no node is pending, and whoever is still blocked in it is let go then. */
  lemma ReservationsAreAwaited(s: State, step: Step)
    requires Inv(s) && Enabled(s, step) && (s.waiters.reservations || step == WaitForReservations)
    ensures Apply(s, step).waiters.reservations <==> Apply(s, step).slab.pending != 0
  {
    hide FatesOk, OrderOk, LossOk, ScheduleOk, TakeIdleCallbacks;
    StepKeeps(s, step);
    IdleSparesReservations();
  }

  lemma IdleSparesReservations()
    ensures forall w, pending, active :: TakeIdleCallbacks(w, pending, active).reservations == w.reservations
  {
  }

  // ----- admission, and who is answered how

  /** A reservation is accepted exactly while the worker is open and fewer nodes are pending than its capacity,
      although the failure path can push the pending count past it. */
  lemma AdmissionIff(capacity: nat, steps: seq<Step>)
    requires capacity > 0
    ensures var s := Run(Initial(capacity), steps);
            var open := s.gate.attached && s.gate.accepting;
            && (Admission(s) == Accepted <==> open && s.slab.pending < capacity)
            && (Admission(s) == QueueFull <==> open && s.slab.pending >= capacity)
            && (Admission(s) == Stopping <==> !open)
  {
    hide Inv, Admission;
    InitialHolds(capacity);
    RunKeeps(Initial(capacity), steps);
    CapacityIsFixed(Initial(capacity), steps);
    AdmittedIff(Run(Initial(capacity), steps));
  }

  lemma AdmittedIff(s: State)
    requires Inv(s)
    ensures var open := s.gate.attached && s.gate.accepting;
            && (Admission(s) == Accepted <==> open && s.slab.pending < s.slab.capacity)
            && (Admission(s) == QueueFull <==> open && s.slab.pending >= s.slab.capacity)
            && (Admission(s) == Stopping <==> !open)
  {
  }

  function Reservations(n: nat): (steps: seq<Step>)
    ensures |steps| == n && forall k :: 0 <= k < n ==> steps[k] == Reserve
  {
    if n == 0 then [] else [Reserve] + Reservations(n - 1)
  }

  /** A fresh worker admits as many reservations as its capacity, and refuses the next one as full. */
  lemma FreshWorkerAdmitsCapacity(capacity: nat, n: nat)
    requires capacity > 0 && n <= capacity
    ensures var s := Run(Initial(capacity), Reservations(n));
            s.slab.reserved == n == s.slab.pending && Admission(s) == if n < capacity then Accepted else QueueFull
  {
    ReservationsCount(Initial(capacity), n);
  }

  lemma {:induction false} ReservationsCount(s: State, n: nat)
    requires s.gate.attached && s.gate.accepting && s.slab.pending + n <= s.slab.capacity
    ensures Run(s, Reservations(n)) ==
            s.(slab := s.slab.(free := s.slab.free - n, reserved := s.slab.reserved + n, pending := s.slab.pending + n))
    decreases n
  {
    if n > 0 {
      assert Reservations(n)[1..] == Reservations(n - 1);
      ReservationsCount(Apply(s, Reserve), n - 1);
    }
  }

  predicate Stops(step: Step) {
    step.BeginStop? || step == FinishTask(true) || step == Detach
  }

  predicate SameOpening(g: Gate, g': Gate) {
    && g'.accepting == g.accepting && g'.attached == g.attached && g'.stops == g.stops
    && (g'.notifying ==> g.notifying)
  }

  lemma StepLeavesOpen(s: State, step: Step)
    requires Enabled(s, step) && !Stops(step)
    ensures SameOpening(s.gate, Apply(s, step).gate)
  {
    hide Apply, Enabled, SameOpening;
    match step
    case Publish(postFails) => PublishLeavesOpen(s, postFails);
    case Release(task) => ReleaseLeavesOpen(s, task);
    case BeginDrain => DrainLeavesOpen(s);
    case EndBatch(postFails) => EndLeavesOpen(s, postFails);
    case _ => OtherStepLeavesOpen(s, step);
  }

  lemma PublishLeavesOpen(s: State, postFails: bool)
    requires Enabled(s, Publish(postFails))
    ensures SameOpening(s.gate, Apply(s, Publish(postFails)).gate)
  {
  }

  lemma ReleaseLeavesOpen(s: State, task: Option<nat>)
    requires Enabled(s, Release(task))
    ensures SameOpening(s.gate, Apply(s, Release(task)).gate)
  {
  }

  lemma DrainLeavesOpen(s: State)
    requires Enabled(s, Step.BeginDrain)
    ensures SameOpening(s.gate, Apply(s, Step.BeginDrain).gate)
  {
  }

  lemma EndLeavesOpen(s: State, postFails: bool)
    requires Enabled(s, EndBatch(postFails))
    ensures SameOpening(s.gate, Apply(s, EndBatch(postFails)).gate)
  {
  }

  lemma OtherStepLeavesOpen(s: State, step: Step)
    requires Enabled(s, step) && !Stops(step)
    requires !step.Publish? && !step.Release? && !step.BeginDrain? && !step.EndBatch?
    ensures SameOpening(s.gate, Apply(s, step).gate)
  {
    hide ApplyPublish, ApplyRelease, ApplyBeginDrain, ApplyEndBatch, ApplyDetach, ApplyBeginStop, TakeIdleCallbacks;
  }

  /** The worker stays open, and opens no notification batch, until somebody stops or detaches it. */
  lemma {:induction false} OpenUntilStopped(s: State, steps: seq<Step>)
    requires forall k :: 0 <= k < |steps| ==> !Stops(steps[k])
    ensures var t := Run(s, steps);
            && t.gate.accepting == s.gate.accepting && t.gate.attached == s.gate.attached
            && t.gate.stops == s.gate.stops && (t.gate.notifying ==> s.gate.notifying)
    decreases |steps|
  {
    hide Apply, Enabled;
    if steps != [] {
      if Enabled(s, steps[0]) { StepLeavesOpen(s, steps[0]); }
      OpenUntilStopped(if Enabled(s, steps[0]) then Apply(s, steps[0]) else s, steps[1..]);
    }
  }

  /** What a stop does at once, and what no later step undoes: admission is closed, and a stop that found it open has
      opened the notification batch. */
  lemma StopCloses(s: State, step: Step)
    requires Inv(s) && Enabled(s, step) && Stops(step)
    ensures var t := Apply(s, step);
            && !t.gate.accepting && (step == Detach ==> !t.gate.attached)
            && (step != Detach && s.gate.accepting ==> t.gate.notifying && t.gate.stops == s.gate.stops + 1)
            && (!s.gate.accepting || step == Detach ==> t.gate.notifying == s.gate.notifying)
  {
    hide NodesOk, ScheduleOk, WaitersOk, FatesOk, OrderOk, LossOk;
  }

  lemma StepLeavesClosed(s: State, step: Step)
    requires Enabled(s, step) && !s.gate.accepting
    ensures !Apply(s, step).gate.accepting && Apply(s, step).gate.stops == s.gate.stops
    ensures !s.gate.attached ==> !Apply(s, step).gate.attached
  {
    hide Apply;
    if Stops(step) {
      AnotherStop(s, step);
    } else {
      StepLeavesOpen(s, step);
    }
  }

  lemma AnotherStop(s: State, step: Step)
    requires Enabled(s, step) && Stops(step) && !s.gate.accepting
    ensures !Apply(s, step).gate.accepting && Apply(s, step).gate.stops == s.gate.stops
    ensures !s.gate.attached ==> !Apply(s, step).gate.attached
  {
  }

  lemma {:induction false} StaysClosed(s: State, steps: seq<Step>)
    requires !s.gate.accepting
    ensures !Run(s, steps).gate.accepting && Run(s, steps).gate.stops == s.gate.stops
    ensures !s.gate.attached ==> !Run(s, steps).gate.attached
    decreases |steps|
  {
    hide Apply, Enabled;
    if steps != [] {
      if Enabled(s, steps[0]) { StepLeavesClosed(s, steps[0]); }
      StaysClosed(if Enabled(s, steps[0]) then Apply(s, steps[0]) else s, steps[1..]);
    }
  }

  /** when_idle is refused exactly on a detached worker, is answered at once exactly if no node holds anything, and
      waits otherwise; nobody else is affected. */
  lemma WhenIdleAnswer(capacity: nat, steps: seq<Step>)
    requires capacity > 0
    ensures var s := Run(Initial(capacity), steps);
            var w, v := s.waiters, ApplyWhenIdle(s).waiters;
            && v.count == w.count + 1 && v.notify == w.notify && v.reservations == w.reservations
            && v.refused == (if s.gate.attached then w.refused else w.refused + [w.count])
            && v.called == (if s.gate.attached && NoWork(s.slab) then w.called + [w.count] else w.called)
            && v.idle == (if s.gate.attached && !NoWork(s.slab) then w.idle + [w.count] else w.idle)
  {
    hide Inv, ApplyWhenIdle, NoWork;
    InitialHolds(capacity);
    RunKeeps(Initial(capacity), steps);
    IdleAnswer(Run(Initial(capacity), steps));
  }

  lemma IdleAnswer(s: State)
    requires Inv(s)
    ensures var w, v := s.waiters, ApplyWhenIdle(s).waiters;
            && v.count == w.count + 1 && v.notify == w.notify && v.reservations == w.reservations
            && v.refused == (if s.gate.attached then w.refused else w.refused + [w.count])
            && v.called == (if s.gate.attached && NoWork(s.slab) then w.called + [w.count] else w.called)
            && v.idle == (if s.gate.attached && !NoWork(s.slab) then w.idle + [w.count] else w.idle)
  {
    hide GateOk, ScheduleOk, WaitersOk, FatesOk, OrderOk, LossOk;
    assert s.slab.loose == multiset{} <==> |s.slab.loose| == 0;
  }

  /** The callbacks of when_shutdown_notifications_complete that a step calls. */
  function Answers(s: State, step: Step): nat {
    if step == WhenNotified && !s.gate.notifying then 1
    else if step == FinishNotify then s.waiters.notify
    else 0
  }

  ghost function Answered(s: State, steps: seq<Step>): nat
    decreases |steps|
  {
    if steps == [] then 0
    else if !Enabled(s, steps[0]) then Answered(s, steps[1..])
    else Answers(s, steps[0]) + Answered(Apply(s, steps[0]), steps[1..])
  }

  function Asked(steps: seq<Step>): nat {
    if steps == [] then 0 else (if steps[0] == WhenNotified then 1 else 0) + Asked(steps[1..])
  }

  /** Whoever asks to be told of the end of the notification batch is told once: at once, or by that end, which is
      still to come as long as anybody waits. */
  lemma WaitersOfBatchAreTold(capacity: nat, steps: seq<Step>)
    requires capacity > 0
    ensures var s := Run(Initial(capacity), steps);
            && Answered(Initial(capacity), steps) + s.waiters.notify == Asked(steps)
            && (!s.gate.notifying ==> Answered(Initial(capacity), steps) == Asked(steps))
  {
    hide Inv;
    InitialHolds(capacity);
    RunKeeps(Initial(capacity), steps);
    AnswersBalance(Initial(capacity), steps);
    if !Run(Initial(capacity), steps).gate.notifying {
      NobodyWaitsForNothing(Run(Initial(capacity), steps));
    }
  }

  lemma NobodyWaitsForNothing(s: State)
    requires Inv(s) && !s.gate.notifying
    ensures s.waiters.notify == 0
  {
  }

  lemma {:induction false} AnswersBalance(s: State, steps: seq<Step>)
    ensures Answered(s, steps) + Run(s, steps).waiters.notify == s.waiters.notify + Asked(steps)
    decreases |steps|
  {
    hide Apply;
    if steps != [] {
      if Enabled(s, steps[0]) {
        StepBalance(s, steps[0]);
        AnswersBalance(Apply(s, steps[0]), steps[1..]);
      } else {
        AnswersBalance(s, steps[1..]);
      }
    }
  }

  lemma StepBalance(s: State, step: Step)
    requires Enabled(s, step)
    ensures Answers(s, step) + Apply(s, step).waiters.notify ==
            s.waiters.notify + if step == WhenNotified then 1 else 0
  {
  }
}
