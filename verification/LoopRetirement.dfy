/** The retirement of one event loop (ruvia-core/src/event_loop_state.h and
    event_loop.cpp): a gate that counts root leases, stop callbacks and cleanup, and the
    stop sequence that seals it, interleaved with every step of the worker's dispatcher. */
module LoopRetirement {
  import D = DispatcherSteps
  import opened Wrappers

  datatype Gate = Gate(pending: nat, rootClosed: bool, sealed: bool, finalized: bool, callback: bool)

  // ----- the gate's critical sections

  predicate Claims(g: Gate) {
    g.sealed && g.pending == 0 && !g.finalized
  }

  /** take_finalize_locked. */
  function TakeFinalize(g: Gate): Gate {
    if Claims(g) then g.(finalized := true, callback := false) else g
  }

  function Begin(g: Gate): Gate {
    if g.sealed || g.finalized then g else g.(pending := g.pending + 1)
  }

  function BeginCleanup(g: Gate): Gate {
    if g.finalized then g else g.(pending := g.pending + 1)
  }

  function Acquire(g: Gate): Gate {
    if g.finalized || g.rootClosed || g.sealed then g else g.(pending := g.pending + 1)
  }

  function Finish(g: Gate): Gate
    requires g.pending > 0
  {
    TakeFinalize(g.(pending := g.pending - 1))
  }

  function Seal(g: Gate): Gate {
    TakeFinalize(g.(sealed := true))
  }

  function CloseAdmission(g: Gate): Gate {
    g.(rootClosed := true, sealed := true, finalized := true, callback := false)
  }

  /** event_loop_retirement. */
  class Retirement {
    var pending: nat
    var rootAdmissionClosed: bool
    var sealed: bool
    var finalized: bool
    var finalize: bool          // a callback is stored

    function View(): Gate
      reads this
    {
      Gate(pending, rootAdmissionClosed, sealed, finalized, finalize)
    }

    constructor ()
      ensures View() == Gate(0, false, false, false, false)
    {
      pending, rootAdmissionClosed, sealed, finalized, finalize := 0, false, false, false, false;
    }

    method TryBegin() returns (begun: bool)
      modifies this
      ensures View() == Begin(old(View())) && begun == (pending == old(pending) + 1)
    {
      begun := !sealed && !finalized;
      if begun {
        pending := pending + 1;
      }
    }

    method TryBeginCleanup() returns (begun: bool)
      modifies this
      ensures View() == BeginCleanup(old(View())) && begun == (pending == old(pending) + 1)
    {
      begun := !finalized;
      if begun {
        pending := pending + 1;
      }
    }

    /** The section of try_acquire. A caller that then cannot allocate its token calls finish(), and between the two
        sections the gate is open to everybody. */
    method TryAcquire() returns (granted: bool)
      modifies this
      ensures View() == Acquire(old(View())) && granted == (pending == old(pending) + 1)
      ensures granted <==> !old(finalized) && !old(rootAdmissionClosed) && !old(sealed)
    {
      granted := !finalized && !rootAdmissionClosed && !sealed;
      if granted {
        pending := pending + 1;
      }
    }

    /** finish: whoever takes the count to zero of a sealed gate claims the callback. */
    method FinishOne() returns (claimed: bool)
      requires pending > 0
      modifies this
      ensures View() == Finish(old(View()))
      ensures claimed <==> !old(finalized) && finalized
      ensures claimed <==> old(sealed) && old(pending) == 1 && !old(finalized)
    {
      pending := pending - 1;
      claimed := TakeFinalizeLocked();
    }

    method SealGate() returns (claimed: bool)
      modifies this
      ensures View() == Seal(old(View()))
      ensures claimed <==> pending == 0 && !old(finalized)
    {
      sealed := true;
      claimed := TakeFinalizeLocked();
    }

    method TakeFinalizeLocked() returns (claimed: bool)
      modifies this
      ensures View() == TakeFinalize(old(View())) && claimed == Claims(old(View()))
    {
      claimed := sealed && pending == 0 && !finalized;
      if claimed {
        finalized := true;
        finalize := false;
      }
    }
  }

  // ----- the stop sequence and the dispatcher

  /** How far stop() has come on the thread that called it first. */
  datatype Stop = NotStopped | Stopping | RootClosed | Begun | CallbackSet | WorkerStopped | Registered | GaveUp

  /** What follows: the callback of the notification batch, then that of the idle point. */
  datatype After =
    | NotYet
    | BatchOver                     // the batch callback was called
    | HoldReleased
    | IdleQueued(ticket: nat)       // when_idle's waiter
    | IdleTaken                     // the idle callback was called
    | Sealed
    | Refused                       // the worker is detached: the loop is not finalized

  datatype Listener = Listener(begun: bool, cancelled: bool, started: bool, callback: bool, holds: bool)

  datatype Loop = Loop(
    gate: Gate,
    stop: Stop,
    hold: bool,                     // stop()'s own count
    waitsForBatch: bool,            // its callback is queued with the dispatcher
    after: After,
    roots: nat, cleanups: nat,
    listeners: map<nat, Listener>,
    shutdown: bool,                 // the context was shut down under the loop
    claims: nat,                    // finalize callbacks taken
    worker: D.State)

  datatype Step =
    | Worker(step: D.Step)          // anything the dispatcher does on its own
    | StopCall | CloseRoot | StopBegin | SetFinalize | StopWorker | RegisterNotified
    | ReleaseHold | AwaitIdle | SealGate
    | Register(id: nat) | Stopping(id: nat) | Start(id: nat) | CallbackEnds(id: nat) | Cancel(id: nat)
    | AcquireRoot | ReleaseRoot | StartCleanup | EndCleanup
    | Shutdown

  ghost function Holding(listeners: map<nat, Listener>): set<nat> {
    set id | id in listeners && listeners[id].holds
  }

  /** The end of one hold: finish(). */
  function Released(l: Loop): Loop
    requires l.gate.pending > 0
  {
    var g := Finish(l.gate);
    l.(gate := g, claims := if !l.gate.finalized && g.finalized then l.claims + 1 else l.claims)
  }

  /** Every listener that has not been cancelled was told of the stop; none is any more once
      the context is shut down. */
  predicate AllTold(l: Loop) {
    l.shutdown || forall id :: id in l.listeners ==> l.listeners[id].begun || l.listeners[id].cancelled
  }

  predicate Enabled(l: Loop, step: Step) {
    match step
    // the batch is over when every hook has been told
    case Worker(step) => D.Enabled(l.worker, step) && (step == D.FinishNotify ==> AllTold(l))
    case StopCall => l.stop == NotStopped
    case CloseRoot => l.stop == Stop.Stopping
    case StopBegin => l.stop == RootClosed
    case SetFinalize => l.stop == Begun
    case StopWorker => l.stop == CallbackSet
    case RegisterNotified => l.stop == WorkerStopped
    case ReleaseHold => l.after == BatchOver
    case AwaitIdle => l.after == HoldReleased
    case SealGate => l.after == IdleTaken
    // no hook joins once the dispatcher has stopped accepting
    case Register(id) => id !in l.listeners && l.worker.gate.accepting
    case Stopping(id) => id in l.listeners && l.worker.gate.notifying && !l.shutdown
    case Start(id) => id in l.listeners && l.listeners[id].begun && !l.listeners[id].started
    case CallbackEnds(id) => id in l.listeners && l.listeners[id].started && l.listeners[id].holds
    case Cancel(id) => id in l.listeners
    case AcquireRoot => true
    case ReleaseRoot => l.roots > 0
    case StartCleanup => true
    case EndCleanup => l.cleanups > 0
    // otherwise the source terminates the process
    case Shutdown => l.gate.pending == 0 && !l.shutdown
  }

  /** A dispatcher step calls the batch callback or the idle callback if it takes it. */
  function Follow(l: Loop, step: D.Step): Loop
    requires D.Enabled(l.worker, step)
  {
    var d := D.Apply(l.worker, step);
    if step == D.FinishNotify && l.waitsForBatch then l.(worker := d, waitsForBatch := false, after := BatchOver)
    else if l.after.IdleQueued? && l.after.ticket in d.waiters.called then l.(worker := d, after := IdleTaken)
    else l.(worker := d)
  }

  /** when_shutdown_notifications_complete: queued while the batch runs, called at once otherwise. */
  function AwaitBatch(l: Loop): Loop {
    if l.worker.gate.notifying then
      l.(stop := Registered, worker := D.ApplyWhenNotified(l.worker), waitsForBatch := true)
    else l.(stop := Registered, after := BatchOver)
  }

  /** schedule_finalize_when_idle: queued while there is work, called at once otherwise. */
  function Await(l: Loop): Loop {
    var d, n := D.ApplyWhenIdle(l.worker), l.worker.waiters.count;
    l.(worker := d, after := if !l.worker.gate.attached then Refused
                             else if n in d.waiters.called then IdleTaken
                             else IdleQueued(n))
  }

  /** worker_stopping of one listener; its begin() must not find the gate sealed. */
  function NotifyListener(l: Loop, id: nat): Loop
    requires id in l.listeners
  {
    var w := l.listeners[id];
    if w.cancelled || !w.callback || w.begun || w.started then l
    else l.(gate := Begin(l.gate), listeners := l.listeners[id := w.(begun := true, holds := true)])
  }

  function CancelListener(l: Loop, id: nat): Loop
    requires id in l.listeners && (l.listeners[id].holds ==> l.gate.pending > 0)
  {
    var w := l.listeners[id];
    if w.started || w.cancelled then l
    else
      var l1 := l.(listeners := l.listeners[id := Listener(false, true, false, false, false)]);
      if w.holds then Released(l1) else l1
  }

  /** acquire_root_lease. */
  function GrantRoot(l: Loop): Loop {
    var g := Acquire(l.gate);
    if g == l.gate then l else l.(gate := g, roots := l.roots + 1)
  }

  function SealLoop(l: Loop): Loop {
    var g := Seal(l.gate);
    l.(gate := g, after := Sealed, claims := if !l.gate.finalized && g.finalized then l.claims + 1 else l.claims)
  }

  ghost function Apply(l: Loop, step: Step): Loop
    requires Inv(l) && Enabled(l, step)
  {
    match step
    case Worker(step) => Follow(l, step)
    case StopCall => l.(stop := Stop.Stopping)
    case CloseRoot => l.(stop := RootClosed, gate := l.gate.(rootClosed := true))
    case StopBegin =>
      if l.gate.sealed || l.gate.finalized then l.(stop := GaveUp)
      else l.(stop := Begun, gate := Begin(l.gate), hold := true)
    case SetFinalize => l.(stop := CallbackSet, gate := l.gate.(callback := true))
    case StopWorker => l.(stop := WorkerStopped, worker := D.ApplyBeginStop(l.worker, false))
    case RegisterNotified => AwaitBatch(l)
    case ReleaseHold => HoldCounts(l); Released(l.(hold := false, after := HoldReleased))
    case AwaitIdle => Await(l)
    case SealGate => SealLoop(l)
    case Register(id) => l.(listeners := l.listeners[id := Listener(false, false, false, true, false)])
    case Stopping(id) => NotifyListener(l, id)
    case Start(id) =>
      var w := l.listeners[id];
      if w.cancelled || !w.callback then l else l.(listeners := l.listeners[id := w.(started := true)])
    case CallbackEnds(id) =>
      HoldCounts(l);
      Released(l.(listeners := l.listeners[id := l.listeners[id].(callback := false, holds := false)]))
    case Cancel(id) => HoldCounts(l); CancelListener(l, id)
    case AcquireRoot => GrantRoot(l)
    case ReleaseRoot => HoldCounts(l); Released(l.(roots := l.roots - 1))
    case StartCleanup =>
      if l.gate.finalized then l else l.(gate := BeginCleanup(l.gate), cleanups := l.cleanups + 1)
    case EndCleanup => HoldCounts(l); Released(l.(cleanups := l.cleanups - 1))
    case Shutdown => l.(gate := CloseAdmission(l.gate), shutdown := true)
  }

  // ----- the invariant

  ghost predicate CountOk(l: Loop) {
    && l.gate.pending == (if l.hold then 1 else 0) + l.roots + l.cleanups + |Holding(l.listeners)|
    && (l.gate.finalized ==> l.gate.pending == 0)
    && (forall id :: id in l.listeners ==> ListenerOk(l.listeners[id]))
  }

  /** A listener holds the gate from when it is told until it is cancelled or its callback ended. */
  predicate ListenerOk(w: Listener) {
    && (w.holds <==> w.begun && w.callback)
    && (w.cancelled ==> !w.begun && !w.callback)
    && (w.started ==> w.begun)
    && (!w.started && !w.cancelled ==> w.callback)
  }

  /** The shutdown notification batch was opened, and is over. */
  predicate BatchComplete(g: D.Gate) {
    g.stops == 1 && !g.accepting && !g.notifying
  }

  ghost predicate ToldOk(l: Loop) {
    BatchComplete(l.worker.gate) ==> AllTold(l)
  }

  ghost predicate PhaseOk(l: Loop) {
    && (l.hold <==> l.stop in {Begun, CallbackSet, WorkerStopped, Registered} && l.after in {NotYet, BatchOver})
    && (l.gate.rootClosed <==> l.stop !in {NotStopped, Stop.Stopping} || l.shutdown)
    && (l.after != NotYet ==> l.stop == Registered)
    && (!l.shutdown ==> (l.gate.sealed <==> l.after == Sealed))
    && (!l.shutdown && l.stop in {CallbackSet, WorkerStopped, Registered} && l.claims == 0 ==> l.gate.callback)
    && (l.stop == GaveUp ==> l.shutdown)
  }

  /** Where stop() stands with the dispatcher. */
  ghost predicate WorkerOk(stop: Stop, waits: bool, after: After, g: D.Gate, w: D.Waiters) {
    && (g.attached && !g.accepting ==> g.stops == 1)
    && (stop in {WorkerStopped, Registered} ==> !g.accepting)
    && (waits ==> stop == Registered && after == NotYet && g.notifying)
    && (stop == Registered && after == NotYet ==> waits)
    && (after != NotYet ==> !g.notifying)
    && (after.IdleQueued? ==> after.ticket in w.idle)
    && (after.IdleQueued? || after == IdleTaken || after == Sealed ==> g.stops == 1)
    && (after == Refused ==> !g.attached)
  }

  ghost predicate ClaimOk(l: Loop) {
    && l.claims <= 1
    && (!l.shutdown ==> l.claims == (if l.gate.finalized then 1 else 0))
    && (l.claims == 1 ==> l.after == Sealed && l.gate.finalized)
    && (!l.shutdown && l.gate.sealed && l.gate.pending == 0 ==> l.claims == 1)
    && (l.shutdown ==> l.gate.finalized && l.gate.sealed)
  }

  ghost predicate Inv(l: Loop) {
    && CountOk(l) && PhaseOk(l) && ClaimOk(l) && ToldOk(l) && D.Inv(l.worker)
    && WorkerOk(l.stop, l.waitsForBatch, l.after, l.worker.gate, l.worker.waiters)
  }

  /** Every holder is counted, so finish() never finds a zero count. */
  lemma HoldCounts(l: Loop)
    requires Inv(l)
    ensures l.hold || l.roots > 0 || l.cleanups > 0 || Holding(l.listeners) != {} ==> l.gate.pending > 0
    ensures forall id :: id in l.listeners && l.listeners[id].holds ==> id in Holding(l.listeners) && l.gate.pending > 0
  {
    hide D.Inv, WorkerOk;
    if Holding(l.listeners) != {} {
      assert |Holding(l.listeners)| > 0;
    }
    forall id | id in l.listeners && l.listeners[id].holds ensures id in Holding(l.listeners) {}
  }

  function Initial(capacity: nat): Loop {
    Loop(Gate(0, false, false, false, false), NotStopped, false, false, NotYet, 0, 0, map[], false, 0,
         D.Initial(capacity))
  }

  lemma HoldingMoves(listeners: map<nat, Listener>, id: nat, w: Listener)
    ensures var before := id in listeners && listeners[id].holds;
      |Holding(listeners[id := w])| == |Holding(listeners)| + (if w.holds then 1 else 0) - (if before then 1 else 0)
  {
    if w.holds {
      assert Holding(listeners[id := w]) == Holding(listeners) + {id};
    } else {
      assert Holding(listeners[id := w]) == Holding(listeners) - {id};
    }
  }

  predicate OfListener(step: Step) {
    step.Register? || step.Stopping? || step.Start? || step.CallbackEnds? || step.Cancel?
  }

  predicate OfClient(step: Step) {
    step.AcquireRoot? || step.ReleaseRoot? || step.StartCleanup? || step.EndCleanup?
  }

  predicate OfWorker(step: Step) {
    step.Worker? || step.StopWorker? || step.RegisterNotified? || step.AwaitIdle?
  }

  lemma ListenerKeeps(l: Loop, step: Step)
    requires Inv(l) && Enabled(l, step) && OfListener(step)
    ensures Inv(Apply(l, step))
  {
    hide Inv, Apply, Enabled;
    match step
    case Stopping(id) => NotifiedKeeps(l, id);
    case CallbackEnds(_) => HolderKeeps(l, step);
    case Cancel(_) => HolderKeeps(l, step);
    case _ => BystanderKeeps(l, step);
  }

  lemma NotifiedKeeps(l: Loop, id: nat)
    requires Inv(l) && Enabled(l, Step.Stopping(id))
    ensures Inv(Apply(l, Step.Stopping(id)))
  {
    hide D.Inv;
    var l' := Apply(l, Step.Stopping(id));
    HoldCounts(l);
    HoldingMoves(l.listeners, id, l'.listeners[id]);
    assert l'.gate.pending == l.gate.pending || l'.gate.pending == l.gate.pending + 1;
  }

  /** A step that may end a hold. */
  lemma HolderKeeps(l: Loop, step: Step)
    requires Inv(l) && Enabled(l, step) && (step.CallbackEnds? || step.Cancel?)
    ensures Inv(Apply(l, step))
  {
    hide D.Inv;
    HoldCounts(l);
    HoldingMoves(l.listeners, step.id, Apply(l, step).listeners[step.id]);
  }

  lemma BystanderKeeps(l: Loop, step: Step)
    requires Inv(l) && Enabled(l, step) && (step.Register? || step.Start?)
    ensures Inv(Apply(l, step))
  {
    hide D.Inv, WorkerOk;
    HoldingMoves(l.listeners, step.id, Apply(l, step).listeners[step.id]);
  }

  lemma ClientKeeps(l: Loop, step: Step)
    requires Inv(l) && Enabled(l, step) && OfClient(step)
    ensures Inv(Apply(l, step))
  {
    hide D.Inv, WorkerOk;
    HoldCounts(l);
  }

  lemma SequenceKeeps(l: Loop, step: Step)
    requires Inv(l) && Enabled(l, step) && !OfListener(step) && !OfClient(step) && !OfWorker(step)
    ensures Inv(Apply(l, step))
  {
    hide D.Inv;
    HoldCounts(l);
  }

  /** What a dispatcher step does to its gate: no new batch once it has stopped accepting. */
  lemma GateMoves(d: D.State, step: D.Step)
    requires D.Inv(d) && D.Enabled(d, step)
    ensures var g, g' := d.gate, D.Apply(d, step).gate;
            && (!g.accepting ==> !g'.accepting && g'.stops == g.stops)
            && (!g.accepting && !g.notifying ==> !g'.notifying)
            && (g.notifying && step != D.FinishNotify ==> g'.notifying)
            && (step == D.FinishNotify ==> !g'.notifying)
            && (step != D.FinishNotify && BatchComplete(g') ==> BatchComplete(g))
            && (!g.attached ==> !g'.attached) && (step != D.Detach ==> g'.attached == g.attached)
            && ((g.attached && !g.accepting ==> g.stops == 1) ==> (g'.attached && !g'.accepting ==> g'.stops == 1))
  {
    hide D.NodesOk, D.ScheduleOk, D.WaitersOk, D.FatesOk, D.OrderOk, D.LossOk;
  }

  /** ... and to a queued waiter: it stays queued until it is called. */
  lemma TicketMoves(d: D.State, step: D.Step, ticket: nat)
    requires D.Enabled(d, step) && ticket in d.waiters.idle
    ensures var w := D.Apply(d, step).waiters;
            ticket in w.idle || ticket in w.called
  {
  }

  lemma QueuedIsNotCalled(d: D.State, ticket: nat)
    requires D.Inv(d)
    ensures ticket in d.waiters.idle ==> ticket !in d.waiters.called
    ensures d.waiters.count !in d.waiters.called
  {
    hide D.NodesOk, D.GateOk, D.ScheduleOk, D.FatesOk, D.OrderOk, D.LossOk;
    var w := d.waiters;
    var sum := multiset(w.idle) + multiset(w.called) + multiset(w.refused);
    assert sum[ticket] <= 1 && sum[w.count] == 0;
    assert ticket in multiset(w.idle) <==> ticket in w.idle;
    assert ticket in multiset(w.called) <==> ticket in w.called;
    assert w.count in multiset(w.called) <==> w.count in w.called;
  }

  lemma WorkerKeeps(l: Loop, step: D.Step)
    requires Inv(l) && D.Enabled(l.worker, step) && (step == D.FinishNotify ==> AllTold(l))
    ensures Inv(Follow(l, step))
  {
    hide D.Inv, D.Apply, CountOk, ClaimOk;
    D.StepKeeps(l.worker, step);
    GateMoves(l.worker, step);
    if l.after.IdleQueued? {
      TicketMoves(l.worker, step, l.after.ticket);
    }
    SameHolders(l, Follow(l, step));
  }

  /** The counts and the claim depend on the gate and the holders alone. */
  lemma SameHolders(l: Loop, l': Loop)
    requires CountOk(l) && ClaimOk(l) && l'.gate == l.gate && l'.hold == l.hold && l'.roots == l.roots
    requires l'.cleanups == l.cleanups && l'.listeners == l.listeners && l'.shutdown == l.shutdown
             && l'.claims == l.claims
    requires (l'.after == Sealed) == (l.after == Sealed)
    ensures CountOk(l') && ClaimOk(l')
  {
  }

  lemma StopWorkerKeeps(l: Loop)
    requires Inv(l) && Enabled(l, StopWorker)
    ensures Inv(Apply(l, StopWorker))
  {
    hide D.Inv, CountOk, ClaimOk;
    D.BeginStopKeeps(l.worker, false);
    GateMoves(l.worker, D.BeginStop(false));
    SameHolders(l, Apply(l, StopWorker));
  }

  lemma RegisterKeeps(l: Loop)
    requires Inv(l) && Enabled(l, RegisterNotified)
    ensures Inv(Apply(l, RegisterNotified))
  {
    hide D.Inv, CountOk, ClaimOk;
    D.StepKeeps(l.worker, D.WhenNotified);
    SameHolders(l, Apply(l, RegisterNotified));
  }

  lemma AwaitKeeps(l: Loop)
    requires Inv(l) && Enabled(l, AwaitIdle)
    ensures Inv(Apply(l, AwaitIdle))
  {
    hide D.Inv, CountOk, ClaimOk;
    D.WhenIdleKeeps(l.worker);
    QueuedIsNotCalled(l.worker, 0);
    SameHolders(l, Apply(l, AwaitIdle));
  }

  lemma StepKeeps(l: Loop, step: Step)
    requires Inv(l) && Enabled(l, step)
    ensures Inv(Apply(l, step))
  {
    hide Inv, D.Inv;
    if OfListener(step) {
      ListenerKeeps(l, step);
    } else if OfClient(step) {
      ClientKeeps(l, step);
    } else if OfWorker(step) {
      match step
      case Worker(step) => WorkerKeeps(l, step);
      case StopWorker => StopWorkerKeeps(l);
      case RegisterNotified => RegisterKeeps(l);
      case _ => AwaitKeeps(l);
    } else {
      SequenceKeeps(l, step);
    }
  }

  // ----- whole runs

  /** Any interleaving: steps that are not possible when their turn comes do nothing. */
  ghost function Run(l: Loop, steps: seq<Step>): Loop
    requires Inv(l)
    ensures Inv(Run(l, steps))
    decreases |steps|
  {
    if steps == [] then l
    else if Enabled(l, steps[0]) then StepKeeps(l, steps[0]); Run(Apply(l, steps[0]), steps[1..])
    else Run(l, steps[1..])
  }

  lemma InitialHolds(capacity: nat)
    requires capacity > 0
    ensures Inv(Initial(capacity))
  {
    D.InitialHolds(capacity);
    assert Holding(map[]) == {};
  }

  lemma {:induction false} RunOneMore(l: Loop, steps: seq<Step>, step: Step)
    requires Inv(l)
    ensures var m := Run(l, steps);
            Run(l, steps + [step]) == if Enabled(m, step) then Apply(m, step) else m
    decreases |steps|
  {
    hide Inv, Apply, Enabled;
    if steps == [] {
      assert [] + [step] == [step] && [step][1..] == [];
    } else {
      assert (steps + [step])[1..] == steps[1..] + [step];
      if Enabled(l, steps[0]) {
        StepKeeps(l, steps[0]);
        RunOneMore(Apply(l, steps[0]), steps[1..], step);
      } else {
        RunOneMore(l, steps[1..], step);
      }
    }
  }

  predicate Called(l: Loop) {
    l.after == IdleTaken || l.after == Sealed
  }

  predicate IdleAfterBatch(d: D.State) {
    D.NoWork(d.slab) && d.slab.free == 2 * d.slab.capacity && BatchComplete(d.gate)
  }

  lemma CalledByWorker(l: Loop, step: D.Step)
    requires Inv(l) && Enabled(l, Worker(step)) && !Called(l) && Called(Follow(l, step))
    ensures IdleAfterBatch(Follow(l, step).worker)
  {
    hide CountOk, ClaimOk, D.Inv, D.Apply, D.Enabled;
    WorkerKeeps(l, step);
    QueuedIsNotCalled(l.worker, l.after.ticket);
    D.CallersSawZero(l.worker, step);
    D.NothingHeld(Follow(l, step).worker, 0);
  }

  lemma CalledByAwait(l: Loop)
    requires Inv(l) && Enabled(l, AwaitIdle) && Called(Await(l))
    ensures IdleAfterBatch(Await(l).worker)
  {
    hide CountOk, ClaimOk, D.Inv;
    AwaitKeeps(l);
    QueuedIsNotCalled(l.worker, 0);
    D.CallersSawZero(l.worker, D.WhenIdle);
    D.NothingHeld(Await(l).worker, 0);
  }

  /** The step that calls the loop's idle callback leaves the dispatcher without work, after its batch. */
  lemma CalledWhenIdle(l: Loop, step: Step)
    requires Inv(l) && Enabled(l, step) && !Called(l) && Called(Apply(l, step))
    ensures IdleAfterBatch(Apply(l, step).worker)
  {
    hide CountOk, ClaimOk, PhaseOk, D.Inv, WorkerOk, Follow, Await, IdleAfterBatch;
    if step.Worker? {
      CalledByWorker(l, step.step);
    } else {
      CalledByAwait(l);
    }
  }

  /** At some point of the run so far the dispatcher had completed its notification batch and had no work: no node was
      reserved, ready, running or still to be released. */
  ghost predicate WasIdleAfterBatch(capacity: nat, steps: seq<Step>)
    requires capacity > 0
  {
    InitialHolds(capacity);
    exists k :: 0 <= k <= |steps|
      && var d := Run(Initial(capacity), steps[..k]).worker;
         IdleAfterBatch(d)
  }

  lemma {:induction false} SealFollowsIdle(capacity: nat, steps: seq<Step>)
    requires capacity > 0 && Inv(Initial(capacity)) && Called(Run(Initial(capacity), steps))
    ensures WasIdleAfterBatch(capacity, steps)
    decreases |steps|
  {
    hide Inv, Apply, Enabled;
    var l := Initial(capacity);
    if steps != [] {
      var n := |steps| - 1;
      var before := Run(l, steps[..n]);
      assert steps[..n] + [steps[n]] == steps;
      RunOneMore(l, steps[..n], steps[n]);
      if Called(before) {
        SealFollowsIdle(capacity, steps[..n]);
        var k :| 0 <= k <= n
          && var d := Run(l, steps[..n][..k]).worker;
             IdleAfterBatch(d);
        assert steps[..n][..k] == steps[..k];
      } else {
        CalledWhenIdle(before, steps[n]);
        assert steps[..|steps|] == steps;
      }
    }
  }

  /** The finalize callback is taken at most once; when it is, the gate is sealed with nothing pending, the notification
      batch is complete, and at some point before it, with the batch complete, the dispatcher had no work at all. */
  lemma RetiresOnce(capacity: nat, steps: seq<Step>)
    requires capacity > 0
    ensures Inv(Initial(capacity))
    ensures var l := Run(Initial(capacity), steps);
      && l.claims <= 1
      && (l.claims == 1 ==>
            && l.gate.sealed && l.gate.pending == 0
            && l.roots == 0 && l.cleanups == 0 && Holding(l.listeners) == {}
            && BatchComplete(l.worker.gate) && WasIdleAfterBatch(capacity, steps))
  {
    hide D.Inv;
    InitialHolds(capacity);
    var l := Run(Initial(capacity), steps);
    HoldCounts(l);
    if l.claims == 1 {
      SealFollowsIdle(capacity, steps);
    }
  }

  lemma NoRootInStep(l: Loop, step: Step)
    requires Inv(l) && Enabled(l, step) && l.gate.rootClosed
    ensures Apply(l, step).gate.rootClosed && Apply(l, step).roots <= l.roots
  {
    hide Inv, Apply, Enabled;
    HoldCounts(l);
    if OfWorker(step) {
      WorkerKeepsRoots(l, step);
    } else if OfListener(step) {
      ListenerKeepsRoots(l, step);
    } else {
      OthersKeepRoots(l, step);
    }
  }

  lemma WorkerKeepsRoots(l: Loop, step: Step)
    requires Inv(l) && Enabled(l, step) && OfWorker(step)
    ensures Apply(l, step).gate == l.gate && Apply(l, step).roots == l.roots
  {
    hide Inv, D.Apply, D.Enabled;
  }

  lemma ListenerKeepsRoots(l: Loop, step: Step)
    requires Inv(l) && Enabled(l, step) && OfListener(step) && l.gate.rootClosed
    ensures Apply(l, step).gate.rootClosed && Apply(l, step).roots == l.roots
  {
    hide Inv;
    HoldCounts(l);
  }

  lemma OthersKeepRoots(l: Loop, step: Step)
    requires Inv(l) && Enabled(l, step) && !OfWorker(step) && !OfListener(step) && l.gate.rootClosed
    ensures Apply(l, step).gate.rootClosed && Apply(l, step).roots <= l.roots
  {
    hide Inv;
    HoldCounts(l);
  }

  /** No root lease is granted once stop() has closed root admission: from then on their number never grows. */
  lemma {:induction false} NoRootAfterClose(l: Loop, steps: seq<Step>)
    requires Inv(l) && l.gate.rootClosed
    ensures Run(l, steps).gate.rootClosed && Run(l, steps).roots <= l.roots
    decreases |steps|
  {
    hide Inv, Apply, Enabled;
    if steps != [] {
      if Enabled(l, steps[0]) {
        StepKeeps(l, steps[0]);
        NoRootInStep(l, steps[0]);
        NoRootAfterClose(Apply(l, steps[0]), steps[1..]);
      } else {
        NoRootAfterClose(l, steps[1..]);
      }
    }
  }

  ghost predicate CleanupFirst(l: Loop)
    requires Inv(l)
  {
    && (!l.shutdown && l.claims == 0 ==> Apply(l, StartCleanup).cleanups == l.cleanups + 1)
    && (l.cleanups > 0 ==> l.claims == 0)
  }

  /** Cleanup is admitted until the moment of the claim, sealed gate or not, and delays it. */
  lemma CleanupDelaysRetirement(capacity: nat, steps: seq<Step>)
    requires capacity > 0
    ensures Inv(Initial(capacity))
    ensures CleanupFirst(Run(Initial(capacity), steps))
  {
    hide Inv, CleanupFirst;
    InitialHolds(capacity);
    CleanupComesFirst(Run(Initial(capacity), steps));
  }

  lemma CleanupComesFirst(l: Loop)
    requires Inv(l)
    ensures CleanupFirst(l)
  {
    hide D.Inv, WorkerOk;
    HoldCounts(l);
  }

  /** A listener told of the stop finds the gate open: its begin() never terminates the process. */
  lemma ListenersFindGateOpen(capacity: nat, steps: seq<Step>, id: nat)
    requires capacity > 0
    ensures Inv(Initial(capacity))
    ensures FindsGateOpen(Run(Initial(capacity), steps), id)
  {
    hide Inv, FindsGateOpen;
    InitialHolds(capacity);
    GateIsOpen(Run(Initial(capacity), steps), id);
  }

  ghost predicate FindsGateOpen(l: Loop, id: nat) {
    Enabled(l, Step.Stopping(id)) ==> !l.gate.sealed && !l.gate.finalized
  }

  lemma GateIsOpen(l: Loop, id: nat)
    requires Inv(l)
    ensures FindsGateOpen(l, id)
  {
    hide D.Inv;
  }

  /** The retirement is not lost: whatever stop() waits for can still happen, and once the gate
      is sealed and every holder done, the callback has been taken. A queued idle waiter means
      that the dispatcher is not quiet: some claim, batch, abandon loop, drain or owed section
      is under way. */
  lemma RetirementIsNotLost(capacity: nat, steps: seq<Step>)
    requires capacity > 0
    ensures Inv(Initial(capacity))
    ensures StillGoing(Run(Initial(capacity), steps))
  {
    hide Inv, StillGoing;
    InitialHolds(capacity);
    StopGoesOn(Run(Initial(capacity), steps));
  }

  ghost predicate StillGoing(l: Loop) {
    && (l.after == Sealed && !l.shutdown && l.roots == 0 && l.cleanups == 0 && Holding(l.listeners) == {} ==>
        l.claims == 1)
    && (l.stop == Registered && !l.shutdown && l.claims == 0 ==> l.gate.callback)
    && (l.stop == Registered ==>
          match l.after
          case NotYet =>
            Enabled(l, Worker(D.FinishNotify)) || exists id :: Untold(l, id) && Enabled(l, Step.Stopping(id))
          case BatchOver => Enabled(l, ReleaseHold)
          case HoldReleased => Enabled(l, AwaitIdle)
          case IdleQueued(_) => !D.Quiet(l.worker)
          case IdleTaken => Enabled(l, SealGate)
          case Sealed => true
          case Refused => !l.worker.gate.attached)
  }

  predicate Untold(l: Loop, id: nat) {
    id in l.listeners && !l.listeners[id].begun && !l.listeners[id].cancelled
  }

  lemma SomebodyIsUntold(l: Loop) returns (id: nat)
    requires !AllTold(l) && l.worker.gate.notifying
    ensures Untold(l, id) && Enabled(l, Step.Stopping(id))
  {
    id :| id in l.listeners && !(l.listeners[id].begun || l.listeners[id].cancelled);
  }

  /** The stop reaches every listener: once the batch is complete, on a context that is not shut down, each one was
      told or had been cancelled, and one that was told holds the gate until its callback has ended. */
  lemma EveryListenerIsTold(capacity: nat, steps: seq<Step>, id: nat)
    requires capacity > 0
    ensures Inv(Initial(capacity))
    ensures ToldAndHeld(Run(Initial(capacity), steps), id)
  {
    hide Inv, ToldAndHeld;
    InitialHolds(capacity);
    ToldByInv(Run(Initial(capacity), steps), id);
  }

  ghost predicate ToldAndHeld(l: Loop, id: nat) {
    id in l.listeners && !l.listeners[id].cancelled ==>
      && (BatchComplete(l.worker.gate) && !l.shutdown ==> l.listeners[id].begun)
      && (l.listeners[id].begun && l.listeners[id].callback ==> l.gate.pending > 0 && l.claims == 0)
      && (l.listeners[id].begun && !l.listeners[id].callback ==> l.listeners[id].started)
  }

  lemma ToldByInv(l: Loop, id: nat)
    requires Inv(l)
    ensures ToldAndHeld(l, id)
  {
    hide D.Inv, WorkerOk;
    HoldCounts(l);
  }

  /** What is told begins, and what has begun can start. */
  lemma ListenersMoveOn(l: Loop, id: nat)
    requires Inv(l) && id in l.listeners
    ensures Enabled(l, Step.Stopping(id)) && Untold(l, id) ==>
              Apply(l, Step.Stopping(id)).listeners[id] == Listener(true, false, false, true, true)
    ensures l.listeners[id].begun && !l.listeners[id].started ==>
              Enabled(l, Start(id)) && Apply(l, Start(id)).listeners[id] == l.listeners[id].(started := true)
  {
    hide D.Inv, WorkerOk, PhaseOk, ClaimOk;
  }

  /** What has started goes on to its end, and only that ends its hold; what was cancelled stays so. */
  lemma ListenersStay(l: Loop, id: nat, step: Step)
    requires Inv(l) && id in l.listeners && Enabled(l, step)
    ensures l.listeners[id].started && step != CallbackEnds(id) ==>
              id in Apply(l, step).listeners && Apply(l, step).listeners[id] == l.listeners[id]
    ensures l.listeners[id].cancelled ==>
              id in Apply(l, step).listeners && Apply(l, step).listeners[id] == l.listeners[id]
  {
    hide D.Inv, D.Apply, D.Enabled, WorkerOk, PhaseOk, ClaimOk;
  }

  lemma StopGoesOn(l: Loop)
    requires Inv(l)
    ensures StillGoing(l)
  {
    hide D.Inv, D.Quiet;
    if l.worker.gate.notifying && !AllTold(l) {
      var id := SomebodyIsUntold(l);
    }
    if D.Quiet(l.worker) {
      QuietHasNoWaiters(l.worker);
    }
  }

  lemma QuietHasNoWaiters(d: D.State)
    requires D.Inv(d) && D.Quiet(d)
    ensures d.waiters.idle == []
  {
    hide D.FatesOk, D.OrderOk, D.LossOk;
  }
}
