/** An event loop attached to a caller's context, as one machine: the retirement of LoopRetirement, with its
    dispatcher, and the stop chain of WorkerStopChain, tied together as event_loop_state does it
    (ruvia-core/src/event_loop.cpp). stop() requests the chain, the retired loop finalizes it, and the chain's
    finalize_ detaches the worker. */
module AttachedLoop {
  import C = WorkerStopChain
  import D = DispatcherSteps
  import L = LoopRetirement

  datatype State = State(
    loop: L.Loop,
    chain: C.State,
    asked: bool,                // stop() has called request_stop
    deferred: nat)              // finalize_stop handlers on the io_context

  datatype Step =
    | OfLoop(loopStep: L.Step)
    | OfChain(chainStep: C.Step)
    | AskChain                  // stop() enters the chain's request_stop
    | CloseWorker               // request_stop closes the dispatcher
    | RegisterChain             // ... and waits for the notification batch
    | BatchEnds                 // whose end calls back both the chain and the loop
    | RunDeferred               // finalize_stop
    | RunFinalize               // the finalize_ hook
    | Shutdown                  // the context is destroyed under the loop

  /** What the loop does without the chain. A worker is detached by the finalize_ hook or by a shutdown. */
  predicate LoopAlone(s: State, step: L.Step) {
    && step != L.StopWorker && step != L.Step.Shutdown && step != L.Worker(D.FinishNotify)
    && (step == L.Worker(D.Detach) ==> s.loop.shutdown)
    // stop() goes on when request_stop has returned
    && (step == L.RegisterNotified ==> !s.chain.request.Closing?)
  }

  /** What the chain does without the loop. Its stop_admission_ hook calls stop() again, which then does nothing; no
      control runs on a context that is shut down. */
  predicate ChainAlone(s: State, step: C.Step) {
    match step
    case EnterPost => true
    case PostSection => true
    case RequestSection(_) => true
    case FinalizeSection => true
    case RunControl => !s.loop.shutdown
    case StopAdmission(hook) => hook
    case AdmissionDone => true
    case Decide => true
    case ReleaseGuard => true
    case AbandonSection => true
    case _ => false
  }

  /** No handler of the context is at work in the chain. */
  predicate NoHandler(c: C.State) {
    c.control == C.NoControl && c.calls.finalize == 0 && c.calls.section == 0
  }

  predicate Enabled(s: State, step: Step) {
    match step
    case OfLoop(step) => LoopAlone(s, step) && L.Enabled(s.loop, step)
    case OfChain(step) => ChainAlone(s, step) && C.Enabled(s.chain, step)
    case AskChain => s.loop.stop == L.CallbackSet && !s.asked
    case CloseWorker => s.loop.stop == L.CallbackSet && s.chain.request.Closing?
    case RegisterChain => s.loop.stop == L.WorkerStopped && s.chain.request.Closing?
    case BatchEnds => s.loop.worker.gate.notifying && L.AllTold(s.loop)
    case RunDeferred => s.deferred > 0 && !s.loop.shutdown
    case RunFinalize => C.Enabled(s.chain, C.RunFinalize)
    // the finalize_ hook ends the context's hold on the state
    case Shutdown => L.Enabled(s.loop, L.Step.Shutdown) && NoHandler(s.chain) && !C.Gone(s.chain)
  }

  /** defer_finalize_stop, if the step took the loop's finalize callback. */
  ghost function Moved(s: State, loop: L.Loop): State {
    var claimed := loop.claims > s.loop.claims && loop.worker.gate.attached;
    s.(loop := loop, deferred := if claimed then s.deferred + 1 else s.deferred)
  }

  ghost function EndBatch(s: State): State
    requires L.Inv(s.loop) && s.loop.worker.gate.notifying
  {
    s.(loop := L.Follow(s.loop, D.FinishNotify),
       chain := if C.Enabled(s.chain, C.BatchCompletes) then C.Apply(s.chain, C.BatchCompletes) else s.chain)
  }

  ghost function Apply(s: State, step: Step): State
    requires Inv(s) && Enabled(s, step)
  {
    match step
    case OfLoop(step) => Moved(s, L.Apply(s.loop, step))
    case OfChain(step) => s.(chain := C.Apply(s.chain, step))
    case AskChain => s.(chain := C.Apply(s.chain, C.EnterRequest), asked := true)
    case CloseWorker => s.(loop := L.Apply(s.loop, L.StopWorker))
    case RegisterChain => s.(chain := C.Apply(s.chain, C.RegisterForBatch(s.loop.worker.gate.notifying)))
    case BatchEnds => EndBatch(s)
    case RunDeferred => s.(deferred := s.deferred - 1, chain := C.Apply(s.chain, C.EnterFinalize))
    case RunFinalize =>
      s.(loop := L.Follow(s.loop, D.Detach), chain := C.Apply(s.chain, C.RunFinalize))
    case Shutdown =>
      s.(loop := L.Apply(s.loop, L.Step.Shutdown), chain := C.Apply(s.chain, C.EnterAbandon))
  }

  // ----- how the two hang together

  /** How far stop() and the chain's request have come together. */
  ghost predicate RequestOk(stop: L.Stop, asked: bool, c: C.State, notifying: bool) {
    && !(c.request == C.Closing(true))
    && (asked ==> stop in {L.CallbackSet, L.WorkerStopped, L.Registered})
    && (stop in {L.WorkerStopped, L.Registered} ==> asked && c.request != C.NotRequested)
    && (c.request != C.NotRequested ==> asked)
    && c.calls.request == (if asked && c.request == C.NotRequested then 1 else 0)
    && (stop == L.CallbackSet ==> c.request == C.NotRequested || c.request.Closing?)
    && (stop == L.Registered ==> !c.request.Closing?)
    && (c.request == C.AwaitingBatch ==> notifying)
  }

  function Once(b: bool): nat {
    if b then 1 else 0
  }

  /** Each claim of the loop's callback is one call of finalize(), under way or done. */
  ghost predicate FinalizeOk(claims: nat, deferred: nat, c: C.State) {
    claims == deferred + c.calls.finalize + c.calls.section + Once(c.chain.finalizationRequested)
  }

  ghost predicate EndOk(shutdown: bool, attached: bool, c: C.State) {
    && (c.abandoned || c.calls.abandon > 0 ==> shutdown)
    && (shutdown ==> NoHandler(c) && !C.Gone(c))
    && (!attached ==> shutdown || C.Gone(c))
    && (C.Gone(c) ==> !attached)
  }

  ghost predicate Link(s: State) {
    && RequestOk(s.loop.stop, s.asked, s.chain, s.loop.worker.gate.notifying)
    && FinalizeOk(s.loop.claims, s.deferred, s.chain)
    && EndOk(s.loop.shutdown, s.loop.worker.gate.attached, s.chain)
  }

  ghost predicate Inv(s: State) {
    L.Inv(s.loop) && C.Inv(s.chain) && Link(s)
  }

  ghost function Initial(capacity: nat): State {
    State(L.Initial(capacity), C.INITIAL, false, 0)
  }

  lemma InitialHolds(capacity: nat)
    requires capacity > 0
    ensures Inv(Initial(capacity))
  {
    hide L.Inv;
    L.InitialHolds(capacity);
  }

  // ----- what one step of either side means to the other

  lemma LoopFacts(l: L.Loop)
    requires L.Inv(l)
    ensures l.claims <= 1 && (l.claims == 1 ==> l.stop == L.Registered && l.after == L.Sealed && l.gate.finalized)
    ensures l.stop in {L.Begun, L.CallbackSet, L.WorkerStopped} ==> l.gate.pending > 0
    ensures l.after == L.Refused ==> !l.worker.gate.attached
    ensures l.shutdown ==> l.gate.finalized && l.gate.pending == 0
    ensures l.stop == L.Registered && l.worker.gate.notifying ==> l.gate.pending > 0
  {
    hide D.Inv;
    L.HoldCounts(l);
  }

  lemma WorkerMoves(l: L.Loop, step: D.Step)
    requires L.Inv(l) && D.Enabled(l.worker, step)
    ensures var m := L.Follow(l, step);
            && m.stop == l.stop && m.shutdown == l.shutdown && m.claims == l.claims
            && (l.worker.gate.notifying ==> m.worker.gate.notifying == (step != D.FinishNotify))
            && (step != D.Detach ==> m.worker.gate.attached == l.worker.gate.attached)
  {
    hide D.Inv, D.Apply, D.Enabled, L.CountOk, L.ClaimOk, L.PhaseOk, L.WorkerOk;
    L.GateMoves(l.worker, step);
  }

  /** The loop's own steps leave the dispatcher's gate alone and move stop() on by one. */
  lemma LoopMoves(l: L.Loop, step: L.Step)
    requires L.Inv(l) && L.Enabled(l, step) && !step.Worker? && step != L.StopWorker && step != L.Step.Shutdown
    ensures var m := L.Apply(l, step);
            && m.worker.gate == l.worker.gate && m.shutdown == l.shutdown && l.claims <= m.claims
            && (l.gate.finalized ==> m.claims == l.claims)
            && (m.stop == l.stop
                || (m.stop in {L.Stop.Stopping, L.RootClosed, L.Begun, L.GaveUp}
                    && l.stop in {L.NotStopped, L.Stop.Stopping, L.RootClosed})
                || (l.stop == L.Begun && m.stop == L.CallbackSet)
                || (l.stop == L.WorkerStopped && m.stop == L.Registered && step == L.RegisterNotified))
  {
    hide D.Inv, L.WorkerOk, L.PhaseOk, L.ClaimOk;
    L.HoldCounts(l);
  }

  // ----- each step keeps the link

  lemma LoopKeeps(s: State, step: L.Step)
    requires Inv(s) && Enabled(s, OfLoop(step))
    ensures Link(Apply(s, OfLoop(step)))
  {
    hide L.Inv, C.Inv, L.Apply, L.Enabled;
    LoopFacts(s.loop);
    L.StepKeeps(s.loop, step);
    LoopFacts(L.Apply(s.loop, step));
    if step.Worker? {
      WorkerStep(s.loop, step);
      WorkerMoves(s.loop, step.step);
    } else {
      LoopMoves(s.loop, step);
    }
    GoneIsFinalized(s.chain);
  }

  lemma WorkerStep(l: L.Loop, step: L.Step)
    requires L.Inv(l) && L.Enabled(l, step)
    ensures step.Worker? ==> D.Enabled(l.worker, step.step) && L.Apply(l, step) == L.Follow(l, step.step)
  {
    hide L.Inv, D.Enabled, D.Apply;
  }

  /** finalize_ runs only when finalize() was called, and the chain's records agree with its flags. */
  lemma GoneIsFinalized(c: C.State)
    requires C.Inv(c)
    ensures C.Gone(c) ==> c.chain.finalizationRequested
    ensures c.control == C.Finalizing || c.control == C.Releasing ==> c.chain.finalizationRequested && !c.abandoned
    ensures !c.abandoned ==> (c.request == C.NotRequested <==> !c.chain.stopRequested)
  {
    C.CountIn(c.events);
  }

  lemma ChainKeeps(s: State, step: C.Step)
    requires Inv(s) && Enabled(s, OfChain(step))
    ensures Link(Apply(s, OfChain(step)))
  {
    hide L.Inv, C.Inv;
    LoopFacts(s.loop);
    GoneIsFinalized(s.chain);
    match step
    case RequestSection(finalizes) => assert finalizes ==> s.chain.chain.stopRequested;
    case FinalizeSection => assert !s.chain.chain.finalizationRequested;
    case _ =>
  }

  lemma TogetherKeeps(s: State, step: Step)
    requires Inv(s) && Enabled(s, step) && !step.OfLoop? && !step.OfChain?
    ensures Link(Apply(s, step))
  {
    hide L.Inv, C.Inv, D.Apply;
    LoopFacts(s.loop);
    GoneIsFinalized(s.chain);
    match step
    case CloseWorker => CloseMoves(s.loop);
    case BatchEnds => BatchEndKeeps(s);
    case RunFinalize => FinalizeKeeps(s);
    case _ =>
  }

  lemma FinalizeKeeps(s: State)
    requires Inv(s) && Enabled(s, RunFinalize)
    ensures Link(Apply(s, RunFinalize))
  {
    hide L.Inv, C.Inv, D.Apply;
    LoopFacts(s.loop);
    GoneIsFinalized(s.chain);
    WorkerMoves(s.loop, D.Detach);
    Detaches(s.loop.worker);
  }

  lemma Detaches(d: D.State)
    ensures !D.Apply(d, D.Detach).gate.attached
  {
  }

  lemma BatchEndKeeps(s: State)
    requires Inv(s) && Enabled(s, BatchEnds)
    ensures Link(Apply(s, BatchEnds))
  {
    hide L.Inv, C.Inv, L.Apply, D.Apply;
    LoopFacts(s.loop);
    WorkerMoves(s.loop, D.FinishNotify);
    assert s.chain.request == C.AwaitingBatch ==> !s.chain.abandoned;
    assert s.chain.request != C.AwaitingBatch ==> Apply(s, BatchEnds).chain == s.chain;
  }

  lemma CloseMoves(l: L.Loop)
    requires L.Inv(l) && L.Enabled(l, L.StopWorker)
    ensures var m := L.Apply(l, L.StopWorker);
            && m.stop == L.WorkerStopped && m.shutdown == l.shutdown && m.claims == l.claims
            && m.worker.gate.attached == l.worker.gate.attached
            && (l.worker.gate.notifying ==> m.worker.gate.notifying)
  {
    hide L.Inv;
  }

  lemma StepKeeps(s: State, step: Step)
    requires Inv(s) && Enabled(s, step)
    ensures Inv(Apply(s, step))
  {
    hide L.Inv, C.Inv, Link, C.Apply, L.Apply, L.Enabled;
    match step
    case OfLoop(loopStep) => LoopKeeps(s, loopStep); L.StepKeeps(s.loop, loopStep);
    case OfChain(chainStep) => ChainKeeps(s, chainStep); C.StepKeeps(s.chain, chainStep);
    case _ => TogetherKeeps(s, step); SidesKeep(s, step);
  }

  lemma SidesKeep(s: State, step: Step)
    requires Inv(s) && Enabled(s, step) && !step.OfLoop? && !step.OfChain?
    ensures L.Inv(Apply(s, step).loop) && C.Inv(Apply(s, step).chain)
  {
    hide L.Inv, C.Inv, Link, C.Apply, L.Apply;
    match step
    case AskChain => C.StepKeeps(s.chain, C.EnterRequest);
    case CloseWorker => L.StepKeeps(s.loop, L.StopWorker);
    case RegisterChain => C.StepKeeps(s.chain, C.RegisterForBatch(s.loop.worker.gate.notifying));
    case BatchEnds =>
      L.WorkerKeeps(s.loop, D.FinishNotify);
      if C.Enabled(s.chain, C.BatchCompletes) { C.StepKeeps(s.chain, C.BatchCompletes); }
    case RunDeferred => C.StepKeeps(s.chain, C.EnterFinalize);
    case RunFinalize => L.WorkerKeeps(s.loop, D.Detach); C.StepKeeps(s.chain, C.RunFinalize);
    case Shutdown => L.StepKeeps(s.loop, L.Step.Shutdown); C.StepKeeps(s.chain, C.EnterAbandon);
  }

  // ----- whole runs

  /** Any interleaving: steps that are not possible when their turn comes do nothing. */
  ghost function Run(s: State, steps: seq<Step>): State
    requires Inv(s)
    ensures Inv(Run(s, steps))
    decreases |steps|
  {
    if steps == [] then s
    else if Enabled(s, steps[0]) then StepKeeps(s, steps[0]); Run(Apply(s, steps[0]), steps[1..])
    else Run(s, steps[1..])
  }

  ghost predicate FinalizedRightly(s: State) {
    var l, c := s.loop, s.chain;
    && C.Count(c.events, C.FinalizeRan) <= 1 && C.Count(c.events, C.GuardReleased) <= 1
    && (C.Gone(c) ==>
          && l.claims == 1 && l.gate.sealed && l.gate.pending == 0 && !l.shutdown
          && l.roots == 0 && l.cleanups == 0 && L.Holding(l.listeners) == {} && L.BatchComplete(l.worker.gate))
  }

  /** finalize_ runs at most once, only for a loop that has retired, and never on a context that is shut down; the work
      guard is released at most once. */
  lemma FinalizesWhenRetired(capacity: nat, steps: seq<Step>)
    requires capacity > 0
    ensures Inv(Initial(capacity))
    ensures FinalizedRightly(Run(Initial(capacity), steps))
  {
    hide Inv, FinalizedRightly;
    InitialHolds(capacity);
    FinalizedByInv(Run(Initial(capacity), steps));
  }

  lemma FinalizedByInv(s: State)
    requires Inv(s)
    ensures FinalizedRightly(s)
  {
    hide L.Inv, C.Inv;
    OnceEach(s.chain);
    GoneIsFinalized(s.chain);
    LoopFacts(s.loop);
    if C.Gone(s.chain) {
      RetiredLoop(s.loop);
    }
  }

  lemma OnceEach(c: C.State)
    requires C.Inv(c)
    ensures C.Count(c.events, C.FinalizeRan) <= 1 && C.Count(c.events, C.GuardReleased) <= 1
  {
  }

  lemma RetiredLoop(l: L.Loop)
    requires L.Inv(l) && l.claims == 1
    ensures l.gate.sealed && l.gate.pending == 0 && l.roots == 0 && l.cleanups == 0 && L.Holding(l.listeners) == {}
    ensures L.BatchComplete(l.worker.gate)
  {
    hide D.Inv;
    L.HoldCounts(l);
  }

  /** The steps that stop(), the handlers and the calls already made take by themselves. */
  predicate GoesOn(step: Step) {
    match step
    case OfLoop(step) =>
      step in {L.CloseRoot, L.StopBegin, L.SetFinalize, L.RegisterNotified, L.ReleaseHold, L.AwaitIdle, L.SealGate}
      || step.Stopping?
    case OfChain(step) => step != C.EnterPost
    case Shutdown => false
    case _ => true
  }

  /** Nothing is under way: the dispatcher is quiet, and no call or handler has a step left. */
  ghost predicate AtRest(s: State) {
    D.Quiet(s.loop.worker) && forall step :: GoesOn(step) ==> !Enabled(s, step)
  }

  /** stop() has returned, and no notification batch is open. */
  lemma StopIsThrough(s: State)
    requires Inv(s) && AtRest(s) && s.loop.stop != L.NotStopped && !s.loop.shutdown
    ensures s.loop.stop == L.Registered && !s.loop.worker.gate.notifying
    ensures s.deferred == 0 && s.loop.after !in {L.BatchOver, L.HoldReleased, L.IdleTaken}
  {
    hide L.Inv, C.Inv, D.Quiet, AtRest;
    NotGivenUp(s.loop);
    CannotGoOn(s, RunDeferred);
    CannotGoOn(s, BatchEnds);
    BatchGoesOn(s);
    CannotGoOn(s, OfLoop(L.ReleaseHold));
    CannotGoOn(s, OfLoop(L.AwaitIdle));
    CannotGoOn(s, OfLoop(L.SealGate));
    match s.loop.stop
    case Stopping => CannotGoOn(s, OfLoop(L.CloseRoot));
    case RootClosed => CannotGoOn(s, OfLoop(L.StopBegin));
    case Begun => CannotGoOn(s, OfLoop(L.SetFinalize));
    case CallbackSet => RequestGoesOn(s);
    case WorkerStopped => CannotGoOn(s, RegisterChain); CannotGoOn(s, OfLoop(L.RegisterNotified));
    case _ =>
  }

  /** While the batch is open a listener can be told, or the batch can end. */
  lemma BatchGoesOn(s: State)
    requires AtRest(s) && !s.loop.shutdown
    ensures !s.loop.worker.gate.notifying
  {
    hide AtRest;
    CannotGoOn(s, BatchEnds);
    if s.loop.worker.gate.notifying {
      var id := L.SomebodyIsUntold(s.loop);
      CannotGoOn(s, OfLoop(L.Step.Stopping(id)));
    }
  }

  lemma CannotGoOn(s: State, step: Step)
    requires AtRest(s) && GoesOn(step)
    ensures !Enabled(s, step)
  {
    hide Enabled, D.Quiet;
  }

  /** Between the callback and the end of request_stop something of it is always enabled. */
  lemma RequestGoesOn(s: State)
    requires Inv(s) && s.loop.stop == L.CallbackSet
    ensures !AtRest(s)
  {
    hide L.Inv, C.Inv, D.Quiet, AtRest;
    if AtRest(s) {
      CannotGoOn(s, AskChain);
      CannotGoOn(s, CloseWorker);
      CannotGoOn(s, OfChain(C.RequestSection(false)));
    }
  }

  lemma NotGivenUp(l: L.Loop)
    requires L.Inv(l)
    ensures l.stop == L.GaveUp ==> l.shutdown
  {
    hide D.Inv;
  }

  /** So the loop has retired and called finalize(), which is through. */
  lemma LoopIsRetired(s: State)
    requires Inv(s) && AtRest(s) && s.loop.stop == L.Registered && !s.loop.worker.gate.notifying && !s.loop.shutdown
    requires s.loop.roots == 0 && s.loop.cleanups == 0 && L.Holding(s.loop.listeners) == {}
    requires s.deferred == 0 && s.loop.after !in {L.BatchOver, L.HoldReleased, L.IdleTaken}
    ensures s.loop.claims == 1 && s.chain.chain.finalizationRequested
    ensures s.chain.calls.finalize == 0 && s.chain.calls.section == 0
  {
    hide L.Inv, C.Inv, D.Quiet, L.Enabled;
    assert !Enabled(s, OfChain(C.RequestSection(true))) && !Enabled(s, OfChain(C.FinalizeSection));
    L.StopGoesOn(s.loop);
    if s.loop.after == L.NotYet { NotifyingOrQueued(s.loop); }
    LoopFacts(s.loop);
    GoneIsFinalized(s.chain);
  }

  lemma NotifyingOrQueued(l: L.Loop)
    requires L.Inv(l) && l.stop == L.Registered && l.after == L.NotYet
    ensures l.worker.gate.notifying
  {
    hide D.Inv;
  }

  /** ... and the chain has finished what it then owed. */
  lemma ChainIsThrough(s: State)
    requires Inv(s) && AtRest(s) && s.chain.chain.finalizationRequested && s.loop.stop == L.Registered
    requires !s.loop.worker.gate.notifying && !s.loop.shutdown
    ensures var c := s.chain; c.chain.workReleased && c.control == C.NoControl && !c.abandoned && C.Inv(c)
  {
    hide L.Inv, D.Quiet;
    assert !Enabled(s, OfChain(C.RunControl)) && !Enabled(s, OfChain(C.StopAdmission(true)));
    assert !Enabled(s, OfChain(C.AdmissionDone)) && !Enabled(s, OfChain(C.Decide));
    assert !Enabled(s, OfChain(C.ReleaseGuard)) && !Enabled(s, RunFinalize);
  }

  lemma EndIsDetached(s: State)
    requires Inv(s) && C.Gone(s.chain)
    ensures !s.loop.worker.gate.attached
  {
    hide L.Inv, C.Inv;
  }

  lemma EventsAtEnd(c: C.State)
    requires C.Inv(c) && !c.abandoned && c.chain.workReleased && c.control == C.NoControl
    ensures C.Count(c.events, C.FinalizeRan) == 1 && C.Count(c.events, C.GuardReleased) == 1 && C.Gone(c)
    ensures |c.events| >= 2 && c.events[|c.events| - 2..] == [C.FinalizeRan, C.GuardReleased]
  {
    C.CountIn(c.events);
  }

  /** finalize_ has run once, the work guard was released once, right after it, and the worker is detached. */
  ghost predicate Ended(s: State) {
    var e := s.chain.events;
    && s.loop.claims == 1 && !s.loop.worker.gate.attached
    && C.Count(e, C.FinalizeRan) == 1 && C.Count(e, C.GuardReleased) == 1
    && |e| >= 2 && e[|e| - 2..] == [C.FinalizeRan, C.GuardReleased]
  }

  /** stop() was called, and every root lease, cleanup and stop callback is done. */
  ghost predicate Drained(l: L.Loop) {
    l.stop != L.NotStopped && l.roots == 0 && l.cleanups == 0 && L.Holding(l.listeners) == {}
  }

  /** A stopped and drained loop ends: once nothing is under way any more, it has, unless the context was destroyed
      under it. */
  lemma StoppedLoopEnds(capacity: nat, steps: seq<Step>)
    requires capacity > 0
    ensures Inv(Initial(capacity))
    ensures var s := Run(Initial(capacity), steps);
            Drained(s.loop) && !s.loop.shutdown && AtRest(s) ==> Ended(s)
  {
    hide Inv, Drained, AtRest, Ended;
    InitialHolds(capacity);
    var s := Run(Initial(capacity), steps);
    if Drained(s.loop) && !s.loop.shutdown && AtRest(s) {
      RestIsTheEnd(s);
    }
  }

  lemma RestIsTheEnd(s: State)
    requires Inv(s) && Drained(s.loop) && !s.loop.shutdown && AtRest(s)
    ensures Ended(s)
  {
    hide AtRest, Inv, L.Inv, C.Inv;
    StopIsThrough(s);
    LoopIsRetired(s);
    ChainIsThrough(s);
    EventsAtEnd(s.chain);
    EndIsDetached(s);
  }
}
