/** The one stop and finalize sequence of a worker (ruvia-core/src/worker_stop_chain.cpp),
    as steps that any threads interleave. A call from outside enters, and takes its critical
    section later; the first request_stop is in the middle of closing the dispatcher until it
    has registered for the end of the shutdown notification batch; the owner thread runs stop
    controls one at a time. */
module WorkerStopChain {
  import opened Wrappers

  /** The progress of the first request_stop, which finalize() may have made. */
  datatype Request = NotRequested | Closing(finalizes: bool) | AwaitingBatch | Delivered

  /** The owner thread's progress through apply_stop. */
  datatype Control =
    | NoControl
    | Starting          // about to look at stop_applied_
    | Admitting         // stop_admission_ (or the immediate finalize) is running
    | Deciding          // about to enter the section that may take the work guard
    | Finalizing        // finalize_ is running; the chain may no longer exist
    | Releasing         // only the local work guard is left

  datatype Event = AdmissionStopped | FinalizeRan | GuardReleased

  datatype Chain = Chain(
    stopRequested: bool, stopControlRan: bool, finalizationRequested: bool, workReleased: bool, stopApplied: bool)

  /** Calls that were entered and have not reached their section: request_stop, finalize before and after its
      request_stop, post_control, and abandon. */
  datatype Calls = Calls(request: nat, finalize: nat, section: nat, post: nat, abandon: nat)

  datatype State = State(
    chain: Chain,
    calls: Calls,
    request: Request,
    queued: nat,            // stop controls on the io_context
    control: Control,
    abandoned: bool,
    events: seq<Event>)

  datatype Step =
    | EnterRequest | EnterFinalize | EnterPost | EnterAbandon
    | RequestSection(finalizes: bool)   // the section of request_stop
    | RegisterForBatch(active: bool)    // close() and when_shutdown_notifications_complete
    | BatchCompletes
    | FinalizeSection                   // the section of finalize
    | PostSection                       // the section of post_control
    | RunControl
    | StopAdmission(hook: bool)         // without the hook the chain finalizes itself
    | AdmissionDone
    | Decide
    | RunFinalize
    | ReleaseGuard
    | AbandonSection

  /** finalize_ has run, and may have destroyed the chain. */
  predicate Gone(s: State) {
    FinalizeRan in s.events
  }

  predicate Enabled(s: State, step: Step) {
    match step
    case EnterRequest => true
    case EnterFinalize => true
    case EnterPost => true
    case EnterAbandon => true
    case RequestSection(finalizes) => if finalizes then s.calls.finalize > 0 else s.calls.request > 0
    case RegisterForBatch(_) => s.request.Closing?
    case BatchCompletes => s.request == AwaitingBatch && !s.abandoned
    case FinalizeSection => s.calls.section > 0
    case PostSection => s.calls.post > 0
    case RunControl => s.queued > 0 && s.control == NoControl
    case StopAdmission(_) => s.control == Starting
    case AdmissionDone => s.control == Admitting
    case Decide => s.control == Deciding
    case RunFinalize => s.control == Finalizing
    case ReleaseGuard => s.control == Releasing
    // the context runs no handler, now or later, and nobody is still closing it
    case AbandonSection => s.calls.abandon > 0 && s.control == NoControl && !s.request.Closing?
  }

  /** The steps that read or write the chain object. */
  predicate Touches(step: Step) {
    !step.EnterRequest? && !step.EnterFinalize? && !step.EnterPost? && !step.EnterAbandon? && step != ReleaseGuard
  }

  /** The sections of calls from outside. */
  predicate OfCaller(step: Step) {
    step.RequestSection? || step == FinalizeSection || step == PostSection || step == AbandonSection
  }

  function Record(s: State, e: Event): State {
    s.(events := s.events + [e])
  }

  function Post(s: State): State {
    s.(queued := s.queued + 1)
  }

  function ApplyFinalize(s: State): State {
    if s.chain.finalizationRequested then s
    else
      var s1 := s.(chain := s.chain.(finalizationRequested := true));
      if s.chain.stopControlRan && !s.chain.workReleased then Post(s1) else s1
  }

  function ApplyDecide(s: State): State {
    var c := s.chain.(stopControlRan := true);
    if !c.finalizationRequested || c.workReleased then s.(chain := c, control := NoControl)
    else s.(chain := c.(workReleased := true), control := Finalizing)
  }

  /** Only the first request goes on to close the dispatcher. */
  function ApplyRequest(s: State, finalizes: bool): State {
    var c := if finalizes then s.calls.(finalize := Less(s.calls.finalize))
             else s.calls.(request := Less(s.calls.request));
    if s.chain.stopRequested then
      s.(calls := if finalizes then c.(section := c.section + 1) else c)
    else s.(chain := s.chain.(stopRequested := true), request := Closing(finalizes), calls := c)
  }

  function ApplyRegister(s: State, active: bool): State {
    var c := if s.request == Closing(true) then s.calls.(section := s.calls.section + 1) else s.calls;
    if active then s.(request := AwaitingBatch, calls := c) else Post(s.(request := Delivered, calls := c))
  }

  function ApplyAbandon(s: State): State {
    var s1 := s.(calls := s.calls.(abandon := Less(s.calls.abandon)),
                 chain := s.chain.(stopRequested := true, workReleased := true));
    if s.chain.workReleased then s1 else Record(s1.(abandoned := true, queued := 0), GuardReleased)
  }

  function Apply(s: State, step: Step): State {
    match step
    case EnterRequest => s.(calls := s.calls.(request := s.calls.request + 1))
    case EnterFinalize => s.(calls := s.calls.(finalize := s.calls.finalize + 1))
    case EnterPost => s.(calls := s.calls.(post := s.calls.post + 1))
    case EnterAbandon => s.(calls := s.calls.(abandon := s.calls.abandon + 1))
    case RequestSection(finalizes) => ApplyRequest(s, finalizes)
    case RegisterForBatch(active) => ApplyRegister(s, active)
    case BatchCompletes => Post(s.(request := Delivered))
    case FinalizeSection => ApplyFinalize(s.(calls := s.calls.(section := Less(s.calls.section))))
    case PostSection => s.(calls := s.calls.(post := Less(s.calls.post)))
    case RunControl => s.(queued := Less(s.queued), control := Starting)
    case StopAdmission(hook) =>
      if s.chain.stopApplied then s.(control := Deciding)
      else
        var s1 := s.(chain := s.chain.(stopApplied := true), control := Admitting);
        if hook then Record(s1, AdmissionStopped) else ApplyFinalize(s1)
    case AdmissionDone => s.(control := Deciding)
    case Decide => ApplyDecide(s)
    case RunFinalize => Record(s.(control := Releasing), FinalizeRan)
    case ReleaseGuard => Record(s.(control := NoControl), GuardReleased)
    case AbandonSection => ApplyAbandon(s)
  }

  /** What still owes the release of the work guard. */
  function Owed(s: State): nat {
    (if s.request.Closing? || s.request == AwaitingBatch then 1 else 0) + s.queued
    + (if s.control == Starting || s.control == Admitting || s.control == Deciding then 1 else 0)
  }

  function Count(events: seq<Event>, e: Event): nat {
    multiset(events)[e]
  }

  ghost predicate ChainOk(s: State) {
    var c := s.chain;
    && (s.request == NotRequested <==> !c.stopRequested)
    && (c.finalizationRequested || c.stopApplied || s.calls.section > 0 ==> c.stopRequested)
    && Owed(s) <= 1
    // before the first control has run it is owed, afterwards only a finalization is
    && (c.stopRequested && !c.stopControlRan ==> Owed(s) == 1)
    && (c.stopControlRan && Owed(s) == 1 ==> c.finalizationRequested && !c.workReleased)
    && (c.finalizationRequested && !c.workReleased ==> Owed(s) == 1)
    && (s.control == Admitting || s.control == Deciding || c.stopControlRan ==> c.stopApplied)
    && (!c.stopRequested ==> Owed(s) == 0 && s.control == NoControl)
    && (s.control == Admitting ==> !c.stopControlRan)
    && (s.control == Finalizing || s.control == Releasing ==> c.workReleased)
    && (c.workReleased ==> c.finalizationRequested && c.stopControlRan)
    && (s.queued > 0 || s.control != NoControl || c.stopControlRan || c.stopApplied ==>
          s.request == Delivered)
  }

  ghost predicate EventsOk(s: State) {
    && Count(s.events, AdmissionStopped) <= (if s.chain.stopApplied then 1 else 0)
    && Count(s.events, FinalizeRan) == (if s.chain.workReleased && s.control != Finalizing then 1 else 0)
    && Count(s.events, GuardReleased) == (if s.chain.workReleased && s.control == NoControl then 1 else 0)
    && (GuardReleased in s.events ==>
          |s.events| >= 2 && s.events[|s.events| - 1] == GuardReleased && s.events[|s.events| - 2] == FinalizeRan)
    && (s.control == Releasing ==> |s.events| >= 1 && s.events[|s.events| - 1] == FinalizeRan)
  }

  ghost predicate AbandonedOk(s: State) {
    && s.control == NoControl && s.queued == 0 && s.chain.workReleased && s.chain.stopRequested && !s.request.Closing?
    && Count(s.events, AdmissionStopped) <= 1 && Count(s.events, FinalizeRan) == 0
    && Count(s.events, GuardReleased) == 1
  }

  ghost predicate Inv(s: State) {
    if s.abandoned then AbandonedOk(s) else ChainOk(s) && EventsOk(s)
  }

  const INITIAL := State(Chain(false, false, false, false, false), Calls(0, 0, 0, 0, 0), NotRequested, 0, NoControl,
      false, [])

  lemma StepKeeps(s: State, step: Step)
    requires Inv(s) && Enabled(s, step)
    ensures Inv(Apply(s, step))
  {
    hide Inv, ChainOk, EventsOk, AbandonedOk;
    if s.abandoned {
      AbandonedStays(s, step);
    } else if step == AbandonSection {
      AbandonKeeps(s);
    } else {
      ChainKept(s, step);
      EventsKept(s, step);
      CombineInv(s, step);
    }
  }

  lemma CombineInv(s: State, step: Step)
    requires Enabled(s, step) && step != AbandonSection && !s.abandoned
    requires ChainOk(Apply(s, step)) && EventsOk(Apply(s, step))
    ensures Inv(Apply(s, step))
  {
    hide ChainOk, EventsOk;
  }

  lemma ChainKept(s: State, step: Step)
    requires Inv(s) && Enabled(s, step) && step != AbandonSection && !s.abandoned
    ensures ChainOk(Apply(s, step))
  {
  }

  lemma EventsKept(s: State, step: Step)
    requires Inv(s) && Enabled(s, step) && step != AbandonSection && !s.abandoned
    ensures EventsOk(Apply(s, step))
  {
    hide EventsOk, ChainOk;
    if step.StopAdmission? || step == RunFinalize || step == ReleaseGuard {
      EventIsRecorded(s, step);
    } else {
      NothingIsRecorded(s, step);
    }
  }

  lemma EventIsRecorded(s: State, step: Step)
    requires Inv(s) && Enabled(s, step) && !s.abandoned
    requires step.StopAdmission? || step == RunFinalize || step == ReleaseGuard
    ensures EventsOk(Apply(s, step))
  {
    match step
    case RunFinalize => assert EventsOk(Apply(s, step));
    case ReleaseGuard => assert EventsOk(Apply(s, step));
    case _ =>
  }

  lemma NothingIsRecorded(s: State, step: Step)
    requires Inv(s) && Enabled(s, step) && step != AbandonSection && !s.abandoned
    requires !step.StopAdmission? && step != RunFinalize && step != ReleaseGuard
    ensures EventsOk(Apply(s, step))
  {
    hide Count;
    assert Apply(s, step).events == s.events && Apply(s, step).chain.stopApplied == s.chain.stopApplied;
  }

  lemma AbandonKeeps(s: State)
    requires Inv(s) && Enabled(s, AbandonSection) && !s.abandoned
    ensures Inv(Apply(s, AbandonSection))
  {
    CountIn(s.events);
  }

  /** An abandoned chain only answers the calls it still gets. */
  lemma AbandonedStays(s: State, step: Step)
    requires Inv(s) && s.abandoned && Enabled(s, step)
    ensures Inv(Apply(s, step)) && Apply(s, step).abandoned && (Touches(step) ==> OfCaller(step))
    ensures Apply(s, step).events == s.events
  {
  }

  lemma CountIn(events: seq<Event>)
    ensures forall e :: e in events <==> Count(events, e) > 0
  {
    forall e ensures e in events <==> Count(events, e) > 0 { assert e in events <==> e in multiset(events); }
  }

  // ----- whole runs

  /** Any interleaving: steps that are not possible when their turn comes do nothing. */
  ghost function Run(s: State, steps: seq<Step>): State
    decreases |steps|
  {
    if steps == [] then s else Run(if Enabled(s, steps[0]) then Apply(s, steps[0]) else s, steps[1..])
  }

  lemma {:induction false} RunKeeps(s: State, steps: seq<Step>)
    requires Inv(s)
    ensures Inv(Run(s, steps))
    decreases |steps|
  {
    hide Inv, Apply, Enabled;
    if steps != [] {
      if Enabled(s, steps[0]) { StepKeeps(s, steps[0]); }
      RunKeeps(if Enabled(s, steps[0]) then Apply(s, steps[0]) else s, steps[1..]);
    }
  }

  /** At most one stop control is queued, and stop_admission_, finalize_ and the release
      of the work guard each happen at most once, the release after finalize_ unless the
      chain was abandoned. */
  lemma EachHappensOnce(steps: seq<Step>)
    ensures var s := Run(INITIAL, steps);
      && s.queued <= 1 && Count(s.events, AdmissionStopped) <= 1
      && Count(s.events, FinalizeRan) <= 1 && Count(s.events, GuardReleased) <= 1
      && (GuardReleased in s.events && !s.abandoned ==>
          |s.events| >= 2 && s.events[|s.events| - 2..] == [FinalizeRan, GuardReleased])
      && (s.abandoned ==> FinalizeRan !in s.events)
  {
    RunKeeps(INITIAL, steps);
    CountIn(Run(INITIAL, steps).events);
  }

  /** The stop control waits for the end of the notification batch: while that is open no control is queued or running,
      and none has run. */
  lemma ControlFollowsBatch(steps: seq<Step>)
    ensures var s := Run(INITIAL, steps);
            !s.abandoned && s.request != Delivered ==>
              s.queued == 0 && s.control == NoControl && !s.chain.stopControlRan && s.events == []
  {
    hide Run;
    RunKeeps(INITIAL, steps);
    var s := Run(INITIAL, steps);
    if !s.abandoned && s.request != Delivered {
      NothingBeforeDelivery(s);
    }
  }

  lemma NothingBeforeDelivery(s: State)
    requires Inv(s) && !s.abandoned && s.request != Delivered
    ensures s.queued == 0 && s.control == NoControl && !s.chain.stopControlRan && s.events == []
  {
    if s.events != [] {
      SomethingCounts(s.events);
    }
  }

  lemma SomethingCounts(events: seq<Event>)
    requires events != []
    ensures Count(events, AdmissionStopped) + Count(events, FinalizeRan) + Count(events, GuardReleased) > 0
  {
    var e := events[0];
    assert e in events;
    CountIn(events);
    match e
    case AdmissionStopped => assert Count(events, AdmissionStopped) > 0;
    case FinalizeRan => assert Count(events, FinalizeRan) > 0;
    case GuardReleased => assert Count(events, GuardReleased) > 0;
  }

  /** A batch that is under way is waited for, and its end queues the control; without one it is queued at once. */
  lemma BatchIsWaitedFor(s: State, active: bool)
    requires Enabled(s, RegisterForBatch(active))
    ensures var t := Apply(s, RegisterForBatch(active));
            if active then t.request == AwaitingBatch && t.queued == s.queued
            else t.request == Delivered && t.queued == s.queued + 1
    ensures Enabled(s, BatchCompletes) ==> Apply(s, BatchCompletes).queued == s.queued + 1
  {
  }

  /** finalize() was called and has not reached its section, or it has. */
  predicate FinalizeAsked(s: State) {
    || s.calls.finalize > 0 || s.calls.section > 0 || s.request == Closing(true)
    || s.chain.finalizationRequested || s.abandoned
  }

  lemma StepKeepsFinalize(s: State, step: Step)
    requires Inv(s) && Enabled(s, step) && (FinalizeAsked(s) || step == EnterFinalize)
    ensures FinalizeAsked(Apply(s, step))
  {
  }

  /** A call of finalize() is not lost: it is still on its way, and can go on, or the finalization is requested, unless
      the chain was abandoned. */
  lemma {:induction false} FinalizeIsNotLost(s: State, steps: seq<Step>)
    requires Inv(s) && (FinalizeAsked(s) || (steps != [] && steps[0] == EnterFinalize))
    ensures var t := Run(s, steps);
            && FinalizeAsked(t)
            && (!t.chain.finalizationRequested && !t.abandoned ==>
                  || Enabled(t, RequestSection(true)) || Enabled(t, FinalizeSection)
                  || Enabled(t, RegisterForBatch(false)))
    decreases |steps|
  {
    hide Apply, Inv;
    if steps != [] {
      if Enabled(s, steps[0]) {
        StepKeeps(s, steps[0]);
        StepKeepsFinalize(s, steps[0]);
      }
      FinalizeIsNotLost(if Enabled(s, steps[0]) then Apply(s, steps[0]) else s, steps[1..]);
    }
  }

  /** What the first control does: it stops admission if the owner has that hook, and finalizes if it has none. */
  ghost predicate FirstControlDid(s: State, hook: bool) {
    && Inv(s)
    && (s.chain.stopApplied && !s.abandoned ==>
          if hook then Count(s.events, AdmissionStopped) == 1 else s.chain.finalizationRequested)
  }

  lemma StepOfFirstControl(s: State, step: Step, hook: bool)
    requires FirstControlDid(s, hook) && Enabled(s, step) && (step.StopAdmission? ==> step.hook == hook)
    ensures FirstControlDid(Apply(s, step), hook)
  {
    StepKeeps(s, step);
    hide Inv, ChainOk, EventsOk;
  }

  lemma {:induction false} FirstControlActs(steps: seq<Step>, s: State, hook: bool)
    requires FirstControlDid(s, hook)
    requires forall k :: 0 <= k < |steps| && steps[k].StopAdmission? ==> steps[k].hook == hook
    ensures FirstControlDid(Run(s, steps), hook)
    decreases |steps|
  {
    hide FirstControlDid, Apply, Enabled;
    if steps != [] {
      if Enabled(s, steps[0]) { StepOfFirstControl(s, steps[0], hook); }
      FirstControlActs(steps[1..], if Enabled(s, steps[0]) then Apply(s, steps[0]) else s, hook);
    }
  }

  predicate InFlight(s: State) {
    s.calls.request > 0 || s.calls.finalize > 0 || s.calls.section > 0 || s.calls.post > 0
    || (s.calls.abandon > 0 && s.control == NoControl)
  }

  /** Once finalize_ has run, which may have destroyed the chain, nothing of the chain's own is left that touches it: no
      queued or running control, no batch callback, no request that is still closing. The chain is touched exactly
      by those calls from outside that had been entered and had not reached their section. */
  lemma OnlyCallersTouchTheChainAfterFinalize(steps: seq<Step>)
    requires Gone(Run(INITIAL, steps))
    ensures var s := Run(INITIAL, steps);
            && s.queued == 0 && (s.control == Releasing || s.control == NoControl) && s.request == Delivered
            && (forall step :: Enabled(s, step) && Touches(step) ==> OfCaller(step))
            && ((exists step :: Enabled(s, step) && Touches(step)) <==> InFlight(s))
  {
    RunKeeps(INITIAL, steps);
    var s := Run(INITIAL, steps);
    CountIn(s.events);
    assert s.calls.request > 0 ==> Enabled(s, RequestSection(false));
    assert s.calls.finalize > 0 ==> Enabled(s, RequestSection(true));
    assert s.calls.section > 0 ==> Enabled(s, FinalizeSection);
    assert s.calls.post > 0 ==> Enabled(s, PostSection);
    assert s.calls.abandon > 0 && s.control == NoControl ==> Enabled(s, AbandonSection);
  }

  lemma {:induction false} RunOneMore(s: State, steps: seq<Step>, step: Step)
    requires Enabled(Run(s, steps), step)
    ensures Run(s, steps + [step]) == Apply(Run(s, steps), step)
    decreases |steps|
  {
    hide Apply, Enabled;
    if steps == [] {
      assert [] + [step] == [step] && [step][1..] == [];
    } else {
      assert (steps + [step])[1..] == steps[1..] + [step];
      RunOneMore(if Enabled(s, steps[0]) then Apply(s, steps[0]) else s, steps[1..], step);
    }
  }

  /** post_control was entered, and finalize() after it; the control that will finalize is queued. */
  const CALLED: State :=
    State(Chain(true, false, true, false, false), Calls(0, 0, 0, 1, 0), Delivered, 1, NoControl, false, [])

  lemma CallsAreMade() returns (steps: seq<Step>)
    ensures Run(INITIAL, steps) == CALLED
  {
    steps := [];
    assert Run(INITIAL, steps) == INITIAL;
    hide Run;
    RunOneMore(INITIAL, steps, EnterPost);
    steps := steps + [EnterPost];
    RunOneMore(INITIAL, steps, EnterFinalize);
    steps := steps + [EnterFinalize];
    RunOneMore(INITIAL, steps, RequestSection(true));
    steps := steps + [RequestSection(true)];
    RunOneMore(INITIAL, steps, RegisterForBatch(false));
    steps := steps + [RegisterForBatch(false)];
    RunOneMore(INITIAL, steps, FinalizeSection);
    steps := steps + [FinalizeSection];
  }

  /** It can come to that: post_control is entered, finalize() stops the chain on a dispatcher whose listeners are
      notified already, and finalize_ runs before post_control takes the mutex of what may be gone. */
  lemma CallerCanTouchTheChainAfterFinalize() returns (steps: seq<Step>)
    ensures Gone(Run(INITIAL, steps)) && Enabled(Run(INITIAL, steps), PostSection) && Touches(PostSection)
  {
    hide Run;
    steps := CallsAreMade();
    RunOneMore(INITIAL, steps, RunControl);
    steps := steps + [RunControl];
    RunOneMore(INITIAL, steps, StopAdmission(true));
    steps := steps + [StopAdmission(true)];
    RunOneMore(INITIAL, steps, AdmissionDone);
    steps := steps + [AdmissionDone];
    RunOneMore(INITIAL, steps, Decide);
    steps := steps + [Decide];
    RunOneMore(INITIAL, steps, RunFinalize);
    steps := steps + [RunFinalize];
  }

  predicate Entering(step: Step) {
    step.EnterRequest? || step.EnterFinalize? || step.EnterPost? || step.EnterAbandon?
  }

  /** The steps of a run that had an effect. */
  ghost predicate Takes(s: State, steps: seq<Step>, k: nat) {
    k < |steps| && Enabled(Run(s, steps[..k]), steps[k])
  }

  /** So the chain is left alone for good after finalize_ if no call is in flight by then and none starts later. */
  lemma ChainIsLeftAlone(steps: seq<Step>, later: seq<Step>, k: nat)
    requires Gone(Run(INITIAL, steps)) && Run(INITIAL, steps).calls == Calls(0, 0, 0, 0, 0)
    requires forall j :: 0 <= j < |later| ==> !Entering(later[j])
    requires Takes(Run(INITIAL, steps), later, k)
    ensures !Touches(later[k])
  {
    var s := Run(INITIAL, steps);
    RunKeeps(INITIAL, steps);
    CountIn(s.events);
    StaysRetired(s, later[..k]);
  }

  ghost predicate Retired(s: State) {
    && s.queued == 0 && (s.control == Releasing || s.control == NoControl) && s.request == Delivered
    && s.calls == Calls(0, 0, 0, 0, 0)
  }

  lemma {:induction false} StaysRetired(s: State, later: seq<Step>)
    requires Retired(s) && forall j :: 0 <= j < |later| ==> !Entering(later[j])
    ensures Retired(Run(s, later))
    decreases |later|
  {
    if later != [] {
      StaysRetired(if Enabled(s, later[0]) then Apply(s, later[0]) else s, later[1..]);
    }
  }

  predicate OwnerStep(step: Step) {
    step == BatchCompletes || step == RunControl || step.StopAdmission? || step == AdmissionDone || step == Decide
    || step.RegisterForBatch?
  }

  /** Once finalize() was called, the release is owed by exactly one of: a request that
      is closing the dispatcher, the unfinished notification batch, a queued control, a
      running one; and whichever it is can go on. */
  lemma ReleaseIsOwed(steps: seq<Step>)
    requires var s := Run(INITIAL, steps);
      s.chain.finalizationRequested && !s.chain.workReleased && !s.abandoned
    ensures Owed(Run(INITIAL, steps)) == 1
    ensures exists step :: OwnerStep(step) && Enabled(Run(INITIAL, steps), step)
  {
    RunKeeps(INITIAL, steps);
    var s := Run(INITIAL, steps);
    var step := if s.request.Closing? then RegisterForBatch(true)
                else if s.request == AwaitingBatch then BatchCompletes
                else if s.queued > 0 then RunControl
                else if s.control == Starting then StopAdmission(true)
                else if s.control == Admitting then AdmissionDone
                else Decide;
    FinalizeNotYet(s);
    assert OwnerStep(step) && Enabled(s, step);
  }

  lemma FinalizeNotYet(s: State)
    requires Inv(s) && !s.abandoned && !s.chain.workReleased
    ensures !Gone(s)
  {
    CountIn(s.events);
  }

  // ----- the chain object: one method per critical section

  class StopChain {
    var stopRequested: bool
    var stopControlRan: bool
    var finalizationRequested: bool
    var workReleased: bool
    var stopApplied: bool
    var queued: nat             // stop controls on the io_context
    ghost var s: State

    ghost predicate Valid()
      reads this
    {
      && Inv(s) && s.chain == Chain(stopRequested, stopControlRan, finalizationRequested, workReleased, stopApplied)
      && s.queued == queued
    }

    constructor ()
      ensures Valid() && s == INITIAL
    {
      stopRequested, stopControlRan, finalizationRequested := false, false, false;
      workReleased, stopApplied := false, false;
      queued := 0;
      s := INITIAL;
    }

    method DeferStopControl()
      modifies this`queued
      ensures queued == old(queued) + 1
    {
      queued := queued + 1;
    }

    /** The section of request_stop; the first caller goes on to close the dispatcher. */
    method RequestStop(finalizes: bool) returns (first: bool)
      requires Valid() && Enabled(s, RequestSection(finalizes))
      modifies this
      ensures Valid() && s == Apply(old(s), RequestSection(finalizes)) && first == !old(stopRequested)
    {
      hide Inv;
      StepKeeps(s, RequestSection(finalizes));
      first := !stopRequested;
      stopRequested := true;
      s := Apply(s, RequestSection(finalizes));
    }

    /** After close(): the callback is queued with the batch, or called here. */
    method Register(active: bool)
      requires Valid() && Enabled(s, RegisterForBatch(active))
      modifies this
      ensures Valid() && s == Apply(old(s), RegisterForBatch(active)) && (!active ==> queued == 1)
    {
      StepKeeps(s, RegisterForBatch(active));
      if !active {
        DeferStopControl();
      }
      s := Apply(s, RegisterForBatch(active));
    }

    /** The callback of when_shutdown_notifications_complete, or its immediate call. */
    method NotificationsComplete()
      requires Valid() && Enabled(s, BatchCompletes)
      modifies this
      ensures Valid() && s == Apply(old(s), BatchCompletes) && queued == 1
    {
      StepKeeps(s, BatchCompletes);
      DeferStopControl();
      s := Apply(s, BatchCompletes);
    }

    /** The section of finalize, after its request_stop. */
    method Finalize()
      requires Valid() && Enabled(s, FinalizeSection)
      modifies this
      ensures Valid() && s == Apply(old(s), FinalizeSection) && finalizationRequested
    {
      hide Inv;
      StepKeeps(s, FinalizeSection);
      if !finalizationRequested {
        finalizationRequested := true;
        if stopControlRan && !workReleased {
          DeferStopControl();
        }
      }
      s := Apply(s, FinalizeSection);
    }

    /** The first part of apply_stop on the owner thread. */
    method BeginControl() returns (admit: bool)
      requires Valid() && Enabled(s, RunControl)
      modifies this
      ensures Valid() && s == Apply(old(s), RunControl) && admit == !stopApplied && queued == old(queued) - 1
    {
      hide Inv;
      StepKeeps(s, RunControl);
      queued := queued - 1;
      admit := !stopApplied;
      s := Apply(s, RunControl);
    }

    /** The section of apply_stop: the one control that finds a finalization requested
        takes the work guard. */
    method Decide() returns (finalize: bool)
      requires Valid() && Enabled(s, Step.Decide)
      modifies this
      ensures Valid() && s == Apply(old(s), Step.Decide)
      ensures finalize == (finalizationRequested && !old(workReleased)) && (finalize ==> workReleased)
    {
      hide Inv;
      StepKeeps(s, Step.Decide);
      stopControlRan := true;
      finalize := finalizationRequested && !workReleased;
      if finalize {
        workReleased := true;
      }
      s := Apply(s, Step.Decide);
    }

    /** The section of post_control: refused once the work guard is taken. */
    method PostControl() returns (accepted: bool)
      requires Valid() && Enabled(s, PostSection)
      modifies this`s
      ensures Valid() && s == Apply(old(s), PostSection) && accepted == !workReleased
      ensures accepted ==> FinalizeRan !in s.events && GuardReleased !in s.events
    {
      StepKeeps(s, PostSection);
      accepted := !workReleased;
      CountIn(s.events);
      s := Apply(s, PostSection);
    }

    /** The section of abandon. */
    method Abandon() returns (released: bool)
      requires Valid() && Enabled(s, AbandonSection)
      modifies this
      ensures Valid() && s == Apply(old(s), AbandonSection) && workReleased && released == !old(workReleased)
    {
      hide Inv;
      StepKeeps(s, AbandonSection);
      released := !workReleased;
      stopRequested, workReleased := true, true;
      if released {
        queued := 0;            // the context runs no further handler
      }
      s := Apply(s, AbandonSection);
    }
  }
}
